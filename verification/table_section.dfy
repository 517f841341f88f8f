/** `enum TableSection: Int` of EnumTableViewTutorial/ViewController.swift.
    The cases are numbered from 0 in declaration order; the last case,
    `total`, is a sentinel whose raw value is the number of real sections. */
module Sections {
  import opened Wrappers

  datatype TableSection = Action | Comedy | Drama | Indie | Total

  /** Every case, in declaration order. */
  const AllCases: seq<TableSection> := [Action, Comedy, Drama, Indie, Total]

  /** The cases that stand for a list section: every case before the sentinel. */
  const RealSections: seq<TableSection> := [Action, Comedy, Drama, Indie]

  /** `rawValue`: the case's position in declaration order. */
  function RawValue(s: TableSection): (r: nat)
    ensures r < |AllCases| && AllCases[r] == s
  {
    match s
    case Action => 0
    case Comedy => 1
    case Drama => 2
    case Indie => 3
    case Total => 4
  }

  /** `TableSection(rawValue:)`: the case at a position, if there is one. */
  function OfRaw(raw: int): (o: Option<TableSection>)
    ensures o.Some? <==> 0 <= raw < |AllCases|
    ensures o.Some? ==> o.value == AllCases[raw] && RawValue(o.value) == raw
  {
    if raw == 0 then Some(Action)
    else if raw == 1 then Some(Comedy)
    else if raw == 2 then Some(Drama)
    else if raw == 3 then Some(Indie)
    else if raw == 4 then Some(Total)
    else None
  }

  /** Converting a case to its raw value and back gives the case. */
  lemma OfRawOfRawValue(s: TableSection)
    ensures OfRaw(RawValue(s)) == Some(s)
  {
  }

  /** Whenever the partial conversion succeeds, the raw value comes back. */
  lemma RawValueOfOfRaw(raw: int)
    ensures OfRaw(raw).Some? ==> RawValue(OfRaw(raw).value) == raw
    ensures OfRaw(raw).None? ==> forall s :: RawValue(s) != raw
  {
  }

  /** The sentinel is last, and its raw value counts the cases before it. */
  lemma SentinelIsLast()
    ensures RawValue(Total) == |AllCases| - 1 == |RealSections|
    ensures AllCases[..RawValue(Total)] == RealSections
    ensures forall s :: s in RealSections <==> s != Total
  {
  }
}
