/** The data-source side of `ViewController` in
    EnumTableViewTutorial/ViewController.swift: `sortData`, which buckets the
    records by genre into a dictionary keyed by `TableSection`, and the
    queries the table view asks of that dictionary. A section index arrives
    as a plain `Int` and is converted with `TableSection(rawValue:)`. */
module ViewController {
  import opened Wrappers
  import opened Movies
  import opened GenreFilter
  import opened Sections

  /** The `data` property: the sorted records of each section. */
  type SectionData = map<TableSection, seq<Movie>>

  /** `SectionHeaderHeight`, in points (a `CGFloat` in the source). */
  const SectionHeaderHeight: int := 25

  /** The genre text `sortData` selects a real section's records by. */
  function GenreLabel(s: TableSection): (g: string)
    requires s != Total
    ensures |g| > 0
    ensures SectionOfGenre(g) == Some(s)
  {
    match s
    case Action => "action"
    case Comedy => "comedy"
    case Drama => "drama"
    case Indie => "indie"
  }

  /** The real section whose label is `genre`, if any: the inverse of
      `GenreLabel`, so distinct real sections carry distinct labels. */
  function SectionOfGenre(genre: string): (o: Option<TableSection>)
    ensures o.Some? ==> o.value != Total
  {
    if genre == "action" then Some(Action)
    else if genre == "comedy" then Some(Comedy)
    else if genre == "drama" then Some(Drama)
    else if genre == "indie" then Some(Indie)
    else None
  }

  /** Some real section collects records of this genre. */
  predicate HasSection(genre: string)
  {
    exists s | s in RealSections :: GenreLabel(s) == genre
  }

  /** `sortData()`: assigns to each real section the records of its genre,
      in their original order; the entry of the sentinel, if any, is left
      as it was. */
  function SortData(data: SectionData, movies: seq<Movie>): (r: SectionData)
    ensures r.Keys == data.Keys + {Action, Comedy, Drama, Indie}
    ensures Total in data ==> r[Total] == data[Total]
    ensures forall s :: s != Total ==> s in r && IsSubsequence(r[s], movies)
    ensures forall s, k :: s != Total && s in r && 0 <= k < |r[s]| ==> r[s][k].genre == GenreLabel(s)
  {
    var r := data[Action := SelectGenre(movies, GenreLabel(Action))]
                 [Comedy := SelectGenre(movies, GenreLabel(Comedy))]
                 [Drama := SelectGenre(movies, GenreLabel(Drama))]
                 [Indie := SelectGenre(movies, GenreLabel(Indie))];
    forall s | s != Total
      ensures s in r && IsSubsequence(r[s], movies)
    {
      SelectGenreIsSubsequence(movies, GenreLabel(s));
    }
    r
  }

  /** Each real section of the sorted dictionary is the stable selection
      of its genre: every record of that genre, in order, and nothing else;
      that selection is unique, so it is the filter's result. */
  lemma SortDataIsStablePartition(data: SectionData, movies: seq<Movie>, s: TableSection)
    requires s != Total
    ensures StableSelection(SortData(data, movies)[s], movies, GenreLabel(s))
    ensures SortData(data, movies)[s] == SelectGenre(movies, GenreLabel(s))
  {
    SelectGenreIsStableSelection(movies, GenreLabel(s));
  }

  /** `viewDidLoad`: `data` starts empty and is sorted once. */
  function LoadedData(movies: seq<Movie>): (r: SectionData)
    ensures Total !in r
    ensures forall s :: s != Total ==> s in r && r[s] == SelectGenre(movies, GenreLabel(s))
  {
    var r := SortData(map[], movies);
    forall s | s != Total
      ensures r[s] == SelectGenre(movies, GenreLabel(s))
    {
      SortDataIsStablePartition(map[], movies, s);
    }
    r
  }

  /** Sorting twice in a row gives the same dictionary as sorting once. */
  lemma SortDataIdempotent(data: SectionData, movies: seq<Movie>)
    ensures SortData(SortData(data, movies), movies) == SortData(data, movies)
  {
  }

  /** A record whose genre has no section ends up in no section. */
  lemma UnsectionedRecordDropped(data: SectionData, movies: seq<Movie>, m: Movie)
    requires !HasSection(m.genre)
    ensures forall s :: s != Total ==> m !in SortData(data, movies)[s]
  {
  }

  /** `TableSection(rawValue: section)` followed by `data[tableSection]`. */
  function Lookup(data: SectionData, section: int): (r: Option<seq<Movie>>)
    ensures r.Some? <==> exists s :: RawValue(s) == section && s in data
    ensures forall s :: RawValue(s) == section && s in data ==> r == Some(data[s])
  {
    match OfRaw(section)
    case None => None
    case Some(s) => if s in data then Some(data[s]) else None
  }

  /** `numberOfSections(in:)`: the sentinel's raw value. */
  function NumberOfSections(): (n: int)
    ensures n == |RealSections|
    ensures forall s :: RawValue(s) < n <==> s != Total
  {
    RawValue(Total)
  }

  /** `tableView(_:numberOfRowsInSection:)`: the length of the section's
      list, or 0 when the index names no case or the case has no entry. */
  function NumberOfRows(data: SectionData, section: int): (n: nat)
    ensures forall s :: RawValue(s) == section && s in data ==> n == |data[s]|
    ensures (forall s :: RawValue(s) == section ==> s !in data) ==> n == 0
  {
    match Lookup(data, section)
    case Some(movies) => |movies|
    case None => 0
  }

  /** `tableView(_:heightForHeaderInSection:)`: a header only above a
      section that has rows. */
  function HeaderHeight(data: SectionData, section: int): (h: int)
    ensures h == SectionHeaderHeight <==> NumberOfRows(data, section) > 0
    ensures h == SectionHeaderHeight || h == 0
  {
    match Lookup(data, section)
    case Some(movies) => if |movies| > 0 then SectionHeaderHeight else 0
    case None => 0
  }

  /** The `switch` of `tableView(_:viewForHeaderInSection:)`. */
  function Title(s: TableSection): (t: string)
    ensures t == "" <==> s == Total
  {
    match s
    case Action => "Action"
    case Comedy => "Comedy"
    case Drama => "Drama"
    case Indie => "Indie"
    case Total => ""
  }

  /** The header label text; `None` when the index names no case, since
      the source then never assigns the label. */
  function HeaderTitle(section: int): (t: Option<string>)
    ensures t.None? <==> forall s :: RawValue(s) != section
    ensures forall s :: RawValue(s) == section ==> t == Some(Title(s))
  {
    match OfRaw(section)
    case Some(s) => Some(Title(s))
    case None => None
  }

  function UpperCase(c: char): (u: char)
  {
    if 'a' <= c <= 'z' then (c as int - 32) as char else c
  }

  /** Each real section's title is its genre label with a capital initial,
      and no two sections share a title. */
  lemma TitleCapitalizesGenreLabel(s: TableSection)
    requires s != Total
    ensures |GenreLabel(s)| > 0
    ensures Title(s) == [UpperCase(GenreLabel(s)[0])] + GenreLabel(s)[1..]
    ensures forall t :: Title(t) == Title(s) ==> t == s
  {
  }

  /** `data[tableSection]?[indexPath.row]` of `tableView(_:cellForRowAt:)`:
      `None` when the section has no entry; an out-of-range row traps. */
  function RowMovie(data: SectionData, section: int, row: int): (m: Option<Movie>)
    requires forall s :: RawValue(s) == section && s in data ==> 0 <= row < |data[s]|
    ensures m.None? <==> forall s :: RawValue(s) == section ==> s !in data
    ensures forall s :: RawValue(s) == section && s in data ==> m == Some(data[s][row])
  {
    match Lookup(data, section)
    case Some(movies) => Some(movies[row])
    case None => None
  }

  /** Asking for rows 0 to `NumberOfRows - 1` of a real section, in order,
      yields exactly that genre's records in their original order. */
  lemma RowsReproduceSelection(data: SectionData, movies: seq<Movie>, s: TableSection)
    requires s != Total
    ensures var sorted := SortData(data, movies);
            var rows := SelectGenre(movies, GenreLabel(s));
            && NumberOfRows(sorted, RawValue(s)) == |rows|
            && forall k :: 0 <= k < |rows| ==> RowMovie(sorted, RawValue(s), k) == Some(rows[k])
  {
  }

  /** A real section's row count is the number of records of its genre. */
  lemma RowCountIsGenreCount(data: SectionData, movies: seq<Movie>, s: TableSection)
    requires s != Total
    ensures NumberOfRows(SortData(data, movies), RawValue(s)) == |MatchingPositions(movies, GenreLabel(s))|
  {
    SortDataIsStablePartition(data, movies, s);
    SelectGenreLength(movies, GenreLabel(s));
  }

  /** The records whose genre has no section, in order. */
  function Unsectioned(movies: seq<Movie>): (r: seq<Movie>)
    ensures forall k :: 0 <= k < |r| ==> !HasSection(r[k].genre)
  {
    if |movies| == 0 then []
    else if HasSection(movies[0].genre) then Unsectioned(movies[1..])
    else [movies[0]] + Unsectioned(movies[1..])
  }

  /** No unsectioned records exactly when every genre has a section. */
  lemma {:induction false} UnsectionedEmpty(movies: seq<Movie>)
    ensures Unsectioned(movies) == [] <==> forall k :: 0 <= k < |movies| ==> HasSection(movies[k].genre)
  {
    if |movies| > 0 {
      UnsectionedEmpty(movies[1..]);
      if HasSection(movies[0].genre) {
        forall k | 0 < k < |movies|
          ensures HasSection(movies[k].genre) <==> HasSection(movies[1..][k - 1].genre)
        {
        }
      }
    }
  }

  /** Sum of the row counts of sections 0 to n - 1. */
  function TotalRows(data: SectionData, n: nat): (total: nat)
  {
    if n == 0 then 0 else TotalRows(data, n - 1) + NumberOfRows(data, n - 1)
  }

  /** Every record falls in exactly one genre bucket or in none. */
  lemma {:induction false} GenreBucketsPartition(movies: seq<Movie>)
    ensures multiset(SelectGenre(movies, GenreLabel(Action))) + multiset(SelectGenre(movies, GenreLabel(Comedy)))
          + multiset(SelectGenre(movies, GenreLabel(Drama))) + multiset(SelectGenre(movies, GenreLabel(Indie)))
          + multiset(Unsectioned(movies)) == multiset(movies)
    ensures |SelectGenre(movies, GenreLabel(Action))| + |SelectGenre(movies, GenreLabel(Comedy))|
          + |SelectGenre(movies, GenreLabel(Drama))| + |SelectGenre(movies, GenreLabel(Indie))|
          + |Unsectioned(movies)| == |movies|
  {
    GenreBucketsContent(movies);
    var a, c := SelectGenre(movies, GenreLabel(Action)), SelectGenre(movies, GenreLabel(Comedy));
    var d, i := SelectGenre(movies, GenreLabel(Drama)), SelectGenre(movies, GenreLabel(Indie));
    var u := Unsectioned(movies);
    assert |multiset(a) + multiset(c) + multiset(d) + multiset(i) + multiset(u)|
        == |multiset(a)| + |multiset(c)| + |multiset(d)| + |multiset(i)| + |multiset(u)|;
  }

  /** The records held by the four genre buckets and the unmatched list. */
  ghost function BucketContents(movies: seq<Movie>): (bag: multiset<Movie>)
  {
    multiset(SelectGenre(movies, GenreLabel(Action))) + multiset(SelectGenre(movies, GenreLabel(Comedy)))
    + multiset(SelectGenre(movies, GenreLabel(Drama))) + multiset(SelectGenre(movies, GenreLabel(Indie)))
    + multiset(Unsectioned(movies))
  }

  /** Each record whose genre has no section occurs in the unmatched list
      as often as in the table; no other record occurs there. */
  lemma {:induction false} UnsectionedContent(movies: seq<Movie>)
    ensures forall x :: multiset(Unsectioned(movies))[x]
                        == (if HasSection(x.genre) then 0 else multiset(movies)[x])
  {
    if |movies| > 0 {
      UnsectionedContent(movies[1..]);
      assert movies == [movies[0]] + movies[1..];
      assert multiset(movies) == multiset{movies[0]} + multiset(movies[1..]);
      if !HasSection(movies[0].genre) {
        assert multiset(Unsectioned(movies)) == multiset{movies[0]} + multiset(Unsectioned(movies[1..]));
      }
    }
  }

  /** The multiset half of `GenreBucketsPartition`: each record lands in
      the one bucket its genre selects. */
  lemma GenreBucketsContent(movies: seq<Movie>)
    ensures BucketContents(movies) == multiset(movies)
  {
    SelectGenreContent(movies, GenreLabel(Action));
    SelectGenreContent(movies, GenreLabel(Comedy));
    SelectGenreContent(movies, GenreLabel(Drama));
    SelectGenreContent(movies, GenreLabel(Indie));
    UnsectionedContent(movies);
    forall x
      ensures BucketContents(movies)[x] == multiset(movies)[x]
    {
      HasSectionIffSectionOfGenre(x.genre);
    }
  }

  /** The two descriptions of "this genre has a real section" agree. */
  lemma HasSectionIffSectionOfGenre(genre: string)
    ensures HasSection(genre) <==> SectionOfGenre(genre).Some?
  {
    if SectionOfGenre(genre).Some? {
      var s := SectionOfGenre(genre).value;
      assert s in RealSections && GenreLabel(s) == genre;
    }
  }

  /** The rows of all sections together are the records with a section;
      so they never outnumber the records, and equal them exactly when
      every record's genre has a section. */
  lemma SectionRowsPartitionRecords(data: SectionData, movies: seq<Movie>)
    ensures TotalRows(SortData(data, movies), NumberOfSections()) + |Unsectioned(movies)| == |movies|
    ensures TotalRows(SortData(data, movies), NumberOfSections()) <= |movies|
    ensures TotalRows(SortData(data, movies), NumberOfSections()) == |movies|
        <==> forall k :: 0 <= k < |movies| ==> HasSection(movies[k].genre)
  {
    var sorted := SortData(data, movies);
    forall s | s != Total
      ensures sorted[s] == SelectGenre(movies, GenreLabel(s))
    {
      SortDataIsStablePartition(data, movies, s);
    }
    assert RawValue(Action) == 0 && RawValue(Comedy) == 1 && RawValue(Drama) == 2 && RawValue(Indie) == 3;
    assert TotalRows(sorted, 1) == NumberOfRows(sorted, 0);
    assert TotalRows(sorted, 2) == TotalRows(sorted, 1) + NumberOfRows(sorted, 1);
    assert TotalRows(sorted, 3) == TotalRows(sorted, 2) + NumberOfRows(sorted, 2);
    assert TotalRows(sorted, 4) == TotalRows(sorted, 3) + NumberOfRows(sorted, 3);
    assert TotalRows(sorted, 4) == |sorted[Action]| + |sorted[Comedy]| + |sorted[Drama]| + |sorted[Indie]|;
    GenreBucketsPartition(movies);
    UnsectionedEmpty(movies);
  }
}
