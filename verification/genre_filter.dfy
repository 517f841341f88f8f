/** Swift's `Array.filter` as `sortData` uses it: keep the records whose
    genre equals a label, in their original order. The module pairs the
    recursive definition with an independent description of a stable
    selection (an in-order subsequence with exactly the matching content)
    and proves that the two coincide. */
module GenreFilter {
  import opened Movies

  /** Swift's `filter` over `xs` with a closure testing the genre for
      equality, compared code point by code point. */
  function SelectGenre(xs: seq<Movie>, genre: string): (r: seq<Movie>)
    ensures |r| <= |xs|
    ensures forall k :: 0 <= k < |r| ==> r[k].genre == genre
  {
    if |xs| == 0 then []
    else if xs[0].genre == genre then [xs[0]] + SelectGenre(xs[1..], genre)
    else SelectGenre(xs[1..], genre)
  }

  /** `r` can be obtained from `xs` by deleting elements, keeping order. */
  ghost predicate IsSubsequence(r: seq<Movie>, xs: seq<Movie>)
    decreases |xs|
  {
    if |r| == 0 then true
    else if |xs| == 0 then false
    else (r[0] == xs[0] && IsSubsequence(r[1..], xs[1..])) || IsSubsequence(r, xs[1..])
  }

  /** Every record of genre `genre` occurs in `r` exactly as often as in
      `xs`, and no record of another genre occurs in `r`. */
  ghost predicate SameGenreContent(r: seq<Movie>, xs: seq<Movie>, genre: string)
  {
    forall m :: multiset(r)[m] == (if m.genre == genre then multiset(xs)[m] else 0)
  }

  /** A stable selection: the matching records of `xs`, all of them, in
      their original relative order. */
  ghost predicate StableSelection(r: seq<Movie>, xs: seq<Movie>, genre: string)
  {
    IsSubsequence(r, xs) && SameGenreContent(r, xs, genre)
  }

  lemma {:induction false} SelectGenreIsSubsequence(xs: seq<Movie>, genre: string)
    ensures IsSubsequence(SelectGenre(xs, genre), xs)
  {
    if |xs| > 0 {
      SelectGenreIsSubsequence(xs[1..], genre);
      var r := SelectGenre(xs, genre);
      if xs[0].genre == genre {
        assert r[0] == xs[0] && r[1..] == SelectGenre(xs[1..], genre);
      }
    }
  }

  lemma {:induction false} SelectGenreContent(xs: seq<Movie>, genre: string)
    ensures SameGenreContent(SelectGenre(xs, genre), xs, genre)
  {
    if |xs| > 0 {
      SelectGenreContent(xs[1..], genre);
      assert xs == [xs[0]] + xs[1..];
      assert multiset(xs) == multiset{xs[0]} + multiset(xs[1..]);
      if xs[0].genre == genre {
        assert multiset(SelectGenre(xs, genre))
            == multiset{xs[0]} + multiset(SelectGenre(xs[1..], genre));
      }
    }
  }

  /** The filter is a stable selection. */
  lemma SelectGenreIsStableSelection(xs: seq<Movie>, genre: string)
    ensures StableSelection(SelectGenre(xs, genre), xs, genre)
  {
    SelectGenreIsSubsequence(xs, genre);
    SelectGenreContent(xs, genre);
  }

  /** No in-order subsequence made of `genre` records is longer than the filter. */
  lemma {:induction false} SubsequenceLengthBound(r: seq<Movie>, xs: seq<Movie>, genre: string)
    requires IsSubsequence(r, xs)
    requires forall k :: 0 <= k < |r| ==> r[k].genre == genre
    ensures |r| <= |SelectGenre(xs, genre)|
    decreases |xs|
  {
    if |r| > 0 {
      if r[0] == xs[0] && IsSubsequence(r[1..], xs[1..]) {
        SubsequenceLengthBound(r[1..], xs[1..], genre);
      } else {
        SubsequenceLengthBound(r, xs[1..], genre);
      }
    }
  }

  /** An in-order subsequence of `genre` records as long as the filter is the filter. */
  lemma {:induction false} LongestSelectionIsSelectGenre(r: seq<Movie>, xs: seq<Movie>, genre: string)
    requires IsSubsequence(r, xs)
    requires forall k :: 0 <= k < |r| ==> r[k].genre == genre
    requires |r| == |SelectGenre(xs, genre)|
    ensures r == SelectGenre(xs, genre)
    decreases |xs|
  {
    if |r| > 0 {
      if xs[0].genre == genre {
        if r[0] == xs[0] && IsSubsequence(r[1..], xs[1..]) {
          LongestSelectionIsSelectGenre(r[1..], xs[1..], genre);
        } else {
          SubsequenceLengthBound(r, xs[1..], genre);
          assert false;
        }
      } else {
        assert r[0].genre != xs[0].genre;
        LongestSelectionIsSelectGenre(r, xs[1..], genre);
      }
    }
  }

  /** The stable selection is unique, so it is exactly the filter. */
  lemma StableSelectionIsSelectGenre(r: seq<Movie>, xs: seq<Movie>, genre: string)
    requires StableSelection(r, xs, genre)
    ensures r == SelectGenre(xs, genre)
  {
    var f := SelectGenre(xs, genre);
    SelectGenreContent(xs, genre);
    assert multiset(r) == multiset(f);
    assert |r| == |multiset(r)| == |multiset(f)| == |f|;
    forall k | 0 <= k < |r|
      ensures r[k].genre == genre
    {
      assert r[k] in multiset(r);
    }
    LongestSelectionIsSelectGenre(r, xs, genre);
  }

  /** Filtering distributes over concatenation. */
  lemma {:induction false} SelectGenreAppend(a: seq<Movie>, b: seq<Movie>, genre: string)
    ensures SelectGenre(a + b, genre) == SelectGenre(a, genre) + SelectGenre(b, genre)
  {
    if |a| > 0 {
      assert (a + b)[1..] == a[1..] + b;
      SelectGenreAppend(a[1..], b, genre);
    } else {
      assert a + b == b;
    }
  }

  /** A list of `genre` records passes through the filter unchanged. */
  lemma {:induction false} SelectGenreKeepsAll(xs: seq<Movie>, genre: string)
    requires forall k :: 0 <= k < |xs| ==> xs[k].genre == genre
    ensures SelectGenre(xs, genre) == xs
  {
    if |xs| > 0 {
      SelectGenreKeepsAll(xs[1..], genre);
    }
  }

  /** A list without `genre` records filters to nothing. */
  lemma {:induction false} SelectGenreDropsAll(xs: seq<Movie>, genre: string)
    requires forall k :: 0 <= k < |xs| ==> xs[k].genre != genre
    ensures SelectGenre(xs, genre) == []
  {
    if |xs| > 0 {
      SelectGenreDropsAll(xs[1..], genre);
    }
  }

  /** The positions in `xs` of the records of genre `genre`. */
  ghost function MatchingPositions(xs: seq<Movie>, genre: string): (positions: set<int>)
  {
    set i | 0 <= i < |xs| && xs[i].genre == genre
  }

  /** The filter keeps one record per matching position: its length is the
      number of records of that genre. */
  lemma {:induction false} SelectGenreLength(xs: seq<Movie>, genre: string)
    ensures |SelectGenre(xs, genre)| == |MatchingPositions(xs, genre)|
    decreases |xs|
  {
    if |xs| == 0 {
      assert MatchingPositions(xs, genre) == {};
    } else {
      var n := |xs| - 1;
      SelectGenreLength(xs[..n], genre);
      SelectGenreSnoc(xs, genre);
      MatchingPositionsSnoc(xs, genre);
    }
  }

  /** Filtering a table is filtering all but its last record, then the last. */
  lemma SelectGenreSnoc(xs: seq<Movie>, genre: string)
    requires |xs| > 0
    ensures SelectGenre(xs, genre)
         == SelectGenre(xs[..|xs| - 1], genre) + (if xs[|xs| - 1].genre == genre then [xs[|xs| - 1]] else [])
  {
    var n := |xs| - 1;
    assert xs == xs[..n] + xs[n..];
    SelectGenreAppend(xs[..n], xs[n..], genre);
  }

  /** The last position joins the matching positions exactly when its record matches. */
  lemma MatchingPositionsSnoc(xs: seq<Movie>, genre: string)
    requires |xs| > 0
    ensures |MatchingPositions(xs, genre)|
         == |MatchingPositions(xs[..|xs| - 1], genre)| + (if xs[|xs| - 1].genre == genre then 1 else 0)
  {
    var n := |xs| - 1;
    var init := xs[..n];
    var before := MatchingPositions(init, genre);
    var added: set<int> := if xs[n].genre == genre then {n} else {};
    forall i
      ensures i in MatchingPositions(xs, genre) <==> i in before + added
    {
      if 0 <= i < n {
        assert init[i] == xs[i];
      }
    }
    assert MatchingPositions(xs, genre) == before + added;
    assert before !! added;
  }
}
