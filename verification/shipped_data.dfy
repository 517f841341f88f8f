/** What the screen shows for the literal `MovieData` table once
    `viewDidLoad` has sorted it. */
module ShippedData {
  import opened Wrappers
  import opened Movies
  import opened GenreFilter
  import opened Sections
  import opened ViewController

  /** `data` after `viewDidLoad`. */
  const Loaded: SectionData := LoadedData(MovieData)

  /** A fifteen-record table laid out like `MovieData`: five action, then
      five comedy, then five drama records. */
  ghost predicate ShippedLayout(xs: seq<Movie>)
  {
    && |xs| == 15
    && (forall k :: 0 <= k < 5 ==> xs[k].genre == "action")
    && (forall k :: 5 <= k < 10 ==> xs[k].genre == "comedy")
    && (forall k :: 10 <= k < 15 ==> xs[k].genre == "drama")
  }

  /** The literal table has that layout. */
  lemma ShippedTableLayout()
    ensures ShippedLayout(MovieData)
  {
  }

  /** Filtering three concatenated blocks filters each block. */
  lemma SelectThreeBlocks(a: seq<Movie>, c: seq<Movie>, d: seq<Movie>, genre: string)
    ensures SelectGenre(a + c + d, genre) == SelectGenre(a, genre) + SelectGenre(c, genre) + SelectGenre(d, genre)
  {
    assert a + c + d == a + (c + d);
    SelectGenreAppend(a, c + d, genre);
    SelectGenreAppend(c, d, genre);
  }

  /** Sorting a table with that layout: the three blocks, in order, and an
      empty indie list. */
  lemma LayoutBuckets(xs: seq<Movie>)
    requires ShippedLayout(xs)
    ensures SelectGenre(xs, "action") == xs[..5]
    ensures SelectGenre(xs, "comedy") == xs[5..10]
    ensures SelectGenre(xs, "drama") == xs[10..]
    ensures SelectGenre(xs, "indie") == []
  {
    var a, c, d := xs[..5], xs[5..10], xs[10..];
    assert xs == a + c + d;
    SelectThreeBlocks(a, c, d, "action");
    SelectThreeBlocks(a, c, d, "comedy");
    SelectThreeBlocks(a, c, d, "drama");
    SelectThreeBlocks(a, c, d, "indie");
    SelectGenreKeepsAll(a, "action");
    SelectGenreDropsAll(c, "action");
    SelectGenreDropsAll(d, "action");
    SelectGenreDropsAll(a, "comedy");
    SelectGenreKeepsAll(c, "comedy");
    SelectGenreDropsAll(d, "comedy");
    SelectGenreDropsAll(a, "drama");
    SelectGenreDropsAll(c, "drama");
    SelectGenreKeepsAll(d, "drama");
    SelectGenreDropsAll(a, "indie");
    SelectGenreDropsAll(c, "indie");
    SelectGenreDropsAll(d, "indie");
  }

  /** The data-source answers for any table with that layout. */
  lemma LayoutQueries(xs: seq<Movie>)
    requires ShippedLayout(xs)
    ensures NumberOfSections() == 4
    ensures NumberOfRows(LoadedData(xs), 0) == 5
    ensures NumberOfRows(LoadedData(xs), 1) == 5
    ensures NumberOfRows(LoadedData(xs), 2) == 5
    ensures NumberOfRows(LoadedData(xs), 3) == 0
    ensures NumberOfRows(LoadedData(xs), 4) == 0
    ensures NumberOfRows(LoadedData(xs), -1) == 0 && NumberOfRows(LoadedData(xs), 5) == 0
    ensures HeaderHeight(LoadedData(xs), 0) == 25
    ensures HeaderHeight(LoadedData(xs), 1) == 25
    ensures HeaderHeight(LoadedData(xs), 2) == 25
    ensures HeaderHeight(LoadedData(xs), 3) == 0
    ensures HeaderHeight(LoadedData(xs), 4) == 0
    ensures RowMovie(LoadedData(xs), 2, 0) == Some(xs[10])
    ensures TotalRows(LoadedData(xs), NumberOfSections()) == 15
  {
    var data := LoadedData(xs);
    LayoutBuckets(xs);
    assert RawValue(Action) == 0 && RawValue(Comedy) == 1 && RawValue(Drama) == 2;
    assert RawValue(Indie) == 3 && RawValue(Total) == 4;
    assert TotalRows(data, 1) == 5;
    assert TotalRows(data, 2) == 10;
    assert TotalRows(data, 3) == 15;
    assert TotalRows(data, 4) == 15;
  }

  /** The shipped screen has four sections holding 5, 5, 5 and 0 rows, no
      rows for the sentinel or an index naming no section, and shows every
      one of the 15 records. */
  lemma ShippedRowCounts()
    ensures NumberOfSections() == 4
    ensures NumberOfRows(Loaded, 0) == 5 && NumberOfRows(Loaded, 1) == 5
    ensures NumberOfRows(Loaded, 2) == 5 && NumberOfRows(Loaded, 3) == 0
    ensures NumberOfRows(Loaded, 4) == 0 && NumberOfRows(Loaded, -1) == 0 && NumberOfRows(Loaded, 5) == 0
    ensures TotalRows(Loaded, NumberOfSections()) == |MovieData|
  {
    ShippedTableLayout();
    LayoutQueries(MovieData);
  }

  /** Headers of height 25 above the three filled sections; the empty
      indie section and the sentinel get height 0. */
  lemma ShippedHeaderHeights()
    ensures HeaderHeight(Loaded, 0) == 25 && HeaderHeight(Loaded, 1) == 25 && HeaderHeight(Loaded, 2) == 25
    ensures HeaderHeight(Loaded, 3) == 0 && HeaderHeight(Loaded, 4) == 0
  {
    ShippedTableLayout();
    LayoutQueries(MovieData);
  }

  /** The first drama row is "The Shallows", starring Blake Lively. */
  lemma ShippedFirstDrama()
    ensures NumberOfRows(Loaded, 2) == 5
    ensures RowMovie(Loaded, 2, 0) == Some(Movie("The Shallows", "Blake Lively", "drama"))
  {
    ShippedTableLayout();
    LayoutQueries(MovieData);
  }

  /** The header titles: "Action", "Comedy", "Drama" and "Indie" for
      sections 0 to 3, empty text for the sentinel, and no title for an
      index naming no section. */
  lemma ShippedTitles()
    ensures HeaderTitle(0) == Some("Action") && HeaderTitle(1) == Some("Comedy")
    ensures HeaderTitle(2) == Some("Drama") && HeaderTitle(3) == Some("Indie")
    ensures HeaderTitle(4) == Some("") && HeaderTitle(5) == None && HeaderTitle(-1) == None
  {
  }
}
