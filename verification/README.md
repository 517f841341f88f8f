# EnumTableViewTutorial — the sectioned movie list, in Dafny

The app shows one screen: a table of fifteen movies grouped into the
sections action, comedy, drama and indie. All of its logic sits in
`ViewController.swift`:

- the literal `MovieData` table;
- the `Int`-backed `TableSection` enum whose last case, `total`, is a
  sentinel counting the real sections;
- `sortData`, which fills the `data` dictionary with one filtered list per
  real section;
- the table-view data-source queries: the section count, the row count, the
  header height, the header title, and the row lookup that fills a cell.

This project models those pieces as pure functions over immutable values and
proves what they promise.

| file | module | contents |
|---|---|---|
| `wrappers.dfy` | `Wrappers` | `Option`, Swift's `T?` |
| `movies.dfy` | `Movies` | the `Movie` record (title, cast, genre) and the literal `MovieData` table |
| `genre_filter.dfy` | `GenreFilter` | `filter` by genre, an independent description of a stable selection, and the proofs that the two coincide |
| `table_section.dfy` | `Sections` | `TableSection`, `rawValue`, `TableSection(rawValue:)` |
| `view_controller.dfy` | `ViewController` | `sortData`, `viewDidLoad`'s initial sort, and the data-source queries |
| `shipped_data.dfy` | `ShippedData` | what the screen shows for the literal table |

A section index reaches the data source as a plain `Int`. It goes through
`OfRaw`, the partial map that models `TableSection(rawValue:)`, and then
through a dictionary lookup. Either step can fail. The queries state each
outcome in terms of `RawValue`, so "no case has this raw value" and "the case
has no entry" are both explicit.

## Model

| member | source | states |
|---|---|---|
| `Sections.RawValue` | EnumTableViewTutorial/ViewController.swift:36-37 | a case's raw value is its position in declaration order, starting at 0 |
| `Sections.OfRaw` | EnumTableViewTutorial/ViewController.swift:36-37 | `TableSection(rawValue:)` succeeds exactly for 0..4, and then returns the case at that position, whose raw value is the input |
| `Sections.OfRawOfRawValue` | EnumTableViewTutorial/ViewController.swift:36-37 | converting a case to its raw value and back gives the same case |
| `Sections.RawValueOfOfRaw` | EnumTableViewTutorial/ViewController.swift:36-37 | when the conversion succeeds, the raw value comes back; when it fails, no case has that raw value |
| `Sections.SentinelIsLast` | EnumTableViewTutorial/ViewController.swift:33-37 | `total` is the last case, its raw value equals the number of cases before it, and those cases are exactly the non-sentinel ones |
| `GenreFilter.SelectGenre` | EnumTableViewTutorial/ViewController.swift:58-61 | the filter is never longer than its input, and every record it keeps has the requested genre |
| `GenreFilter.SelectGenreIsSubsequence` | EnumTableViewTutorial/ViewController.swift:58-61 | the filtered list is an in-order subsequence of the input |
| `GenreFilter.SelectGenreContent` | EnumTableViewTutorial/ViewController.swift:58-61 | each record of the genre occurs in the result as often as in the input, and records of other genres do not occur |
| `GenreFilter.SelectGenreIsStableSelection` | EnumTableViewTutorial/ViewController.swift:58-61 | the filter is a stable selection: every matching record, in original order, and nothing else |
| `GenreFilter.StableSelectionIsSelectGenre` | EnumTableViewTutorial/ViewController.swift:58-61 | any stable selection of a genre equals the filter's result, so the selection is unique |
| `GenreFilter.LongestSelectionIsSelectGenre` | EnumTableViewTutorial/ViewController.swift:58-61 | an in-order subsequence of records of one genre that is as long as the filter is the filter |
| `GenreFilter.SubsequenceLengthBound` | EnumTableViewTutorial/ViewController.swift:58-61 | no in-order subsequence of records of one genre is longer than the filter |
| `GenreFilter.SelectGenreLength` | EnumTableViewTutorial/ViewController.swift:58-61 | the filter's length is the number of positions in the input that hold a record of the genre |
| `GenreFilter.SelectGenreAppend` | EnumTableViewTutorial/ViewController.swift:58-61 | filtering a concatenation gives the concatenation of the filtered parts |
| `ViewController.GenreLabel` | EnumTableViewTutorial/ViewController.swift:58-61 | each real section filters by a non-empty genre label, and reading the label back gives the same section, so distinct real sections use distinct labels |
| `ViewController.SortData` | EnumTableViewTutorial/ViewController.swift:57-62 | `sortData` adds an entry for each of the four real sections and for no other key; a `total` entry already present keeps its value; each real section holds an in-order subsequence of the records whose genres all equal the section's label |
| `ViewController.SortDataIsStablePartition` | EnumTableViewTutorial/ViewController.swift:57-62 | each real section is the stable selection of its genre, and so it equals that genre's filter |
| `ViewController.LoadedData` | EnumTableViewTutorial/ViewController.swift:44-49 | after `viewDidLoad`, `data` has no `total` entry and has an entry for every real section, holding that genre's filter |
| `ViewController.SortDataIdempotent` | EnumTableViewTutorial/ViewController.swift:57-62 | running `sortData` twice gives the same dictionary as running it once, because it assigns and never appends |
| `ViewController.UnsectionedRecordDropped` | EnumTableViewTutorial/ViewController.swift:57-62 | a record whose genre matches no section label appears in no section |
| `ViewController.SectionRowsPartitionRecords` | EnumTableViewTutorial/ViewController.swift:57-62 | across sections 0 to `numberOfSections - 1`, the row counts plus the unmatched records equal the table's size; the rows never outnumber the records, and they equal them exactly when every genre has a section |
| `ViewController.GenreBucketsPartition` | EnumTableViewTutorial/ViewController.swift:58-61 | the four genre filters and the unmatched records together hold exactly the table's records, each as often as in the table (multiset equality), so their lengths add up to the table's length |
| `ViewController.GenreBucketsContent` | EnumTableViewTutorial/ViewController.swift:58-61 | the four genre filters and the unmatched list together hold exactly the records of the table, with their multiplicities |
| `ViewController.UnsectionedContent` | EnumTableViewTutorial/ViewController.swift:58-61 | a record whose genre has no section occurs in the unmatched list as often as in the table, and no other record occurs there |
| `ViewController.HasSectionIffSectionOfGenre` | EnumTableViewTutorial/ViewController.swift:58-61 | a genre is one of the four labels exactly when reading it back as a label gives a real section |
| `ViewController.UnsectionedEmpty` | EnumTableViewTutorial/ViewController.swift:58-61 | no record is left unmatched exactly when every record's genre is one of the four labels |
| `ViewController.Lookup` | EnumTableViewTutorial/ViewController.swift:77 | the `TableSection(rawValue:)`-then-dictionary chain shared by lines 77, 90 and 124 yields a list exactly when some case has the index as its raw value and has an entry, and then yields that case's entry |
| `ViewController.NumberOfSections` | EnumTableViewTutorial/ViewController.swift:68-72 | the section count is the number of real sections, and a case's raw value is below it exactly when the case is not the sentinel |
| `ViewController.NumberOfRows` | EnumTableViewTutorial/ViewController.swift:74-81 | for an index that is the raw value of a case with an entry, the row count is that entry's length; otherwise it is 0 |
| `ViewController.RowCountIsGenreCount` | EnumTableViewTutorial/ViewController.swift:74-81 | after `sortData`, a real section's row count is the number of records of its genre |
| `ViewController.HeaderHeight` | EnumTableViewTutorial/ViewController.swift:83-94 | the header height is 25 exactly when the section has at least one row, and 0 otherwise |
| `ViewController.Title` | EnumTableViewTutorial/ViewController.swift:102-114 | a section's title is empty exactly for the sentinel |
| `ViewController.TitleCapitalizesGenreLabel` | EnumTableViewTutorial/ViewController.swift:102-114 | a real section's title is its genre label with the first letter capitalised, and no two sections share a title |
| `ViewController.HeaderTitle` | EnumTableViewTutorial/ViewController.swift:102-115 | the header label gets no text exactly when the index is no case's raw value; otherwise it gets that case's title |
| `ViewController.RowMovie` | EnumTableViewTutorial/ViewController.swift:120-124 | the cell's record is row `row` of the section's entry; there is none when the index names no case or the case has no entry; a row outside an existing entry is excluded, because the array subscript traps |
| `ViewController.RowsReproduceSelection` | EnumTableViewTutorial/ViewController.swift:120-124 | after `sortData`, reading rows 0 to rowCount - 1 of a real section, in order, gives exactly that genre's records in their original order |
| `ShippedData.ShippedTableLayout` | EnumTableViewTutorial/ViewController.swift:11-27 | the literal table holds 15 records: five action, then five comedy, then five drama |
| `ShippedData.LayoutBuckets` | EnumTableViewTutorial/ViewController.swift:58-61 | on a table with that layout, the action, comedy and drama filters return the three blocks, and the indie filter returns nothing |
| `ShippedData.LayoutQueries` | EnumTableViewTutorial/ViewController.swift:68-94 | on a loaded table with that layout: 4 sections; row counts 5, 5, 5, 0, and 0 for the sentinel; header heights 25, 25, 25, 0, 0; the first drama row is record 11; 15 rows in all |
| `ShippedData.ShippedRowCounts` | EnumTableViewTutorial/ViewController.swift:74-81 | the shipped screen has 4 sections holding 5, 5, 5 and 0 rows, no rows for the sentinel or for an out-of-range index, and every record shown |
| `ShippedData.ShippedHeaderHeights` | EnumTableViewTutorial/ViewController.swift:83-94 | the shipped screen has headers of height 25 above action, comedy and drama, and height 0 above indie and the sentinel |
| `ShippedData.ShippedFirstDrama` | EnumTableViewTutorial/ViewController.swift:22 | the first drama row is "The Shallows", starring Blake Lively |
| `ShippedData.ShippedTitles` | EnumTableViewTutorial/ViewController.swift:102-115 | the titles are "Action", "Comedy", "Drama" and "Indie" for sections 0-3 and "" for the sentinel, and there is no title for 5 or -1 |

## Left out

- View lifecycle: `viewDidAppear`, `reloadData`, outlets, cell dequeuing and `viewWithTag`. These are UIKit calls. `viewDidLoad` is kept only as the sort of an empty dictionary, `LoadedData`.
- Header view construction: frames, fonts and colours (lines 97-101 and 116-117). This is UIKit and floating-point work. Only the label's text is modelled.
- `SectionHeaderHeight` is a `CGFloat` in the source. It is modelled as the integer 25, and a zero height as 0.
- Record shape: each record is a `[String: String]` dictionary in the source. It is modelled as a three-field datatype, because `title`, `cast` and `genre` are the only keys the program reads. A missing `genre` key cannot arise from the literal table, so its filter behaviour is not modelled.
- Cell filling: writing the title and cast into the cell's labels is UIKit work. The model stops at the record the cell would show, `RowMovie`.
- Unrecognised section titles: the `default:` branch (ViewController.swift:112-113), which sets empty text, is reached only by `total`. An index that names no case skips the `if let` at line 102 entirely, so the label's text is never assigned and keeps its initial unset value. The model's `None` stands for that unset value.
- GenreFilter.SelectGenre: genre equality is code-point equality of strings, while Swift's `String ==` compares by Unicode canonical equivalence. The two agree for the four ASCII labels the program filters by, so `SortData` is exact; for arbitrary non-ASCII labels the model may differ.
- ViewController.Title: its own contract says only that the title is empty exactly for the sentinel. The fixed title table is stated by `TitleCapitalizesGenreLabel` and `ShippedTitles`.
