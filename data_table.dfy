/** The data table: rows filtered by a case-insensitive search, sorted on
    one column (numerically when both cells are numbers, otherwise by the
    locale's collation), cut into pages, and exported as quoted CSV text;
    with the page, page size, search and sort state the handlers update. */
module DataTable {
  import opened Wrappers
  import opened JsText
  import opened JsNumber
  import opened DataExporter

  /** A row of cells of any JavaScript type. */
  type Row = seq<JsValue>

  /** `String(cell)`; numbers are rendered by `render`. */
  function StringOf(v: JsValue, render: real -> string): string {
    match v
    case Str(s) => s
    case Number(n) => render(n)
    case Bool(b) => if b then "true" else "false"
    case Null => "null"
    case Undefined => "undefined"
  }

  /** `Number(cell)`; `None` is NaN. */
  function NumberOf(v: JsValue): Option<real> {
    match v
    case Str(s) => ToNumber(s)
    case Number(n) => Some(n)
    case Bool(b) => Some(if b then 1.0 else 0.0)
    case Null => Some(0.0)
    case Undefined => None
  }

  /** `row[i]`: `undefined` past the end. */
  function CellAt(row: Row, i: nat): JsValue {
    if i < |row| then row[i] else Undefined
  }

  // ---- Search ----

  /** Some cell's lower-cased text contains the lower-cased query. */
  predicate Matches(row: Row, query: string, render: real -> string) {
    exists i :: 0 <= i < |row| && Contains(ToLower(StringOf(row[i], render)), ToLower(query))
  }

  function MatchingRows(rows: seq<Row>, query: string, render: real -> string): (r: seq<Row>)
    ensures |r| <= |rows|
    decreases |rows|
  {
    if |rows| == 0 then []
    else
      var rest := MatchingRows(rows[..|rows| - 1], query, render);
      if Matches(rows[|rows| - 1], query, render) then rest + [rows[|rows| - 1]] else rest
  }

  /** `filteredRows`: all rows for an empty query. */
  function FilteredRows(rows: seq<Row>, query: string, render: real -> string): seq<Row> {
    if query == "" then rows else MatchingRows(rows, query, render)
  }

  /** The search keeps exactly the matching rows ... */
  lemma {:induction false} MatchingMembers(rows: seq<Row>, query: string, render: real -> string, row: Row)
    ensures row in MatchingRows(rows, query, render) <==> row in rows && Matches(row, query, render)
    decreases |rows|
  {
    if |rows| > 0 {
      var init := rows[..|rows| - 1];
      MatchingMembers(init, query, render, row);
      assert rows == init + [rows[|rows| - 1]];
    }
  }

  /** ... in their order: it works piece by piece. */
  lemma {:induction false} MatchingAppend(a: seq<Row>, b: seq<Row>, query: string, render: real -> string)
    ensures MatchingRows(a + b, query, render) == MatchingRows(a, query, render) + MatchingRows(b, query, render)
    decreases |b|
  {
    if |b| == 0 {
      assert a + b == a;
    } else {
      assert (a + b)[..|a + b| - 1] == a + b[..|b| - 1];
      MatchingAppend(a, b[..|b| - 1], query, render);
    }
  }

  /** The search ignores the letter case of the query. */
  lemma QueryCaseIgnored(row: Row, query: string, render: real -> string)
    ensures Matches(row, query, render) <==> Matches(row, ToLower(query), render)
  {
    ToLowerIdempotent(query);
  }

  // ---- Sorting ----

  datatype Direction = Asc | Desc

  /** The sort comparator on column `col`: the difference of the numbers
      when both cells are numbers, otherwise `localeCompare` of their
      texts, negated for a descending sort. */
  function Compare(a: Row, b: Row, col: nat, dir: Direction, render: real -> string,
                   collate: (string, string) -> int): real
  {
    var av, bv := CellAt(a, col), CellAt(b, col);
    var c := if NumberOf(av).Some? && NumberOf(bv).Some? then NumberOf(av).value - NumberOf(bv).value
             else collate(StringOf(av, render), StringOf(bv, render)) as real;
    if dir == Asc then c else -c
  }

  /** Swapping the arguments of a positive comparison gives a negative one. */
  ghost predicate Antisymmetric<T(!new)>(cmp: (T, T) -> real) {
    forall x, y :: cmp(x, y) > 0.0 ==> cmp(y, x) < 0.0
  }

  /** `localeCompare` orders two strings one way round or the other. */
  ghost predicate CollationAntisymmetric(collate: (string, string) -> int) {
    forall s, t :: (collate(s, t) > 0 ==> collate(t, s) < 0) && (collate(s, t) < 0 ==> collate(t, s) > 0)
  }

  /** The table's comparator inherits antisymmetry from the collation, in
      both directions. */
  lemma CompareAntisymmetric(col: nat, dir: Direction, render: real -> string, collate: (string, string) -> int)
    requires CollationAntisymmetric(collate)
    ensures Antisymmetric((a, b) => Compare(a, b, col, dir, render, collate))
  {
    forall a: Row, b: Row | Compare(a, b, col, dir, render, collate) > 0.0
      ensures Compare(b, a, col, dir, render, collate) < 0.0
    {
      var sa, sb := StringOf(CellAt(a, col), render), StringOf(CellAt(b, col), render);
      assert collate(sa, sb) > 0 ==> collate(sb, sa) < 0;
      assert collate(sa, sb) < 0 ==> collate(sb, sa) > 0;
    }
  }

  /** Inserting `x` after the last element that does not compare above it. */
  function Insert<T>(s: seq<T>, x: T, cmp: (T, T) -> real): (r: seq<T>)
    ensures |r| == |s| + 1
    ensures r[|r| - 1] == x || (|s| > 0 && r[|r| - 1] == s[|s| - 1])
    decreases |s|
  {
    if |s| == 0 then [x]
    else if cmp(s[|s| - 1], x) > 0.0 then Insert(s[..|s| - 1], x, cmp) + [s[|s| - 1]]
    else s + [x]
  }

  /** A stable sort by `cmp`: each element inserted in turn. */
  function SortBy<T>(s: seq<T>, cmp: (T, T) -> real): (r: seq<T>)
    ensures |r| == |s|
    decreases |s|
  {
    if |s| == 0 then [] else Insert(SortBy(s[..|s| - 1], cmp), s[|s| - 1], cmp)
  }

  predicate Sorted<T>(s: seq<T>, cmp: (T, T) -> real) {
    forall i :: 0 <= i < |s| - 1 ==> cmp(s[i], s[i + 1]) <= 0.0
  }

  lemma {:induction false} InsertPermutes<T>(s: seq<T>, x: T, cmp: (T, T) -> real)
    ensures multiset(Insert(s, x, cmp)) == multiset(s) + multiset{x}
    decreases |s|
  {
    if |s| > 0 {
      var init, last := s[..|s| - 1], s[|s| - 1];
      InsertPermutes(init, x, cmp);
      assert s == init + [last];
    }
  }

  /** Sorting returns a permutation of its input. */
  lemma {:induction false} SortPermutes<T>(s: seq<T>, cmp: (T, T) -> real)
    ensures multiset(SortBy(s, cmp)) == multiset(s)
    decreases |s|
  {
    if |s| > 0 {
      var init, last := s[..|s| - 1], s[|s| - 1];
      SortPermutes(init, cmp);
      InsertPermutes(SortBy(init, cmp), last, cmp);
      assert s == init + [last];
    }
  }

  lemma {:induction false} InsertSorted<T(!new)>(s: seq<T>, x: T, cmp: (T, T) -> real)
    requires Antisymmetric(cmp) && Sorted(s, cmp)
    ensures Sorted(Insert(s, x, cmp), cmp)
    decreases |s|
  {
    if |s| > 0 {
      var init, last := s[..|s| - 1], s[|s| - 1];
      if cmp(last, x) > 0.0 {
        assert Sorted(init, cmp) by {
          forall i | 0 <= i < |init| - 1 ensures cmp(init[i], init[i + 1]) <= 0.0 {
            assert init[i] == s[i] && init[i + 1] == s[i + 1];
          }
        }
        InsertSorted(init, x, cmp);
        var r := Insert(init, x, cmp);
        var y := r[|r| - 1];
        if y == x {
          assert cmp(x, last) < 0.0;
        } else {
          assert y == s[|s| - 2];
        }
        var full := r + [last];
        forall i | 0 <= i < |full| - 1 ensures cmp(full[i], full[i + 1]) <= 0.0 {
          if i < |r| - 1 {
            assert full[i] == r[i] && full[i + 1] == r[i + 1];
          }
        }
      } else {
        var full := s + [x];
        forall i | 0 <= i < |full| - 1 ensures cmp(full[i], full[i + 1]) <= 0.0 {
          if i < |s| - 1 {
            assert full[i] == s[i] && full[i + 1] == s[i + 1];
          }
        }
      }
    }
  }

  /** With an antisymmetric comparator every neighbouring pair of the
      result is in order. */
  lemma {:induction false} SortSorts<T(!new)>(s: seq<T>, cmp: (T, T) -> real)
    requires Antisymmetric(cmp)
    ensures Sorted(SortBy(s, cmp), cmp)
    decreases |s|
  {
    if |s| > 0 {
      SortSorts(s[..|s| - 1], cmp);
      InsertSorted(SortBy(s[..|s| - 1], cmp), s[|s| - 1], cmp);
    }
  }

  /** A list already in order is left exactly as it is; in particular
      rows that compare equal keep their order. */
  lemma {:induction false} SortKeepsSorted<T>(s: seq<T>, cmp: (T, T) -> real)
    requires Sorted(s, cmp)
    ensures SortBy(s, cmp) == s
    decreases |s|
  {
    if |s| > 0 {
      var init := s[..|s| - 1];
      assert Sorted(init, cmp) by {
        forall i | 0 <= i < |init| - 1 ensures cmp(init[i], init[i + 1]) <= 0.0 {
          assert init[i] == s[i] && init[i + 1] == s[i + 1];
        }
      }
      SortKeepsSorted(init, cmp);
      if |init| > 0 {
        assert cmp(s[|s| - 2], s[|s| - 1]) <= 0.0;
      }
      assert init + [s[|s| - 1]] == s;
    }
  }

  /** `sortedRows`: the filtered rows unsorted when no column is chosen. */
  function SortedRows(filtered: seq<Row>, sortColumn: Option<nat>, dir: Direction,
                      render: real -> string, collate: (string, string) -> int): seq<Row>
  {
    if sortColumn.None? then filtered
    else SortBy(filtered, (a, b) => Compare(a, b, sortColumn.value, dir, render, collate))
  }

  /** The sorted rows are the filtered rows rearranged, in column order
      when the collation is antisymmetric. */
  lemma SortedRowsSpec(filtered: seq<Row>, sortColumn: Option<nat>, dir: Direction,
                       render: real -> string, collate: (string, string) -> int)
    ensures multiset(SortedRows(filtered, sortColumn, dir, render, collate)) == multiset(filtered)
    ensures sortColumn.None? ==> SortedRows(filtered, sortColumn, dir, render, collate) == filtered
    ensures sortColumn.Some? && CollationAntisymmetric(collate) ==>
      Sorted(SortedRows(filtered, sortColumn, dir, render, collate),
             (a, b) => Compare(a, b, sortColumn.value, dir, render, collate))
  {
    if sortColumn.Some? {
      var cmp := (a, b) => Compare(a, b, sortColumn.value, dir, render, collate);
      SortPermutes(filtered, cmp);
      if CollationAntisymmetric(collate) {
        CompareAntisymmetric(sortColumn.value, dir, render, collate);
        SortSorts(filtered, cmp);
      }
    }
  }

  /** Two numeric cells compare by value: the smaller number first when
      ascending, last when descending. */
  lemma NumericCellsCompareByValue(a: Row, b: Row, col: nat, render: real -> string,
                                   collate: (string, string) -> int)
    requires NumberOf(CellAt(a, col)).Some? && NumberOf(CellAt(b, col)).Some?
    requires NumberOf(CellAt(a, col)).value < NumberOf(CellAt(b, col)).value
    ensures Compare(a, b, col, Asc, render, collate) < 0.0
    ensures Compare(a, b, col, Desc, render, collate) > 0.0
  {
  }

  /** An empty text cell is `Number("") == 0`, so it sorts as zero among numbers. */
  lemma EmptyTextSortsAsZero(a: Row, b: Row, col: nat, render: real -> string, collate: (string, string) -> int)
    requires CellAt(a, col) == Str("") && CellAt(b, col) == Number(1.0)
    ensures Compare(a, b, col, Asc, render, collate) == -1.0
  {
  }

  // ---- Pagination ----

  /** `Math.ceil(n / pageSize)`. */
  function TotalPages(n: nat, pageSize: nat): (t: nat)
    requires pageSize > 0
    ensures t * pageSize >= n
    ensures t > 0 ==> (t - 1) * pageSize < n
  {
    (n + pageSize - 1) / pageSize
  }

  /** `Array.prototype.slice` index clamping. */
  function ClampIndex(i: int, n: nat): (k: nat)
    ensures k <= n
  {
    if i < 0 then (if n + i < 0 then 0 else n + i) else if i > n then n else i
  }

  function Slice<T>(s: seq<T>, start: int, end: int): seq<T> {
    var a, b := ClampIndex(start, |s|), ClampIndex(end, |s|);
    if a < b then s[a..b] else []
  }

  /** `paginatedRows` for page `page` (counted from 1). */
  function PageRows<T>(rows: seq<T>, page: int, pageSize: nat): seq<T>
    requires pageSize > 0
  {
    Slice(rows, (page - 1) * pageSize, page * pageSize)
  }

  /** A slice of a window `[start, end)` with `start < end` holds at most
      `end - start` elements, the ones from `start` on cut at the end. */
  lemma SliceWindow<T>(s: seq<T>, start: int, end: int)
    requires start < end
    ensures |Slice(s, start, end)| <= end - start
    ensures 0 <= start < |s| ==>
      Slice(s, start, end) == s[start..if end < |s| then end else |s|] && |Slice(s, start, end)| > 0
    ensures start >= |s| ==> Slice(s, start, end) == []
  {
  }

  lemma MulMonotone(i: int, j: int, k: nat)
    requires i <= j
    ensures i * k <= j * k
  {
  }

  /** Page `page` is the window of `pageSize` rows after the first `page - 1` pages. */
  lemma PageWindow(page: int, pageSize: nat)
    ensures page * pageSize == (page - 1) * pageSize + pageSize
  {
  }

  /** A page never holds more than `pageSize` rows. */
  lemma PageAtMostPageSize<T>(rows: seq<T>, page: int, pageSize: nat)
    requires pageSize > 0
    ensures |PageRows(rows, page, pageSize)| <= pageSize
  {
    PageWindow(page, pageSize);
    SliceWindow(rows, (page - 1) * pageSize, page * pageSize);
  }

  /** Each page from 1 to the last is the non-empty run of rows from
      `(page - 1) * pageSize` on, cut at the end of the rows. */
  lemma PageInRange<T>(rows: seq<T>, page: int, pageSize: nat)
    requires pageSize > 0
    requires 1 <= page <= TotalPages(|rows|, pageSize)
    ensures PageRows(rows, page, pageSize) ==
        rows[(page - 1) * pageSize..if page * pageSize < |rows| then page * pageSize else |rows|]
    ensures |PageRows(rows, page, pageSize)| > 0
  {
    var t := TotalPages(|rows|, pageSize);
    PageWindow(page, pageSize);
    SliceWindow(rows, (page - 1) * pageSize, page * pageSize);
    MulMonotone(0, page - 1, pageSize);
    MulMonotone(page - 1, t - 1, pageSize);
  }

  /** A page past the last is empty. */
  lemma PageBeyondLastEmpty<T>(rows: seq<T>, page: int, pageSize: nat)
    requires pageSize > 0
    requires page > TotalPages(|rows|, pageSize)
    ensures PageRows(rows, page, pageSize) == []
  {
    var t := TotalPages(|rows|, pageSize);
    PageWindow(page, pageSize);
    SliceWindow(rows, (page - 1) * pageSize, page * pageSize);
    MulMonotone(t, page - 1, pageSize);
  }

  /** Pages 1 to k together are the first k*pageSize rows. */
  function PagesUpTo<T>(rows: seq<T>, k: nat, pageSize: nat): seq<T>
    requires pageSize > 0
  {
    if k == 0 then [] else PagesUpTo(rows, k - 1, pageSize) + PageRows(rows, k, pageSize)
  }

  lemma {:induction false} PagesUpToPrefix<T>(rows: seq<T>, k: nat, pageSize: nat)
    requires pageSize > 0
    ensures PagesUpTo(rows, k, pageSize) == rows[..if k * pageSize < |rows| then k * pageSize else |rows|]
  {
    if k > 0 {
      PagesUpToPrefix(rows, k - 1, pageSize);
      var n := |rows|;
      var lo := if (k - 1) * pageSize < n then (k - 1) * pageSize else n;
      var hi := if k * pageSize < n then k * pageSize else n;
      assert (k - 1) * pageSize + pageSize == k * pageSize;
      assert PageRows(rows, k, pageSize) == rows[lo..hi];
      assert rows[..lo] + rows[lo..hi] == rows[..hi];
    }
  }

  /** The pages, read in order, show every row exactly once. */
  lemma PagesCoverRows<T>(rows: seq<T>, pageSize: nat)
    requires pageSize > 0
    ensures PagesUpTo(rows, TotalPages(|rows|, pageSize), pageSize) == rows
  {
    PagesUpToPrefix(rows, TotalPages(|rows|, pageSize), pageSize);
  }

  /** The bound, the in-range window and the empty page past the last,
      gathered for one page. */
  lemma PageFacts<T>(rows: seq<T>, page: int, pageSize: nat)
    requires pageSize > 0
    ensures |PageRows(rows, page, pageSize)| <= pageSize
    ensures 1 <= page <= TotalPages(|rows|, pageSize) ==>
      0 < |PageRows(rows, page, pageSize)|
      && PageRows(rows, page, pageSize) == rows[(page - 1) * pageSize..if page * pageSize < |rows| then page * pageSize else |rows|]
    ensures page > TotalPages(|rows|, pageSize) ==> PageRows(rows, page, pageSize) == []
  {
    PageAtMostPageSize(rows, page, pageSize);
    if 1 <= page <= TotalPages(|rows|, pageSize) {
      PageInRange(rows, page, pageSize);
    } else if page > TotalPages(|rows|, pageSize) {
      PageBeyondLastEmpty(rows, page, pageSize);
    }
  }

  // ---- The table state ----

  class Table {
    var currentPage: int
    var pageSize: nat
    var searchQuery: string
    var sortColumn: Option<nat>
    var sortDirection: Direction

    predicate Valid()
      reads this
    {
      pageSize > 0
    }

    /** `paginatedRows`: the part of the sorted rows the table shows in the
        current state; a page past the last shows nothing. */
    function Paginated<T>(sorted: seq<T>): (r: seq<T>)
      reads this
      requires Valid()
      ensures |r| <= pageSize
      ensures 1 <= currentPage <= TotalPages(|sorted|, pageSize) ==>
        0 < |r| && r == sorted[(currentPage - 1) * pageSize..if currentPage * pageSize < |sorted| then currentPage * pageSize else |sorted|]
      ensures currentPage > TotalPages(|sorted|, pageSize) ==> r == []
    {
      PageFacts(sorted, currentPage, pageSize);
      PageRows(sorted, currentPage, pageSize)
    }

    constructor ()
      ensures Valid()
      ensures currentPage == 1 && pageSize == 20 && searchQuery == "" && sortColumn == None && sortDirection == Asc
    {
      currentPage := 1;
      pageSize := 20;
      searchQuery := "";
      sortColumn := None;
      sortDirection := Asc;
    }

    /** `handleSort`: the current column flips direction; another column
        becomes the sort column, ascending. */
    method HandleSort(columnIndex: nat)
      modifies this
      ensures old(sortColumn) == Some(columnIndex) ==>
        sortColumn == old(sortColumn) && sortDirection == (if old(sortDirection) == Asc then Desc else Asc)
      ensures old(sortColumn) != Some(columnIndex) ==> sortColumn == Some(columnIndex) && sortDirection == Asc
      ensures currentPage == old(currentPage) && pageSize == old(pageSize) && searchQuery == old(searchQuery)
    {
      if sortColumn == Some(columnIndex) {
        sortDirection := if sortDirection == Asc then Desc else Asc;
      } else {
        sortColumn := Some(columnIndex);
        sortDirection := Asc;
      }
    }

    /** Typing in the search box goes back to page 1. */
    method SetSearchQuery(query: string)
      modifies this
      ensures searchQuery == query && currentPage == 1
      ensures pageSize == old(pageSize) && sortColumn == old(sortColumn) && sortDirection == old(sortDirection)
    {
      searchQuery := query;
      currentPage := 1;
    }

    /** Choosing a page size goes back to page 1. */
    method SetPageSize(size: nat)
      requires size > 0
      modifies this
      ensures Valid() && pageSize == size && currentPage == 1
      ensures searchQuery == old(searchQuery) && sortColumn == old(sortColumn) && sortDirection == old(sortDirection)
    {
      pageSize := size;
      currentPage := 1;
    }

    /** The page buttons, each doing nothing when disabled. */
    method GoToPage(target: int, disabled: bool)
      modifies this
      ensures currentPage == (if disabled then old(currentPage) else target)
      ensures pageSize == old(pageSize) && searchQuery == old(searchQuery)
      ensures sortColumn == old(sortColumn) && sortDirection == old(sortDirection)
    {
      if !disabled {
        currentPage := target;
      }
    }

    method FirstPage()
      modifies this
      ensures currentPage == 1
      ensures pageSize == old(pageSize) && searchQuery == old(searchQuery)
      ensures sortColumn == old(sortColumn) && sortDirection == old(sortDirection)
    {
      GoToPage(1, currentPage == 1);
    }

    method PreviousPage()
      modifies this
      ensures currentPage == (if old(currentPage) == 1 then 1 else old(currentPage) - 1)
      ensures pageSize == old(pageSize) && searchQuery == old(searchQuery)
      ensures sortColumn == old(sortColumn) && sortDirection == old(sortDirection)
    {
      GoToPage(currentPage - 1, currentPage == 1);
    }

    method NextPage(totalPages: nat)
      modifies this
      ensures currentPage == (if old(currentPage) == totalPages then totalPages else old(currentPage) + 1)
      ensures pageSize == old(pageSize) && searchQuery == old(searchQuery)
      ensures sortColumn == old(sortColumn) && sortDirection == old(sortDirection)
    {
      GoToPage(currentPage + 1, currentPage == totalPages);
    }

    method LastPage(totalPages: nat)
      modifies this
      ensures currentPage == totalPages
      ensures pageSize == old(pageSize) && searchQuery == old(searchQuery)
      ensures sortColumn == old(sortColumn) && sortDirection == old(sortDirection)
    {
      GoToPage(totalPages, currentPage == totalPages);
    }
  }

  // ---- Export ----

  /** `"${cell}"`: the text in quotes, inner quotes left as they are. */
  function QuotedCell(v: JsValue, render: real -> string): string {
    "\"" + StringOf(v, render) + "\""
  }

  function ExportRowLine(row: Row, render: real -> string): string {
    Join(seq(|row|, j requires 0 <= j < |row| => QuotedCell(row[j], render)), ",")
  }

  /** The lines of the exported text: the header line, then one line per
      row; without rows the text ends in a line break, leaving one empty line. */
  function ExportLines(columns: seq<string>, rows: seq<Row>, render: real -> string): (r: seq<string>)
    ensures |r| == if |rows| == 0 then 2 else |rows| + 1
    ensures r[0] == Join(columns, ",")
  {
    [Join(columns, ",")]
    + if |rows| == 0 then [""]
      else seq(|rows|, i requires 0 <= i < |rows| => ExportRowLine(rows[i], render))
  }

  /** `exportCSV`'s text. */
  function ExportCsv(columns: seq<string>, rows: seq<Row>, render: real -> string): string {
    Join(columns, ",") + "\n"
    + Join(seq(|rows|, i requires 0 <= i < |rows| => ExportRowLine(rows[i], render)), "\n")
  }

  /** The text is its lines joined by "\n"; when no header or cell holds a
      line break, it splits back into exactly those lines. */
  lemma ExportLineStructure(columns: seq<string>, rows: seq<Row>, render: real -> string)
    ensures ExportCsv(columns, rows, render) == Join(ExportLines(columns, rows, render), "\n")
    ensures (forall k :: 0 <= k < |ExportLines(columns, rows, render)| ==> '\n' !in ExportLines(columns, rows, render)[k]) ==>
      Split(ExportCsv(columns, rows, render), '\n') == ExportLines(columns, rows, render)
  {
    var lines := ExportLines(columns, rows, render);
    assert lines[1..] == if |rows| == 0 then [""]
      else seq(|rows|, i requires 0 <= i < |rows| => ExportRowLine(rows[i], render));
    if forall k :: 0 <= k < |lines| ==> '\n' !in lines[k] {
      SplitJoin(lines, '\n');
    }
  }

  /** A cell holding a double quote is exported with that quote alone, so
      the field does not read back as an RFC 4180 quoted field. */
  lemma QuoteInCellNotEscaped(render: real -> string)
    ensures var f := QuotedCell(Str("a\"b"), render);
      f == "\"a\"b\"" && !QuotesPaired(f[1..|f| - 1])
  {
    var f := QuotedCell(Str("a\"b"), render);
    assert f[1..|f| - 1] == "a\"b";
    assert "a\"b"[1..] == "\"b";
    assert "\"b"[1] != '"';
  }
}
