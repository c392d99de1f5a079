/** The workshop data table: rows parsed from a CSV file, a search over every
    cell, one text filter per column, a sort on one column in either
    direction, and the CSV text of the export. */
module WorkshopTable {
  import opened Common

  /** One parsed CSV row: its cells in header order, each a column name and its
      text (the parser is not asked to convert numbers, so every cell is text). */
  type Row = seq<(string, string)>

  /** `Object.keys(row)`. */
  function Keys(row: Row): (r: seq<string>)
    ensures |r| == |row| && forall i :: 0 <= i < |row| ==> r[i] == row[i].0
  {
    seq(|row|, i requires 0 <= i < |row| => row[i].0)
  }

  /** `Object.values(row)`. */
  function Values(row: Row): (r: seq<string>)
    ensures |r| == |row| && forall i :: 0 <= i < |row| ==> r[i] == row[i].1
  {
    seq(|row|, i requires 0 <= i < |row| => row[i].1)
  }

  /** `row[key]`: the text of the first cell of that column, if there is one. */
  function Lookup(row: Row, key: string): Option<string> {
    if row == [] then None
    else if row[0].0 == key then Some(row[0].1)
    else Lookup(row[1..], key)
  }

  /** A lookup finds a cell exactly when the row has that column, and then it
      finds the first cell of the column. */
  lemma {:induction false} LookupFirst(row: Row, key: string)
    ensures Lookup(row, key).None? <==> forall i :: 0 <= i < |row| ==> row[i].0 != key
    ensures Lookup(row, key).Some? ==>
      exists i :: (0 <= i < |row| && row[i] == (key, Lookup(row, key).value)
        && forall j :: 0 <= j < i ==> row[j].0 != key)
  {
    if row != [] && row[0].0 != key {
      LookupFirst(row[1..], key);
      if Lookup(row, key).Some? {
        var i :| 0 <= i < |row[1..]| && row[1..][i] == (key, Lookup(row, key).value)
          && forall j :: 0 <= j < i ==> row[1..][j].0 != key;
        assert row[i + 1] == row[1..][i];
        forall j | 0 <= j < i + 1 ensures row[j].0 != key {
          if j > 0 {
            assert row[j] == row[1..][j - 1];
          }
        }
      }
      forall i | 0 <= i < |row| && Lookup(row, key).None? ensures row[i].0 != key {
        if i > 0 {
          assert row[i] == row[1..][i - 1];
        }
      }
    } else if row != [] {
      assert row[0] == (key, row[0].1);
    }
  }

  /** `String(row[key])`: a missing cell reads as the text "undefined". */
  function CellText(row: Row, key: string): string {
    match Lookup(row, key)
    case Some(v) => v
    case None => "undefined"
  }

  /** A cell's text is the first cell of its column, or "undefined" when the
      row has no such column. */
  lemma CellTextOfRow(row: Row, key: string)
    ensures (forall i :: 0 <= i < |row| ==> row[i].0 != key) ==> CellText(row, key) == "undefined"
    ensures (exists i :: 0 <= i < |row| && row[i].0 == key) ==>
      exists i :: (0 <= i < |row| && row[i] == (key, CellText(row, key))
        && forall j :: 0 <= j < i ==> row[j].0 != key)
  {
    LookupFirst(row, key);
  }

  /** The search: an empty query keeps every row; otherwise some cell must
      contain the query, both lower-cased. */
  predicate MatchesSearch(row: Row, query: string) {
    query == [] || exists i :: 0 <= i < |row| && Contains(Lower(row[i].1), Lower(query))
  }

  /** Every column filter: the cell of that column contains the filter text,
      both lower-cased. */
  predicate MatchesFilters(row: Row, filters: map<string, string>) {
    forall k :: k in filters ==> Contains(Lower(CellText(row, k)), Lower(filters[k]))
  }

  /** JavaScript `<` on two strings: the first differing character decides, and
      a proper prefix comes first. */
  predicate LexLess(a: string, b: string) {
    if a == [] then b != []
    else if b == [] then false
    else if a[0] != b[0] then a[0] < b[0]
    else LexLess(a[1..], b[1..])
  }

  lemma {:induction false} LexIrreflexive(a: string)
    ensures !LexLess(a, a)
  {
    if a != [] {
      LexIrreflexive(a[1..]);
    }
  }

  lemma {:induction false} LexAsymmetric(a: string, b: string)
    ensures LexLess(a, b) ==> !LexLess(b, a)
  {
    if a != [] && b != [] && a[0] == b[0] {
      LexAsymmetric(a[1..], b[1..]);
    }
  }

  /** Two different strings are ordered one way or the other. */
  lemma {:induction false} LexTotal(a: string, b: string)
    ensures a == b || LexLess(a, b) || LexLess(b, a)
  {
    if a != [] && b != [] && a[0] == b[0] {
      LexTotal(a[1..], b[1..]);
      if a[1..] == b[1..] {
        assert a == [a[0]] + a[1..] && b == [b[0]] + b[1..];
      }
    }
  }

  lemma {:induction false} LexTransitive(a: string, b: string, c: string)
    requires LexLess(a, b) && LexLess(b, c)
    ensures LexLess(a, c)
  {
    if a != [] && a[0] == b[0] && b[0] == c[0] {
      LexTransitive(a[1..], b[1..], c[1..]);
    }
  }

  datatype Direction = Asc | Desc

  /** The sorted column and its direction. */
  datatype SortConfig = SortConfig(key: string, direction: Direction)

  /** `handleSort(key)`: the new configuration sorts by `key`, descending
      exactly when it was sorted by `key` ascending before. */
  function NextSort(current: Option<SortConfig>, key: string): (r: SortConfig)
    ensures r.key == key
    ensures r.direction == Desc <==> current == Some(SortConfig(key, Asc))
  {
    SortConfig(key, if current.Some? && current.value.key == key && current.value.direction == Asc then Desc else Asc)
  }

  /** Clicking a column cycles ascending, descending, ascending; a new column
      always starts ascending. */
  lemma SortClicks(current: Option<SortConfig>, key: string)
    ensures NextSort(None, key) == SortConfig(key, Asc)
    ensures NextSort(Some(SortConfig(key, Asc)), key) == SortConfig(key, Desc)
    ensures NextSort(Some(SortConfig(key, Desc)), key) == SortConfig(key, Asc)
    ensures current.Some? && current.value.key != key ==> NextSort(current, key) == SortConfig(key, Asc)
  {
  }

  /** The comparator returns a negative number: both cells exist and are in
      the configured order under `<`. A missing cell compares as neither less
      nor greater. */
  predicate Precedes(a: Row, b: Row, config: Option<SortConfig>) {
    config.Some? &&
    var key := config.value.key;
    Lookup(a, key).Some? && Lookup(b, key).Some? &&
    (if config.value.direction == Asc then LexLess(Lookup(a, key).value, Lookup(b, key).value)
     else LexLess(Lookup(b, key).value, Lookup(a, key).value))
  }

  /** Inserts `x` into `s` after every row it does not strictly precede. */
  function Insert(s: seq<Row>, x: Row, config: Option<SortConfig>): (r: seq<Row>)
    ensures |r| == |s| + 1
  {
    if s == [] then [x]
    else if Precedes(x, s[|s| - 1], config) then Insert(s[..|s| - 1], x, config) + [s[|s| - 1]]
    else s + [x]
  }

  /** The stable sort of `Array.prototype.sort` under the comparator, as an
      insertion sort. */
  function Sort(s: seq<Row>, config: Option<SortConfig>): (r: seq<Row>)
    ensures |r| == |s|
  {
    if s == [] then [] else Insert(Sort(s[..|s| - 1], config), s[|s| - 1], config)
  }

  /** `filteredData`: the search, then the column filters, then the sort. */
  function FilteredData(data: seq<Row>, query: string, filters: map<string, string>,
                        config: Option<SortConfig>): seq<Row>
  {
    Sort(Filter(Filter(data, row => MatchesSearch(row, query)), row => MatchesFilters(row, filters)), config)
  }

  lemma {:induction false} InsertMultiset(s: seq<Row>, x: Row, config: Option<SortConfig>)
    ensures multiset(Insert(s, x, config)) == multiset(s) + multiset{x}
  {
    if s != [] && Precedes(x, s[|s| - 1], config) {
      InsertMultiset(s[..|s| - 1], x, config);
      assert s == s[..|s| - 1] + [s[|s| - 1]];
    }
  }

  /** The sort is a permutation. */
  lemma {:induction false} SortMultiset(s: seq<Row>, config: Option<SortConfig>)
    ensures multiset(Sort(s, config)) == multiset(s)
  {
    if s != [] {
      SortMultiset(s[..|s| - 1], config);
      InsertMultiset(Sort(s[..|s| - 1], config), s[|s| - 1], config);
      assert s == s[..|s| - 1] + [s[|s| - 1]];
    }
  }

  /** Without a sort configuration the comparator is always 0 and the order is kept. */
  lemma {:induction false} SortUnconfigured(s: seq<Row>)
    ensures Sort(s, None) == s
  {
    if s != [] {
      SortUnconfigured(s[..|s| - 1]);
      assert s == s[..|s| - 1] + [s[|s| - 1]];
    }
  }

  /** No two neighbours are strictly out of order. */
  ghost predicate AdjacentOrdered(s: seq<Row>, config: Option<SortConfig>) {
    forall i :: 0 <= i < |s| - 1 ==> !Precedes(s[i + 1], s[i], config)
  }

  lemma PrecedesAsymmetric(a: Row, b: Row, config: Option<SortConfig>)
    ensures Precedes(a, b, config) ==> !Precedes(b, a, config)
  {
    if Precedes(a, b, config) {
      var key := config.value.key;
      LexAsymmetric(Lookup(a, key).value, Lookup(b, key).value);
      LexAsymmetric(Lookup(b, key).value, Lookup(a, key).value);
    }
  }

  /** The last row of an insertion is the inserted row or the last row before. */
  lemma InsertLast(s: seq<Row>, x: Row, config: Option<SortConfig>)
    ensures var r := Insert(s, x, config); r[|r| - 1] == x || (s != [] && r[|r| - 1] == s[|s| - 1])
  {
  }

  lemma {:induction false} InsertOrdered(s: seq<Row>, x: Row, config: Option<SortConfig>)
    requires AdjacentOrdered(s, config)
    ensures AdjacentOrdered(Insert(s, x, config), config)
  {
    if s != [] && Precedes(x, s[|s| - 1], config) {
      var init, last := s[..|s| - 1], s[|s| - 1];
      assert AdjacentOrdered(init, config) by {
        forall i | 0 <= i < |init| - 1 ensures !Precedes(init[i + 1], init[i], config) {
          assert init[i] == s[i] && init[i + 1] == s[i + 1];
        }
      }
      InsertOrdered(init, x, config);
      var t := Insert(init, x, config);
      InsertLast(init, x, config);
      PrecedesAsymmetric(x, last, config);
      if init != [] {
        assert !Precedes(last, init[|init| - 1], config) by {
          assert s[|s| - 2] == init[|init| - 1];
        }
      }
      assert !Precedes(last, t[|t| - 1], config);
    }
  }

  /** The sort leaves no neighbours strictly out of order. */
  lemma {:induction false} SortOrdered(s: seq<Row>, config: Option<SortConfig>)
    ensures AdjacentOrdered(Sort(s, config), config)
  {
    if s != [] {
      SortOrdered(s[..|s| - 1], config);
      InsertOrdered(Sort(s[..|s| - 1], config), s[|s| - 1], config);
    }
  }

  /** No row of the class `p` strictly precedes another row of it. */
  ghost predicate Tied(p: Row -> bool, config: Option<SortConfig>) {
    forall a, b :: p(a) && p(b) ==> !Precedes(a, b, config)
  }

  lemma {:induction false} InsertStable(s: seq<Row>, x: Row, config: Option<SortConfig>, p: Row -> bool)
    requires Tied(p, config)
    ensures Filter(Insert(s, x, config), p) == Filter(s, p) + Filter([x], p)
  {
    if s == [] {
    } else if Precedes(x, s[|s| - 1], config) {
      var init, last := s[..|s| - 1], s[|s| - 1];
      InsertStable(init, x, config, p);
      FilterConcat(Insert(init, x, config), [last], p);
      FilterConcat(init, [last], p);
      assert s == init + [last];
      if p(x) {
        assert !p(last);
        assert Filter([last], p) == [];
      } else {
        assert Filter([x], p) == [];
      }
    } else {
      FilterConcat(s, [x], p);
    }
  }

  /** The sort is stable: within any class of rows none of which strictly
      precedes another, the relative order is kept. */
  lemma {:induction false} SortStable(s: seq<Row>, config: Option<SortConfig>, p: Row -> bool)
    requires Tied(p, config)
    ensures Filter(Sort(s, config), p) == Filter(s, p)
  {
    if s != [] {
      var init, last := s[..|s| - 1], s[|s| - 1];
      SortStable(init, config, p);
      InsertStable(Sort(init, config), last, config, p);
      FilterConcat(init, [last], p);
      assert s == init + [last];
    }
  }

  /** Rows whose cell in the sorted column is `v` (or is missing, for `None`). */
  predicate HasCell(row: Row, key: string, v: Option<string>) {
    Lookup(row, key) == v
  }

  /** Rows with equal cells in the sorted column, and rows without the column,
      keep their relative order. */
  lemma EqualCellsKeepOrder(s: seq<Row>, config: Option<SortConfig>, v: Option<string>)
    requires config.Some?
    ensures Filter(Sort(s, config), r => HasCell(r, config.value.key, v))
      == Filter(s, r => HasCell(r, config.value.key, v))
  {
    var key := config.value.key;
    forall a, b | HasCell(a, key, v) && HasCell(b, key, v) ensures !Precedes(a, b, config) {
      if v.Some? {
        LexIrreflexive(v.value);
      }
    }
    SortStable(s, config, r => HasCell(r, key, v));
  }

  /** When every row has the sorted column, the whole result is ordered: no
      later row strictly precedes an earlier one. */
  lemma {:induction false} SortedThroughout(s: seq<Row>, config: Option<SortConfig>)
    requires config.Some?
    requires forall i :: 0 <= i < |s| ==> Lookup(s[i], config.value.key).Some?
    ensures var r := Sort(s, config);
      forall i, j :: 0 <= i < j < |r| ==> !Precedes(r[j], r[i], config)
  {
    var r := Sort(s, config);
    SortOrdered(s, config);
    SortMultiset(s, config);
    forall i | 0 <= i < |r| ensures Lookup(r[i], config.value.key).Some? {
      assert r[i] in multiset(s);
    }
    forall i, j | 0 <= i < j < |r| ensures !Precedes(r[j], r[i], config) {
      ChainOrdered(r, config, i, j);
    }
  }

  lemma {:induction false} ChainOrdered(r: seq<Row>, config: Option<SortConfig>, i: int, j: int)
    requires config.Some? && AdjacentOrdered(r, config)
    requires forall k :: 0 <= k < |r| ==> Lookup(r[k], config.value.key).Some?
    requires 0 <= i < j < |r|
    ensures !Precedes(r[j], r[i], config)
    decreases j - i
  {
    if j > i + 1 {
      ChainOrdered(r, config, i, j - 1);
      var key := config.value.key;
      var a, b, c := Lookup(r[i], key).value, Lookup(r[j - 1], key).value, Lookup(r[j], key).value;
      LexTotal(a, b);
      LexTotal(b, c);
      if config.value.direction == Asc {
        if LexLess(c, a) {
          if LexLess(a, b) { LexTransitive(c, a, b); }
          else if a != b { LexAsymmetric(b, a); }
        }
      } else {
        if LexLess(a, c) {
          if LexLess(b, a) { LexTransitive(b, a, c); }
          else if a != b { LexAsymmetric(a, b); }
        }
      }
    }
  }

  /** Exactly the rows of `data` that match the search and every filter are
      shown, each as often as in `data`. */
  lemma FilteredRows(data: seq<Row>, query: string, filters: map<string, string>, config: Option<SortConfig>)
    ensures multiset(FilteredData(data, query, filters, config)) <= multiset(data)
    ensures forall row :: row in FilteredData(data, query, filters, config) <==>
      row in data && MatchesSearch(row, query) && MatchesFilters(row, filters)
  {
    Pipeline(data, row => MatchesSearch(row, query), row => MatchesFilters(row, filters), config);
  }

  /** Two filters and a sort keep each row at most as often as the input and
      keep exactly the rows that pass both filters. */
  lemma Pipeline(data: seq<Row>, p: Row -> bool, q: Row -> bool, config: Option<SortConfig>)
    ensures multiset(Sort(Filter(Filter(data, p), q), config)) <= multiset(data)
    ensures forall row :: row in Sort(Filter(Filter(data, p), q), config) <==> row in data && p(row) && q(row)
  {
    var first := Filter(data, p);
    var second := Filter(first, q);
    FilterMultiset(data, p);
    FilterMultiset(first, q);
    FilterMembers(data, p);
    FilterMembers(first, q);
    SortMultiset(second, config);
    SameMembers(Sort(second, config), second);
  }

  lemma SameMembers(a: seq<Row>, b: seq<Row>)
    requires multiset(a) == multiset(b)
    ensures forall x :: x in a <==> x in b
  {
    forall x ensures x in a <==> x in b {
      assert x in a <==> x in multiset(a);
      assert x in b <==> x in multiset(b);
    }
  }

  /** An empty filter text is the same as no filter on that column. */
  lemma EmptyFilterValue(data: seq<Row>, query: string, filters: map<string, string>,
                         config: Option<SortConfig>, column: string)
    ensures FilteredData(data, query, filters[column := ""], config)
      == FilteredData(data, query, filters - {column}, config)
  {
    var searched := Filter(data, row => MatchesSearch(row, query));
    forall i | 0 <= i < |searched|
      ensures MatchesFilters(searched[i], filters[column := ""]) == MatchesFilters(searched[i], filters - {column})
    {
      ContainsEmpty(Lower(CellText(searched[i], column)));
    }
    FilterSame(searched, row => MatchesFilters(row, filters[column := ""]), row => MatchesFilters(row, filters - {column}));
  }

  /** With no search, no filters and no sort the table shows `data` as it is. */
  lemma UnfilteredData(data: seq<Row>)
    ensures FilteredData(data, "", map[], None) == data
  {
    FilterKeepsAll(data, row => MatchesSearch(row, ""));
    FilterKeepsAll(data, row => MatchesFilters(row, map[]));
    SortUnconfigured(data);
  }

  /** A string cell of the export: wrapped in double quotes, nothing escaped. */
  function Quote(v: string): string {
    "\"" + v + "\""
  }

  /** One export line: the quoted cell texts of a row joined with commas. */
  function RowLine(row: Row): string {
    Join(seq(|row|, i requires 0 <= i < |row| => Quote(row[i].1)), ",")
  }

  /** The header: `Object.keys(data[0]).join(',')`. */
  function HeaderLine(row: Row): string {
    Join(Keys(row), ",")
  }

  /** `handleExport`'s text: the header of the first data row, then one line
      per shown row, joined with newlines; with no data, reading the keys of
      `data[0]` throws and nothing is exported. */
  function ExportText(data: seq<Row>, shown: seq<Row>): (r: Option<string>)
    ensures r.None? <==> data == []
  {
    if data == [] then None
    else Some(Join([HeaderLine(data[0])] + seq(|shown|, i requires 0 <= i < |shown| => RowLine(shown[i])), "\n"))
  }

  /** A row whose cells and column names have no newline gives lines without one. */
  lemma LinesAvoidNewline(row: Row)
    requires forall i :: 0 <= i < |row| ==> '\n' !in row[i].0 && '\n' !in row[i].1
    ensures '\n' !in RowLine(row) && '\n' !in HeaderLine(row)
  {
    var cells := seq(|row|, i requires 0 <= i < |row| => Quote(row[i].1));
    forall i | 0 <= i < |cells| ensures '\n' !in cells[i] {
      assert forall x :: x in cells[i] ==> x == '"' || x in row[i].1;
    }
    JoinAvoids(cells, ",", '\n');
    JoinAvoids(Keys(row), ",", '\n');
  }

  /** Splitting the export at newlines gives back the header and then exactly
      one line per shown row, when no text contains a newline. */
  lemma ExportLines(data: seq<Row>, shown: seq<Row>)
    requires data != []
    requires forall i :: 0 <= i < |data[0]| ==> '\n' !in data[0][i].0 && '\n' !in data[0][i].1
    requires forall k, i :: 0 <= k < |shown| && 0 <= i < |shown[k]| ==> '\n' !in shown[k][i].0 && '\n' !in shown[k][i].1
    ensures var lines := Split(ExportText(data, shown).value, '\n');
      |lines| == |shown| + 1 && lines[0] == HeaderLine(data[0])
      && forall k :: 0 <= k < |shown| ==> lines[k + 1] == RowLine(shown[k])
  {
    var parts := [HeaderLine(data[0])] + seq(|shown|, i requires 0 <= i < |shown| => RowLine(shown[i]));
    LinesAvoidNewline(data[0]);
    forall k | 0 <= k < |parts| ensures '\n' !in parts[k] {
      if k > 0 {
        LinesAvoidNewline(shown[k - 1]);
      }
    }
    SplitJoin(parts, '\n');
  }

  /** Splitting an export line at commas gives back the quoted cells, when no
      cell contains a comma. */
  lemma RowLineCells(row: Row)
    requires forall i :: 0 <= i < |row| ==> ',' !in row[i].1
    requires row != []
    ensures var cells := Split(RowLine(row), ',');
      |cells| == |row| && forall i :: 0 <= i < |row| ==> cells[i] == Quote(row[i].1)
  {
    var cells := seq(|row|, i requires 0 <= i < |row| => Quote(row[i].1));
    forall i | 0 <= i < |cells| ensures ',' !in cells[i] {
      assert forall x :: x in cells[i] ==> x == '"' || x in row[i].1;
    }
    SplitJoin(cells, ',');
  }

  /** The table's state: the loaded rows, the search text, the column filters
      and the sort configuration. */
  class TableState {
    var data: seq<Row>
    var searchQuery: string
    var filters: map<string, string>
    var sortConfig: Option<SortConfig>

    constructor ()
      ensures data == [] && searchQuery == "" && filters == map[] && sortConfig == None
    {
      data, searchQuery, filters, sortConfig := [], "", map[], None;
    }

    /** The rows the table shows. */
    function Shown(): seq<Row>
      reads this
    {
      FilteredData(data, searchQuery, filters, sortConfig)
    }

    /** The rows delivered by the parser replace the data. */
    method SetData(rows: seq<Row>)
      modifies this`data
      ensures data == rows
    {
      data := rows;
    }

    /** The search box. */
    method SetSearchQuery(query: string)
      modifies this`searchQuery
      ensures searchQuery == query
    {
      searchQuery := query;
    }

    /** `handleSort`. */
    method HandleSort(key: string)
      modifies this`sortConfig
      ensures sortConfig == Some(NextSort(old(sortConfig), key))
    {
      sortConfig := Some(NextSort(sortConfig, key));
    }

    /** `handleFilter`: sets the filter of one column and keeps every other one. */
    method HandleFilter(column: string, value: string)
      modifies this`filters
      ensures filters == old(filters)[column := value]
      ensures forall c :: c != column ==> (c in filters <==> c in old(filters))
      ensures forall c :: c != column && c in filters ==> filters[c] == old(filters)[c]
    {
      filters := filters[column := value];
    }

    /** `handleExport`: the text of the download, or nothing when there is no data. */
    method HandleExport() returns (text: Option<string>)
      ensures text == ExportText(data, Shown())
    {
      text := ExportText(data, Shown());
    }
  }
}
