/**
 * The `/generate-company-ids-location` handler: look up the source column,
 * allocate the three output columns (appending the missing ones to the
 * header row), read the columns, and enrich every row with an empty or
 * absent output cell. Every request to the spreadsheet and every
 * enrichment is an event of the trace the handler produces; the replies of
 * the spreadsheet and the outcome of each enrichment are inputs.
 * Spreadsheet column letters are UTF-16 code units (`String.fromCharCode`),
 * kept as integers.
 */
module Reconcile {
  import opened Wrappers
  import Search

  const IdHeader := "Company ID"
  const LocationHeader := "Company Location"
  const UrlHeader := "Company URL"

  /** The output columns, in the order in which missing ones are appended. */
  const OutputHeaders := [IdHeader, LocationHeader, UrlHeader]

  const MissingParameters := "Missing required parameters"
  const InvalidColumn := "Invalid column name"
  const Success := "Company IDs, Locations, and URLs added successfully"

  /** The pause after every row write, in milliseconds (`delay(10000)`). */
  const RowPauseMs := 10000.0

  /** The HTTP response the handler sends. */
  datatype Response = Response(status: int, body: string)

  /**
   * An event of the handler's trace. `column`, `first` and `last` are the
   * code units of column letters; `row` is a 1-based sheet row.
   */
  datatype Op =
    | GetHeaders
    | WriteHeader(values: seq<string>)
    | GetLastRow
    | ReadColumn(column: int, lastRow: int)
    | Enrich(companyName: string)
    | WriteRow(row: int, first: int, last: int, values: seq<string>)
    | Pause(ms: real)

  /** `Array.prototype.indexOf`: the first position of `x`, or -1. */
  function IndexOf(s: seq<string>, x: string): (i: int)
    ensures -1 <= i < |s|
    ensures i == -1 <==> x !in s
    ensures 0 <= i ==> s[i] == x && x !in s[..i]
  {
    if s == [] then -1
    else if s[0] == x then 0
    else
      var j := IndexOf(s[1..], x);
      assert j >= 0 ==> s[..j + 1] == [s[0]] + s[1..][..j];
      if j == -1 then -1 else j + 1
  }

  /** The names of `names` that are not among `headers`, in order. */
  function Absent(headers: seq<string>, names: seq<string>): (missing: seq<string>)
    ensures |missing| <= |names|
  {
    if names == [] then []
    else
      var last := names[|names| - 1];
      Absent(headers, names[..|names| - 1]) + (if last in headers then [] else [last])
  }

  /** A name is missing exactly when it is one of `names` and not a header. */
  lemma {:induction false} AbsentMembers(headers: seq<string>, names: seq<string>, x: string)
    ensures x in Absent(headers, names) <==> x in names && x !in headers
    decreases |names|
  {
    if names != [] {
      var init := names[..|names| - 1];
      AbsentMembers(headers, init, x);
      assert names == init + [names[|names| - 1]];
    }
  }

  /**
   * Where the output column `OutputHeaders[r]` lives: its `indexOf` position
   * when the header row has it, otherwise `headers.length` plus the number
   * of output columns before it that are missing too.
   */
  function Slot(headers: seq<string>, r: nat): int
    requires r < |OutputHeaders|
  {
    if OutputHeaders[r] in headers then IndexOf(headers, OutputHeaders[r])
    else |headers| + |Absent(headers, OutputHeaders[..r])|
  }

  /** The 0-based indices of the three output columns and the header names appended for them. */
  datatype Allocation = Allocation(id: int, location: int, url: int, added: seq<string>)

  /** Reference definition of the column allocation. */
  function OutputColumns(headers: seq<string>): Allocation {
    Allocation(Slot(headers, 0), Slot(headers, 1), Slot(headers, 2), Absent(headers, OutputHeaders))
  }

  /**
   * The handler's column allocation step: look the three output headers up
   * and give each missing one the next free column, pushing its name.
   */
  method AllocateOutputColumns(headers: seq<string>) returns (a: Allocation)
    ensures a == OutputColumns(headers)
  {
    var idIndex := IndexOf(headers, IdHeader);
    var locationIndex := IndexOf(headers, LocationHeader);
    var urlIndex := IndexOf(headers, UrlHeader);
    var newHeaders: seq<string> := [];
    assert OutputHeaders[..0] == [];
    if idIndex == -1 {
      idIndex := |headers|;
      newHeaders := newHeaders + [IdHeader];
    }
    assert newHeaders == Absent(headers, OutputHeaders[..1]) by {
      assert OutputHeaders[..1][..0] == OutputHeaders[..0];
    }
    if locationIndex == -1 {
      locationIndex := |headers| + |newHeaders|;
      newHeaders := newHeaders + [LocationHeader];
    }
    assert newHeaders == Absent(headers, OutputHeaders[..2]) by {
      assert OutputHeaders[..2][..1] == OutputHeaders[..1];
    }
    if urlIndex == -1 {
      urlIndex := |headers| + |newHeaders|;
      newHeaders := newHeaders + [UrlHeader];
    }
    assert newHeaders == Absent(headers, OutputHeaders) by {
      assert OutputHeaders[..2] == OutputHeaders[..|OutputHeaders| - 1];
    }
    a := Allocation(idIndex, locationIndex, urlIndex, newHeaders);
  }

  /**
   * In the updated header row `headers + added`, every output column sits at
   * its allocated index, the original headers are untouched, and the three
   * indices are distinct; a column already present keeps its position, and
   * only missing ones are appended.
   */
  lemma OutputColumnsPlaced(headers: seq<string>)
    ensures var a := OutputColumns(headers);
      var row := headers + a.added;
      && row[..|headers|] == headers
      && 0 <= a.id < |row| && row[a.id] == IdHeader
      && 0 <= a.location < |row| && row[a.location] == LocationHeader
      && 0 <= a.url < |row| && row[a.url] == UrlHeader
      && a.id != a.location && a.location != a.url && a.id != a.url
      && (IdHeader in headers ==> a.id == IndexOf(headers, IdHeader))
      && (LocationHeader in headers ==> a.location == IndexOf(headers, LocationHeader))
      && (UrlHeader in headers ==> a.url == IndexOf(headers, UrlHeader))
      && (forall x :: x in a.added <==> x in OutputHeaders && x !in headers)
  {
    SlotPlaced(headers, 0);
    SlotPlaced(headers, 1);
    SlotPlaced(headers, 2);
    forall x {
      AbsentMembers(headers, OutputHeaders, x);
    }
  }

  /** The output column `OutputHeaders[r]` sits at `Slot(headers, r)` of the updated header row. */
  lemma SlotPlaced(headers: seq<string>, r: nat)
    requires r < |OutputHeaders|
    ensures var row := headers + Absent(headers, OutputHeaders);
      0 <= Slot(headers, r) < |row| && row[Slot(headers, r)] == OutputHeaders[r]
  {
    if OutputHeaders[r] !in headers {
      var added := Absent(headers, OutputHeaders);
      AbsentPrefix(headers, OutputHeaders, r + 1);
      assert OutputHeaders[..r + 1][..r] == OutputHeaders[..r];
      var k := |Absent(headers, OutputHeaders[..r])|;
      assert added[k] == OutputHeaders[r];
      assert (headers + added)[|headers| + k] == added[k];
    }
  }

  /** Dropping names from the end of the list drops missing names from the end of its result. */
  lemma {:induction false} AbsentPrefix(headers: seq<string>, names: seq<string>, m: nat)
    requires m <= |names|
    ensures Absent(headers, names[..m]) <= Absent(headers, names)
    decreases |names| - m
  {
    if m < |names| {
      var init := names[..|names| - 1];
      AbsentPrefix(headers, init, m);
      assert init[..m] == names[..m];
    } else {
      assert names[..m] == names;
    }
  }

  /**
   * Missing output columns are appended in `OutputHeaders` order: an earlier
   * missing column gets a smaller index, and every missing column lands in
   * the appended part of the header row.
   */
  lemma SlotsInOrder(headers: seq<string>, r: nat, s: nat)
    requires r < s < |OutputHeaders|
    requires OutputHeaders[r] !in headers && OutputHeaders[s] !in headers
    ensures |headers| <= Slot(headers, r) < Slot(headers, s) < |headers| + |Absent(headers, OutputHeaders)|
  {
    SlotPlaced(headers, s);
    AbsentPrefix(headers, OutputHeaders[..s], r + 1);
    assert OutputHeaders[..s][..r + 1] == OutputHeaders[..r + 1];
    assert OutputHeaders[..r + 1][..r] == OutputHeaders[..r];
  }

  /** The output columns are appended in the order ID, Location, URL, at consecutive indices. */
  lemma AppendedInOrder(headers: seq<string>)
    requires IdHeader !in headers && LocationHeader !in headers && UrlHeader !in headers
    ensures OutputColumns(headers) == Allocation(|headers|, |headers| + 1, |headers| + 2, OutputHeaders)
  {
    assert OutputHeaders[..1][..0] == [];
    assert OutputHeaders[..2][..1] == OutputHeaders[..1];
    assert OutputHeaders[..|OutputHeaders| - 1] == OutputHeaders[..2];
  }

  /** A cell counts as filled when it exists and is not the empty string (`!values[index]` is false). */
  predicate Filled(column: seq<string>, index: nat)
    ensures index >= |column| ==> !Filled(column, index)
    ensures index < |column| ==> (Filled(column, index) <==> column[index] != "")
  {
    index < |column| && column[index] != ""
  }

  /** The four columns the handler reads: company names, ids, locations and URLs. */
  datatype Columns = Columns(names: seq<string>, ids: seq<string>, locations: seq<string>, urls: seq<string>)

  /** A row whose three output cells are all filled. */
  predicate Complete(c: Columns, index: nat) {
    Filled(c.ids, index) && Filled(c.locations, index) && Filled(c.urls, index)
  }

  /** How many of the row's output cells are empty or absent. */
  function Blanks(c: Columns, index: nat): (n: nat)
    ensures n <= 3
    ensures n == 0 <==> Complete(c, index)
  {
    (if Filled(c.ids, index) then 0 else 1)
    + (if Filled(c.locations, index) then 0 else 1)
    + (if Filled(c.urls, index) then 0 else 1)
  }

  /** `rowUpdate`: the enrichment's values for exactly the missing cells, id before location before URL. */
  function RowUpdate(c: Columns, index: nat, e: Search.Enrichment): (values: seq<string>)
    ensures |values| == Blanks(c, index)
  {
    (if Filled(c.ids, index) then [] else [e.id])
    + (if Filled(c.locations, index) then [] else [e.location])
    + (if Filled(c.urls, index) then [] else [e.url])
  }

  /** Building `rowUpdate`: push the enrichment's value for every missing cell. */
  method BuildRowUpdate(c: Columns, index: nat, e: Search.Enrichment) returns (rowUpdate: seq<string>)
    ensures rowUpdate == RowUpdate(c, index, e)
  {
    rowUpdate := [];
    if !Filled(c.ids, index) {
      rowUpdate := rowUpdate + [e.id];
    }
    if !Filled(c.locations, index) {
      rowUpdate := rowUpdate + [e.location];
    }
    if !Filled(c.urls, index) {
      rowUpdate := rowUpdate + [e.url];
    }
  }

  /**
   * Where each value lands in `rowUpdate`: the id first when it is missing,
   * then the location, the URL last; the update is empty exactly for a
   * complete row.
   */
  lemma RowUpdateCells(c: Columns, index: nat, e: Search.Enrichment)
    ensures var values := RowUpdate(c, index, e);
      && (values == [] <==> Complete(c, index))
      && (!Filled(c.ids, index) ==> values[0] == e.id)
      && (!Filled(c.locations, index) ==> values[if Filled(c.ids, index) then 0 else 1] == e.location)
      && (!Filled(c.urls, index) ==> values[|values| - 1] == e.url)
  {
  }

  /**
   * The events of row `index` (sheet row `index + 2`): none for a complete
   * row; otherwise one enrichment of the company name, one write of
   * `rowUpdate` starting at the id column and ending at the URL column,
   * and one pause.
   */
  function RowOps(c: Columns, a: Allocation, enrich: nat -> Search.Enrichment, index: nat): seq<Op>
    requires index < |c.names|
  {
    if Complete(c, index) then []
    else [Enrich(c.names[index]), WriteRow(index + 2, 65 + a.id, 65 + a.url, RowUpdate(c, index, enrich(index))), Pause(RowPauseMs)]
  }

  /** The events of the first `n` rows, in row order. */
  function RowsOps(c: Columns, a: Allocation, enrich: nat -> Search.Enrichment, n: nat): (ops: seq<Op>)
    requires n <= |c.names|
  {
    if n == 0 then [] else RowsOps(c, a, enrich, n - 1) + RowOps(c, a, enrich, n - 1)
  }

  /** One iteration of the row loop: skip a complete row, otherwise enrich, write and pause. */
  method ProcessRow(c: Columns, a: Allocation, enrich: nat -> Search.Enrichment, index: nat) returns (ops: seq<Op>)
    requires index < |c.names|
    ensures ops == RowOps(c, a, enrich, index)
  {
    ops := [];
    if !Filled(c.ids, index) || !Filled(c.locations, index) || !Filled(c.urls, index) {
      ops := ops + [Enrich(c.names[index])];
      var e := enrich(index);
      var rowUpdate := BuildRowUpdate(c, index, e);
      ops := ops + [WriteRow(index + 2, 65 + a.id, 65 + a.url, rowUpdate), Pause(RowPauseMs)];
    }
  }

  /** The row loop over the company names. `enrich(index)` is what `getIdAndLocation` returns for row `index`. */
  method ProcessRows(c: Columns, a: Allocation, enrich: nat -> Search.Enrichment) returns (ops: seq<Op>)
    ensures ops == RowsOps(c, a, enrich, |c.names|)
  {
    ops := [];
    var index := 0;
    while index < |c.names|
      invariant index <= |c.names|
      invariant ops == RowsOps(c, a, enrich, index)
    {
      var rowOps := ProcessRow(c, a, enrich, index);
      ops := ops + rowOps;
      index := index + 1;
    }
  }

  /** The number of rows among the first `n` that are not complete. */
  function Incomplete(c: Columns, n: nat): (k: nat)
    requires n <= |c.names|
    ensures k <= n
  {
    if n == 0 then 0 else Incomplete(c, n - 1) + (if Complete(c, n - 1) then 0 else 1)
  }

  /** Every incomplete row contributes three events and a complete one none. */
  lemma {:induction false} RowsOpsLength(c: Columns, a: Allocation, enrich: nat -> Search.Enrichment, n: nat)
    requires n <= |c.names|
    ensures |RowsOps(c, a, enrich, n)| == 3 * Incomplete(c, n)
    decreases n
  {
    if n > 0 {
      RowsOpsLength(c, a, enrich, n - 1);
    }
  }

  /** `ops` is a run of triples: an enrichment, a row write, then a pause of 10 seconds. */
  predicate Triples(ops: seq<Op>)
    decreases |ops|
  {
    if |ops| < 3 then ops == []
    else
      var m := |ops| - 3;
      && Triples(ops[..m])
      && ops[m].Enrich? && ops[m + 1].WriteRow? && ops[m + 2] == Pause(RowPauseMs)
  }

  /** Appending one more triple, or nothing, to a run of triples gives a run of triples. */
  lemma TriplesAppend(before: seq<Op>, row: seq<Op>)
    requires Triples(before)
    requires row == [] || (|row| == 3 && row[0].Enrich? && row[1].WriteRow? && row[2] == Pause(RowPauseMs))
    ensures Triples(before + row)
  {
    if row == [] {
      assert before + row == before;
    } else {
      var ops := before + row;
      assert ops[..|ops| - 3] == before;
    }
  }

  /** The row events come in triples, one per incomplete row; in particular the row loop never writes the header row. */
  lemma {:induction false} RowsOpsTriples(c: Columns, a: Allocation, enrich: nat -> Search.Enrichment, n: nat)
    requires n <= |c.names|
    ensures Triples(RowsOps(c, a, enrich, n))
    decreases n
  {
    if n > 0 {
      RowsOpsTriples(c, a, enrich, n - 1);
      var before := RowsOps(c, a, enrich, n - 1);
      var ops := RowsOps(c, a, enrich, n);
      var row := RowOps(c, a, enrich, n - 1);
      assert ops == before + row;
      TriplesAppend(before, row);
    }
  }

  /** Every write of the first `n` rows goes to a sheet row in [2, n + 2), between the id and URL columns. */
  predicate WritesWithin(ops: seq<Op>, a: Allocation, n: nat) {
    forall k :: 0 <= k < |ops| && ops[k].WriteRow? ==>
      2 <= ops[k].row < n + 2 && ops[k].first == 65 + a.id && ops[k].last == 65 + a.url
  }

  /** Writes happen in strictly increasing sheet-row order. */
  predicate WritesIncreasing(ops: seq<Op>) {
    forall i, j :: 0 <= i < j < |ops| && ops[i].WriteRow? && ops[j].WriteRow? ==> ops[i].row < ops[j].row
  }

  /** Rows are written in increasing order, each below the header row and within the data. */
  lemma {:induction false} RowsOpsWrites(c: Columns, a: Allocation, enrich: nat -> Search.Enrichment, n: nat)
    requires n <= |c.names|
    ensures WritesWithin(RowsOps(c, a, enrich, n), a, n)
    ensures WritesIncreasing(RowsOps(c, a, enrich, n))
    decreases n
  {
    if n > 0 {
      RowsOpsWrites(c, a, enrich, n - 1);
      var before := RowsOps(c, a, enrich, n - 1);
      var row := RowOps(c, a, enrich, n - 1);
      var ops := RowsOps(c, a, enrich, n);
      assert ops == before + row;
      forall k | |before| <= k < |ops| && ops[k].WriteRow?
        ensures ops[k].row == n + 1 && ops[k].first == 65 + a.id && ops[k].last == 65 + a.url
      {
        assert ops[k] == row[k - |before|];
      }
      forall i, j | 0 <= i < j < |ops| && ops[i].WriteRow? && ops[j].WriteRow?
        ensures ops[i].row < ops[j].row
      {
        if j >= |before| {
          if i < |before| {
            assert ops[i] == before[i];
          }
        } else {
          assert ops[i] == before[i] && ops[j] == before[j];
        }
      }
    }
  }

  /**
   * A row is enriched exactly when one of its three output cells is empty
   * or absent; a complete row gets no enrichment, no write and no pause.
   */
  lemma RowEnrichedIff(c: Columns, a: Allocation, enrich: nat -> Search.Enrichment, index: nat)
    requires index < |c.names|
    ensures RowOps(c, a, enrich, index) == [] <==> Complete(c, index)
    ensures !Complete(c, index) ==>
              RowOps(c, a, enrich, index)[0] == Enrich(c.names[index])
              && RowOps(c, a, enrich, index)[1].values == RowUpdate(c, index, enrich(index))
  {
  }

  /**
   * As written, the update always starts at the id column: when only the
   * location is missing, the new location is written into the id cell,
   * over the existing id, and the location cell is left empty.
   */
  lemma LocationLandsInIdColumn(c: Columns, a: Allocation, enrich: nat -> Search.Enrichment, index: nat)
    requires index < |c.names|
    requires Filled(c.ids, index) && !Filled(c.locations, index) && Filled(c.urls, index)
    ensures RowOps(c, a, enrich, index)[1] == WriteRow(index + 2, 65 + a.id, 65 + a.url, [enrich(index).location])
  {
  }

  /** One level of `Array.prototype.flat`: the rows' cells, concatenated. */
  function Flat(rows: seq<seq<string>>): (cells: seq<string>)
    ensures rows == [] ==> cells == []
  {
    if rows == [] then [] else rows[0] + Flat(rows[1..])
  }

  /** Flattening distributes over concatenation: the cells of `a + b` are those of `a`, then those of `b`. */
  lemma {:induction false} FlatAppend(a: seq<seq<string>>, b: seq<seq<string>>)
    ensures Flat(a + b) == Flat(a) + Flat(b)
    decreases |a|
  {
    if a == [] {
      assert a + b == b;
    } else {
      assert (a + b)[1..] == a[1..] + b;
      FlatAppend(a[1..], b);
    }
  }

  /**
   * `response.data.values ? response.data.values.flat() : []`: no cells
   * without `values`; with one cell per row, row `k`'s cell at position `k`.
   */
  function ColumnValues(values: Option<seq<seq<string>>>): (cells: seq<string>)
    ensures values.None? ==> cells == []
    ensures values.Some? && (forall k :: 0 <= k < |values.value| ==> |values.value[k]| == 1) ==>
              |cells| == |values.value| && forall k :: 0 <= k < |values.value| ==> cells[k] == values.value[k][0]
  {
    if values.None? then []
    else if forall k :: 0 <= k < |values.value| ==> |values.value[k]| == 1 then
      FlatSingleCells(values.value);
      Flat(values.value)
    else Flat(values.value)
  }

  /** When every row of the reply holds exactly one cell, flattening keeps row `k` at position `k`. */
  lemma {:induction false} FlatSingleCells(rows: seq<seq<string>>)
    requires forall k :: 0 <= k < |rows| ==> |rows[k]| == 1
    ensures |Flat(rows)| == |rows|
    ensures forall k :: 0 <= k < |rows| ==> Flat(rows)[k] == rows[k][0]
    decreases |rows|
  {
    if rows != [] {
      FlatSingleCells(rows[1..]);
      assert forall k :: 1 <= k < |rows| ==> rows[k] == rows[1..][k - 1];
    }
  }

  /** As written, a blank row in the middle of a column shifts every later value up by one row. */
  lemma BlankRowShifts()
    ensures Flat([["Acme"], [], ["Globex"]]) == ["Acme", "Globex"]
  {
    assert [["Acme"], [], ["Globex"]][1..] == [[], ["Globex"]];
    assert [[], ["Globex"]][1..] == [["Globex"]];
  }

  /**
   * The spreadsheet's answers: the header row (`getSheetHeaders`), the last
   * row (`getLastRow`), and for each column letter the `values` of a read
   * of that column (`None` when the reply has none).
   */
  datatype Sheet = Sheet(headers: seq<string>, lastRow: int, values: int -> Option<seq<seq<string>>>)

  /** The four columns as the handler reads them: the source column (letter `64 + columnIndex`) and the three output columns. */
  function ReadColumns(sheet: Sheet, columnIndex: int, a: Allocation): Columns {
    Columns(ColumnValues(sheet.values(64 + columnIndex)), ColumnValues(sheet.values(65 + a.id)),
            ColumnValues(sheet.values(65 + a.location)), ColumnValues(sheet.values(65 + a.url)))
  }

  /** The header write: the whole updated header row, only when a column was added. */
  function HeaderOps(headers: seq<string>, a: Allocation): seq<Op> {
    if a.added != [] then [WriteHeader(headers + a.added)] else []
  }

  /** The header update step: write the updated header row when any column was added. */
  method UpdateHeader(headers: seq<string>, a: Allocation) returns (ops: seq<Op>)
    ensures ops == HeaderOps(headers, a)
  {
    ops := [];
    if |a.added| > 0 {
      ops := ops + [WriteHeader(headers + a.added)];
    }
  }

  /** The four column reads, from row 2 to the last row. */
  function ReadOps(sheet: Sheet, columnIndex: int, a: Allocation): seq<Op> {
    [ReadColumn(64 + columnIndex, sheet.lastRow), ReadColumn(65 + a.id, sheet.lastRow),
     ReadColumn(65 + a.location, sheet.lastRow), ReadColumn(65 + a.url, sheet.lastRow)]
  }

  /** The events before the row loop: the header read, the header write if any, the last-row lookup and the column reads. */
  function Front(sheet: Sheet, columnIndex: int, a: Allocation): seq<Op> {
    [GetHeaders] + HeaderOps(sheet.headers, a) + [GetLastRow] + ReadOps(sheet, columnIndex, a)
  }

  /**
   * Reference definition of the trace of a request that passes both checks:
   * the header read comes first, then the header write exactly when a
   * column was added, then the last-row lookup.
   */
  function Plan(sheet: Sheet, columnName: string, enrich: nat -> Search.Enrichment): (plan: seq<Op>)
    ensures |plan| >= 6 && plan[0] == GetHeaders
    ensures var added := Absent(sheet.headers, OutputHeaders);
      plan[1] == (if added != [] then WriteHeader(sheet.headers + added) else GetLastRow)
      && (added != [] ==> plan[2] == GetLastRow)
  {
    var a := OutputColumns(sheet.headers);
    var columnIndex := IndexOf(sheet.headers, columnName) + 1;
    var c := ReadColumns(sheet, columnIndex, a);
    Front(sheet, columnIndex, a) + RowsOps(c, a, enrich, |c.names|)
  }

  /** The trace holds the front events and three events per incomplete row. */
  lemma PlanLength(sheet: Sheet, columnName: string, enrich: nat -> Search.Enrichment)
    ensures var a := OutputColumns(sheet.headers);
      var c := ReadColumns(sheet, IndexOf(sheet.headers, columnName) + 1, a);
      |Plan(sheet, columnName, enrich)| == (if a.added != [] then 7 else 6) + 3 * Incomplete(c, |c.names|)
  {
    var a := OutputColumns(sheet.headers);
    var columnIndex := IndexOf(sheet.headers, columnName) + 1;
    var c := ReadColumns(sheet, columnIndex, a);
    var front := Front(sheet, columnIndex, a);
    var rows := RowsOps(c, a, enrich, |c.names|);
    assert Plan(sheet, columnName, enrich) == front + rows;
    FrontLength(sheet, columnIndex, a);
    RowsOpsLength(c, a, enrich, |c.names|);
  }

  /** The events before the row loop: six, or seven with the header write. */
  lemma FrontLength(sheet: Sheet, columnIndex: int, a: Allocation)
    ensures |Front(sheet, columnIndex, a)| == if a.added != [] then 7 else 6
  {
  }

  /** A request body field is usable when it is present and not the empty string. */
  predicate Given(field: Option<string>) {
    field.Some? && field.value != ""
  }

  /**
   * The handler: 400 without a usable `spreadsheetId`, `columnName` or
   * `sheetName`, before any spreadsheet access; 400 after reading the header
   * row when `columnName` is not a header; otherwise 200 after the trace
   * `Plan`.
   */
  method GenerateCompanyIdsLocation(spreadsheetId: Option<string>, columnName: Option<string>, sheetName: Option<string>,
                                    sheet: Sheet, enrich: nat -> Search.Enrichment)
    returns (response: Response, ops: seq<Op>)
    ensures !(Given(spreadsheetId) && Given(columnName) && Given(sheetName)) ==>
              response == Response(400, MissingParameters) && ops == []
    ensures Given(spreadsheetId) && Given(columnName) && Given(sheetName) && columnName.value !in sheet.headers ==>
              response == Response(400, InvalidColumn) && ops == [GetHeaders]
    ensures Given(spreadsheetId) && Given(columnName) && Given(sheetName) && columnName.value in sheet.headers ==>
              response == Response(200, Success) && ops == Plan(sheet, columnName.value, enrich)
  {
    if !Given(spreadsheetId) || !Given(columnName) || !Given(sheetName) {
      return Response(400, MissingParameters), [];
    }
    ops := [GetHeaders];
    var headers := sheet.headers;
    var columnIndex := IndexOf(headers, columnName.value) + 1;
    if columnIndex == 0 {
      return Response(400, InvalidColumn), ops;
    }
    var a := AllocateOutputColumns(headers);
    var header := UpdateHeader(headers, a);
    ops := ops + header + [GetLastRow] + ReadOps(sheet, columnIndex, a);
    var c := ReadColumns(sheet, columnIndex, a);
    var rows := ProcessRows(c, a, enrich);
    ops := ops + rows;
    response := Response(200, Success);
  }

  /** The number of header writes in a trace. */
  function HeaderWrites(ops: seq<Op>): nat {
    if ops == [] then 0 else (if ops[0].WriteHeader? then 1 else 0) + HeaderWrites(ops[1..])
  }

  lemma {:induction false} HeaderWritesAppend(x: seq<Op>, y: seq<Op>)
    ensures HeaderWrites(x + y) == HeaderWrites(x) + HeaderWrites(y)
    decreases |x|
  {
    if x == [] {
      assert x + y == y;
    } else {
      assert (x + y)[1..] == x[1..] + y;
      HeaderWritesAppend(x[1..], y);
    }
  }

  lemma {:induction false} NoHeaderWrites(ops: seq<Op>)
    requires forall k :: 0 <= k < |ops| ==> !ops[k].WriteHeader?
    ensures HeaderWrites(ops) == 0
    decreases |ops|
  {
    if ops != [] {
      NoHeaderWrites(ops[1..]);
    }
  }

  /** The row loop never writes the header row. */
  lemma {:induction false} RowsNoHeaderWrites(c: Columns, a: Allocation, enrich: nat -> Search.Enrichment, n: nat)
    requires n <= |c.names|
    ensures HeaderWrites(RowsOps(c, a, enrich, n)) == 0
    decreases n
  {
    if n > 0 {
      RowsNoHeaderWrites(c, a, enrich, n - 1);
      NoHeaderWrites(RowOps(c, a, enrich, n - 1));
      HeaderWritesAppend(RowsOps(c, a, enrich, n - 1), RowOps(c, a, enrich, n - 1));
    }
  }

  /** Before the row loop, the header row is written once exactly when a column was added. */
  lemma FrontHeaderWrites(sheet: Sheet, columnIndex: int, a: Allocation)
    ensures HeaderWrites(Front(sheet, columnIndex, a)) == if a.added != [] then 1 else 0
  {
    var header := HeaderOps(sheet.headers, a);
    var columnReads := ReadOps(sheet, columnIndex, a);
    NoHeaderWrites(columnReads);
    HeaderWritesAppend([GetHeaders], header);
    HeaderWritesAppend([GetHeaders] + header, [GetLastRow]);
    HeaderWritesAppend([GetHeaders] + header + [GetLastRow], columnReads);
  }

  /** The header row is written exactly once when an output column was missing, and never otherwise. */
  lemma HeaderWrittenOnce(sheet: Sheet, columnName: string, enrich: nat -> Search.Enrichment)
    ensures HeaderWrites(Plan(sheet, columnName, enrich)) ==
              if Absent(sheet.headers, OutputHeaders) != [] then 1 else 0
  {
    var a := OutputColumns(sheet.headers);
    var columnIndex := IndexOf(sheet.headers, columnName) + 1;
    var c := ReadColumns(sheet, columnIndex, a);
    var front := Front(sheet, columnIndex, a);
    var rows := RowsOps(c, a, enrich, |c.names|);
    FrontHeaderWrites(sheet, columnIndex, a);
    RowsNoHeaderWrites(c, a, enrich, |c.names|);
    HeaderWritesAppend(front, rows);
  }

  /** The A1 name of the 0-based column `i`, as code units: A to Z, then AA, AB, and so on. */
  function A1Column(i: nat): (name: seq<int>)
    ensures |name| >= 1
    ensures i >= 26 ==> |name| >= 2
    decreases i
  {
    if i < 26 then [65 + i] else A1Column(i / 26 - 1) + [65 + i % 26]
  }

  /**
   * `String.fromCharCode(65 + i)` names the 0-based column `i`, and
   * `String.fromCharCode(64 + k)` the 1-based column `k`, only up to Z.
   */
  lemma ColumnLetters(i: nat, k: nat)
    requires k >= 1
    ensures [65 + i] == A1Column(i) <==> i < 26
    ensures [64 + k] == A1Column(k - 1) <==> k <= 26
  {
  }

  /**
   * The source column is read with the letter of its own header: the code
   * unit `64 + columnIndex` is `65` plus the header's 0-based position.
   */
  lemma SourceColumnRead(sheet: Sheet, columnName: string, enrich: nat -> Search.Enrichment)
    requires columnName in sheet.headers
    ensures var plan := Plan(sheet, columnName, enrich);
      var a := OutputColumns(sheet.headers);
      var skip := if a.added != [] then 3 else 2;
      plan[skip] == ReadColumn(65 + IndexOf(sheet.headers, columnName), sheet.lastRow)
      && sheet.headers[IndexOf(sheet.headers, columnName)] == columnName
  {
  }
}
