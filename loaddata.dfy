/**
 * CSVBasedTrendChartWidgetRenderer.loadData: every source's rows flattened
 * into one table from the instant of a date to that date's values by key.
 * A data row (index > 0, at least one cell) is read when its first cell
 * parses as a date inside the window; each further cell i is stored under
 * the source's key prefix followed by header cell i.
 */
module LoadData {
  import opened Utils
  import opened JavaInt
  import opened CsvData

  /** The renderer's `data`: a TreeMap from a date's instant to that date's values by key. */
  type DataMap = map<int, map<string, Int32>>

  /** Integer.parseInt on a cell: None stands for a NumberFormatException. */
  type IntParser = string -> Option<Int32>

  /** The "yyyy-MM-dd" SimpleDateFormat's parse: None stands for a ParseException. */
  type DateParser = string -> Option<int>

  /** The key prefix of a source: none for the primary source, its name and a dot for a named one. */
  function Prefix(name: Option<string>): string {
    match name
    case None => ""
    case Some(n) => n + "."
  }

  /** The loop over the cells of a row from index i on: put prefix + header[i] |-> parseInt(row[i]). */
  function PutCells(m: map<string, Int32>, prefix: string, header: seq<string>, row: seq<string>, i: nat, parseInt: IntParser)
    : Result<map<string, Int32>, Exception>
    decreases |row| - i
  {
    if i >= |row| then Success(m)
    else if i >= |header| then Failure(IndexOutOfBounds(i))
    else match parseInt(row[i])
      case None => Failure(NumberFormat(row[i]))
      case Some(v) => PutCells(m[prefix + header[i] := v], prefix, header, row, i + 1, parseInt)
  }

  /** Cell j of the row has a header cell and parses. */
  predicate CellReadable(header: seq<string>, row: seq<string>, j: int, parseInt: IntParser)
    requires 0 <= j < |row|
  {
    j < |header| && parseInt(row[j]).Some?
  }

  /** The cells from i on fit under the header and all parse. */
  predicate CellsReadable(header: seq<string>, row: seq<string>, i: nat, parseInt: IntParser) {
    forall j :: i <= j < |row| ==> CellReadable(header, row, j, parseInt)
  }

  /**
   * The cell loop fails exactly when some cell lies beyond the header or
   * does not parse; the first such cell decides the exception, and at the
   * same index the header lookup comes before the parse.
   */
  lemma {:induction false} PutCellsOutcome(m: map<string, Int32>, prefix: string, header: seq<string>, row: seq<string>, i: nat,
                                           parseInt: IntParser)
    ensures PutCells(m, prefix, header, row, i, parseInt).Success? <==> CellsReadable(header, row, i, parseInt)
    ensures PutCells(m, prefix, header, row, i, parseInt).Failure? ==>
              exists j :: i <= j < |row| && CellsReadable(header, row[..j], i, parseInt) &&
                PutCells(m, prefix, header, row, i, parseInt).error ==
                  (if j >= |header| then IndexOutOfBounds(j) else NumberFormat(row[j]))
    decreases |row| - i
  {
    if i < |row| && i < |header| && parseInt(row[i]).Some? {
      var v := parseInt(row[i]).value;
      PutCellsOutcome(m[prefix + header[i] := v], prefix, header, row, i + 1, parseInt);
      if CellsReadable(header, row, i + 1, parseInt) {
        forall j | i <= j < |row|
          ensures CellReadable(header, row, j, parseInt)
        {
          if j > i {
            assert i + 1 <= j;
          }
        }
      }
      if PutCells(m, prefix, header, row, i, parseInt).Failure? {
        var j :| i + 1 <= j < |row| && CellsReadable(header, row[..j], i + 1, parseInt) &&
                 PutCells(m, prefix, header, row, i, parseInt).error ==
                   (if j >= |header| then IndexOutOfBounds(j) else NumberFormat(row[j]));
        assert CellsReadable(header, row[..j], i, parseInt);
      }
    } else if i < |row| {
      assert CellsReadable(header, row[..i], i, parseInt);
      assert !CellReadable(header, row, i, parseInt);
    }
  }

  /** Column j is the last one of the row under its header name. */
  predicate LastColumn(header: seq<string>, row: seq<string>, j: int)
    requires 0 <= j < |header| && |row| <= |header|
  {
    forall l :: j < l < |row| ==> header[l] != header[j]
  }

  /**
   * What the cell loop stores: every cell under prefix + its header, a later
   * cell with the same header overwriting an earlier one, and every other
   * entry left as it was.
   */
  lemma {:induction false} PutCellsContents(m: map<string, Int32>, prefix: string, header: seq<string>, row: seq<string>, i: nat,
                                            parseInt: IntParser, r: map<string, Int32>)
    requires PutCells(m, prefix, header, row, i, parseInt) == Success(r)
    ensures |row| <= |header| || |row| <= i
    ensures r.Keys == m.Keys + set j | i <= j < |row| && j < |header| :: prefix + header[j]
    ensures forall k :: k in m && (forall j :: i <= j < |row| && j < |header| ==> k != prefix + header[j]) ==> r[k] == m[k]
    ensures forall j :: i <= j < |row| && j < |header| && LastColumn(header, row, j) ==>
              Some(r[prefix + header[j]]) == parseInt(row[j])
    decreases |row| - i
  {
    if i < |row| {
      var v := parseInt(row[i]).value;
      var m' := m[prefix + header[i] := v];
      PutCellsContents(m', prefix, header, row, i + 1, parseInt, r);
      forall j | i <= j < |row| && j < |header| && LastColumn(header, row, j)
        ensures Some(r[prefix + header[j]]) == parseInt(row[j])
      {
        if j == i && i + 1 < |row| {
          assert forall l :: i < l < |row| ==> prefix + header[l] != prefix + header[i] by {
            forall l | i < l < |row|
              ensures prefix + header[l] != prefix + header[i]
            {
              assert header[l] != header[i];
              assert (prefix + header[l])[|prefix|..] == header[l];
              assert (prefix + header[i])[|prefix|..] == header[i];
            }
          }
        }
      }
    }
  }

  /** Row `rowNum` contributes the date d: a data row with cells whose first cell is d inside the window. */
  predicate Contributes(dates: Dates, parseDate: DateParser, rowNum: nat, row: seq<string>, d: int) {
    rowNum > 0 && row != [] && parseDate(row[0]) == Some(d) && dates.Contains(d)
  }

  /** The Visitor of loadData(data, keyPrefix, csvData, dates) on one row. */
  function LoadRow(data: DataMap, prefix: string, header: seq<string>, dates: Dates, parseInt: IntParser, parseDate: DateParser,
                   rowNum: nat, row: seq<string>): Result<DataMap, Exception>
  {
    if rowNum == 0 || row == [] then Success(data)
    else match parseDate(row[0])
      case None => Failure(DateParse(row[0]))
      case Some(d) =>
        if !dates.Contains(d) then Success(data)
        else
          var cells :- PutCells(if d in data then data[d] else map[], prefix, header, row, 1, parseInt);
          Success(data[d := cells])
  }

  /**
   * One row's effect: the header row, an empty row and a row dated outside
   * the window change nothing; an unparsable date fails; a contributing row
   * (re)writes exactly its date's entry, even when it holds no value cells.
   */
  lemma LoadRowEffect(data: DataMap, prefix: string, header: seq<string>, dates: Dates, parseInt: IntParser, parseDate: DateParser,
                      rowNum: nat, row: seq<string>)
    ensures rowNum == 0 || row == [] ==> LoadRow(data, prefix, header, dates, parseInt, parseDate, rowNum, row) == Success(data)
    ensures rowNum > 0 && row != [] && parseDate(row[0]).None? ==>
              LoadRow(data, prefix, header, dates, parseInt, parseDate, rowNum, row) == Failure(DateParse(row[0]))
    ensures rowNum > 0 && row != [] && parseDate(row[0]).Some? && !dates.Contains(parseDate(row[0]).value) ==>
              LoadRow(data, prefix, header, dates, parseInt, parseDate, rowNum, row) == Success(data)
    ensures forall d :: Contributes(dates, parseDate, rowNum, row, d) ==>
              (LoadRow(data, prefix, header, dates, parseInt, parseDate, rowNum, row).Success? <==>
                 CellsReadable(header, row, 1, parseInt))
    ensures forall d, r :: Contributes(dates, parseDate, rowNum, row, d) &&
                           LoadRow(data, prefix, header, dates, parseInt, parseDate, rowNum, row) == Success(r) ==>
              r.Keys == data.Keys + {d} && forall e :: e in data && e != d ==> r[e] == data[e]
    ensures forall d, r :: Contributes(dates, parseDate, rowNum, row, d) &&
                           LoadRow(data, prefix, header, dates, parseInt, parseDate, rowNum, row) == Success(r) ==>
              PutCells(if d in data then data[d] else map[], prefix, header, row, 1, parseInt) == Success(r[d])
  {
    if rowNum > 0 && row != [] && parseDate(row[0]).Some? {
      var d := parseDate(row[0]).value;
      PutCellsOutcome(if d in data then data[d] else map[], prefix, header, row, 1, parseInt);
    }
  }

  /** The instants of all dates lie in the window. */
  predicate InWindow(data: DataMap, dates: Dates) {
    forall d :: d in data ==> dates.Contains(d)
  }

  /** The keys of all dates lie in ks. */
  predicate KeysWithin(data: DataMap, ks: set<string>) {
    forall d :: d in data ==> data[d].Keys <= ks
  }

  /** The keys a source can write: its prefix followed by a header cell other than the date column's. */
  function HeaderKeys(prefix: string, header: seq<string>): set<string> {
    set j | 1 <= j < |header| :: prefix + header[j]
  }

  /** A row keeps the table in the window, within the source's keys, never drops a date and adds only its own. */
  lemma LoadRowKeeps(data: DataMap, prefix: string, header: seq<string>, dates: Dates, parseInt: IntParser, parseDate: DateParser,
                     rowNum: nat, row: seq<string>, ks: set<string>, r: DataMap)
    requires LoadRow(data, prefix, header, dates, parseInt, parseDate, rowNum, row) == Success(r)
    ensures InWindow(data, dates) ==> InWindow(r, dates)
    ensures KeysWithin(data, ks) ==> KeysWithin(r, ks + HeaderKeys(prefix, header))
    ensures data.Keys <= r.Keys
    ensures forall d :: Contributes(dates, parseDate, rowNum, row, d) ==> d in r
    ensures forall d :: d in r ==> d in data || Contributes(dates, parseDate, rowNum, row, d)
  {
    if rowNum > 0 && row != [] && parseDate(row[0]).Some? && dates.Contains(parseDate(row[0]).value) {
      var d := parseDate(row[0]).value;
      var old_ := if d in data then data[d] else map[];
      var cells := PutCells(old_, prefix, header, row, 1, parseInt).value;
      PutCellsContents(old_, prefix, header, row, 1, parseInt, cells);
    }
  }

  /** loadData's visitor as a function of the visit state: an exception ends the visit, so a failure is passed on. */
  function RowVisitor(prefix: string, header: seq<string>, dates: Dates, parseInt: IntParser, parseDate: DateParser)
    : (Result<DataMap, Exception>, nat, seq<string>) -> Result<DataMap, Exception>
  {
    (acc: Result<DataMap, Exception>, rowNum: nat, row: seq<string>) =>
      if acc.Failure? then acc else LoadRow(acc.value, prefix, header, dates, parseInt, parseDate, rowNum, row)
  }

  /** loadData(data, keyPrefix, csvData, dates): the visitor run over all rows of one source. */
  function LoadSource(data: DataMap, prefix: string, t: CsvTable, dates: Dates, parseInt: IntParser, parseDate: DateParser)
    : Result<DataMap, Exception>
  {
    VisitFold(t.rows, RowVisitor(prefix, t.Header(), dates, parseInt, parseDate), Success(data))
  }

  /** Visiting a prefix of the rows: the state before the last row is a success, and the last row is loaded into it. */
  lemma VisitStep(rows: seq<seq<string>>, prefix: string, header: seq<string>, dates: Dates, parseInt: IntParser,
                  parseDate: DateParser, data: DataMap, r: DataMap)
    requires rows != []
    requires VisitFold(rows, RowVisitor(prefix, header, dates, parseInt, parseDate), Success(data)) == Success(r)
    ensures var before := VisitFold(rows[..|rows| - 1], RowVisitor(prefix, header, dates, parseInt, parseDate), Success(data));
            before.Success? &&
            LoadRow(before.value, prefix, header, dates, parseInt, parseDate, |rows| - 1, rows[|rows| - 1]) == Success(r)
  {
  }

  /**
   * A whole source keeps the table in the window and within the keys its
   * header allows, never drops a date, and adds exactly the dates of its
   * contributing rows.
   */
  lemma {:induction false} VisitRowsKeeps(rows: seq<seq<string>>, prefix: string, header: seq<string>, dates: Dates,
                                          parseInt: IntParser, parseDate: DateParser, ks: set<string>, data: DataMap, r: DataMap)
    requires VisitFold(rows, RowVisitor(prefix, header, dates, parseInt, parseDate), Success(data)) == Success(r)
    ensures InWindow(data, dates) ==> InWindow(r, dates)
    ensures KeysWithin(data, ks) ==> KeysWithin(r, ks + HeaderKeys(prefix, header))
    ensures data.Keys <= r.Keys
    ensures forall i, d :: 0 <= i < |rows| && Contributes(dates, parseDate, i, rows[i], d) ==> d in r
    ensures forall d :: d in r ==> d in data || exists i :: 0 <= i < |rows| && Contributes(dates, parseDate, i, rows[i], d)
    decreases |rows|
  {
    if rows != [] {
      var init := rows[..|rows| - 1];
      VisitStep(rows, prefix, header, dates, parseInt, parseDate, data, r);
      var before := VisitFold(init, RowVisitor(prefix, header, dates, parseInt, parseDate), Success(data)).value;
      VisitRowsKeeps(init, prefix, header, dates, parseInt, parseDate, ks, data, before);
      LoadRowKeeps(before, prefix, header, dates, parseInt, parseDate, |rows| - 1, rows[|rows| - 1], ks, r);
      LoadRowKeeps(before, prefix, header, dates, parseInt, parseDate, |rows| - 1, rows[|rows| - 1],
                   ks + HeaderKeys(prefix, header), r);
      assert ks + HeaderKeys(prefix, header) + HeaderKeys(prefix, header) == ks + HeaderKeys(prefix, header);
      forall i, d | 0 <= i < |rows| && Contributes(dates, parseDate, i, rows[i], d)
        ensures d in r
      {
        if i < |rows| - 1 {
          assert rows[i] == init[i];
        }
      }
      forall d | d in r && d !in data && !Contributes(dates, parseDate, |rows| - 1, rows[|rows| - 1], d)
        ensures exists i :: 0 <= i < |rows| && Contributes(dates, parseDate, i, rows[i], d)
      {
        var i :| 0 <= i < |init| && Contributes(dates, parseDate, i, init[i], d);
        assert rows[i] == init[i];
      }
    }
  }

  predicate Listed(sources: map<Option<string>, CsvTable>, order: seq<Option<string>>) {
    forall i :: 0 <= i < |order| ==> order[i] in sources
  }

  /** loadData(csvData, dates): the sources loaded one after the other into a table that starts empty, in the map's iteration order. */
  function LoadAll(sources: map<Option<string>, CsvTable>, order: seq<Option<string>>, dates: Dates,
                   parseInt: IntParser, parseDate: DateParser): Result<DataMap, Exception>
    requires Listed(sources, order)
    decreases |order|
  {
    if order == [] then Success(map[])
    else
      var data :- LoadAll(sources, order[..|order| - 1], dates, parseInt, parseDate);
      var name := order[|order| - 1];
      LoadSource(data, Prefix(name), sources[name], dates, parseInt, parseDate)
  }

  /** Once a prefix of the sources fails, loading fails with the same exception. */
  lemma {:induction false} LoadAllFailurePersists(sources: map<Option<string>, CsvTable>, order: seq<Option<string>>, k: nat,
                                                  dates: Dates, parseInt: IntParser, parseDate: DateParser)
    requires Listed(sources, order) && k <= |order|
    requires LoadAll(sources, order[..k], dates, parseInt, parseDate).Failure?
    ensures LoadAll(sources, order, dates, parseInt, parseDate) == LoadAll(sources, order[..k], dates, parseInt, parseDate)
    decreases |order|
  {
    if k < |order| {
      var init := order[..|order| - 1];
      assert init[..k] == order[..k];
      LoadAllFailurePersists(sources, init, k, dates, parseInt, parseDate);
    } else {
      assert order[..k] == order;
    }
  }

  /** The outer loop of loadData over the sources, each source read with CSVData.visit. */
  method LoadData(sources: map<Option<string>, CsvTable>, order: seq<Option<string>>, dates: Dates,
                  parseInt: IntParser, parseDate: DateParser) returns (r: Result<DataMap, Exception>)
    requires Listed(sources, order)
    ensures r == LoadAll(sources, order, dates, parseInt, parseDate)
  {
    var data: DataMap := map[];
    var i := 0;
    assert order[..0] == [];
    while i < |order|
      invariant 0 <= i <= |order|
      invariant LoadAll(sources, order[..i], dates, parseInt, parseDate) == Success(data)
    {
      assert order[..i + 1][..i] == order[..i];
      var name := order[i];
      var t := sources[name];
      var loaded := Visit(t, RowVisitor(Prefix(name), t.Header(), dates, parseInt, parseDate), Success(data));
      if loaded.Failure? {
        LoadAllFailurePersists(sources, order, i + 1, dates, parseInt, parseDate);
        return loaded;
      }
      data := loaded.value;
      i := i + 1;
    }
    assert order[..i] == order;
    r := Success(data);
  }

  /** The keys the listed sources can write. */
  function ColumnKeys(sources: map<Option<string>, CsvTable>, order: seq<Option<string>>): set<string>
    requires Listed(sources, order)
    decreases |order|
  {
    if order == [] then {}
    else ColumnKeys(sources, order[..|order| - 1]) + HeaderKeys(Prefix(order[|order| - 1]), sources[order[|order| - 1]].Header())
  }

  /**
   * The loaded table: every date lies in the window, every key is a source's
   * prefix followed by one of its header cells, and the dates present are
   * exactly those of the contributing rows of the sources.
   */
  lemma {:induction false} LoadAllContents(sources: map<Option<string>, CsvTable>, order: seq<Option<string>>, dates: Dates,
                                           parseInt: IntParser, parseDate: DateParser, data: DataMap)
    requires Listed(sources, order)
    requires LoadAll(sources, order, dates, parseInt, parseDate) == Success(data)
    ensures InWindow(data, dates)
    ensures KeysWithin(data, ColumnKeys(sources, order))
    ensures forall j, i, d ::
              0 <= j < |order| && 0 <= i < |sources[order[j]].rows| &&
              Contributes(dates, parseDate, i, sources[order[j]].rows[i], d)
              ==> d in data
    ensures forall d :: d in data ==>
              exists j, i :: 0 <= j < |order| && 0 <= i < |sources[order[j]].rows| &&
                             Contributes(dates, parseDate, i, sources[order[j]].rows[i], d)
    decreases |order|
  {
    if order != [] {
      var init := order[..|order| - 1];
      var name := order[|order| - 1];
      var t := sources[name];
      var before := LoadAll(sources, init, dates, parseInt, parseDate).value;
      LoadAllContents(sources, init, dates, parseInt, parseDate, before);
      VisitRowsKeeps(t.rows, Prefix(name), t.Header(), dates, parseInt, parseDate, ColumnKeys(sources, init), before, data);
      forall j, i, d | 0 <= j < |order| && 0 <= i < |sources[order[j]].rows| &&
                       Contributes(dates, parseDate, i, sources[order[j]].rows[i], d)
        ensures d in data
      {
        if j < |order| - 1 {
          assert order[j] == init[j];
        }
      }
      forall d | d in data
        ensures exists j, i :: 0 <= j < |order| && 0 <= i < |sources[order[j]].rows| &&
                               Contributes(dates, parseDate, i, sources[order[j]].rows[i], d)
      {
        if d in before {
          var j, i :| 0 <= j < |init| && 0 <= i < |sources[init[j]].rows| &&
                      Contributes(dates, parseDate, i, sources[init[j]].rows[i], d);
          assert order[j] == init[j];
        } else {
          var i :| 0 <= i < |t.rows| && Contributes(dates, parseDate, i, t.rows[i], d);
          assert order[|order| - 1] == name;
        }
      }
    } else {
      assert data == map[];
    }
  }
}
