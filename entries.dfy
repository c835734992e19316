/**
 * What loadData stores under a date and a key: the value of the last cell
 * written there, reading the sources in the order they are loaded, the rows
 * of a source from top to bottom and the cells of a row from left to right.
 *
 * WritingColumn, WritingCell and WritingSource find that cell directly from
 * the sources; the lemmas below show that the loaded table agrees with them
 * and what "last" means in terms of source, row and column indices.
 */
module LoadEntries {
  import opened Utils
  import opened JavaInt
  import opened CsvData
  import opened LoadData

  /** Column c of a row stores under the key k: a value cell whose header, after the prefix, spells k. */
  predicate ColumnWrites(prefix: string, header: seq<string>, row: seq<string>, c: int, k: string) {
    1 <= c < |row| && c < |header| && prefix + header[c] == k
  }

  /** The rightmost column below n that stores under k. */
  function WritingColumn(prefix: string, header: seq<string>, row: seq<string>, k: string, n: nat): (r: Option<nat>)
    requires n <= |row|
    ensures r.Some? ==> r.value < n && ColumnWrites(prefix, header, row, r.value, k)
    ensures r.Some? ==> forall c :: r.value < c < n ==> !ColumnWrites(prefix, header, row, c, k)
    ensures r.None? ==> forall c :: c < n ==> !ColumnWrites(prefix, header, row, c, k)
    decreases n
  {
    if n <= 1 then None
    else if ColumnWrites(prefix, header, row, n - 1, k) then Some(n - 1)
    else WritingColumn(prefix, header, row, k, n - 1)
  }

  /** Cell (i, c) of a source stores under date d and key k: row i contributes d and its column c stores under k. */
  predicate CellWrites(rows: seq<seq<string>>, prefix: string, header: seq<string>, dates: Dates, parseDate: DateParser,
                       i: int, c: int, d: int, k: string) {
    0 <= i < |rows| && Contributes(dates, parseDate, i, rows[i], d) && ColumnWrites(prefix, header, rows[i], c, k)
  }

  /** The last cell of a source, in reading order, that stores under date d and key k. */
  function WritingCell(rows: seq<seq<string>>, prefix: string, header: seq<string>, dates: Dates, parseDate: DateParser,
                       d: int, k: string): (r: Option<(nat, nat)>)
    ensures r.Some? ==> r.value.0 < |rows| && r.value.1 < |rows[r.value.0]|
    decreases |rows|
  {
    if rows == [] then None
    else
      var row := rows[|rows| - 1];
      var col := WritingColumn(prefix, header, row, k, |row|);
      if Contributes(dates, parseDate, |rows| - 1, row, d) && col.Some? then Some((|rows| - 1, col.value))
      else WritingCell(rows[..|rows| - 1], prefix, header, dates, parseDate, d, k)
  }

  /**
   * WritingCell finds a cell exactly when some cell stores under (d, k), and
   * the one it finds comes after every other such cell: in a later row, or
   * further right in the same row.
   */
  lemma {:induction false} WritingCellSpec(rows: seq<seq<string>>, prefix: string, header: seq<string>, dates: Dates,
                                           parseDate: DateParser, d: int, k: string)
    ensures var w := WritingCell(rows, prefix, header, dates, parseDate, d, k);
            w.None? ==> forall i, c :: !CellWrites(rows, prefix, header, dates, parseDate, i, c, d, k)
    ensures var w := WritingCell(rows, prefix, header, dates, parseDate, d, k);
            w.Some? ==> CellWrites(rows, prefix, header, dates, parseDate, w.value.0, w.value.1, d, k) &&
                        forall i, c :: CellWrites(rows, prefix, header, dates, parseDate, i, c, d, k) ==>
                                       i < w.value.0 || (i == w.value.0 && c <= w.value.1)
    decreases |rows|
  {
    if rows != [] {
      var init := rows[..|rows| - 1];
      var row := rows[|rows| - 1];
      var col := WritingColumn(prefix, header, row, k, |row|);
      if !(Contributes(dates, parseDate, |rows| - 1, row, d) && col.Some?) {
        WritingCellSpec(init, prefix, header, dates, parseDate, d, k);
        forall i, c | CellWrites(rows, prefix, header, dates, parseDate, i, c, d, k)
          ensures i < |rows| - 1 && CellWrites(init, prefix, header, dates, parseDate, i, c, d, k)
        {
          assert i < |rows| - 1;
          assert init[i] == rows[i];
        }
        var w := WritingCell(init, prefix, header, dates, parseDate, d, k);
        if w.Some? {
          assert init[w.value.0] == rows[w.value.0];
        }
      }
    }
  }

  /** Cell (i, c) of the j-th source loaded stores under date d and key k. */
  predicate SourceWrites(sources: map<Option<string>, CsvTable>, order: seq<Option<string>>, dates: Dates, parseDate: DateParser,
                         j: int, i: int, c: int, d: int, k: string) {
    0 <= j < |order| && order[j] in sources &&
    CellWrites(sources[order[j]].rows, Prefix(order[j]), sources[order[j]].Header(), dates, parseDate, i, c, d, k)
  }

  /** Cell (j, i, c) stores under (d, k) and no cell read after it does. */
  ghost predicate LastSourceWrite(sources: map<Option<string>, CsvTable>, order: seq<Option<string>>, dates: Dates,
                                  parseDate: DateParser, j: int, i: int, c: int, d: int, k: string) {
    SourceWrites(sources, order, dates, parseDate, j, i, c, d, k) &&
    forall j', i', c' :: SourceWrites(sources, order, dates, parseDate, j', i', c', d, k) ==>
      j' < j || (j' == j && (i' < i || (i' == i && c' <= c)))
  }

  /** The last cell of all sources, in loading order, that stores under date d and key k. */
  function WritingSource(sources: map<Option<string>, CsvTable>, order: seq<Option<string>>, dates: Dates, parseDate: DateParser,
                         d: int, k: string): (r: Option<(nat, nat, nat)>)
    requires Listed(sources, order)
    ensures r.Some? ==> r.value.0 < |order| && r.value.1 < |sources[order[r.value.0]].rows| &&
                        r.value.2 < |sources[order[r.value.0]].rows[r.value.1]|
    decreases |order|
  {
    if order == [] then None
    else
      var t := sources[order[|order| - 1]];
      match WritingCell(t.rows, Prefix(order[|order| - 1]), t.Header(), dates, parseDate, d, k)
      case Some((i, c)) => Some((|order| - 1, i, c))
      case None => WritingSource(sources, order[..|order| - 1], dates, parseDate, d, k)
  }

  /** WritingSource finds a cell exactly when some cell stores under (d, k), and that cell is the last such one. */
  lemma {:induction false} WritingSourceSpec(sources: map<Option<string>, CsvTable>, order: seq<Option<string>>, dates: Dates,
                                             parseDate: DateParser, d: int, k: string)
    requires Listed(sources, order)
    ensures var w := WritingSource(sources, order, dates, parseDate, d, k);
            w.None? ==> forall j, i, c :: !SourceWrites(sources, order, dates, parseDate, j, i, c, d, k)
    ensures var w := WritingSource(sources, order, dates, parseDate, d, k);
            w.Some? ==> LastSourceWrite(sources, order, dates, parseDate, w.value.0, w.value.1, w.value.2, d, k)
    decreases |order|
  {
    if order != [] {
      var init := order[..|order| - 1];
      var name := order[|order| - 1];
      var t := sources[name];
      WritingCellSpec(t.rows, Prefix(name), t.Header(), dates, parseDate, d, k);
      if WritingCell(t.rows, Prefix(name), t.Header(), dates, parseDate, d, k).None? {
        WritingSourceSpec(sources, init, dates, parseDate, d, k);
        forall j, i, c | SourceWrites(sources, order, dates, parseDate, j, i, c, d, k)
          ensures j < |order| - 1 && SourceWrites(sources, init, dates, parseDate, j, i, c, d, k)
        {
          assert j < |order| - 1;
          assert init[j] == order[j];
        }
        var w := WritingSource(sources, init, dates, parseDate, d, k);
        if w.Some? {
          assert init[w.value.0] == order[w.value.0];
        }
      }
    }
  }

  /** A day's value under a key, if it has one. */
  function Lookup(m: map<string, Int32>, k: string): Option<Int32> {
    if k in m then Some(m[k]) else None
  }

  /** The table's value under a date and a key, if it has one. */
  function Entry(data: DataMap, d: int, k: string): Option<Int32> {
    if d in data then Lookup(data[d], k) else None
  }

  /** The cell loop leaves under k the parsed rightmost cell storing there, or the day's earlier value when none does. */
  lemma PutCellsEntry(m: map<string, Int32>, prefix: string, header: seq<string>, row: seq<string>, parseInt: IntParser,
                      cells: map<string, Int32>, k: string)
    requires PutCells(m, prefix, header, row, 1, parseInt) == Success(cells)
    ensures match WritingColumn(prefix, header, row, k, |row|)
            case Some(c) => k in cells && Some(cells[k]) == parseInt(row[c])
            case None => Lookup(cells, k) == Lookup(m, k)
  {
    PutCellsContents(m, prefix, header, row, 1, parseInt, cells);
    var w := WritingColumn(prefix, header, row, k, |row|);
    if w.Some? {
      var c := w.value;
      assert |row| <= |header|;
      assert k in cells by {
        assert prefix + header[c] in set j | 1 <= j < |row| && j < |header| :: prefix + header[j];
      }
      assert LastColumn(header, row, c) by {
        forall l | c < l < |row|
          ensures header[l] != header[c]
        {
          assert !ColumnWrites(prefix, header, row, l, k);
        }
      }
    } else {
      assert k !in set j | 1 <= j < |row| && j < |header| :: prefix + header[j] by {
        if k in set j | 1 <= j < |row| && j < |header| :: prefix + header[j] {
          var j :| 1 <= j < |row| && j < |header| && prefix + header[j] == k;
          assert ColumnWrites(prefix, header, row, j, k);
        }
      }
    }
  }

  /** One row changes the value under (d, k) exactly when it contributes d and a cell of it stores under k. */
  lemma LoadRowEntry(data: DataMap, prefix: string, header: seq<string>, dates: Dates, parseInt: IntParser, parseDate: DateParser,
                     rowNum: nat, row: seq<string>, r: DataMap, d: int, k: string)
    requires LoadRow(data, prefix, header, dates, parseInt, parseDate, rowNum, row) == Success(r)
    ensures var col := WritingColumn(prefix, header, row, k, |row|);
            if Contributes(dates, parseDate, rowNum, row, d) && col.Some?
            then Entry(r, d, k).Some? && Entry(r, d, k) == parseInt(row[col.value])
            else Entry(r, d, k) == Entry(data, d, k)
  {
    if rowNum > 0 && row != [] && parseDate(row[0]).Some? && dates.Contains(parseDate(row[0]).value) {
      var e := parseDate(row[0]).value;
      var m := if e in data then data[e] else map[];
      var cells := PutCells(m, prefix, header, row, 1, parseInt).value;
      PutCellsEntry(m, prefix, header, row, parseInt, cells, k);
    }
  }

  /** A whole source leaves under (d, k) its last cell storing there, parsed, or the earlier value when no cell does. */
  lemma {:induction false} VisitRowsEntry(rows: seq<seq<string>>, prefix: string, header: seq<string>, dates: Dates,
                                          parseInt: IntParser, parseDate: DateParser, data: DataMap, r: DataMap, d: int, k: string)
    requires VisitFold(rows, RowVisitor(prefix, header, dates, parseInt, parseDate), Success(data)) == Success(r)
    ensures match WritingCell(rows, prefix, header, dates, parseDate, d, k)
            case Some((i, c)) => Entry(r, d, k).Some? && Entry(r, d, k) == parseInt(rows[i][c])
            case None => Entry(r, d, k) == Entry(data, d, k)
    decreases |rows|
  {
    if rows != [] {
      var init := rows[..|rows| - 1];
      VisitStep(rows, prefix, header, dates, parseInt, parseDate, data, r);
      var before := VisitFold(init, RowVisitor(prefix, header, dates, parseInt, parseDate), Success(data)).value;
      VisitRowsEntry(init, prefix, header, dates, parseInt, parseDate, data, before, d, k);
      LoadRowEntry(before, prefix, header, dates, parseInt, parseDate, |rows| - 1, rows[|rows| - 1], r, d, k);
      var w := WritingCell(init, prefix, header, dates, parseDate, d, k);
      if w.Some? {
        assert init[w.value.0] == rows[w.value.0];
      }
    }
  }

  /** The loaded table holds under (d, k) the parsed value of WritingSource's cell, and nothing when there is none. */
  lemma {:induction false} LoadAllEntry(sources: map<Option<string>, CsvTable>, order: seq<Option<string>>, dates: Dates,
                                        parseInt: IntParser, parseDate: DateParser, data: DataMap, d: int, k: string)
    requires Listed(sources, order)
    requires LoadAll(sources, order, dates, parseInt, parseDate) == Success(data)
    ensures match WritingSource(sources, order, dates, parseDate, d, k)
            case Some((j, i, c)) => Entry(data, d, k).Some? && Entry(data, d, k) == parseInt(sources[order[j]].rows[i][c])
            case None => Entry(data, d, k).None?
    decreases |order|
  {
    if order != [] {
      var init := order[..|order| - 1];
      var name := order[|order| - 1];
      var t := sources[name];
      var before := LoadAll(sources, init, dates, parseInt, parseDate).value;
      LoadAllEntry(sources, init, dates, parseInt, parseDate, before, d, k);
      VisitRowsEntry(t.rows, Prefix(name), t.Header(), dates, parseInt, parseDate, before, data, d, k);
      if WritingCell(t.rows, Prefix(name), t.Header(), dates, parseDate, d, k).None? {
        var w := WritingSource(sources, init, dates, parseDate, d, k);
        assert WritingSource(sources, order, dates, parseDate, d, k) == w;
        if w.Some? {
          assert init[w.value.0] == order[w.value.0];
        }
      }
    }
  }

  /** The table has a value under (d, k) exactly when some cell stores there, and it is the parsed last such cell. */
  lemma LoadAllEntryAt(sources: map<Option<string>, CsvTable>, order: seq<Option<string>>, dates: Dates,
                       parseInt: IntParser, parseDate: DateParser, data: DataMap, d: int, k: string)
    requires Listed(sources, order)
    requires LoadAll(sources, order, dates, parseInt, parseDate) == Success(data)
    ensures Entry(data, d, k).Some? <==> exists j, i, c :: SourceWrites(sources, order, dates, parseDate, j, i, c, d, k)
    ensures Entry(data, d, k).Some? ==>
              exists j, i, c :: LastSourceWrite(sources, order, dates, parseDate, j, i, c, d, k) &&
                                Entry(data, d, k) == parseInt(sources[order[j]].rows[i][c])
  {
    LoadAllEntry(sources, order, dates, parseInt, parseDate, data, d, k);
    WritingSourceSpec(sources, order, dates, parseDate, d, k);
    var w := WritingSource(sources, order, dates, parseDate, d, k);
    if w.Some? {
      var (j, i, c) := w.value;
      assert SourceWrites(sources, order, dates, parseDate, j, i, c, d, k);
    }
  }

  /**
   * loadData's table: a date has a value under a key exactly when some cell
   * of some source stores under that date and key, and the value is the
   * parsed last such cell: from the source loaded last, then the lowest
   * row, then the rightmost column.
   */
  lemma LoadAllEntries(sources: map<Option<string>, CsvTable>, order: seq<Option<string>>, dates: Dates,
                       parseInt: IntParser, parseDate: DateParser, data: DataMap)
    requires Listed(sources, order)
    requires LoadAll(sources, order, dates, parseInt, parseDate) == Success(data)
    ensures forall d, k :: Entry(data, d, k).Some? <==>
              exists j, i, c :: SourceWrites(sources, order, dates, parseDate, j, i, c, d, k)
    ensures forall d, k :: Entry(data, d, k).Some? ==>
              exists j, i, c :: LastSourceWrite(sources, order, dates, parseDate, j, i, c, d, k) &&
                                Entry(data, d, k) == parseInt(sources[order[j]].rows[i][c])
  {
    forall d, k
      ensures Entry(data, d, k).Some? <==> exists j, i, c :: SourceWrites(sources, order, dates, parseDate, j, i, c, d, k)
    {
      LoadAllEntryAt(sources, order, dates, parseInt, parseDate, data, d, k);
    }
    forall d, k | Entry(data, d, k).Some?
      ensures exists j, i, c :: LastSourceWrite(sources, order, dates, parseDate, j, i, c, d, k) &&
                                Entry(data, d, k) == parseInt(sources[order[j]].rows[i][c])
    {
      LoadAllEntryAt(sources, order, dates, parseInt, parseDate, data, d, k);
    }
  }
}
