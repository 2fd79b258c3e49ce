/**
 * The result side of the driver (driver/rows.go): turning Druid's decoded `array`
 * response into column names and rows, and the cursor that `database/sql` drives
 * through `Next`.
 */
module ResultSet {
  import opened Wrappers
  import opened Values

  /** The outcome of `json.Unmarshal` on the response body into `[][]interface{}`. */
  datatype Response =
    | Undecodable(reason: string)            // the body is not an array of arrays
    | Decoded(results: seq<seq<Value>>)      // the decoded arrays, in order

  /** Why parseResponse produced no rows. */
  datatype ParseError =
    | UnmarshalFailed(reason: string)
    | NoRows                                 // `sql.ErrNoRows`: the response array is empty
    | HeaderNotString(position: nat)         // `val.(string)` panics on this cell of row 0

  /** The errors the cursor returns. */
  datatype RowsError =
    | NoNextRecord          // "druid: no next data record"
    | ColumnCountMismatch   // "druid: number of refs passed to scan does not match column count"
    | NextResultEmpty       // "NextResult is empty"

  /** What a successful parse holds: the names from row 0 and every later row as data. */
  datatype Table = Table(columnNames: seq<string>, rows: seq<seq<Value>>)

  /**
   * The names of row 0, or the position of its first cell that is not a string
   * (where the type assertion of parseResponse panics).
   */
  function HeaderNames(header: seq<Value>): (r: Result<seq<string>, nat>)
    ensures r.Success? <==> forall k :: 0 <= k < |header| ==> header[k].Str?
    ensures r.Success? ==> |r.value| == |header| && forall k :: 0 <= k < |header| ==> r.value[k] == header[k].s
    ensures r.Failure? ==>
      r.error < |header| && !header[r.error].Str? && forall k :: 0 <= k < r.error ==> header[k].Str?
    decreases |header|
  {
    if header == [] then Success([])
    else if !header[0].Str? then Failure(0)
    else
      match HeaderNames(header[1..])
      case Success(names) => Success([header[0].s] + names)
      case Failure(p) => Failure(p + 1)
  }

  /** parseResponse over the decoded response. */
  function ParseTable(resp: Response): (r: Result<Table, ParseError>)
    ensures r.Success? <==>
      resp.Decoded? && resp.results != [] && forall k :: 0 <= k < |resp.results[0]| ==> resp.results[0][k].Str?
    ensures r.Success? ==>
      && |r.value.columnNames| == |resp.results[0]|
      && (forall k :: 0 <= k < |resp.results[0]| ==> resp.results[0][k] == Str(r.value.columnNames[k]))
      && r.value.rows == resp.results[1..]
    ensures resp.Decoded? && resp.results == [] ==> r == Failure(NoRows)
  {
    match resp
    case Undecodable(reason) => Failure(UnmarshalFailed(reason))
    case Decoded(results) =>
      if results == [] then Failure(NoRows)
      else
        match HeaderNames(results[0])
        case Failure(p) => Failure(HeaderNotString(p))
        case Success(names) => Success(Table(names, results[1..]))
  }

  /**
   * Druid answers with a names row, then a types row, then the data. Because only
   * row 0 is taken as the header, the types row comes out as the first data row.
   */
  lemma TypesRowIsFirstRow(names: seq<string>, types: seq<Value>, data: seq<seq<Value>>)
    ensures var header := seq(|names|, k requires 0 <= k < |names| => Str(names[k]));
      var r := ParseTable(Decoded([header, types] + data));
      r.Success? && r.value.columnNames == names && r.value.rows == [types] + data
  {
    var header := seq(|names|, k requires 0 <= k < |names| => Str(names[k]));
    var results := [header, types] + data;
    var r := ParseTable(Decoded(results));
    assert results[0] == header;
    assert results[1..] == [types] + data;
    assert r.value.columnNames == names;
  }

  /** Whether Next copies a cell: the five kinds its type switch names. */
  predicate Scannable(v: Value) {
    v.Bool? || v.Str? || v.Int? || v.Int64? || v.Float64?
  }

  /** The destination after Next copies one row into it. */
  function ScanRow(data: seq<Value>, dest: seq<Value>): (r: seq<Value>)
    requires |data| == |dest|
    ensures |r| == |dest|
  {
    seq(|dest|, k requires 0 <= k < |dest| => if Scannable(data[k]) then data[k] else dest[k])
  }

  /** Only copyable cells reach the destination; nil and other kinds leave it as it was. */
  lemma ScanRowCells(data: seq<Value>, dest: seq<Value>, k: nat)
    requires |data| == |dest| && k < |dest|
    ensures Scannable(data[k]) ==> ScanRow(data, dest)[k] == data[k]
    ensures !Scannable(data[k]) ==> ScanRow(data, dest)[k] == dest[k]
  {
  }

  /** Scanning the same row twice gives what scanning it once gave. */
  lemma ScanRowIdempotent(data: seq<Value>, dest: seq<Value>)
    requires |data| == |dest|
    ensures ScanRow(data, ScanRow(data, dest)) == ScanRow(data, dest)
  {
  }

  /** A row of copyable cells comes out whole, whatever the destination held. */
  lemma ScanRowCopies(data: seq<Value>, dest: seq<Value>)
    requires |data| == |dest| && forall k :: 0 <= k < |data| ==> Scannable(data[k])
    ensures ScanRow(data, dest) == data
  {
  }

  /** The cursor's state as a value. */
  datatype Cursor = Cursor(columnNames: seq<string>, rows: seq<seq<Value>>, currentRow: int) {
    ghost predicate Valid() {
      0 <= currentRow <= |rows|
    }

    predicate Exhausted() {
      currentRow == |rows|
    }
  }

  /** One call of Next: the new cursor, the destination and the error returned. */
  function Step(c: Cursor, dest: seq<Value>): (r: (Cursor, seq<Value>, Option<RowsError>))
    requires c.Valid()
    ensures r.0.Valid() && r.0.columnNames == c.columnNames && r.0.rows == c.rows
    ensures r.2.None? <==> !c.Exhausted() && |c.rows[c.currentRow]| == |dest|
    ensures r.2.None? ==> r.0.currentRow == c.currentRow + 1
    ensures r.2.Some? ==> r.0 == c && r.1 == dest
    ensures c.Exhausted() ==> r.2 == Some(NoNextRecord)
    ensures !c.Exhausted() && |c.rows[c.currentRow]| != |dest| ==> r.2 == Some(ColumnCountMismatch)
    ensures r.2.None? ==> r.1 == ScanRow(c.rows[c.currentRow], dest)
  {
    if c.currentRow == |c.rows| then (c, dest, Some(NoNextRecord))
    else if |c.rows[c.currentRow]| != |dest| then (c, dest, Some(ColumnCountMismatch))
    else (c.(currentRow := c.currentRow + 1), ScanRow(c.rows[c.currentRow], dest), None)
  }

  /** Calling Next with each destination of dests in turn: the errors returned and the final cursor. */
  function Run(c: Cursor, dests: seq<seq<Value>>): (r: (Cursor, seq<Option<RowsError>>))
    requires c.Valid()
    ensures r.0.Valid() && |r.1| == |dests|
    decreases |dests|
  {
    if dests == [] then (c, [])
    else
      var (c', _, err) := Step(c, dests[0]);
      var (last, errs) := Run(c', dests[1..]);
      (last, [err] + errs)
  }

  /** Once exhausted, every later call of Next fails the same way and changes nothing. */
  lemma {:induction false} ExhaustedStaysExhausted(c: Cursor, dests: seq<seq<Value>>)
    requires c.Valid() && c.Exhausted()
    ensures Run(c, dests).0 == c
    ensures |Run(c, dests).1| == |dests|
    ensures forall k :: 0 <= k < |dests| ==> Run(c, dests).1[k] == Some(NoNextRecord)
    decreases |dests|
  {
    if dests != [] {
      ExhaustedStaysExhausted(c, dests[1..]);
    }
  }

  /**
   * Reading with a destination as wide as every remaining row returns those rows one
   * by one (each cell copied when copyable) and leaves the cursor exhausted.
   */
  function Drain(c: Cursor, dest: seq<Value>): (r: (Cursor, seq<seq<Value>>))
    requires c.Valid()
    decreases |c.rows| - c.currentRow
  {
    var (c', d', err) := Step(c, dest);
    if err.Some? then (c, [])
    else
      var (last, read) := Drain(c', d');
      (last, [d'] + read)
  }

  lemma {:induction false} DrainReadsEveryRow(c: Cursor, dest: seq<Value>)
    requires c.Valid()
    requires forall k :: c.currentRow <= k < |c.rows| ==> |c.rows[k]| == |dest|
    requires forall k, j :: c.currentRow <= k < |c.rows| && 0 <= j < |c.rows[k]| ==> Scannable(c.rows[k][j])
    ensures Drain(c, dest).0 == c.(currentRow := |c.rows|)
    ensures Drain(c, dest).1 == c.rows[c.currentRow..]
    decreases |c.rows| - c.currentRow
  {
    if !c.Exhausted() {
      var row := c.rows[c.currentRow];
      var (c', d', err) := Step(c, dest);
      ScanRowCopies(row, dest);
      assert d' == row;
      DrainReadsEveryRow(c', d');
      assert c.rows[c.currentRow..] == [row] + c.rows[c.currentRow + 1..];
    }
  }

  /** The cursor over a parsed response (Rows and its resultSet). */
  class Rows {
    var columnNames: seq<string>
    var rows: seq<seq<Value>>
    var currentRow: int

    ghost predicate Valid()
      reads this
    {
      0 <= currentRow <= |rows|
    }

    ghost function State(): Cursor
      reads this
    {
      Cursor(columnNames, rows, currentRow)
    }

    /** The Rows that parseResponse builds: positioned before the first row. */
    constructor (columnNames: seq<string>, rows: seq<seq<Value>>)
      ensures Valid()
      ensures this.columnNames == columnNames && this.rows == rows && currentRow == 0
    {
      this.columnNames := columnNames;
      this.rows := rows;
      currentRow := 0;
    }

    /** `&Rows{}`: no names, no rows. */
    constructor Empty()
      ensures Valid() && State() == Cursor([], [], 0) && State().Exhausted()
    {
      columnNames := [];
      rows := [];
      currentRow := 0;
    }

    function Columns(): (names: seq<string>)
      reads this
      ensures names == State().columnNames
    {
      columnNames
    }

    method Close() returns (err: Option<RowsError>)
      ensures err == None
    {
      return None;
    }

    function HasNextResultSet(): (more: bool)
      reads this
      requires Valid()
      ensures more <==> currentRow < |rows|
      ensures more <==> !State().Exhausted()
    {
      currentRow != |rows|
    }

    method NextResultSet() returns (err: Option<RowsError>)
      requires Valid()
      modifies this
      ensures Valid()
      ensures columnNames == old(columnNames) && rows == old(rows)
      ensures old(State()).Exhausted() ==> err == Some(NextResultEmpty) && currentRow == old(currentRow)
      ensures !old(State()).Exhausted() ==> err == None && currentRow == old(currentRow) + 1
    {
      if !HasNextResultSet() {
        return Some(NextResultEmpty);
      }
      currentRow := currentRow + 1;
      return None;
    }

    /** Copies the current row into dest and moves to the next row. */
    method Next(dest: array<Value>) returns (err: Option<RowsError>)
      requires Valid()
      modifies this, dest
      ensures Valid()
      ensures (State(), dest[..], err) == Step(old(State()), old(dest[..]))
    {
      if !HasNextResultSet() {
        return Some(NoNextRecord);
      }
      var data := rows[currentRow];
      if |data| != dest.Length {
        return Some(ColumnCountMismatch);
      }
      for i := 0 to dest.Length
        modifies dest
        invariant forall k :: 0 <= k < i ==> dest[k] == if Scannable(data[k]) then data[k] else old(dest[k])
        invariant forall k :: i <= k < dest.Length ==> dest[k] == old(dest[k])
      {
        match data[i]
        case Nil =>
        case Bool(_) => dest[i] := data[i];
        case Str(_) => dest[i] := data[i];
        case Int(_) => dest[i] := data[i];
        case Int64(_) => dest[i] := data[i];
        case Float64(_) => dest[i] := data[i];
        case Other(_, _) =>
      }
      assert dest[..] == ScanRow(data, old(dest[..]));
      err := NextResultSet();
    }

    method SetColumns(columns: seq<string>)
      modifies this
      ensures columnNames == columns && rows == old(rows) && currentRow == old(currentRow)
    {
      columnNames := columns;
    }
  }

  /** parseResponse: names from row 0, every later row cell by cell, cursor at 0. */
  method ParseResponse(resp: Response) returns (r: Rows, err: Option<ParseError>)
    ensures fresh(r) && r.Valid() && r.currentRow == 0
    ensures ParseTable(resp).Success? ==>
      err == None && r.columnNames == ParseTable(resp).value.columnNames && r.rows == ParseTable(resp).value.rows
    ensures ParseTable(resp).Failure? ==>
      err == Some(ParseTable(resp).error) && r.columnNames == [] && r.rows == []
  {
    if resp.Undecodable? {
      r := new Rows.Empty();
      return r, Some(UnmarshalFailed(resp.reason));
    }
    var results: seq<seq<Value>> := resp.results;
    if |results| == 0 {
      r := new Rows.Empty();
      return r, Some(NoRows);
    }
    var columnNames: seq<string> := [];
    for i := 0 to |results[0]|
      invariant |columnNames| == i
      invariant forall k :: 0 <= k < i ==> results[0][k].Str? && columnNames[k] == results[0][k].s
    {
      var val := results[0][i];
      if !val.Str? {
        assert HeaderNames(results[0]) == Failure(i);
        r := new Rows.Empty();
        return r, Some(HeaderNotString(i));
      }
      columnNames := columnNames + [val.s];
    }
    var names := HeaderNames(results[0]);
    assert names.Success?;
    assert names.value == columnNames;
    var returnedRows: seq<seq<Value>> := [];
    for i := 1 to |results|
      invariant returnedRows == results[1..i]
    {
      var cols: seq<Value> := [];
      for j := 0 to |results[i]|
        invariant cols == results[i][..j]
      {
        cols := cols + [results[i][j]];
      }
      assert cols == results[i];
      returnedRows := returnedRows + [cols];
    }
    r := new Rows(columnNames, returnedRows);
    err := None;
  }
}
