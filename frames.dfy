/**
 * The observable row semantics of the table operations the retrieval pipeline relies on:
 * building a frame from a dict of column values, concatenating frames, renaming a column,
 * selecting columns, and a left merge on one key column.  A table is a set of column
 * names and a sequence of rows; a row maps column names to cells.  Column order is not
 * modelled.
 */
module Frames {
  import opened Errors

  /** A shape parsed from GeoJSON; the pipeline never looks inside it. */
  datatype Geometry = Geometry(wkt: string)

  /** A table cell, or the value of a JSON property. */
  datatype Value =
    | Null
    | Text(text: string)
    | Number(number: int)
    | Flag(flag: bool)
    | Items(items: seq<Value>)
    | Shape(shape: Geometry)

  type Row = map<string, Value>

  datatype Table = Table(columns: set<string>, rows: seq<Row>)

  /** Every row has exactly the table's columns. */
  ghost predicate WellFormed(t: Table) {
    forall i :: 0 <= i < |t.rows| ==> t.rows[i].Keys == t.columns
  }

  // ---------------------------------------------------------------------------
  // Aligning rows on a column set

  /** The row `r` laid out on the columns `cols`: absent cells become null, extra cells are dropped. */
  function Widen(r: Row, cols: set<string>): Row {
    map k | k in cols :: if k in r then r[k] else Null
  }

  function WidenRows(rows: seq<Row>, cols: set<string>): (ws: seq<Row>)
    ensures |ws| == |rows|
  {
    seq(|rows|, i requires 0 <= i < |rows| => Widen(rows[i], cols))
  }

  lemma WidenOwnKeys(r: Row)
    ensures Widen(r, r.Keys) == r
  {
  }

  lemma WidenRowsAppend(a: seq<Row>, b: seq<Row>, cols: set<string>)
    ensures WidenRows(a + b, cols) == WidenRows(a, cols) + WidenRows(b, cols)
  {
    assert forall i :: 0 <= i < |a| ==> (a + b)[i] == a[i];
    assert forall i :: |a| <= i < |a| + |b| ==> (a + b)[i] == b[i - |a|];
  }

  lemma WidenRowsOwnColumns(rows: seq<Row>, cols: set<string>)
    requires forall i :: 0 <= i < |rows| ==> rows[i].Keys == cols
    ensures WidenRows(rows, cols) == rows
  {
    forall i | 0 <= i < |rows|
      ensures WidenRows(rows, cols)[i] == rows[i]
    {
      WidenOwnKeys(rows[i]);
    }
  }

  // ---------------------------------------------------------------------------
  // Concatenation

  function AllColumns(ts: seq<Table>): set<string> {
    if ts == [] then {} else ts[0].columns + AllColumns(ts[1..])
  }

  function StackRows(ts: seq<Table>, cols: set<string>): seq<Row> {
    if ts == [] then [] else WidenRows(ts[0].rows, cols) + StackRows(ts[1..], cols)
  }

  /** The rows of all tables, one table after the other. */
  function Flatten(ts: seq<Table>): seq<Row> {
    if ts == [] then [] else ts[0].rows + Flatten(ts[1..])
  }

  /**
   * Row-wise concatenation: the columns are the union of all columns, the rows are the
   * rows of each table in turn, each padded with nulls.  No tables at all is an error.
   */
  function Concat(ts: seq<Table>): (r: Result<Table>)
    ensures r.Failure? <==> ts == []
    ensures r.Failure? ==> r.error == NothingToConcatenate
    ensures r.Success? ==> WellFormed(r.value) && r.value.columns == AllColumns(ts)
    ensures r.Success? ==> |r.value.rows| == |Flatten(ts)|
  {
    if ts == [] then Failure(NothingToConcatenate)
    else
      var cols := AllColumns(ts);
      StackRowsShape(ts, cols);
      Success(Table(cols, StackRows(ts, cols)))
  }

  lemma {:induction false} StackRowsShape(ts: seq<Table>, cols: set<string>)
    ensures |StackRows(ts, cols)| == |Flatten(ts)|
    ensures forall i :: 0 <= i < |StackRows(ts, cols)| ==> StackRows(ts, cols)[i].Keys == cols
  {
    if ts != [] {
      StackRowsShape(ts[1..], cols);
    }
  }

  /** Concatenating tables that all share one column set just strings their rows together. */
  lemma {:induction false} ConcatUniform(ts: seq<Table>, cols: set<string>)
    requires ts != []
    requires forall i :: 0 <= i < |ts| ==> ts[i].columns == cols && WellFormed(ts[i])
    ensures Concat(ts) == Success(Table(cols, Flatten(ts)))
  {
    AllColumnsUniform(ts, cols);
    StackRowsUniform(ts, cols);
  }

  lemma {:induction false} AllColumnsUniform(ts: seq<Table>, cols: set<string>)
    requires ts != []
    requires forall i :: 0 <= i < |ts| ==> ts[i].columns == cols
    ensures AllColumns(ts) == cols
  {
    if |ts| > 1 {
      AllColumnsUniform(ts[1..], cols);
    }
  }

  lemma {:induction false} StackRowsUniform(ts: seq<Table>, cols: set<string>)
    requires forall i :: 0 <= i < |ts| ==> ts[i].columns == cols && WellFormed(ts[i])
    ensures StackRows(ts, cols) == Flatten(ts)
  {
    if ts != [] {
      WidenRowsOwnColumns(ts[0].rows, cols);
      StackRowsUniform(ts[1..], cols);
    }
  }

  // ---------------------------------------------------------------------------
  // Building a frame from a dict of column values

  /** The lengths of the list-valued entries of `data`. */
  function ListLengths(data: map<string, Value>): set<nat> {
    set k | k in data && data[k].Items? :: |data[k].items|
  }

  /** Entry `i` of a list-valued column; a scalar is repeated on every row. */
  function Cell(v: Value, i: nat): Value {
    if v.Items? && i < |v.items| then v.items[i] else v
  }

  function BroadcastRow(data: map<string, Value>, i: nat): Row {
    map k | k in data :: Cell(data[k], i)
  }

  lemma SingletonCardinality(s: set<nat>)
    ensures |s| == 1 <==> exists n :: n in s && s == {n}
  {
    if |s| == 1 {
      var n :| n in s;
      assert |s - {n}| == 0;
      assert s == {n};
    }
  }

  /**
   * A frame built from a dict: list values are columns, every scalar is repeated on each
   * row.  An empty dict is the empty frame; a non-empty dict holding only scalars, or lists
   * of different lengths, is rejected.
   */
  function FromColumns(data: map<string, Value>): (r: Result<Table>)
    ensures data == map[] ==> r == Success(Table({}, []))
    ensures data != map[] ==> (r.Success? <==> |ListLengths(data)| == 1)
    ensures r.Failure? ==> r.error == (if ListLengths(data) == {} then ScalarsNeedIndex else LengthMismatch)
    ensures r.Success? ==> r.value.columns == data.Keys
    ensures r.Success? && data != map[] ==> ListLengths(data) == {|r.value.rows|}
  {
    var lengths := ListLengths(data);
    SingletonCardinality(lengths);
    if data == map[] then Success(Table({}, []))
    else if lengths == {} then Failure(ScalarsNeedIndex)
    else if exists n :: n in lengths && lengths == {n} then
      var n :| n in lengths && lengths == {n};
      Success(Table(data.Keys, seq(n, i requires 0 <= i < n => BroadcastRow(data, i))))
    else Failure(LengthMismatch)
  }

  /** Row `i` of a frame built from a dict holds entry `i` of every list and every scalar as it is. */
  lemma FromColumnsCells(data: map<string, Value>)
    requires FromColumns(data).Success?
    ensures WellFormed(FromColumns(data).value)
    ensures var t := FromColumns(data).value;
      forall i, k :: 0 <= i < |t.rows| && k in data ==>
        if data[k].Items? then |data[k].items| == |t.rows| && t.rows[i][k] == data[k].items[i]
        else t.rows[i][k] == data[k]
  {
    var t := FromColumns(data).value;
    assert forall k :: k in data && data[k].Items? ==> |data[k].items| in ListLengths(data);
  }

  // ---------------------------------------------------------------------------
  // Renaming and selecting columns

  function RenameKey(r: Row, from: string, to: string): Row {
    if from in r then (r - {from})[to := r[from]] else r
  }

  /** The table with column `from` called `to`; renaming an absent column changes nothing. */
  function RenameColumn(t: Table, from: string, to: string): (u: Table)
    ensures |u.rows| == |t.rows|
    ensures from !in t.columns ==> u == t
    ensures from in t.columns ==> u.columns == t.columns - {from} + {to}
  {
    if from !in t.columns then t
    else Table(t.columns - {from} + {to}, seq(|t.rows|, i requires 0 <= i < |t.rows| => RenameKey(t.rows[i], from, to)))
  }

  /** Renaming moves the cells of `from` to `to` and leaves every other cell alone. */
  lemma RenameColumnCells(t: Table, from: string, to: string)
    requires WellFormed(t) && from in t.columns
    ensures WellFormed(RenameColumn(t, from, to))
    ensures var u := RenameColumn(t, from, to);
      forall i :: 0 <= i < |t.rows| ==>
        && u.rows[i][to] == t.rows[i][from]
        && forall k :: k in t.columns && k != from && k != to ==> u.rows[i][k] == t.rows[i][k]
  {
  }

  function Restrict(r: Row, cols: set<string>): Row {
    map k | k in r && k in cols :: r[k]
  }

  /** The columns `cols` of `t`, each row cut down to them; naming an absent column is an error. */
  function Select(t: Table, cols: set<string>): (r: Result<Table>)
    ensures r.Success? <==> cols <= t.columns
    ensures r.Failure? ==> r.error == MissingColumns(cols - t.columns)
    ensures r.Success? ==> r.value.columns == cols && |r.value.rows| == |t.rows|
  {
    if cols <= t.columns then
      Success(Table(cols, seq(|t.rows|, i requires 0 <= i < |t.rows| => Restrict(t.rows[i], cols))))
    else Failure(MissingColumns(cols - t.columns))
  }

  /** Selecting keeps the selected cells of every row unchanged. */
  lemma SelectCells(t: Table, cols: set<string>)
    requires WellFormed(t) && cols <= t.columns
    ensures WellFormed(Select(t, cols).value)
    ensures forall i, k :: 0 <= i < |t.rows| && k in cols ==> Select(t, cols).value.rows[i][k] == t.rows[i][k]
  {
  }

  // ---------------------------------------------------------------------------
  // Left merge on one key column

  /** The rows of `right` whose `key` cell equals that of `l`, in table order. */
  function Matches(l: Row, right: seq<Row>, key: string): (ms: seq<Row>)
    ensures |ms| <= |right|
    ensures forall m :: m in ms ==> m in right && key in l && key in m && m[key] == l[key]
    ensures forall n :: 0 <= n < |right| && key in l && key in right[n] && right[n][key] == l[key] ==> right[n] in ms
  {
    if right == [] then []
    else
      assert forall n :: 1 <= n < |right| ==> right[n] == right[1..][n - 1];
      (if key in l && key in right[0] && right[0][key] == l[key] then [right[0]] else [])
      + Matches(l, right[1..], key)
  }

  function NullCells(cols: set<string>): Row {
    map k | k in cols :: Null
  }

  /** A left row extended with the non-key cells of a matching right row. */
  function JoinRow(l: Row, m: Row, key: string): Row {
    l + (m - {key})
  }

  /** What a left merge makes of one left row: one row per match, or one row padded with nulls. */
  function MergeRow(l: Row, right: Table, key: string): (rs: seq<Row>)
    ensures |rs| == if Matches(l, right.rows, key) == [] then 1 else |Matches(l, right.rows, key)|
    ensures forall j :: 0 <= j < |rs| ==> l.Keys <= rs[j].Keys
    ensures key in l ==> forall j :: 0 <= j < |rs| ==> rs[j][key] == l[key]
  {
    var ms := Matches(l, right.rows, key);
    if ms == [] then [l + NullCells(right.columns - {key})]
    else seq(|ms|, j requires 0 <= j < |ms| => JoinRow(l, ms[j], key))
  }

  /** The merges of the left rows, in left order. */
  function MergeRows(left: seq<Row>, right: Table, key: string): (rs: seq<Row>)
    ensures |rs| >= |left|
    ensures rs == [] <==> left == []
  {
    if left == [] then [] else MergeRow(left[0], right, key) + MergeRows(left[1..], right, key)
  }

  /** `left.merge(right, how='left', on=key)`; a key column missing on either side is an error. */
  function LeftMerge(left: Table, right: Table, key: string): (r: Result<Table>)
    ensures r.Success? <==> key in left.columns && key in right.columns
    ensures r.Failure? ==> r.error == MissingColumns({key})
    ensures r.Success? ==> r.value.columns == left.columns + right.columns
  {
    if key in left.columns && key in right.columns then
      Success(Table(left.columns + right.columns, MergeRows(left.rows, right, key)))
    else Failure(MissingColumns({key}))
  }

  /** No two rows of `rows` share a `key` cell. */
  ghost predicate UniqueKeys(rows: seq<Row>, key: string) {
    forall i, j :: 0 <= i < j < |rows| && key in rows[i] && key in rows[j] ==> rows[i][key] != rows[j][key]
  }

  /** The first row of `right` matching `l` on `key`, if any. */
  function Lookup(l: Row, right: seq<Row>, key: string): Option<Row> {
    var ms := Matches(l, right, key);
    if ms == [] then None else Some(ms[0])
  }

  /** The one row a left merge gives for `l` when the right keys are unique. */
  function Annotate(l: Row, right: Table, key: string): Row {
    match Lookup(l, right.rows, key)
    case None => l + NullCells(right.columns - {key})
    case Some(m) => JoinRow(l, m, key)
  }

  lemma {:induction false} MatchesAtMostOne(l: Row, right: seq<Row>, key: string)
    requires UniqueKeys(right, key)
    ensures |Matches(l, right, key)| <= 1
  {
    if right != [] {
      var rest := right[1..];
      MatchesAtMostOne(l, rest, key);
      if key in l && key in right[0] && right[0][key] == l[key] {
        forall j | 0 <= j < |rest| && key in rest[j]
          ensures rest[j][key] != l[key]
        {
          assert rest[j] == right[j + 1];
        }
        NoMatches(l, rest, key);
      }
    }
  }

  lemma {:induction false} NoMatches(l: Row, right: seq<Row>, key: string)
    requires key in l
    requires forall j :: 0 <= j < |right| && key in right[j] ==> right[j][key] != l[key]
    ensures Matches(l, right, key) == []
  {
    if right != [] {
      NoMatches(l, right[1..], key);
    }
  }

  /** A left merge never loses a left row. */
  lemma {:induction false} MergeKeepsEveryRow(left: seq<Row>, right: Table, key: string)
    ensures |MergeRows(left, right, key)| >= |left|
  {
    if left != [] {
      MergeKeepsEveryRow(left[1..], right, key);
    }
  }

  /** With unique right keys a left merge gives exactly one row per left row, in order. */
  lemma {:induction false} MergeUnique(left: seq<Row>, right: Table, key: string)
    requires UniqueKeys(right.rows, key)
    ensures |MergeRows(left, right, key)| == |left|
    ensures forall i :: 0 <= i < |left| ==> MergeRows(left, right, key)[i] == Annotate(left[i], right, key)
  {
    if left != [] {
      MergeRowSingle(left[0], right, key);
      MergeUnique(left[1..], right, key);
      var tail := MergeRows(left[1..], right, key);
      var out := MergeRows(left, right, key);
      assert out == [Annotate(left[0], right, key)] + tail;
      forall i | 0 <= i < |left|
        ensures out[i] == Annotate(left[i], right, key)
      {
        if i > 0 {
          assert out[i] == tail[i - 1];
          assert left[1..][i - 1] == left[i];
        }
      }
    }
  }

  /** With unique right keys one left row merges into exactly its annotated row. */
  lemma MergeRowSingle(l: Row, right: Table, key: string)
    requires UniqueKeys(right.rows, key)
    ensures MergeRow(l, right, key) == [Annotate(l, right, key)]
  {
    MatchesAtMostOne(l, right.rows, key);
  }

  /** A left merge of well-formed tables gives every row the columns of both tables. */
  lemma {:induction false} MergeRowsWellFormed(left: seq<Row>, lcols: set<string>, right: Table, key: string)
    requires WellFormed(right) && key in lcols && key in right.columns
    requires forall i :: 0 <= i < |left| ==> left[i].Keys == lcols
    ensures forall i :: 0 <= i < |MergeRows(left, right, key)| ==>
      MergeRows(left, right, key)[i].Keys == lcols + right.columns
  {
    if left != [] {
      var head: seq<Row> := MergeRow(left[0], right, key);
      var tail: seq<Row> := MergeRows(left[1..], right, key);
      MergeRowKeys(left[0], lcols, right, key);
      MergeRowsWellFormed(left[1..], lcols, right, key);
      assert MergeRows(left, right, key) == head + tail;
      forall i | 0 <= i < |head + tail|
        ensures (head + tail)[i].Keys == lcols + right.columns
      {
        if i < |head| {
          assert (head + tail)[i] == head[i];
        } else {
          assert (head + tail)[i] == tail[i - |head|];
        }
      }
    }
  }

  /** Every row a left row merges into has the columns of both tables. */
  lemma MergeRowKeys(l: Row, lcols: set<string>, right: Table, key: string)
    requires WellFormed(right) && key in lcols && key in right.columns && l.Keys == lcols
    ensures forall i :: 0 <= i < |MergeRow(l, right, key)| ==> MergeRow(l, right, key)[i].Keys == lcols + right.columns
  {
    var ms := Matches(l, right.rows, key);
    if ms != [] {
      forall j | 0 <= j < |ms|
        ensures JoinRow(l, ms[j], key).Keys == lcols + right.columns
      {
        assert ms[j] in ms;
        var n :| 0 <= n < |right.rows| && right.rows[n] == ms[j];
      }
    }
  }

  /** With unique keys, the row carrying `l`'s key is the one looked up. */
  lemma LookupUnique(l: Row, right: seq<Row>, key: string, n: nat)
    requires UniqueKeys(right, key)
    requires n < |right| && key in l && key in right[n] && right[n][key] == l[key]
    ensures Lookup(l, right, key) == Some(right[n])
  {
    MatchesAtMostOne(l, right, key);
  }
}
