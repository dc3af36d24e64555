/** The data frames the loaders build: a sequence of distinct column names and
    rows that hold one cell per column. Timestamps and prices are integers; a
    missing value is `NaN`. This module holds the frame operations the two
    scripts use: the per-day column clean-up, `pd.concat(..., ignore_index=True)`,
    `sort_values('time')` and the `min`/`max` of the `time` column. */
module Tables {
  import opened Prelude

  datatype Cell = Num(n: int) | NaN

  /** One row, keyed by column name. */
  type Row = map<string, Cell>

  predicate Distinct(cols: seq<string>)
  {
    forall i, j :: 0 <= i < j < |cols| ==> cols[i] != cols[j]
  }

  function ColumnSet(cols: seq<string>): set<string>
  {
    set c | c in cols
  }

  datatype Frame = Frame(columns: seq<string>, rows: seq<Row>)

  /** Column names are distinct (`read_csv` renames a repeated header) and every
      row has exactly the frame's columns. */
  predicate WellFormed(f: Frame)
  {
    && Distinct(f.columns)
    && forall r :: r in f.rows ==> r.Keys == ColumnSet(f.columns)
  }

  type Table = f: Frame | WellFormed(f) witness Frame([], [])

  /** The canonical timestamp column every cleaned table has. */
  const Time := "time"

  /** The housekeeping columns each per-day file carries and the loaders drop. */
  const Housekeeping: seq<string> := ["volume_ccy", "volCcyQuote", "timestamp"]

  datatype CleanError =
    | MissingColumns(names: seq<string>)  // `drop` or `df['time']` raises `KeyError`
    | DuplicateTime                       // two `time` columns: `pd.to_datetime` raises `ValueError`

  /** The per-day clean-up: drop the housekeeping columns, rename `timeCol` to
      `time`. Fails when a housekeeping column is missing, when there is no
      `time` column afterwards, or when the rename makes a second one. */
  function Clean(t: Table, timeCol: string): Result<Table, CleanError>
    requires timeCol != Time && timeCol !in Housekeeping
  {
    var missing := MissingHousekeeping(t);
    if missing != [] then
      Err(MissingColumns(missing))
    else
      var kept := DropColumns(t, ColumnSet(Housekeeping));
      if timeCol in kept.columns && Time in kept.columns then Err(DuplicateTime)
      else if timeCol !in kept.columns && Time !in kept.columns then Err(MissingColumns([Time]))
      else if Time in kept.columns then Ok(kept)
      else Ok(RenameColumn(kept, timeCol, Time))
  }

  /** The housekeeping columns `t` lacks, in the order `drop` lists them: the
      labels of the `KeyError`. */
  function MissingHousekeeping(t: Table): (m: seq<string>)
    ensures forall c :: c in m <==> c in Housekeeping && c !in t.columns
    ensures m == [] <==> forall i :: 0 <= i < |Housekeeping| ==> Housekeeping[i] in t.columns
  {
    var absent := c => c !in t.columns;
    FilterMembers(Housekeeping, absent);
    Filter(Housekeeping, absent)
  }

  /** Which outcome the clean-up has: the missing housekeeping columns first,
      then a duplicated or absent `time` column, and success otherwise. */
  lemma CleanOutcome(t: Table, timeCol: string)
    requires timeCol != Time && timeCol !in Housekeeping
    ensures var r := Clean(t, timeCol);
      var complete := MissingHousekeeping(t) == [];
      && (r == Err(MissingColumns(MissingHousekeeping(t))) <==> !complete)
      && (r == Err(DuplicateTime) <==> complete && timeCol in t.columns && Time in t.columns)
      && (r == Err(MissingColumns([Time])) <==> complete && timeCol !in t.columns && Time !in t.columns)
      && (r.Ok? <==> complete && (timeCol in t.columns) != (Time in t.columns))
  {
    if MissingHousekeeping(t) == [] {
      var kept := DropColumns(t, ColumnSet(Housekeeping));
      assert timeCol in kept.columns <==> timeCol in t.columns by {
        assert timeCol in ColumnSet(kept.columns) <==> timeCol in ColumnSet(t.columns);
      }
      assert Time in kept.columns <==> Time in t.columns by {
        assert Time in ColumnSet(kept.columns) <==> Time in ColumnSet(t.columns);
      }
    }
  }

  /** A cleaned table has the source's columns less the housekeeping ones and
      `timeCol`, plus `time`. */
  lemma CleanColumns(t: Table, timeCol: string)
    requires timeCol != Time && timeCol !in Housekeeping
    requires Clean(t, timeCol).Ok?
    ensures ColumnSet(Clean(t, timeCol).value.columns) == ColumnSet(t.columns) - ColumnSet(Housekeeping) - {timeCol} + {Time}
  {
    CleanOutcome(t, timeCol);
  }

  /** A cleaned table has the source's rows, in order; the `time` cell comes from
      `timeCol` when the source has it, and every other cell is unchanged. */
  lemma CleanRows(t: Table, timeCol: string)
    requires timeCol != Time && timeCol !in Housekeeping
    requires Clean(t, timeCol).Ok?
    ensures var r := Clean(t, timeCol).value;
      && |r.rows| == |t.rows|
      && forall i :: 0 <= i < |t.rows| ==>
           && Time in r.rows[i]
           && (timeCol in t.rows[i] ==> r.rows[i][Time] == t.rows[i][timeCol])
           && (timeCol !in t.rows[i] ==> Time in t.rows[i] && r.rows[i][Time] == t.rows[i][Time])
           && forall c :: c in r.rows[i] && c != Time ==> c in t.rows[i] && r.rows[i][c] == t.rows[i][c]
  {
    if Time in t.columns {
      CleanRowsKept(t, timeCol);
    } else {
      CleanRowsRenamed(t, timeCol);
    }
  }

  lemma CleanRowsKept(t: Table, timeCol: string)
    requires timeCol != Time && timeCol !in Housekeeping
    requires Clean(t, timeCol).Ok? && Time in t.columns
    ensures var r := Clean(t, timeCol).value;
      && |r.rows| == |t.rows|
      && forall i :: 0 <= i < |t.rows| ==>
           && Time in r.rows[i] && timeCol !in t.rows[i] && Time in t.rows[i] && r.rows[i][Time] == t.rows[i][Time]
           && forall c :: c in r.rows[i] && c != Time ==> c in t.rows[i] && r.rows[i][c] == t.rows[i][c]
  {
    CleanOutcome(t, timeCol);
    var drop := ColumnSet(Housekeeping);
    assert Time !in drop && timeCol !in drop;
    var kept := DropColumns(t, drop);
    assert Time in ColumnSet(t.columns);
    assert Time in ColumnSet(kept.columns);
    assert Clean(t, timeCol).value == kept;
    forall i | 0 <= i < |t.rows|
      ensures Time in kept.rows[i] && timeCol !in t.rows[i] && Time in t.rows[i] && kept.rows[i][Time] == t.rows[i][Time]
      ensures forall c :: c in kept.rows[i] && c != Time ==> c in t.rows[i] && kept.rows[i][c] == t.rows[i][c]
    {
      RowKeys(t, i, Time);
      RowKeys(t, i, timeCol);
      DropRow(t.rows[i], drop, Time);
    }
  }

  lemma CleanRowsRenamed(t: Table, timeCol: string)
    requires timeCol != Time && timeCol !in Housekeeping
    requires Clean(t, timeCol).Ok? && Time !in t.columns
    ensures var r := Clean(t, timeCol).value;
      && |r.rows| == |t.rows|
      && forall i :: 0 <= i < |t.rows| ==>
           && Time in r.rows[i] && timeCol in t.rows[i] && r.rows[i][Time] == t.rows[i][timeCol]
           && forall c :: c in r.rows[i] && c != Time ==> c in t.rows[i] && r.rows[i][c] == t.rows[i][c]
  {
    CleanOutcome(t, timeCol);
    var drop := ColumnSet(Housekeeping);
    assert Time !in drop && timeCol !in drop;
    var kept := DropColumns(t, drop);
    assert timeCol in ColumnSet(kept.columns);
    var r := RenameColumn(kept, timeCol, Time);
    assert Clean(t, timeCol).value == r;
    forall i | 0 <= i < |t.rows|
      ensures Time in r.rows[i] && timeCol in t.rows[i] && r.rows[i][Time] == t.rows[i][timeCol]
      ensures forall c :: c in r.rows[i] && c != Time ==> c in t.rows[i] && r.rows[i][c] == t.rows[i][c]
    {
      RowKeys(t, i, timeCol);
      DropRenameRow(t.rows[i], drop, timeCol, Time);
    }
  }

  /** Every row of a table holds a cell for each of its columns, and no other. */
  lemma RowKeys(t: Table, i: int, c: string)
    requires 0 <= i < |t.rows|
    ensures c in t.rows[i] <==> c in t.columns
  {
    assert t.rows[i] in t.rows;
    assert c in ColumnSet(t.columns) <==> c in t.columns;
  }

  /** A row less the dropped cells keeps the rest as it was. */
  lemma DropRow(row: Row, drop: set<string>, key: string)
    requires key in row && key !in drop
    ensures key in row - drop && (row - drop)[key] == row[key]
    ensures forall c :: c in row - drop ==> c in row && (row - drop)[c] == row[c]
  {
  }

  /** A row less the dropped cells, with `from` renamed to `to`: the `to` cell
      is the old `from` cell and the rest is as it was. */
  lemma DropRenameRow(row: Row, drop: set<string>, from: string, to: string)
    requires from in row && from !in drop
    ensures var x := RenameKey(row - drop, from, to);
      && to in x && x[to] == row[from]
      && forall c :: c in x && c != to ==> c in row && x[c] == row[c]
  {
  }

  /** A cleaned table has a `time` column and neither the source's time column
      nor any housekeeping column. */
  lemma CleanedColumns(t: Table, timeCol: string)
    requires timeCol != Time && timeCol !in Housekeeping
    requires Clean(t, timeCol).Ok?
    ensures var c := Clean(t, timeCol).value.columns;
      && Time in c && timeCol !in c
      && forall i :: 0 <= i < |Housekeeping| ==> Housekeeping[i] !in c
  {
    CleanColumns(t, timeCol);
    CleanedLabels(Clean(t, timeCol).value.columns, ColumnSet(t.columns), timeCol);
  }

  /** Labels that are some labels less the housekeeping ones and `timeCol`, plus
      `time`, hold `time` and none of the removed ones. */
  lemma CleanedLabels(c: seq<string>, before: set<string>, timeCol: string)
    requires timeCol != Time
    requires ColumnSet(c) == before - ColumnSet(Housekeeping) - {timeCol} + {Time}
    ensures Time in c && timeCol !in c
    ensures forall i :: 0 <= i < |Housekeeping| ==> Housekeeping[i] !in c
  {
    assert Time in ColumnSet(c) && timeCol !in ColumnSet(c);
    forall i | 0 <= i < |Housekeeping| ensures Housekeeping[i] !in c {
      assert Housekeeping[i] in ColumnSet(Housekeeping);
      assert Housekeeping[i] !in ColumnSet(c);
    }
  }

  /** `t.drop(columns)`, for columns that are all there. */
  function DropColumns(t: Table, drop: set<string>): (r: Table)
    ensures ColumnSet(r.columns) == ColumnSet(t.columns) - drop
    ensures |r.rows| == |t.rows|
    ensures forall i :: 0 <= i < |t.rows| ==> r.rows[i] == t.rows[i] - drop
  {
    var cols := Filter(t.columns, c => c !in drop);
    KeptDistinct(t.columns, cols, drop);
    var rows := seq(|t.rows|, i requires 0 <= i < |t.rows| => t.rows[i] - drop);
    assert forall i :: 0 <= i < |t.rows| ==> t.rows[i] in t.rows;
    Frame(cols, rows)
  }

  /** The column labels with `from` renamed to `to`. */
  function RenameLabels(cols: seq<string>, from: string, to: string): (r: seq<string>)
    requires Distinct(cols) && to !in cols
    ensures Distinct(r)
    ensures ColumnSet(r) == if from in cols then ColumnSet(cols) - {from} + {to} else ColumnSet(cols)
  {
    var r := seq(|cols|, i requires 0 <= i < |cols| => if cols[i] == from then to else cols[i]);
    assert forall c :: c in cols ==> (if c == from then to else c) in r by {
      forall c | c in cols ensures (if c == from then to else c) in r {
        var i :| 0 <= i < |cols| && cols[i] == c;
        assert r[i] == (if c == from then to else c);
      }
    }
    r
  }

  /** `t.rename(columns={from: to})`, when `to` is not already a column. */
  function RenameColumn(t: Table, from: string, to: string): (r: Table)
    requires to !in t.columns
    ensures ColumnSet(r.columns) == if from in t.columns then ColumnSet(t.columns) - {from} + {to} else ColumnSet(t.columns)
    ensures |r.rows| == |t.rows|
    ensures forall i :: 0 <= i < |t.rows| ==> r.rows[i] == RenameKey(t.rows[i], from, to)
  {
    var cols := RenameLabels(t.columns, from, to);
    var rows := seq(|t.rows|, i requires 0 <= i < |t.rows| => RenameKey(t.rows[i], from, to));
    assert forall i :: 0 <= i < |t.rows| ==> t.rows[i] in t.rows;
    Frame(cols, rows)
  }

  /** `r` with the key `from` renamed to `to`, when `from` is there. */
  function RenameKey(r: Row, from: string, to: string): Row
  {
    if from in r then (r - {from})[to := r[from]] else r
  }

  lemma KeptDistinct(cols: seq<string>, kept: seq<string>, drop: set<string>)
    requires Distinct(cols) && kept == Filter(cols, c => c !in drop)
    ensures Distinct(kept) && ColumnSet(kept) == ColumnSet(cols) - drop
  {
    FilterDistinct(cols, c => c !in drop);
    FilterMembers(cols, c => c !in drop);
  }

  lemma {:induction false} FilterDistinct(cols: seq<string>, p: string -> bool)
    requires Distinct(cols)
    ensures Distinct(Filter(cols, p))
  {
    if cols != [] {
      FilterDistinct(cols[1..], p);
      FilterMembers(cols[1..], p);
    }
  }

  /** `a` followed by the names of `b` it does not yet hold, in `b`'s order:
      how `pd.concat` unions the column labels of its inputs. */
  function AppendNew(a: seq<string>, b: seq<string>): (r: seq<string>)
    requires Distinct(a)
    ensures Distinct(r) && |a| <= |r| && r[..|a|] == a
    ensures ColumnSet(r) == ColumnSet(a) + ColumnSet(b)
    decreases |b|
  {
    if b == [] then a
    else
      var a' := if b[0] in a then a else a + [b[0]];
      assert ColumnSet(b) == {b[0]} + ColumnSet(b[1..]);
      AppendNew(a', b[1..])
  }

  /** The column labels of `pd.concat(ts)`: every label of every input, each once,
      in order of first appearance. */
  function UnionColumns(ts: seq<Table>): (r: seq<string>)
    ensures Distinct(r)
    ensures forall i :: 0 <= i < |ts| ==> ColumnSet(ts[i].columns) <= ColumnSet(r)
    ensures forall c :: c in r ==> exists i :: 0 <= i < |ts| && c in ts[i].columns
  {
    if ts == [] then []
    else
      var init := ts[..|ts| - 1];
      var u := UnionColumns(init);
      var r := AppendNew(u, ts[|ts| - 1].columns);
      assert forall i :: 0 <= i < |init| ==> ts[i] == init[i];
      assert forall c :: c in r ==> exists i :: 0 <= i < |ts| && c in ts[i].columns by {
        forall c | c in r ensures exists i :: 0 <= i < |ts| && c in ts[i].columns {
          assert c in ColumnSet(r);
          if c in ColumnSet(u) {
            var i :| 0 <= i < |init| && c in init[i].columns;
            assert c in ts[i].columns;
          } else {
            assert c in ts[|ts| - 1].columns;
          }
        }
      }
      r
  }

  /** A row widened to the columns `cols`, missing cells becoming `NaN`. */
  function Widen(row: Row, cols: seq<string>): (r: Row)
    ensures r.Keys == ColumnSet(cols)
    ensures forall c :: c in r && c in row ==> r[c] == row[c]
    ensures forall c :: c in r && c !in row ==> r[c] == NaN
  {
    map c | c in ColumnSet(cols) :: if c in row then row[c] else NaN
  }

  /** The rows of `ts`, table after table, each widened to `cols`. */
  function ConcatRows(ts: seq<Table>, cols: seq<string>): (r: seq<Row>)
    ensures |r| == RowCount(ts)
    ensures forall row {:trigger row in r} :: row in r ==> row.Keys == ColumnSet(cols)
  {
    if ts == [] then []
    else
      var last := ts[|ts| - 1].rows;
      ConcatRows(ts[..|ts| - 1], cols) + seq(|last|, j requires 0 <= j < |last| => Widen(last[j], cols))
  }

  /** The number of rows of all of `ts` together. */
  function RowCount(ts: seq<Table>): nat
  {
    if ts == [] then 0 else RowCount(ts[..|ts| - 1]) + |ts[|ts| - 1].rows|
  }

  /** `pd.concat(ts, ignore_index=True)`: the union of the columns, and every row
      of every table, in table order and row order. */
  function Concat(ts: seq<Table>): (r: Table)
    ensures |r.rows| == RowCount(ts)
    ensures forall i :: 0 <= i < |ts| ==> ColumnSet(ts[i].columns) <= ColumnSet(r.columns)
  {
    var cols := UnionColumns(ts);
    Frame(cols, ConcatRows(ts, cols))
  }

  /** The rows of `ts`, table after table, as they are. */
  function AllRows(ts: seq<Table>): seq<Row>
  {
    if ts == [] then [] else AllRows(ts[..|ts| - 1]) + ts[|ts| - 1].rows
  }

  /** When all tables share their columns, concatenation keeps those columns and
      appends the rows unchanged. */
  lemma {:induction false} ConcatSameColumns(ts: seq<Table>, cols: seq<string>)
    requires |ts| > 0 && forall i :: 0 <= i < |ts| ==> ts[i].columns == cols
    ensures Concat(ts) == Frame(cols, AllRows(ts))
  {
    SameColumnsUnion(ts, cols);
    SameColumnsRows(ts, cols);
  }

  lemma {:induction false} SameColumnsUnion(ts: seq<Table>, cols: seq<string>)
    requires |ts| > 0 && forall i :: 0 <= i < |ts| ==> ts[i].columns == cols
    ensures UnionColumns(ts) == cols
  {
    var init := ts[..|ts| - 1];
    assert WellFormed(ts[0]);
    if |ts| == 1 {
      AppendNewEmpty(cols);
    } else {
      SameColumnsUnion(init, cols);
      AppendNewSelf(cols);
    }
  }

  lemma {:induction false} SameColumnsRows(ts: seq<Table>, cols: seq<string>)
    requires forall i :: 0 <= i < |ts| ==> ts[i].columns == cols
    ensures ConcatRows(ts, cols) == AllRows(ts)
  {
    if ts != [] {
      var last := ts[|ts| - 1];
      SameColumnsRows(ts[..|ts| - 1], cols);
      WidenIdentity(last.rows, cols);
    }
  }

  lemma WidenIdentity(rows: seq<Row>, cols: seq<string>)
    requires forall r {:trigger r in rows} :: r in rows ==> r.Keys == ColumnSet(cols)
    ensures seq(|rows|, j requires 0 <= j < |rows| => Widen(rows[j], cols)) == rows
  {
    forall j | 0 <= j < |rows|
      ensures Widen(rows[j], cols) == rows[j]
    {
      assert rows[j] in rows;
    }
  }

  lemma AppendNewEmpty(cols: seq<string>)
    requires Distinct(cols)
    ensures AppendNew([], cols) == cols
  {
    var r := AppendNew([], cols);
    AppendNewCovered(r, cols);
  }

  lemma AppendNewSelf(cols: seq<string>)
    requires Distinct(cols)
    ensures AppendNew(cols, cols) == cols
  {
    AppendNewNothing(cols, cols);
  }

  lemma {:induction false} AppendNewNothing(a: seq<string>, b: seq<string>)
    requires Distinct(a) && ColumnSet(b) <= ColumnSet(a)
    ensures AppendNew(a, b) == a
    decreases |b|
  {
    if b != [] {
      assert b[0] in ColumnSet(b);
      assert ColumnSet(b[1..]) <= ColumnSet(b) by {
        forall c | c in ColumnSet(b[1..]) ensures c in ColumnSet(b) { assert c in b[1..]; }
      }
      AppendNewNothing(a, b[1..]);
    }
  }

  /** A distinct list starting with nothing and taking the new names of a distinct
      list is that list. */
  lemma AppendNewCovered(r: seq<string>, cols: seq<string>)
    requires Distinct(cols) && r == AppendNew([], cols)
    ensures r == cols
  {
    AppendNewDistinctTail([], cols);
  }

  lemma {:induction false} AppendNewDistinctTail(a: seq<string>, b: seq<string>)
    requires Distinct(a) && Distinct(b) && ColumnSet(a) !! ColumnSet(b)
    ensures AppendNew(a, b) == a + b
    decreases |b|
  {
    if b != [] {
      assert b[0] in ColumnSet(b);
      assert b[0] !in a;
      assert b[0] !in b[1..];
      assert ColumnSet(a + [b[0]]) !! ColumnSet(b[1..]) by {
        forall c | c in ColumnSet(b[1..]) ensures c !in ColumnSet(a + [b[0]]) {
          assert c in b[1..];
          assert c in ColumnSet(b);
        }
      }
      assert (a + [b[0]]) + b[1..] == a + b;
      AppendNewDistinctTail(a + [b[0]], b[1..]);
    }
  }

  /** The `sort_values` order on timestamps: numbers ascending, missing values last. */
  predicate TimeLe(a: Cell, b: Cell)
  {
    match (a, b)
    case (Num(x), Num(y)) => x <= y
    case (Num(_), NaN) => true
    case (NaN, Num(_)) => false
    case (NaN, NaN) => true
  }

  predicate HasTime(rows: seq<Row>)
  {
    forall i :: 0 <= i < |rows| ==> Time in rows[i]
  }

  predicate SortedByTime(rows: seq<Row>)
    requires HasTime(rows)
  {
    forall i, j :: 0 <= i < j < |rows| ==> TimeLe(rows[i][Time], rows[j][Time])
  }

  /** `r` placed into the time-sorted `rows` before the first row it does not follow. */
  function InsertByTime(r: Row, rows: seq<Row>): (s: seq<Row>)
    requires Time in r && HasTime(rows) && SortedByTime(rows)
    ensures multiset(s) == multiset(rows) + multiset{r}
    ensures HasTime(s) && SortedByTime(s)
  {
    if rows == [] || TimeLe(r[Time], rows[0][Time]) then
      SortedCons(r, rows);
      [r] + rows
    else
      SortedTail(rows);
      var rest := InsertByTime(r, rows[1..]);
      assert rows == [rows[0]] + rows[1..];
      forall x | x in rest ensures Time in x && TimeLe(rows[0][Time], x[Time]) {
        assert x in multiset(rows[1..]) + multiset{r};
      }
      SortedCons(rows[0], rest);
      [rows[0]] + rest
  }

  lemma SortedTail(rows: seq<Row>)
    requires HasTime(rows) && SortedByTime(rows) && rows != []
    ensures HasTime(rows[1..]) && SortedByTime(rows[1..])
    ensures forall x :: x in rows[1..] ==> TimeLe(rows[0][Time], x[Time])
  {
    forall x | x in rows[1..] ensures TimeLe(rows[0][Time], x[Time]) {
      var j :| 0 <= j < |rows[1..]| && rows[1..][j] == x;
      assert rows[j + 1] == x;
    }
  }

  /** A row that no row of a sorted sequence precedes can go in front of it. */
  lemma SortedCons(x: Row, rows: seq<Row>)
    requires Time in x && HasTime(rows) && SortedByTime(rows)
    requires forall y :: y in rows ==> TimeLe(x[Time], y[Time])
    ensures HasTime([x] + rows) && SortedByTime([x] + rows)
  {
    var s := [x] + rows;
    forall i, j | 0 <= i < j < |s| ensures TimeLe(s[i][Time], s[j][Time]) {
      assert s[j] == rows[j - 1];
      if i > 0 {
        assert s[i] == rows[i - 1];
      }
    }
  }

  /** A reordering of `rows` that is sorted by time; the order among rows with equal
      times is this model's own choice (pandas' default sort is not stable). */
  function SortRowsByTime(rows: seq<Row>): (s: seq<Row>)
    requires HasTime(rows)
    ensures multiset(s) == multiset(rows) && |s| == |rows|
    ensures HasTime(s) && SortedByTime(s)
  {
    if rows == [] then []
    else
      assert rows == [rows[0]] + rows[1..];
      InsertByTime(rows[0], SortRowsByTime(rows[1..]))
  }

  /** `t.sort_values('time').reset_index(drop=True)`: same columns, the same rows
      as a multiset, ascending by time with missing times last. The row labels are
      the positions 0..n-1 of the sequence. */
  function SortByTime(t: Table): (r: Table)
    requires Time in t.columns
    ensures r.columns == t.columns
    ensures multiset(r.rows) == multiset(t.rows) && |r.rows| == |t.rows|
    ensures HasTime(r.rows) && SortedByTime(r.rows)
  {
    var s := SortRowsByTime(t.rows);
    assert forall x :: x in s ==> x in multiset(t.rows);
    Frame(t.columns, s)
  }

  /** `frame['time'].max()`: the greatest timestamp, skipping missing ones; `None`
      (pandas' `NaT`) when there is none. */
  function MaxTime(rows: seq<Row>): (m: Option<int>)
    requires HasTime(rows)
    ensures m.None? <==> forall i :: 0 <= i < |rows| ==> rows[i][Time] == NaN
    ensures m.Some? ==>
      && (exists i :: 0 <= i < |rows| && rows[i][Time] == Num(m.value))
      && forall i :: 0 <= i < |rows| && rows[i][Time].Num? ==> rows[i][Time].n <= m.value
  {
    if rows == [] then None
    else
      var init := rows[..|rows| - 1];
      var last := rows[|rows| - 1][Time];
      assert forall i :: 0 <= i < |init| ==> init[i] == rows[i];
      var m := MaxTime(init);
      match last
      case NaN => m
      case Num(x) => if m.Some? && x <= m.value then m else Some(x)
  }

  /** `frame['time'].min()`, skipping missing timestamps. */
  function MinTime(rows: seq<Row>): (m: Option<int>)
    requires HasTime(rows)
    ensures m.None? <==> forall i :: 0 <= i < |rows| ==> rows[i][Time] == NaN
    ensures m.Some? ==>
      && (exists i :: 0 <= i < |rows| && rows[i][Time] == Num(m.value))
      && forall i :: 0 <= i < |rows| && rows[i][Time].Num? ==> m.value <= rows[i][Time].n
  {
    if rows == [] then None
    else
      var init := rows[..|rows| - 1];
      var last := rows[|rows| - 1][Time];
      assert forall i :: 0 <= i < |init| ==> init[i] == rows[i];
      var m := MinTime(init);
      match last
      case NaN => m
      case Num(x) => if m.Some? && m.value <= x then m else Some(x)
  }

  /** Every table has a `time` column. */
  predicate Timed(dfs: seq<Table>)
  {
    forall k :: 0 <= k < |dfs| ==> Time in dfs[k].columns
  }

  /** Every row of a table with a `time` column has a time cell. */
  lemma TimedRows(t: Table)
    requires Time in t.columns
    ensures HasTime(t.rows)
  {
    assert Time in ColumnSet(t.columns);
  }

  /** Every row of the concatenation of timed tables has a time cell. */
  lemma TimedConcat(ts: seq<Table>)
    requires Timed(ts)
    ensures HasTime(Concat(ts).rows)
  {
    if ts != [] {
      assert Time in ColumnSet(ts[0].columns);
      TimedRows(Concat(ts));
    }
  }

  /** A column of the concatenation is a column of one of the tables, and every
      column of every table is there. */
  lemma ConcatColumns(ts: seq<Table>, c: string)
    ensures c in Concat(ts).columns <==> exists i :: 0 <= i < |ts| && c in ts[i].columns
  {
    var cols := Concat(ts).columns;
    forall i | 0 <= i < |ts| && c in ts[i].columns ensures c in cols {
      assert c in ColumnSet(ts[i].columns);
      assert ColumnSet(ts[i].columns) <= ColumnSet(cols);
    }
  }

  /** The price columns both scripts print the range of before drawing. */
  const Low := "low"
  const High := "high"

  /** `df['low'].min()` then `df['high'].max()`: the first price column `t`
      lacks, on which pandas raises `KeyError`, or `None` when both are there.
      A column holding only `NaN` gives `NaN`, not an error. */
  function MissingPrice(t: Table): (r: Option<string>)
    ensures r.None? <==> Low in t.columns && High in t.columns
    ensures r.Some? ==> r.value !in t.columns && (r.value == Low || (r.value == High && Low in t.columns))
  {
    if Low !in t.columns then Some(Low)
    else if High !in t.columns then Some(High)
    else None
  }

  /** The concatenation lacks a price column exactly when no table has it:
      `low` is reported when no table has `low`, `high` when some table has
      `low` and none has `high`. */
  lemma ConcatPrice(ts: seq<Table>)
    ensures MissingPrice(Concat(ts)) == Some(Low) <==> forall i :: 0 <= i < |ts| ==> Low !in ts[i].columns
    ensures MissingPrice(Concat(ts)) == Some(High) <==>
      (exists i :: 0 <= i < |ts| && Low in ts[i].columns) && forall i :: 0 <= i < |ts| ==> High !in ts[i].columns
    ensures MissingPrice(Concat(ts)).None? <==>
      (exists i :: 0 <= i < |ts| && Low in ts[i].columns) && (exists i :: 0 <= i < |ts| && High in ts[i].columns)
  {
    ConcatColumns(ts, Low);
    ConcatColumns(ts, High);
  }
}
