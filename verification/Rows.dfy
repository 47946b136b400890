/** Maximal runs of equal keys in a sequence. */
module Runs {

  function Flatten<T>(runs: seq<seq<T>>): seq<T>
    decreases |runs|
  {
    if runs == [] then [] else Flatten(runs[..|runs| - 1]) + runs[|runs| - 1]
  }

  /** `runs` cuts `xs` into non-empty runs of one key each, neighbours having different keys. */
  ghost predicate Cuts<T, K>(key: T -> K, xs: seq<T>, runs: seq<seq<T>>) {
    && Flatten(runs) == xs
    && (forall i :: 0 <= i < |runs| ==> runs[i] != [])
    && (forall i, a :: 0 <= i < |runs| && 0 <= a < |runs[i]| ==> key(runs[i][a]) == key(runs[i][0]))
    && (forall i, j :: 0 <= i < j < |runs| && j == i + 1 ==> key(runs[i][0]) != key(runs[j][0]))
  }

  /** The runs, built from left to right. */
  function RunsOf<T, K(==)>(key: T -> K, xs: seq<T>): (runs: seq<seq<T>>)
    ensures forall i :: 0 <= i < |runs| ==> runs[i] != []
    decreases |xs|
  {
    if xs == [] then []
    else
      var n, x := |xs| - 1, xs[|xs| - 1];
      var before := RunsOf(key, xs[..n]);
      if before != [] && key(before[|before| - 1][0]) == key(x) then
        before[..|before| - 1] + [before[|before| - 1] + [x]]
      else
        before + [[x]]
  }

  lemma {:induction false} RunsCut<T, K>(key: T -> K, xs: seq<T>)
    ensures Cuts(key, xs, RunsOf(key, xs))
    decreases |xs|
  {
    if xs != [] {
      var n, x := |xs| - 1, xs[|xs| - 1];
      var before := RunsOf(key, xs[..n]);
      RunsCut(key, xs[..n]);
      assert xs == xs[..n] + [x];
      if before != [] && key(before[|before| - 1][0]) == key(x) {
        CutsExtend(key, xs[..n], before, x);
      } else {
        CutsAppend(key, xs[..n], before, [x]);
      }
    }
  }

  /** Extending the last run. */
  lemma CutsExtend<T, K>(key: T -> K, xs: seq<T>, runs: seq<seq<T>>, x: T)
    requires Cuts(key, xs, runs) && runs != [] && key(runs[|runs| - 1][0]) == key(x)
    ensures Cuts(key, xs + [x], runs[..|runs| - 1] + [runs[|runs| - 1] + [x]])
  {
    var n := |runs| - 1;
    var c := runs[..n] + [runs[n] + [x]];
    assert c[..n] == runs[..n];
    forall i, a | 0 <= i < |c| && 0 <= a < |c[i]| ensures key(c[i][a]) == key(c[i][0]) {
      if i < n {
        assert c[i] == runs[i];
      } else if a < |runs[n]| {
        assert c[i][a] == runs[n][a];
      }
    }
  }

  lemma {:induction false} FlattenConcat<T>(a: seq<seq<T>>, b: seq<seq<T>>)
    ensures Flatten(a + b) == Flatten(a) + Flatten(b)
    decreases |b|
  {
    if b == [] {
      assert a + b == a;
    } else {
      var n := |b| - 1;
      FlattenConcat(a, b[..n]);
      assert (a + b)[..|a + b| - 1] == a + b[..n];
    }
  }

  lemma {:induction false} FlattenHolds<T>(runs: seq<seq<T>>, i: nat, x: T)
    requires i < |runs| && x in runs[i]
    ensures x in Flatten(runs)
    decreases |runs|
  {
    if i < |runs| - 1 {
      FlattenHolds(runs[..|runs| - 1], i, x);
    }
  }

  lemma FlattenOne<T>(run: seq<T>)
    ensures Flatten([run]) == run
  {
    assert [run][..0] == [];
  }

  lemma CutsInit<T, K>(key: T -> K, runs: seq<seq<T>>)
    requires runs != [] && Cuts(key, Flatten(runs), runs)
    ensures Cuts(key, Flatten(runs[..|runs| - 1]), runs[..|runs| - 1])
  {
  }

  /** Appending a run of a new key. */
  lemma CutsAppend<T, K>(key: T -> K, xs: seq<T>, runs: seq<seq<T>>, run: seq<T>)
    requires Cuts(key, xs, runs) && run != []
    requires forall a :: 0 <= a < |run| ==> key(run[a]) == key(run[0])
    requires runs != [] ==> key(runs[|runs| - 1][0]) != key(run[0])
    ensures Cuts(key, xs + run, runs + [run])
  {
    assert (runs + [run])[..|runs|] == runs;
  }

  /** Two cut sequences, joined at keys that differ. */
  lemma CutsApart<T, K>(key: T -> K, xs: seq<T>, a: seq<seq<T>>, ys: seq<T>, b: seq<seq<T>>)
    requires Cuts(key, xs, a) && Cuts(key, ys, b)
    requires a != [] && b != [] ==> key(a[|a| - 1][0]) != key(b[0][0])
    ensures Cuts(key, xs + ys, a + b)
  {
    FlattenConcat(a, b);
    var c := a + b;
    forall i, j | 0 <= i < j < |c| && j == i + 1 ensures key(c[i][0]) != key(c[j][0]) {
      if j < |a| {
      } else if i >= |a| {
        assert c[i] == b[i - |a|] && c[j] == b[j - |a|];
      }
    }
  }

  /** Two cut sequences, joined inside one run. */
  lemma CutsTogether<T, K>(key: T -> K, xs: seq<T>, a: seq<seq<T>>, ys: seq<T>, b: seq<seq<T>>)
    requires Cuts(key, xs, a) && Cuts(key, ys, b)
    requires a != [] && b != [] && key(a[|a| - 1][0]) == key(b[0][0])
    ensures Cuts(key, xs + ys, a[..|a| - 1] + [a[|a| - 1] + b[0]] + b[1..])
  {
    var n := |a| - 1;
    var joint := a[n] + b[0];
    var c := a[..n] + [joint] + b[1..];
    JoinFlattens(a, b);
    forall i | 0 <= i < |c| ensures c[i] == if i < n then a[i] else if i == n then joint else b[i - n] {}
    forall i, x | 0 <= i < |c| && 0 <= x < |c[i]| ensures key(c[i][x]) == key(c[i][0]) {
      if i == n {
        assert joint[x] == if x < |a[n]| then a[n][x] else b[0][x - |a[n]|];
      }
    }
    forall i, j | 0 <= i < j < |c| && j == i + 1 ensures key(c[i][0]) != key(c[j][0]) {
      if i < n {
        assert key(a[i][0]) != key(a[j][0]);
      } else {
        assert key(b[i - n][0]) != key(b[j - n][0]);
      }
    }
  }

  lemma JoinFlattens<T>(a: seq<seq<T>>, b: seq<seq<T>>)
    requires a != [] && b != []
    ensures Flatten(a[..|a| - 1] + [a[|a| - 1] + b[0]] + b[1..]) == Flatten(a) + Flatten(b)
  {
    var n := |a| - 1;
    var joint := a[n] + b[0];
    calc {
      Flatten(a[..n] + [joint] + b[1..]);
      { FlattenConcat(a[..n] + [joint], b[1..]); }
      Flatten(a[..n] + [joint]) + Flatten(b[1..]);
      { FlattenConcat(a[..n], [joint]); FlattenOne(joint); }
      Flatten(a[..n]) + (a[n] + b[0]) + Flatten(b[1..]);
      (Flatten(a[..n]) + a[n]) + (b[0] + Flatten(b[1..]));
      { FlattenOne(b[0]); FlattenConcat([b[0]], b[1..]); assert b == [b[0]] + b[1..]; }
      Flatten(a) + Flatten(b);
    }
  }

  lemma CutsEmpty<T, K>(key: T -> K, xs: seq<T>, runs: seq<seq<T>>)
    requires Cuts(key, xs, runs)
    ensures runs == [] <==> xs == []
  {
    if runs != [] {
      assert runs[|runs| - 1] != [];
    }
  }

  /** There is one way to cut a sequence. */
  lemma {:induction false} CutsUnique<T, K>(key: T -> K, xs: seq<T>, a: seq<seq<T>>, b: seq<seq<T>>)
    requires Cuts(key, xs, a) && Cuts(key, xs, b)
    ensures a == b
    decreases |a|
  {
    CutsEmpty(key, xs, a);
    CutsEmpty(key, xs, b);
    if a != [] {
      SameLast(key, xs, a, b);
      SameLast(key, xs, b, a);
      var m, n := |a| - 1, |b| - 1;
      assert a[m] == xs[|xs| - |a[m]|..] && b[n] == xs[|xs| - |b[n]|..];
      assert Flatten(a[..m]) == xs[..|xs| - |a[m]|] && Flatten(b[..n]) == xs[..|xs| - |b[n]|];
      CutsInit(key, a);
      CutsInit(key, b);
      CutsUnique(key, Flatten(a[..m]), a[..m], b[..n]);
      assert a == a[..m] + [a[m]] && b == b[..n] + [b[n]];
    }
  }

  /** The last run of one cut is not longer than that of the other. */
  lemma SameLast<T, K>(key: T -> K, xs: seq<T>, a: seq<seq<T>>, b: seq<seq<T>>)
    requires Cuts(key, xs, a) && Cuts(key, xs, b) && a != [] && b != []
    ensures |a[|a| - 1]| <= |b[|b| - 1]|
  {
    var m, n, last := |a| - 1, |b| - 1, |xs| - 1;
    LastRun(key, xs, a);
    LastRun(key, xs, b);
    if n > 0 {
      var init, before := b[..n], b[n - 1];
      assert init[n - 1] == before && Flatten(init) == Flatten(init[..n - 1]) + before;
      assert xs[last - |b[n]|] == before[|before| - 1];
      assert key(b[n - 1][|before| - 1]) == key(b[n - 1][0]) && key(b[n - 1][0]) != key(b[n][0]);
      assert key(xs[last]) == key(a[m][0]) && key(xs[last]) == key(b[n][0]);
    } else {
      assert b[..n] == [] && xs == Flatten(b[..n]) + b[n];
    }
  }

  lemma LastRun<T, K>(key: T -> K, xs: seq<T>, runs: seq<seq<T>>)
    requires Cuts(key, xs, runs) && runs != []
    ensures var run := runs[|runs| - 1];
            && 0 < |run| <= |xs|
            && forall i :: |xs| - |run| <= i < |xs| ==> key(xs[i]) == key(run[0])
  {
    var run := runs[|runs| - 1];
    forall i | |xs| - |run| <= i < |xs| ensures key(xs[i]) == key(run[0]) {
      assert xs[i] == run[i - (|xs| - |run|)];
    }
  }

  /** The runs of a concatenation. */
  function JoinRuns<T, K(==)>(key: T -> K, a: seq<seq<T>>, b: seq<seq<T>>): seq<seq<T>>
    requires a != [] ==> a[|a| - 1] != []
    requires b != [] ==> b[0] != []
  {
    if a == [] then b
    else if b == [] then a
    else if key(a[|a| - 1][0]) == key(b[0][0]) then a[..|a| - 1] + [a[|a| - 1] + b[0]] + b[1..]
    else a + b
  }

  lemma RunsEmpty<T, K>(key: T -> K, xs: seq<T>)
    ensures RunsOf(key, xs) == [] <==> xs == []
  {
  }

  lemma RunsConcat<T, K>(key: T -> K, xs: seq<T>, ys: seq<T>)
    ensures RunsOf(key, xs + ys) == JoinRuns(key, RunsOf(key, xs), RunsOf(key, ys))
  {
    var a, b := RunsOf(key, xs), RunsOf(key, ys);
    RunsCut(key, xs);
    RunsCut(key, ys);
    RunsCut(key, xs + ys);
    CutsEmpty(key, xs, a);
    CutsEmpty(key, ys, b);
    if a == [] {
      assert xs + ys == ys;
    } else if b == [] {
      assert xs + ys == xs;
    } else if key(a[|a| - 1][0]) == key(b[0][0]) {
      CutsTogether(key, xs, a, ys, b);
      CutsUnique(key, xs + ys, RunsOf(key, xs + ys), JoinRuns(key, a, b));
    } else {
      CutsApart(key, xs, a, ys, b);
      CutsUnique(key, xs + ys, RunsOf(key, xs + ys), JoinRuns(key, a, b));
    }
  }
}

/** Rows, and the operators that merge the rows of one primary key. */
module Rows {
  import opened Types
  import opened Runs

  /** One entry per primary-key column. */
  type Key = seq<int>
  type Bytes = seq<u8>

  /** The builtin columns follow all others; an output without them has them dropped. The
      reserved column is always null and is not represented. */
  datatype Builtin = Kept(seq_: nat) | Dropped

  datatype Row = Row(key: Key, values: seq<Bytes>, builtin: Builtin)

  function KeyOf(r: Row): Key { r.key }

  datatype UpdateMode = Overwrite | Append

  datatype MergeError = ColumnLengths

  /** All rows of a batch have the columns of one schema. */
  function ValueAt(r: Row, c: nat): Bytes { if c < |r.values| then r.values[c] else [] }

  /** A value column of a batch, end to end. */
  function Column(rows: seq<Row>, c: nat): Bytes
    decreases |rows|
  {
    if rows == [] then [] else Column(rows[..|rows| - 1], c) + ValueAt(rows[|rows| - 1], c)
  }

  /** A column without any byte is returned unmerged; beside the other columns' single row, two
      or more such rows are an error. */
  predicate Mergeable(mode: UpdateMode, rows: seq<Row>)
    requires rows != []
  {
    mode.Append? && |rows| > 1 ==> forall c :: 0 <= c < |rows[0].values| ==> Column(rows, c) != []
  }

  /** Merges rows that share a primary key, given in sequence order. */
  function MergeRun(mode: UpdateMode, rows: seq<Row>): Result<Row, MergeError>
    requires rows != []
  {
    match mode
    case Overwrite => Ok(rows[|rows| - 1])
    case Append =>
      if Mergeable(mode, rows) then
        Ok(rows[0].(values := seq(|rows[0].values|, c requires 0 <= c < |rows[0].values| => Column(rows, c))))
      else
        Err(ColumnLengths)
  }

  function Drop(r: Row): Row { r.(builtin := Dropped) }

  function DropAll(rows: seq<Row>): (d: seq<Row>)
    ensures |d| == |rows|
  {
    seq(|rows|, i requires 0 <= i < |rows| => Drop(rows[i]))
  }

  function Finish(keep: bool, r: Row): Row { if keep then r else Drop(r) }

  lemma {:induction false} DropKeepsColumn(rows: seq<Row>, c: nat)
    ensures Column(DropAll(rows), c) == Column(rows, c)
    decreases |rows|
  {
    if rows != [] {
      var n := |rows| - 1;
      DropKeepsColumn(rows[..n], c);
      assert DropAll(rows)[..n] == DropAll(rows[..n]);
    }
  }

  /** Dropping the builtin columns before merging gives what dropping them afterwards gives,
      and fails when that fails. */
  lemma DropCommutes(mode: UpdateMode, rows: seq<Row>)
    requires rows != []
    ensures MergeRun(mode, DropAll(rows)) ==
            if MergeRun(mode, rows).Ok? then Ok(Drop(MergeRun(mode, rows).value)) else MergeRun(mode, rows)
  {
    forall c: nat ensures Column(DropAll(rows), c) == Column(rows, c) { DropKeepsColumn(rows, c); }
    if mode.Append? && Mergeable(mode, rows) {
      var a, b := MergeRun(mode, DropAll(rows)).value, MergeRun(mode, rows).value;
      assert a.values == b.values;
    }
  }

  /** The values of a column, row by row. */
  function ValuesAt(rows: seq<Row>, c: nat): seq<Bytes> { seq(|rows|, i requires 0 <= i < |rows| => ValueAt(rows[i], c)) }

  lemma {:induction false} ColumnFlattens(rows: seq<Row>, c: nat)
    ensures Column(rows, c) == Flatten(ValuesAt(rows, c))
    decreases |rows|
  {
    if rows != [] {
      var n := |rows| - 1;
      ColumnFlattens(rows[..n], c);
      assert ValuesAt(rows, c)[..n] == ValuesAt(rows[..n], c);
    }
  }

  lemma {:induction false} ColumnEmpty(rows: seq<Row>, c: nat)
    ensures Column(rows, c) == [] <==> forall r :: r in rows ==> ValueAt(r, c) == []
    decreases |rows|
  {
    if rows != [] {
      var n := |rows| - 1;
      ColumnEmpty(rows[..n], c);
      assert rows == rows[..n] + [rows[n]];
    }
  }

  /** No row has a byte in the column. */
  ghost predicate NoByte(rows: seq<Row>, c: nat) { forall r :: r in rows ==> ValueAt(r, c) == [] }

  /** Append mode fails on two or more rows that all have no byte in some column. Else it gives the
      first row with each value replaced by the values of all rows, end to end in their order. */
  lemma AppendExactly(rows: seq<Row>)
    requires rows != []
    ensures MergeRun(Append, rows).Err? <==> |rows| > 1 && exists c: nat :: c < |rows[0].values| && NoByte(rows, c)
    ensures MergeRun(Append, rows).Ok? ==>
              var row := MergeRun(Append, rows).value;
              && row.key == rows[0].key && row.builtin == rows[0].builtin && |row.values| == |rows[0].values|
              && forall c :: 0 <= c < |row.values| ==> row.values[c] == Flatten(ValuesAt(rows, c))
  {
    forall c: nat ensures Column(rows, c) == Flatten(ValuesAt(rows, c)) && (Column(rows, c) == [] <==> NoByte(rows, c)) {
      ColumnFlattens(rows, c);
      ColumnEmpty(rows, c);
    }
  }

  /** Merges run after run; the first error is the result. */
  function MergeRuns(mode: UpdateMode, keep: bool, runs: seq<seq<Row>>): Result<seq<Row>, MergeError>
    requires forall i :: 0 <= i < |runs| ==> runs[i] != []
    decreases |runs|
  {
    if runs == [] then Ok([])
    else
      match MergeRuns(mode, keep, runs[..|runs| - 1])
      case Err(e) => Err(e)
      case Ok(rows) =>
        match MergeRun(mode, runs[|runs| - 1])
        case Err(e) => Err(e)
        case Ok(row) => Ok(rows + [Finish(keep, row)])
  }

  /** The merge of a whole input at once. */
  function OneShot(mode: UpdateMode, keep: bool, rows: seq<Row>): Result<seq<Row>, MergeError> {
    MergeRuns(mode, keep, RunsOf(KeyOf, rows))
  }

  lemma {:induction false} MergedBuiltin(mode: UpdateMode, keep: bool, runs: seq<seq<Row>>, r: Row)
    requires (forall i :: 0 <= i < |runs| ==> runs[i] != []) && MergeRuns(mode, keep, runs).Ok? && r in MergeRuns(mode, keep, runs).value
    ensures if keep then exists i, q :: 0 <= i < |runs| && q in runs[i] && q.builtin == r.builtin else r.builtin.Dropped?
    decreases |runs|
  {
    var n := |runs| - 1;
    var before, last := MergeRuns(mode, keep, runs[..n]).value, runs[n];
    if r in before {
      MergedBuiltin(mode, keep, runs[..n], r);
    } else {
      assert r == Finish(keep, MergeRun(mode, last).value);
      var q := if mode.Overwrite? then last[|last| - 1] else last[0];
      assert q in runs[n] && MergeRun(mode, last).value.builtin == q.builtin;
    }
  }

  /** The rows of a merge have no builtin columns unless these are kept, and then have those of a row
      that was merged. */
  lemma OutputBuiltin(mode: UpdateMode, keep: bool, rows: seq<Row>, r: Row)
    requires OneShot(mode, keep, rows).Ok? && r in OneShot(mode, keep, rows).value
    ensures if keep then exists q :: q in rows && q.builtin == r.builtin else r.builtin.Dropped?
  {
    var runs := RunsOf(KeyOf, rows);
    MergedBuiltin(mode, keep, runs, r);
    if keep {
      var i, q: Row :| 0 <= i < |runs| && q in runs[i] && q.builtin == r.builtin;
      RunsCut(KeyOf, rows);
      FlattenHolds(runs, i, q);
    }
  }
}
