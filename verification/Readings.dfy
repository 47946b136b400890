/** What a scan answers for each primary key, once the files are merged in order. */
module Readings {
  import opened Types
  import opened Runs
  import opened Rows
  import opened SortedRows

  /** Ascending in the primary key, each key at most once. */
  ghost predicate Ascending(rows: seq<Row>) {
    forall i, j :: 0 <= i < j < |rows| ==> Less(rows[i].key, rows[j].key)
  }

  lemma AscendingSorted(rows: seq<Row>)
    requires Ascending(rows)
    ensures Sorted(rows)
  {
  }

  /** What the operator makes of the rows of one key, if it has any. */
  function Answer(mode: UpdateMode, keep: bool, rows: seq<Row>, k: Key): Option<Result<Row, MergeError>> {
    var run := KeyRows(rows, k);
    if run == [] then None
    else if MergeRun(mode, run).Err? then Some(Err(MergeRun(mode, run).error))
    else Some(Ok(Finish(keep, MergeRun(mode, run).value)))
  }

  /** `rows` is `before` and then the run of the last key. */
  ghost predicate Splits(rows: seq<Row>, before: seq<Row>, run: seq<Row>) {
    && run != []
    && rows == before + run
    && (forall r :: r in before ==> Less(r.key, Last(run).key))
    && (forall r :: r in run ==> r.key == Last(run).key)
    && RunsOf(KeyOf, rows) == RunsOf(KeyOf, before) + [run]
  }

  /** In sorted rows the rows of the last key stand together at the end, and are the last run. */
  lemma {:induction false} SortedSplit(rows: seq<Row>) returns (before: seq<Row>, run: seq<Row>)
    requires Sorted(rows) && rows != []
    ensures Splits(rows, before, run) && Sorted(before)
    ensures |before| < |rows| && Last(run) == Last(rows)
    decreases |rows|
  {
    var n := |rows| - 1;
    var x, init := rows[n], rows[..n];
    assert rows == init + [x];
    if init != [] && Last(init).key == x.key {
      before, run := SortedSplit(init);
      SplitGrows(init, before, run, x);
      run := run + [x];
    } else {
      before, run := init, [x];
      if init != [] {
        var b, last := SortedSplit(init);
        SplitStarts(init, b, last, x);
      }
    }
  }

  lemma SplitGrows(rows: seq<Row>, before: seq<Row>, run: seq<Row>, x: Row)
    requires Splits(rows, before, run) && x.key == Last(run).key
    ensures Splits(rows + [x], before, run + [x])
  {
    var runs := RunsOf(KeyOf, rows);
    assert run[0] in run;
    assert (rows + [x])[..|rows|] == rows && runs[..|runs| - 1] == RunsOf(KeyOf, before);
    assert rows + [x] == before + (run + [x]);
  }

  lemma SplitStarts(rows: seq<Row>, before: seq<Row>, run: seq<Row>, x: Row)
    requires Sorted(rows + [x]) && Splits(rows, before, run) && x.key != Last(run).key
    ensures Splits(rows + [x], rows, [x])
  {
    assert run[0] in run;
    assert (rows + [x])[..|rows|] == rows;
    forall r | r in rows ensures Less(r.key, x.key) {
      SmallerKey(rows, r, x);
    }
  }

  lemma SmallerKey(before: seq<Row>, r: Row, x: Row)
    requires Sorted(before + [x]) && r in before && Last(before).key != x.key
    ensures Less(r.key, x.key)
  {
    var n := |before| - 1;
    var rows := before + [x];
    var i :| 0 <= i <= n && before[i] == r;
    assert rows[i] == r && rows[n] == Last(before) && rows[n + 1] == x;
    assert AtMost(rows[n], rows[n + 1]);
    if i < n {
      assert AtMost(rows[i], rows[n]);
      if Less(r.key, rows[n].key) {
        LessTransitive(r.key, rows[n].key, x.key);
      }
    }
  }

  /** The rows of the last key are the run; those of the other keys are before it. */
  lemma SplitKeyRows(rows: seq<Row>, before: seq<Row>, run: seq<Row>, k: Key)
    requires Splits(rows, before, run)
    ensures k == Last(run).key ==> KeyRows(rows, k) == run && KeyRows(before, k) == []
    ensures k != Last(run).key ==> KeyRows(rows, k) == KeyRows(before, k)
  {
    var p := (r: Row) => r.key == k;
    FilterConcat(p, before, run);
    if k == Last(run).key {
      LessTotal(k, k);
      FilterNone(p, before);
      FilterAll(p, run);
    } else {
      FilterNone(p, run);
    }
  }

  lemma SplitAnswers(mode: UpdateMode, keep: bool, rows: seq<Row>, before: seq<Row>, run: seq<Row>)
    requires Splits(rows, before, run)
    ensures Answer(mode, keep, rows, Last(run).key).Some?
    ensures forall k :: Answer(mode, keep, before, k) == if k == Last(run).key then None else Answer(mode, keep, rows, k)
  {
    forall k
      ensures Answer(mode, keep, before, k) == if k == Last(run).key then None else Answer(mode, keep, rows, k)
    {
      SplitKeyRows(rows, before, run, k);
    }
    SplitKeyRows(rows, before, run, Last(run).key);
  }

  /** One more key's answer after a merge. */
  function Extend(before: Result<seq<Row>, MergeError>, answer: Result<Row, MergeError>): Result<seq<Row>, MergeError> {
    if before.Err? then before else if answer.Err? then Err(answer.error) else Ok(before.value + [answer.value])
  }

  /** The merge of sorted rows, key by key. */
  lemma OneShotSplit(mode: UpdateMode, keep: bool, rows: seq<Row>, before: seq<Row>, run: seq<Row>)
    requires Splits(rows, before, run) && Answer(mode, keep, rows, Last(run).key).Some?
    ensures OneShot(mode, keep, rows)
         == Extend(OneShot(mode, keep, before), Answer(mode, keep, rows, Last(run).key).value)
  {
    SplitKeyRows(rows, before, run, Last(run).key);
    var runs := RunsOf(KeyOf, rows);
    assert runs[..|runs| - 1] == RunsOf(KeyOf, before);
  }

  /** Sorted rows that give the same answer for every key give the same merge, errors included. */
  lemma {:induction false} SameAnswers(mode: UpdateMode, keep: bool, xs: seq<Row>, ys: seq<Row>)
    requires Sorted(xs) && Sorted(ys)
    requires forall k :: Answer(mode, keep, xs, k) == Answer(mode, keep, ys, k)
    ensures OneShot(mode, keep, xs) == OneShot(mode, keep, ys)
    decreases |xs|
  {
    SameLastKey(mode, keep, xs, ys);
    if xs != [] {
      var xb, xr := SortedSplit(xs);
      var yb, yr := SortedSplit(ys);
      SplitAnswers(mode, keep, xs, xb, xr);
      SplitAnswers(mode, keep, ys, yb, yr);
      OneShotSplit(mode, keep, xs, xb, xr);
      OneShotSplit(mode, keep, ys, yb, yr);
      SameAnswers(mode, keep, xb, yb);
    }
  }

  lemma SameLastKey(mode: UpdateMode, keep: bool, xs: seq<Row>, ys: seq<Row>)
    requires Sorted(xs) && Sorted(ys)
    requires forall k :: Answer(mode, keep, xs, k) == Answer(mode, keep, ys, k)
    ensures xs == [] <==> ys == []
    ensures xs != [] ==> Last(xs).key == Last(ys).key
  {
    if xs != [] {
      KeyBelow(mode, keep, xs, ys);
    }
    if ys != [] {
      KeyBelow(mode, keep, ys, xs);
    }
    if xs != [] {
      LessTotal(Last(xs).key, Last(ys).key);
    }
  }

  lemma KeyBelow(mode: UpdateMode, keep: bool, xs: seq<Row>, ys: seq<Row>)
    requires Sorted(ys) && xs != []
    requires forall k :: Answer(mode, keep, xs, k) == Answer(mode, keep, ys, k)
    ensures ys != [] && (Last(xs).key == Last(ys).key || Less(Last(xs).key, Last(ys).key))
  {
    var x := Last(xs);
    assert x in KeyRows(xs, x.key);
    assert Answer(mode, keep, xs, x.key) == Answer(mode, keep, ys, x.key);
    var r := KeyRows(ys, x.key)[0];
    assert r in KeyRows(ys, x.key);
    var i :| 0 <= i < |ys| && ys[i] == r;
    assert i < |ys| - 1 ==> AtMost(ys[i], ys[|ys| - 1]);
  }

  /** What each key is given: the operator's row, or nothing. */
  function Given(mode: UpdateMode, keep: bool, rows: seq<Row>, k: Key): seq<Row> {
    var answer := Answer(mode, keep, rows, k);
    if answer.Some? && answer.value.Ok? then [answer.value.value] else []
  }

  lemma GivenKey(mode: UpdateMode, keep: bool, rows: seq<Row>, k: Key)
    requires Given(mode, keep, rows, k) != []
    ensures Given(mode, keep, rows, k)[0].key == k
    ensures exists r :: r in rows && r.key == k
  {
    var run := KeyRows(rows, k);
    assert run[0] in run && run[|run| - 1] in run;
  }

  /** Fails exactly when some key's merge does; else holds, in ascending order, one row for each
      key that has rows, and that row is the operator's. */
  ghost predicate Means(mode: UpdateMode, keep: bool, rows: seq<Row>, result: Result<seq<Row>, MergeError>) {
    && (result.Err? <==> exists k :: Answer(mode, keep, rows, k).Some? && Answer(mode, keep, rows, k).value.Err?)
    && (result.Ok? ==> Ascending(result.value))
    && (result.Ok? ==> forall k :: KeyRows(result.value, k) == Given(mode, keep, rows, k))
  }

  lemma {:induction false} OneShotMeaning(mode: UpdateMode, keep: bool, rows: seq<Row>)
    requires Sorted(rows)
    ensures Means(mode, keep, rows, OneShot(mode, keep, rows))
    decreases |rows|
  {
    if rows == [] {
      assert forall k :: Answer(mode, keep, rows, k).None?;
    } else {
      var before, run := SortedSplit(rows);
      OneShotMeaning(mode, keep, before);
      SplitAnswers(mode, keep, rows, before, run);
      OneShotSplit(mode, keep, rows, before, run);
      ExtendMeans(mode, keep, rows, before, run, OneShot(mode, keep, before));
    }
  }

  lemma ExtendMeans(mode: UpdateMode, keep: bool, rows: seq<Row>, before: seq<Row>, run: seq<Row>,
                    result: Result<seq<Row>, MergeError>)
    requires Splits(rows, before, run) && Means(mode, keep, before, result)
    requires Answer(mode, keep, rows, Last(run).key).Some?
    ensures Means(mode, keep, rows, Extend(result, Answer(mode, keep, rows, Last(run).key).value))
  {
    var last := Last(run).key;
    var answer := Answer(mode, keep, rows, last).value;
    SplitAnswers(mode, keep, rows, before, run);
    if result.Ok? && answer.Ok? {
      assert Given(mode, keep, rows, last) == [answer.value];
      forall k
        ensures KeyRows(result.value + [answer.value], k) == Given(mode, keep, rows, k)
      {
        GivenKey(mode, keep, rows, last);
        KeyRowsAppend(result.value, answer.value, k);
        assert KeyRows(result.value, k) == Given(mode, keep, before, k);
        assert Answer(mode, keep, before, k) == if k == last then None else Answer(mode, keep, rows, k);
      }
      ExtendAscends(mode, keep, rows, before, run, result.value);
    } else {
      assert result.Err? ==> exists k :: Answer(mode, keep, before, k).Some? && Answer(mode, keep, before, k).value.Err?;
    }
  }

  lemma ExtendAscends(mode: UpdateMode, keep: bool, rows: seq<Row>, before: seq<Row>, run: seq<Row>, done: seq<Row>)
    requires Splits(rows, before, run) && Ascending(done)
    requires forall k :: KeyRows(done, k) == Given(mode, keep, before, k)
    requires Given(mode, keep, rows, Last(run).key) != []
    ensures Ascending(done + Given(mode, keep, rows, Last(run).key))
  {
    var last := Last(run).key;
    GivenKey(mode, keep, rows, last);
    forall r | r in done ensures Less(r.key, last) {
      assert r in KeyRows(done, r.key);
      GivenKey(mode, keep, before, r.key);
    }
  }

  lemma KeyRowsAppend(rows: seq<Row>, row: Row, k: Key)
    ensures KeyRows(rows + [row], k) == KeyRows(rows, k) + if row.key == k then [row] else []
  {
    assert (rows + [row])[..|rows|] == rows;
  }
}
