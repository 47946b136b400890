/** The streaming merge: rows arrive in batches cut anywhere, and the rows of a primary key that
    may go on in the next batch are held back. */
module MergeStreams {
  import opened Types
  import opened Runs
  import opened Rows

  // ---------------------------------------------------------------------------------------
  // Merging prefixes of the runs
  // ---------------------------------------------------------------------------------------

  ghost predicate NonEmptyRuns(runs: seq<seq<Row>>) { forall i :: 0 <= i < |runs| ==> runs[i] != [] }

  /** Merging some runs and then others. */
  lemma {:induction false} MergeRunsConcat(mode: UpdateMode, keep: bool, a: seq<seq<Row>>, b: seq<seq<Row>>)
    requires NonEmptyRuns(a) && NonEmptyRuns(b)
    ensures NonEmptyRuns(a + b)
    ensures MergeRuns(mode, keep, a).Err? ==> MergeRuns(mode, keep, a + b).Err?
    ensures MergeRuns(mode, keep, a).Ok? && MergeRuns(mode, keep, b).Err? ==> MergeRuns(mode, keep, a + b).Err?
    ensures MergeRuns(mode, keep, a).Ok? && MergeRuns(mode, keep, b).Ok? ==>
              MergeRuns(mode, keep, a + b) == Ok(MergeRuns(mode, keep, a).value + MergeRuns(mode, keep, b).value)
    decreases |b|
  {
    if b == [] {
      assert a + b == a;
      assert MergeRuns(mode, keep, a).Ok? ==> MergeRuns(mode, keep, a).value + [] == MergeRuns(mode, keep, a).value;
    } else {
      var n := |b| - 1;
      MergeRunsConcat(mode, keep, a, b[..n]);
      assert (a + b)[..|a + b| - 1] == a + b[..n];
      assert (a + b)[|a + b| - 1] == b[n];
      if MergeRuns(mode, keep, a).Ok? && MergeRuns(mode, keep, b).Ok? {
        var x, y, z := MergeRuns(mode, keep, a).value, MergeRuns(mode, keep, b[..n]).value, Finish(keep, MergeRun(mode, b[n]).value);
        assert (x + y) + [z] == x + (y + [z]);
      }
    }
  }

  lemma MergeOneRun(mode: UpdateMode, keep: bool, run: seq<Row>)
    requires run != []
    ensures MergeRuns(mode, keep, [run]) ==
            if MergeRun(mode, run).Ok? then Ok([Finish(keep, MergeRun(mode, run).value)]) else Err(ColumnLengths)
  {
    assert [run][..0] == [];
    assert MergeRun(mode, run).Ok? ==> [] + [Finish(keep, MergeRun(mode, run).value)] == [Finish(keep, MergeRun(mode, run).value)];
  }

  /** Rows of one key are one run. */
  lemma OneRun(rows: seq<Row>, k: Key)
    requires rows != [] && forall r :: r in rows ==> r.key == k
    ensures RunsOf(KeyOf, rows) == [rows]
  {
    RunsCut(KeyOf, rows);
    FlattenOne(rows);
    assert forall i :: 0 <= i < |rows| ==> rows[i] in rows;
    assert Cuts(KeyOf, rows, [rows]);
    CutsUnique(KeyOf, rows, RunsOf(KeyOf, rows), [rows]);
  }

  lemma OneKey(mode: UpdateMode, keep: bool, rows: seq<Row>, k: Key, value: Row)
    requires rows != [] && (forall r :: r in rows ==> r.key == k) && MergeRun(mode, rows) == Ok(value)
    ensures OneShot(mode, keep, rows) == Ok([Finish(keep, value)])
  {
    OneRun(rows, k);
    MergeOneRun(mode, keep, rows);
  }

  /** All runs but the last are final: an error in one is an error of the whole merge. */
  lemma ErrorIsFinal(mode: UpdateMode, keep: bool, xs: seq<Row>, ys: seq<Row>)
    requires RunsOf(KeyOf, xs) != []
    requires MergeRuns(mode, keep, RunsOf(KeyOf, xs)[..|RunsOf(KeyOf, xs)| - 1]).Err?
    ensures OneShot(mode, keep, xs + ys).Err?
  {
    var runs, all := RunsOf(KeyOf, xs), RunsOf(KeyOf, xs + ys);
    var n := |runs| - 1;
    RunsEmpty(KeyOf, xs);
    RunsConcat(KeyOf, xs, ys);
    assert all[..n] == runs[..n];
    MergeRunsConcat(mode, keep, all[..n], all[n..]);
    assert all == all[..n] + all[n..];
  }

  // ---------------------------------------------------------------------------------------
  // Grouping one batch
  // ---------------------------------------------------------------------------------------

  method GroupByKey(batch: seq<Row>) returns (groups: seq<seq<Row>>)
    ensures groups == RunsOf(KeyOf, batch)
  {
    groups := [];
    var start := 0;
    while start < |batch|
      invariant 0 <= start <= |batch|
      invariant Cuts(KeyOf, batch[..start], groups)
      invariant groups != [] && start < |batch| ==> groups[|groups| - 1][0].key != batch[start].key
    {
      var end := start + 1;
      while end < |batch| && batch[start].key == batch[end].key
        invariant start < end <= |batch|
        invariant forall i :: start <= i < end ==> batch[i].key == batch[start].key
      {
        end := end + 1;
      }
      var run := batch[start..end];
      CutsAppend(KeyOf, batch[..start], groups, run);
      assert batch[..end] == batch[..start] + run;
      groups := groups + [run];
      start := end;
    }
    assert batch[..start] == batch;
    RunsCut(KeyOf, batch);
    CutsUnique(KeyOf, batch, groups, RunsOf(KeyOf, batch));
  }

  lemma JoinHeld(closed: seq<seq<Row>>, held: seq<Row>, groups: seq<seq<Row>>)
    requires held != [] && groups != [] && groups[0] != []
    ensures JoinRuns(KeyOf, closed + [held], groups) ==
            if held[0].key == groups[0][0].key then closed + [] + ([held + groups[0]] + groups[1..])
            else closed + [held] + groups
  {
    var a := closed + [held];
    assert a[..|a| - 1] == closed;
    assert closed + [held + groups[0]] + groups[1..] == closed + [] + ([held + groups[0]] + groups[1..]);
  }

  /** Groups a batch and joins it with the run held back: the runs that are finished, and the
      one that may go on in the next batch. */
  method Regroup(pending: Option<seq<Row>>, batch: seq<Row>, ghost taken: seq<Row>, ghost closed: seq<seq<Row>>)
    returns (finished: seq<seq<Row>>, last: seq<Row>)
    requires batch != []
    requires RunsOf(KeyOf, taken) == closed + (if pending.Some? then [pending.value] else [])
    requires pending.None? ==> taken == []
    ensures RunsOf(KeyOf, taken + batch) == closed + finished + [last]
    ensures NonEmptyRuns(finished) && last != []
  {
    var groups: seq<seq<Row>> := GroupByKey(batch);
    RunsConcat(KeyOf, taken, batch);
    RunsEmpty(KeyOf, batch);
    finished := [];
    if pending.Some? {
      var held: seq<Row> := pending.value;
      SameKeyThroughout(taken, closed, held);
      JoinHeld(closed, held, groups);
      if held[|held| - 1].key == groups[0][0].key {
        groups := [held + groups[0]] + groups[1..];
      } else {
        finished := [held];
      }
    } else {
      assert closed == [];
    }
    assert RunsOf(KeyOf, taken + batch) == closed + finished + groups;
    SplitLast(closed, finished, groups);
    last := groups[|groups| - 1];
    finished := finished + groups[..|groups| - 1];
  }

  lemma SplitLast(closed: seq<seq<Row>>, finished: seq<seq<Row>>, groups: seq<seq<Row>>)
    requires groups != []
    ensures closed + finished + groups == closed + (finished + groups[..|groups| - 1]) + [groups[|groups| - 1]]
  {
  }

  class MergeStream {
    const mode: UpdateMode
    const keepBuiltin: bool
    var input: seq<seq<Row>>
    var pending: Option<seq<Row>>

    /** All rows that the input ever held, the rows taken from it, the runs that were merged,
        and the rows that were returned. */
    ghost const rows: seq<Row>
    ghost var taken: seq<Row>
    ghost var closed: seq<seq<Row>>
    ghost var returned: seq<Row>

    ghost function Open(): seq<seq<Row>>
      reads this
    {
      if pending.Some? then [pending.value] else []
    }

    ghost predicate Valid()
      reads this
    {
      && rows == taken + Flatten(input)
      && closed + Open() == RunsOf(KeyOf, taken)
      && NonEmptyRuns(closed)
      && MergeRuns(mode, keepBuiltin, closed) == Ok(returned)
      && (pending.None? ==> taken == [] || input == [])
    }

    constructor (mode: UpdateMode, keepBuiltin: bool, input: seq<seq<Row>>)
      ensures Valid()
      ensures this.mode == mode && this.keepBuiltin == keepBuiltin && this.input == input
      ensures rows == Flatten(input) && returned == []
    {
      this.mode := mode;
      this.keepBuiltin := keepBuiltin;
      this.input := input;
      this.pending := None;
      this.rows := Flatten(input);
      this.taken := [];
      this.closed := [];
      this.returned := [];
    }

    /** Merges every group into one batch, dropping the builtin columns of the result. */
    method MergeGroups(groups: seq<seq<Row>>) returns (r: Result<seq<Row>, MergeError>)
      requires NonEmptyRuns(groups)
      ensures r == MergeRuns(mode, keepBuiltin, groups)
    {
      var out: seq<Row> := [];
      for i := 0 to |groups|
        invariant MergeRuns(mode, keepBuiltin, groups[..i]) == Ok(out)
      {
        var next := groups[..i + 1];
        assert next[..i] == groups[..i];
        var row := MergeRun(mode, groups[i]);
        if row.Err? {
          MergeRunsConcat(mode, keepBuiltin, next, groups[i + 1..]);
          assert groups == next + groups[i + 1..];
          FirstError(groups);
          return Err(row.error);
        }
        out := out + [Finish(keepBuiltin, row.value)];
      }
      assert groups[..|groups|] == groups;
      r := Ok(out);
    }

    lemma FirstError(groups: seq<seq<Row>>)
      requires NonEmptyRuns(groups) && MergeRuns(mode, keepBuiltin, groups).Err?
      ensures MergeRuns(mode, keepBuiltin, groups) == Err(ColumnLengths)
    {
    }

    /** Takes one batch, the next of the input. */
    method MergeBatch(batch: seq<Row>) returns (r: Result<Option<seq<Row>>, MergeError>)
      requires Valid() && input != [] && batch == input[0]
      modifies this
      ensures input == old(input)[1..]
      ensures r.Ok? ==> Valid()
      ensures r == Ok(None) ==> returned == old(returned)
      ensures r.Ok? && r.value.Some? ==> returned == old(returned) + r.value.value
      ensures r.Err? ==> OneShot(mode, keepBuiltin, rows).Err?
    {
      input := input[1..];
      FlattenFirst(batch, input);
      assert old(input) == [batch] + input;
      assert rows == (taken + batch) + Flatten(input);
      if |batch| == 0 {
        return Ok(None);
      }

      var finished, last := Regroup(pending, batch, taken, closed);
      taken := taken + batch;
      r := Emit(finished, last);
    }

    /** Merges the finished runs and holds the last one back. */
    method Emit(finished: seq<seq<Row>>, last: seq<Row>) returns (r: Result<Option<seq<Row>>, MergeError>)
      requires rows == taken + Flatten(input)
      requires RunsOf(KeyOf, taken) == closed + finished + [last] && NonEmptyRuns(closed) && NonEmptyRuns(finished)
      requires MergeRuns(mode, keepBuiltin, closed) == Ok(returned)
      modifies this`pending, this`closed, this`returned
      ensures r.Ok? ==> Valid()
      ensures r == Ok(None) ==> returned == old(returned)
      ensures r.Ok? && r.value.Some? ==> returned == old(returned) + r.value.value
      ensures r.Err? ==> OneShot(mode, keepBuiltin, rows).Err?
    {
      pending := Some(last);
      MergeRunsConcat(mode, keepBuiltin, closed, finished);
      var output := MergeGroups(finished);
      if output.Err? {
        assert RunsOf(KeyOf, taken)[..|RunsOf(KeyOf, taken)| - 1] == closed + finished;
        ErrorIsFinal(mode, keepBuiltin, taken, Flatten(input));
        return Err(output.error);
      }
      closed := closed + finished;
      returned := returned + output.value;
      r := Ok(if finished == [] then None else Some(output.value));
    }

    /** Polls until there is a batch to return; `None` is the end of the stream. */
    method PollNext() returns (r: Option<Result<seq<Row>, MergeError>>)
      requires Valid()
      modifies this
      ensures r.None? ==> Valid() && returned == old(returned) && OneShot(mode, keepBuiltin, rows) == Ok(returned)
      ensures r.Some? && r.value.Ok? ==> Valid() && returned == old(returned) + r.value.value
      ensures r.Some? && r.value.Ok? ==> |input| < |old(input)| || (input == old(input) && pending.None? && old(pending).Some?)
      ensures r.Some? && r.value.Err? ==> OneShot(mode, keepBuiltin, rows).Err?
    {
      while input != []
        invariant Valid() && returned == old(returned) && |input| <= |old(input)|
        invariant input == old(input) ==> pending == old(pending)
        decreases |input|
      {
        var merged := MergeBatch(input[0]);
        if merged.Err? {
          return Some(Err(merged.error));
        }
        if merged.value.Some? {
          return Some(Ok(merged.value.value));
        }
      }
      assert Flatten(input) == [] && rows == taken;
      if pending.None? {
        assert closed + Open() == closed;
        return None;
      }
      var flushed := Flush();
      r := Some(flushed);
    }

    /** The end of the input: the builtin columns are dropped before the merge. */
    method Flush() returns (r: Result<seq<Row>, MergeError>)
      requires Valid() && input == [] && pending.Some?
      modifies this`pending, this`closed, this`returned
      ensures pending.None?
      ensures r.Ok? ==> Valid() && returned == old(returned) + r.value
      ensures r.Err? ==> OneShot(mode, keepBuiltin, rows).Err?
    {
      var held := pending.value;
      pending := None;
      assert rows == taken;
      SameKeyThroughout(taken, closed, held);
      FlushLast(mode, keepBuiltin, rows, closed, held);
      var row := MergeRun(mode, if keepBuiltin then held else DropAll(held));
      if row.Err? {
        return Err(row.error);
      }
      closed := closed + [held];
      returned := returned + [row.value];
      assert closed + Open() == closed;
      r := Ok([row.value]);
    }
  }

  /** The last run, merged after dropping, ends the one-shot merge. */
  lemma FlushLast(mode: UpdateMode, keep: bool, xs: seq<Row>, closed: seq<seq<Row>>, held: seq<Row>)
    requires closed + [held] == RunsOf(KeyOf, xs) && NonEmptyRuns(closed) && held != []
    requires MergeRuns(mode, keep, closed).Ok?
    ensures var row := MergeRun(mode, if keep then held else DropAll(held));
            && OneShot(mode, keep, xs) == MergeRuns(mode, keep, closed + [held])
            && (row.Ok? ==> OneShot(mode, keep, xs) == Ok(MergeRuns(mode, keep, closed).value + [row.value]))
            && (row.Err? ==> OneShot(mode, keep, xs).Err?)
  {
    MergeRunsConcat(mode, keep, closed, [held]);
    MergeOneRun(mode, keep, held);
    DropCommutes(mode, held);
  }

  /** For every split of the rows into batches, empty ones included, the batches returned make
      up the one-shot merge, and an error is returned exactly when that is one. */
  method Drain(mode: UpdateMode, keepBuiltin: bool, input: seq<seq<Row>>) returns (r: Result<seq<Row>, MergeError>)
    ensures r == OneShot(mode, keepBuiltin, Flatten(input))
  {
    var stream := new MergeStream(mode, keepBuiltin, input);
    var out: seq<Row> := [];
    while true
      invariant stream.Valid() && fresh(stream)
      invariant stream.mode == mode && stream.keepBuiltin == keepBuiltin && stream.rows == Flatten(input)
      invariant out == stream.returned
      decreases |stream.input|, if stream.pending.Some? then 1 else 0
    {
      var next := stream.PollNext();
      if next.None? {
        return Ok(out);
      }
      if next.value.Err? {
        OnlyColumnLengths(OneShot(mode, keepBuiltin, Flatten(input)), next.value);
        return Err(next.value.error);
      }
      out := out + next.value.value;
    }
    r := Ok(out);
  }

  lemma OnlyColumnLengths(a: Result<seq<Row>, MergeError>, b: Result<seq<Row>, MergeError>)
    requires a.Err? && b.Err?
    ensures a.error == b.error
  {
  }

  lemma SameKeyThroughout(xs: seq<Row>, closed: seq<seq<Row>>, held: seq<Row>)
    requires closed + [held] == RunsOf(KeyOf, xs)
    ensures held != [] && held[|held| - 1].key == held[0].key
  {
    var runs := RunsOf(KeyOf, xs);
    assert runs[|runs| - 1] == held;
    RunsCut(KeyOf, xs);
    assert KeyOf(runs[|runs| - 1][|held| - 1]) == KeyOf(runs[|runs| - 1][0]);
  }

  lemma FlattenFirst(batch: seq<Row>, rest: seq<seq<Row>>)
    ensures Flatten([batch] + rest) == batch + Flatten(rest)
  {
    FlattenConcat([batch], rest);
    FlattenOne(batch);
  }
}
