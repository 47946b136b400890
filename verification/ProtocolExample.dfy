/** Runs that show what a crash while the merger deletes delta objects can lead to. */
module ProtocolExample {
  import opened Types
  import opened Updates
  import opened Protocol
  import opened ProtocolInvariant
  import opened ProtocolTheorems
  import opened ProtocolDistinct

  lemma Worked(hard: nat, run: seq<State>, step: WorkStep, t: State) returns (more: seq<State>)
    requires Run(hard, run) && CanWork(hard, Last(run), step) && t == Work(hard, Last(run), step)
    ensures Run(hard, more) && Last(more) == t && more == run + [t]
  {
    more := run + [t];
    assert Next(hard, Last(run), t);
  }

  lemma Merged(hard: nat, run: seq<State>, step: MergeStep, t: State) returns (more: seq<State>)
    requires Run(hard, run) && CanMerge(Last(run), step) && t == Merge(Last(run), step)
    ensures Run(hard, more) && Last(more) == t && more == run + [t]
  {
    more := run + [t];
    assert Next(hard, Last(run), t);
  }

  const ADD: Update := Update({0}, {})
  const SWAP: Update := Update({1}, {0})

  /** Serving, nothing in flight. */
  ghost function Serving(deltas: Log, objects: set<FileId>, cache: Records, nextFile: FileId): State {
    State(None, deltas, objects, Up, cache, map[], {}, None, Idle, |deltas|, nextFile, |deltas|, deltas, map[], map[])
  }

  lemma Boot(hard: nat) returns (run: seq<State>)
    ensures Run(hard, run) && Last(run) == Serving(map[], {}, map[], 0)
  {
    var s := State(None, map[], {}, Down, map[], map[], {}, None, Idle, 0, 0, 0, map[], map[], map[]);
    run := [s];
    run := Merged(hard, run, BootList(0, 0), s.(mode := Loading));
    run := Merged(hard, run, BootLoad, s.(mode := Up));
  }

  /** File 0 gets its data object and passes the limit. */
  lemma StartWrite(hard: nat) returns (run: seq<State>)
    ensures Run(hard, run)
    ensures Last(run) == Serving(map[], {0}, map[], 1).(jobs := map[0 := Job({}, Checked(0))])
  {
    run := Boot(hard);
    var s := Last(run).(jobs := map[0 := Job({}, Allocated(0))], nextFile := 1);
    run := Worked(hard, run, BeginWrite(0), s);
    s := s.(jobs := map[0 := Job({}, ObjectPut(0))], objects := {0});
    run := Worked(hard, run, PutObject(0), s);
    s := s.(jobs := map[0 := Job({}, Checked(0))]);
    run := Worked(hard, run, CheckLimit(0), s);
  }

  lemma VictimIds()
    ensures Ids({}) == {} && Ids({Copy(0, 0)}) == {0}
  {
    assert Copy(0, 0) in {Copy(0, 0)};
  }

  /** Its update is persisted. */
  lemma PersistWrite(hard: nat) returns (run: seq<State>)
    ensures Run(hard, run)
    ensures Last(run) == Serving(map[0 := ADD], {0}, map[], 1).(jobs := map[0 := Job({}, Persisted(0))])
  {
    run := StartWrite(hard);
    VictimIds();
    var s := Last(run).(jobs := map[0 := Job({}, Counted(0))], deltasNum := 1);
    run := Worked(hard, run, Count(0), s);
    s := s.(jobs := map[0 := Job({}, Named(0, 0))], nextDelta := 1);
    run := Worked(hard, run, NameDelta(0), s);
    s := s.(jobs := map[0 := Job({}, Persisted(0))], deltas := map[0 := ADD], log := map[0 := ADD]);
    run := Worked(hard, run, PutDelta(0), s);
  }

  /** File 0 is written. */
  lemma WriteFile(hard: nat) returns (run: seq<State>)
    ensures Run(hard, run) && Last(run) == Serving(map[0 := ADD], {0}, map[0 := 1], 1)
  {
    run := PersistWrite(hard);
    VictimIds();
    var s := Last(run).(jobs := map[0 := Job({}, Cached)], cache := map[0 := 1]);
    run := Worked(hard, run, UpdateCache(0), s);
    run := Worked(hard, run, Finish(0), s.(jobs := map[]));
  }

  /** File 0 is picked. */
  lemma PickFile(hard: nat) returns (run: seq<State>)
    ensures Run(hard, run)
    ensures Last(run) == Serving(map[0 := ADD], {0}, map[0 := 1], 1).(jobs := map[1 := Job({Copy(0, 0)}, Queued)], marks := {Copy(0, 0)})
  {
    run := WriteFile(hard);
    var s := Last(run).(view := Some(map[0 := 1]));
    run := Worked(hard, run, TakeView, s);
    s := s.(view := None, marks := {Copy(0, 0)}, jobs := map[1 := Job({Copy(0, 0)}, Queued)]);
    run := Worked(hard, run, Pick(1, {Copy(0, 0)}), s);
  }

  /** Its compaction puts file 1. */
  lemma StartCompaction(hard: nat) returns (run: seq<State>)
    requires hard >= 1
    ensures Run(hard, run)
    ensures Last(run) == Serving(map[0 := ADD], {0, 1}, map[0 := 1], 2).(jobs := map[1 := Job({Copy(0, 0)}, Checked(1))], marks := {Copy(0, 0)})
  {
    run := PickFile(hard);
    var s := Last(run).(jobs := map[1 := Job({Copy(0, 0)}, Allocated(1))], nextFile := 2);
    run := Worked(hard, run, StartTask(1), s);
    s := s.(jobs := map[1 := Job({Copy(0, 0)}, ObjectPut(1))], objects := {0, 1});
    run := Worked(hard, run, PutObject(1), s);
    s := s.(jobs := map[1 := Job({Copy(0, 0)}, Checked(1))]);
    run := Worked(hard, run, CheckLimit(1), s);
  }

  /** The compaction's update is persisted. */
  lemma PersistCompaction(hard: nat) returns (run: seq<State>)
    requires hard >= 1
    ensures Run(hard, run)
    ensures Last(run) == Serving(map[0 := ADD, 1 := SWAP], {0, 1}, map[0 := 1], 2).(jobs := map[1 := Job({Copy(0, 0)}, Persisted(1))], marks := {Copy(0, 0)})
  {
    run := StartCompaction(hard);
    VictimIds();
    var s := Last(run).(jobs := map[1 := Job({Copy(0, 0)}, Counted(1))], deltasNum := 2);
    run := Worked(hard, run, Count(1), s);
    s := s.(jobs := map[1 := Job({Copy(0, 0)}, Named(1, 1))], nextDelta := 2);
    run := Worked(hard, run, NameDelta(1), s);
    var both: Log := map[0 := ADD, 1 := SWAP];
    assert both.Keys == {0, 1};
    s := s.(jobs := map[1 := Job({Copy(0, 0)}, Persisted(1))], deltas := both, log := both);
    run := Worked(hard, run, PutDelta(1), s);
  }

  /** The compaction replaces file 0 by file 1 and deletes the data object of file 0. */
  lemma FinishCompaction(hard: nat) returns (run: seq<State>)
    requires hard >= 1
    ensures Run(hard, run)
    ensures Last(run) == Serving(map[0 := ADD, 1 := SWAP], {1}, map[1 := 1], 2).(jobs := map[1 := Job({Copy(0, 0)}, Cached)], marks := {Copy(0, 0)})
  {
    run := PersistCompaction(hard);
    VictimIds();
    var s := Last(run).(jobs := map[1 := Job({Copy(0, 0)}, Cached)], cache := map[1 := 1]);
    run := Worked(hard, run, UpdateCache(1), s);
    s := s.(objects := {1});
    run := Worked(hard, run, DeleteObject(1, 0), s);
  }

  lemma BothReplay()
    ensures ReplayRecords(map[], map[0 := ADD, 1 := SWAP]) == map[1 := 1]
    ensures ReplayRecords(map[1 := 1], map[0 := ADD]) == map[0 := 1, 1 := 1]
  {
    var both: Log := map[0 := ADD, 1 := SWAP];
    assert 0 in both && 1 in both && Adds(both) == {0, 1} && Dels(both) == {0};
    var one: Log := map[0 := ADD];
    assert 0 in one && Adds(one) == {0} && Dels(one) == {};
  }

  /** Down, with a snapshot that accounts for both updates and the delta objects `left`. */
  ghost function Crashed(left: Log): State {
    State(Some(map[1 := 1]), left, {1}, Down, map[], map[], {}, None, Idle, 0, 2, 2,
          map[0 := ADD, 1 := SWAP], map[0 := ADD, 1 := SWAP], map[0 := ADD, 1 := SWAP])
  }

  /** A merger that has listed all delta objects reads them and the snapshot. */
  lemma ReadListed(hard: nat, run: seq<State>) returns (more: seq<State>)
    requires Run(hard, run) && SnapshotReadable(Last(run)) && Last(run).merger == Listed(Last(run).deltas.Keys)
    ensures Run(hard, more) && |more| > |run| && more[..|run|] == run
    ensures var s := Last(run); Last(more) == s.(merger := ReadAll(s.deltas.Keys, s.deltas, SnapshotRecords(s)))
  {
    var s := Last(run);
    assert Merge(s, FetchDeltas).merger.updates == s.deltas;
    var t := s.(merger := ReadDeltas(s.deltas.Keys, s.deltas));
    more := Merged(hard, run, FetchDeltas, t);
    t := s.(merger := ReadAll(s.deltas.Keys, s.deltas, SnapshotRecords(s)));
    more := Merged(hard, more, FetchSnapshot, t);
  }

  /** It puts a new snapshot. */
  lemma MergeListed(hard: nat, run: seq<State>) returns (more: seq<State>)
    requires Run(hard, run) && SnapshotReadable(Last(run)) && Last(run).merger == Listed(Last(run).deltas.Keys)
    ensures Run(hard, more) && |more| > |run| && more[..|run|] == run
    ensures var s := Last(run);
            Last(more) == s.(snapshot := Some(ReplayRecords(SnapshotRecords(s), s.deltas)), merger := Deleting(s.deltas.Keys, 0), merged := s.listed)
  {
    more := ReadListed(hard, run);
    more := Merged(hard, more, PutSnapshot, Merge(Last(more), PutSnapshot));
  }

  /** The merger puts a snapshot of both updates. */
  lemma MergeBoth(hard: nat) returns (run: seq<State>)
    requires hard >= 1
    ensures Run(hard, run)
    ensures var both: Log := map[0 := ADD, 1 := SWAP];
            Last(run) == Serving(both, {1}, map[1 := 1], 2).(jobs := map[1 := Job({Copy(0, 0)}, Cached)], marks := {Copy(0, 0)},
              snapshot := Some(map[1 := 1]), merger := Deleting({0, 1}, 0), merged := both, listed := both)
  {
    run := FinishCompaction(hard);
    var both: Log := map[0 := ADD, 1 := SWAP];
    BothReplay();
    var s := Last(run).(merger := Listed({0, 1}), listed := both);
    assert both.Keys == {0, 1};
    run := Merged(hard, run, List, s);
    run := MergeListed(hard, run);
  }

  /** One of the two delta objects. */
  ghost function Left(d: DeltaId): Log { if d == 0 then map[1 := SWAP] else map[0 := ADD] }

  lemma OneLeft(d: DeltaId)
    requires d <= 1
    ensures map[0 := ADD, 1 := SWAP] - {d} == Left(d)
    ensures Left(d).Keys == {1 - d} && |Left(d)| == 1 && {0, 1} - {d} == {1 - d}
  {
    var left := Left(d);
    assert left.Keys == {1 - d};
    assert |left| == |left.Keys|;
  }

  /** It deletes delta object `d`; the process crashes before it deletes the other one. */
  lemma CrashWhileDeleting(hard: nat, d: DeltaId) returns (run: seq<State>)
    requires hard >= 1 && d <= 1
    ensures Run(hard, run) && Last(run) == Crashed(Left(d))
  {
    run := MergeBoth(hard);
    OneLeft(d);
    run := Merged(hard, run, DeleteDelta(d), Last(run).(merger := Deleting({1 - d}, 1), deltas := Left(d)));
    run := Merged(hard, run, Crash, Crashed(Left(d)));
  }

  lemma BootListed(hard: nat, run: seq<State>) returns (more: seq<State>)
    requires Run(hard, run) && Last(run).mode.Down? && Last(run).deltas != map[]
    ensures Run(hard, more) && |more| > |run| && more[..|run|] == run
    ensures var s := Last(run);
            Last(more) == s.(mode := Booting, deltasNum := |s.deltas|, merger := Listed(s.deltas.Keys), listed := s.log)
  {
    var step := BootList(Last(run).nextFile, Last(run).nextDelta);
    more := Merged(hard, run, step, Merge(Last(run), step));
  }

  /** Booting lists the delta object that was left. */
  lemma ListAgain(hard: nat, d: DeltaId) returns (run: seq<State>, down: nat)
    requires hard >= 1 && d <= 1
    ensures Run(hard, run) && down < |run| && run[down] == Crashed(Left(d))
    ensures Last(run) == Crashed(Left(d)).(mode := Booting, deltasNum := 1, merger := Listed(Left(d).Keys))
  {
    run := CrashWhileDeleting(hard, d);
    down := |run| - 1;
    OneLeft(d);
    assert 1 - d in Left(d);
    var more := BootListed(hard, run);
    assert more[down] == more[..|run|][down];
    run := more;
  }

  // ---------------------------------------------------------------------------------------
  // A file without data object
  // ---------------------------------------------------------------------------------------

  lemma MergeAgain(hard: nat) returns (run: seq<State>, down: nat)
    requires hard >= 1
    ensures var left: Log := map[0 := ADD];
            && Run(hard, run) && down < |run| && run[down] == Crashed(left)
            && Last(run) == Crashed(left).(mode := Booting, snapshot := Some(map[0 := 1, 1 := 1]), deltasNum := 1, merger := Deleting({0}, 0))
  {
    run, down := ListAgain(hard, 1);
    var left: Log := map[0 := ADD];
    assert left.Keys == {0} && 1 in SnapshotRecords(Last(run));
    BothReplay();
    var more := MergeListed(hard, run);
    assert more[down] == more[..|run|][down];
    run := more;
  }

  /** The newer of two merged delta objects is deleted before a crash. After the restart the file
      that it deletes is live again, and has no data object. The delta object that was left is
      not closed. */
  lemma DanglingFileReachable(hard: nat) returns (run: seq<State>, down: nat)
    requires hard >= 1
    ensures Run(hard, run) && down < |run| && run[down].mode.Down?
    ensures !Closed(run[down].deltas, run[down].merged)
    ensures Last(run).mode.Up? && 0 in Dels(Last(run).log) && 0 in Last(run).cache && 0 !in Last(run).objects
  {
    run, down := MergeAgain(hard);
    var left: Log := map[0 := ADD];
    assert left - {0} == map[] && {0} - {0} == {};
    var s := Last(run).(merger := Deleting({}, 1), deltas := map[]);
    run := Merged(hard, run, DeleteDelta(0), s);
    s := s.(merger := Deleting({}, 0), deltasNum := 0);
    run := Merged(hard, run, Uncount, s);
    s := s.(merger := Idle, mode := Loading);
    run := Merged(hard, run, MergeDone, s);
    s := s.(mode := Up, cache := map[0 := 1, 1 := 1]);
    run := Merged(hard, run, BootLoad, s);
    NotClosed();
  }

  lemma NotClosed()
    ensures !Closed(map[0 := ADD], map[0 := ADD, 1 := SWAP]) && 0 in Dels(map[0 := ADD, 1 := SWAP])
  {
    var left: Log, both: Log := map[0 := ADD], map[0 := ADD, 1 := SWAP];
    assert 0 in left && 1 in both && 0 in both[1].dels;
    assert 0 in Adds(left) && 0 in Dels(both) && 0 !in Dels(left);
    assert 0 in Adds(left) * Dels(both);
  }

  // ---------------------------------------------------------------------------------------
  // A deleted id without record
  // ---------------------------------------------------------------------------------------

  /** The older of two merged delta objects is deleted before a crash. At the restart the merger
      finds no record for the file that the other one deletes, and its debug assertion fires. */
  lemma NotFoundReachable(hard: nat) returns (run: seq<State>)
    requires hard >= 1
    ensures Run(hard, run) && Last(run).merger.ReadAll? && !DeletesFound(Last(run).merger)
  {
    var down;
    run, down := ListAgain(hard, 0);
    var left := Left(0);
    assert 1 in SnapshotRecords(Last(run));
    run := ReadListed(hard, run);
    assert 1 in left && 0 in left[1].dels && 0 in Dels(left);
    assert 0 !in Adds(left);
  }

  // ---------------------------------------------------------------------------------------
  // A file in two tasks
  // ---------------------------------------------------------------------------------------

  /** A file is written and merged, and the process crashes before its delta object is deleted. */
  lemma CrashBeforeDeleting(hard: nat) returns (run: seq<State>)
    ensures Run(hard, run)
    ensures var one: Log := map[0 := ADD];
            Last(run) == State(Some(map[0 := 1]), one, {0}, Down, map[], map[], {}, None, Idle, 0, 1, 1, one, one, one)
  {
    run := WriteFile(hard);
    var one: Log := map[0 := ADD];
    OneReplay();
    assert one.Keys == {0} && |one| == 1;
    run := Merged(hard, run, List, Last(run).(merger := Listed({0}), listed := one));
    run := MergeListed(hard, run);
    run := Merged(hard, run, Crash, TurnOff(Last(run)));
  }

  lemma OneReplay()
    ensures ReplayRecords(map[], map[0 := ADD]) == map[0 := 1]
    ensures ReplayRecords(map[0 := 1], map[0 := ADD]) == map[0 := 2]
    ensures Dels(map[0 := ADD]) == {}
  {
    var one: Log := map[0 := ADD];
    assert 0 in one && Adds(one) == {0} && Dels(one) == {};
  }

  /** The restart merges the delta object again. */
  lemma MergeTwice(hard: nat) returns (run: seq<State>)
    ensures Run(hard, run)
    ensures var one: Log := map[0 := ADD];
            Last(run) == State(Some(map[0 := 2]), one, {0}, Booting, map[], map[], {}, None, Deleting({0}, 0), 1, 1, 1, one, one, one)
  {
    run := CrashBeforeDeleting(hard);
    var one: Log := map[0 := ADD];
    OneReplay();
    assert one.Keys == {0} && |one| == 1 && 0 in SnapshotRecords(Last(run));
    run := BootListed(hard, run);
    run := MergeListed(hard, run);
  }

  /** It loads the file twice. */
  lemma LoadTwice(hard: nat) returns (run: seq<State>)
    ensures Run(hard, run)
    ensures var one: Log := map[0 := ADD];
            Last(run) == State(Some(map[0 := 2]), map[], {0}, Up, map[0 := 2], map[], {}, None, Idle, 0, 1, 1, one, one, one)
  {
    run := MergeTwice(hard);
    var one: Log := map[0 := ADD];
    assert one - {0} == map[] && {0} - {0} == {} && 0 in SnapshotRecords(Last(run));
    var s := Last(run).(merger := Deleting({}, 1), deltas := map[]);
    run := Merged(hard, run, DeleteDelta(0), s);
    s := s.(merger := Deleting({}, 0), deltasNum := 0);
    run := Merged(hard, run, Uncount, s);
    s := s.(merger := Idle, mode := Loading);
    run := Merged(hard, run, MergeDone, s);
    run := Merged(hard, run, BootLoad, s.(mode := Up, cache := map[0 := 2]));
  }

  /** The state in which two tasks hold the copies of file 0, at given points. */
  ghost function Two(p: Phase, q: Phase, deltas: Log, objects: set<FileId>, num: nat, file: FileId, delta: DeltaId): State {
    var one: Log := map[0 := ADD];
    State(Some(map[0 := 2]), deltas, objects, Up, map[0 := 2],
          map[1 := Job({Copy(0, 0)}, p), 2 := Job({Copy(0, 1)}, q)], {Copy(0, 0), Copy(0, 1)}, None, Idle, num, file, delta,
          map[0 := ADD] + deltas, one, one)
  }

  /** Each copy has its own mark, and two picks give them to two tasks. */
  lemma PickTwice(hard: nat) returns (run: seq<State>)
    ensures Run(hard, run) && Last(run) == Two(Queued, Queued, map[], {0}, 0, 1, 1)
  {
    run := LoadTwice(hard);
    var a, b := Copy(0, 0), Copy(0, 1);
    var s := Last(run).(view := Some(map[0 := 2]));
    run := Worked(hard, run, TakeView, s);
    s := s.(view := None, marks := {a}, jobs := map[1 := Job({a}, Queued)]);
    run := Worked(hard, run, Pick(1, {a}), s);
    s := s.(view := Some(map[0 := 2]));
    run := Worked(hard, run, TakeView, s);
    s := s.(view := None, marks := {a, b}, jobs := map[1 := Job({a}, Queued), 2 := Job({b}, Queued)]);
    run := Worked(hard, run, Pick(2, {b}), s);
  }

  /** Nothing was ever deleted, so every put merged a closed set. */
  lemma FileInTwoTasks(hard: nat) returns (run: seq<State>)
    ensures Run(hard, run) && PutsClosed(run)
    ensures 1 in Last(run).jobs && 2 in Last(run).jobs
    ensures 0 in Ids(Last(run).jobs[1].victims) && 0 in Ids(Last(run).jobs[2].victims)
  {
    run := PickTwice(hard);
    assert Copy(0, 0) in Last(run).jobs[1].victims && Copy(0, 1) in Last(run).jobs[2].victims;
    OneReplay();
    assert map[0 := ADD] + map[] == map[0 := ADD];
    NoDeletesIsClosed(hard, run);
  }

  /** Both tasks write their outputs. */
  lemma BothWritten(hard: nat) returns (run: seq<State>)
    ensures Run(hard, run) && Last(run) == Two(ObjectPut(1), ObjectPut(2), map[], {0, 1, 2}, 0, 3, 1)
  {
    run := PickTwice(hard);
    run := Worked(hard, run, StartTask(1), Two(Allocated(1), Queued, map[], {0}, 0, 2, 1));
    run := Worked(hard, run, StartTask(2), Two(Allocated(1), Allocated(2), map[], {0}, 0, 3, 1));
    run := Worked(hard, run, PutObject(1), Two(ObjectPut(1), Allocated(2), map[], {0, 1}, 0, 3, 1));
    run := Worked(hard, run, PutObject(2), Two(ObjectPut(1), ObjectPut(2), map[], {0, 1, 2}, 0, 3, 1));
  }

  /** Both pass the limit. */
  lemma BothChecked(hard: nat) returns (run: seq<State>)
    ensures Run(hard, run) && Last(run) == Two(Checked(1), Checked(2), map[], {0, 1, 2}, 0, 3, 1)
  {
    run := BothWritten(hard);
    run := Worked(hard, run, CheckLimit(1), Two(Checked(1), ObjectPut(2), map[], {0, 1, 2}, 0, 3, 1));
    run := Worked(hard, run, CheckLimit(2), Two(Checked(1), Checked(2), map[], {0, 1, 2}, 0, 3, 1));
  }

  /** Both take an id for their delta objects. */
  lemma BothNamed(hard: nat) returns (run: seq<State>)
    ensures Run(hard, run) && Last(run) == Two(Named(1, 1), Named(2, 2), map[], {0, 1, 2}, 2, 3, 3)
  {
    run := BothChecked(hard);
    run := Worked(hard, run, Count(1), Two(Counted(1), Checked(2), map[], {0, 1, 2}, 1, 3, 1));
    run := Worked(hard, run, Count(2), Two(Counted(1), Counted(2), map[], {0, 1, 2}, 2, 3, 1));
    run := Worked(hard, run, NameDelta(1), Two(Named(1, 1), Counted(2), map[], {0, 1, 2}, 2, 3, 2));
    run := Worked(hard, run, NameDelta(2), Two(Named(1, 1), Named(2, 2), map[], {0, 1, 2}, 2, 3, 3));
  }

  /** Then both delete the file: two updates of the log have it. */
  lemma FileDeletedTwice(hard: nat) returns (run: seq<State>)
    ensures Run(hard, run) && !DelsOnce(Last(run).log)
  {
    run := BothNamed(hard);
    BothIds();
    var first: Log, both: Log := map[1 := Update({1}, {0})], map[1 := Update({1}, {0}), 2 := Update({2}, {0})];
    assert map[0 := ADD] + map[] == map[0 := ADD];
    assert map[0 := ADD][1 := Update({1}, {0})] == map[0 := ADD] + first;
    run := Worked(hard, run, PutDelta(1), Two(Persisted(1), Named(2, 2), first, {0, 1, 2}, 2, 3, 3));
    assert (map[0 := ADD] + first)[2 := Update({2}, {0})] == map[0 := ADD] + both;
    run := Worked(hard, run, PutDelta(2), Two(Persisted(1), Persisted(2), both, {0, 1, 2}, 2, 3, 3));
    var log := Last(run).log;
    assert 1 in log && 2 in log && 0 in log[1].dels && 0 in log[2].dels;
  }

  lemma BothIds()
    ensures Ids({Copy(0, 0)}) == {0} && Ids({Copy(0, 1)}) == {0}
  {
    assert Copy(0, 0) in {Copy(0, 0)} && Copy(0, 1) in {Copy(0, 1)};
  }

  lemma WorkKeepsWithin(hard: nat, s: State, step: WorkStep)
    requires InvIds(s) && CanWork(hard, s, step)
    ensures Within(s.log, Work(hard, s, step).log)
  {
    if !step.PutDelta? {
      WorkKeepsLog(hard, s, step);
    }
  }

  lemma NextKeepsWithin(hard: nat, s: State, t: State)
    requires InvIds(s) && Next(hard, s, t)
    ensures Within(s.log, t.log)
  {
    if step :| CanWork(hard, s, step) && t == Work(hard, s, step) {
      WorkKeepsWithin(hard, s, step);
    } else {
      var step :| CanMerge(s, step) && t == Merge(s, step);
      MergeKeepsLog(s, step);
    }
  }

  lemma {:induction false} LogGrows(run: seq<State>, i: nat)
    requires i < |run|
    requires forall i, j :: 0 <= i < j < |run| && j == i + 1 ==> Within(run[i].log, run[j].log)
    ensures Within(run[i].log, Last(run).log)
    decreases |run| - i
  {
    if i + 1 < |run| {
      assert Within(run[i].log, run[i + 1].log);
      LogGrows(run, i + 1);
    }
  }

  /** Where nothing is deleted, everything is closed. */
  lemma NoDeletesIsClosed(hard: nat, run: seq<State>)
    requires Run(hard, run) && Dels(Last(run).log) == {}
    ensures PutsClosed(run)
  {
    RunInv(hard, run);
    forall i, j | 0 <= i < j < |run| && j == i + 1 ensures Within(run[i].log, run[j].log) {
      NextKeepsWithin(hard, run[i], run[j]);
    }
    forall i | 0 <= i < |run| ensures Dels(run[i].merged) == {} {
      LogGrows(run, i);
      WithinMonotone(run[i].log, Last(run).log);
      WithinMonotone(run[i].merged, run[i].log);
    }
  }
}
