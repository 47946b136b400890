/** What the steps do when nothing comes between them: whole writes, compactions, failures, merge
    rounds and restarts, as paths of the machine. */
module ProtocolProgress {
  import opened Types
  import opened Updates
  import opened Protocol
  import opened ProtocolInvariant
  import opened ProtocolTheorems

  /** The process serves all along. */
  ghost predicate Serves(path: seq<State>) { forall i :: 0 <= i < |path| ==> path[i].mode.Up? }

  lemma WorkGrows(hard: nat, path: seq<State>, step: WorkStep) returns (more: seq<State>)
    requires Path(hard, path) && Serves(path) && CanWork(hard, Last(path), step)
    ensures Path(hard, more) && Serves(more) && more[0] == path[0] && Last(more) == Work(hard, Last(path), step)
  {
    more := path + [Work(hard, Last(path), step)];
    assert Next(hard, Last(path), Last(more));
    WorkKeepsMerger(hard, Last(path), step);
  }

  lemma PathGrows(hard: nat, path: seq<State>, step: MergeStep) returns (more: seq<State>)
    requires Path(hard, path) && CanMerge(Last(path), step)
    ensures Path(hard, more) && more[0] == path[0] && Last(more) == Merge(Last(path), step)
  {
    more := path + [Merge(Last(path), step)];
    assert Next(hard, Last(path), Last(more));
  }

  /** One listed object is deleted, or its deletion fails if it is in `kept`. */
  lemma DeleteStep(hard: nat, path: seq<State>, d: DeltaId, kept: set<DeltaId>) returns (more: seq<State>)
    requires Path(hard, path) && Last(path).merger.Deleting? && d in Last(path).merger.todo
    ensures Path(hard, more) && more[0] == path[0]
    ensures var s := Last(path);
            Last(more) == s.(deltas := s.deltas - ({d} - kept), merger := Deleting(s.merger.todo - {d}, s.merger.uncounted + |{d} - kept|))
  {
    var s := Last(path);
    if d in kept {
      assert {d} - kept == {} && s.deltas - {} == s.deltas;
      more := PathGrows(hard, path, KeepDelta(d));
    } else {
      assert {d} - kept == {d};
      more := PathGrows(hard, path, DeleteDelta(d));
    }
  }

  lemma OneByOne(deltas: Log, todo: set<DeltaId>, kept: set<DeltaId>, d: DeltaId)
    requires d in todo
    ensures (deltas - ({d} - kept)) - ((todo - {d}) - kept) == deltas - (todo - kept)
    ensures |{d} - kept| + |(todo - {d}) - kept| == |todo - kept|
  {
    assert todo - kept == ({d} - kept) + ((todo - {d}) - kept);
  }

  /** Deleting the listed objects one by one, those in `kept` without success. */
  lemma {:induction false} DeleteSteps(hard: nat, path: seq<State>, kept: set<DeltaId>) returns (more: seq<State>)
    requires Path(hard, path) && Last(path).merger.Deleting?
    ensures Path(hard, more) && more[0] == path[0]
    ensures var s := Last(path);
            var gone := s.merger.todo - kept;
            Last(more) == s.(deltas := s.deltas - gone, merger := Deleting({}, s.merger.uncounted + |gone|))
    decreases Last(path).merger.todo
  {
    var s := Last(path);
    if s.merger.todo == {} {
      more := path;
      assert s.merger.todo - kept == {} && s.deltas - {} == s.deltas;
    } else {
      var d :| d in s.merger.todo;
      OneByOne(s.deltas, s.merger.todo, kept, d);
      more := DeleteStep(hard, path, d, kept);
      more := DeleteSteps(hard, more, kept);
    }
  }

  lemma {:induction false} UncountSteps(hard: nat, path: seq<State>) returns (more: seq<State>)
    requires Path(hard, path) && Last(path).merger.Deleting? && Last(path).merger.todo == {}
    ensures Path(hard, more) && more[0] == path[0]
    ensures var s := Last(path);
            Last(more) == s.(deltasNum := s.deltasNum - s.merger.uncounted, merger := Deleting({}, 0))
    decreases Last(path).merger.uncounted
  {
    more := path;
    if Last(path).merger.uncounted > 0 {
      more := PathGrows(hard, path, Uncount);
      more := UncountSteps(hard, more);
    }
  }

  /** A whole round of the machine, from the point where everything is read. */
  lemma RoundSteps(hard: nat, s: State, kept: set<DeltaId>) returns (path: seq<State>)
    requires s.merger.ReadAll? && s.merger.paths == s.deltas.Keys && s.merger.updates == s.deltas
    ensures Path(hard, path) && path[0] == s
    ensures var gone := s.deltas.Keys - kept;
            Last(path) == s.(snapshot := Some(ReplayRecords(s.merger.base, s.deltas)), merged := s.listed,
                             deltas := s.deltas - gone, deltasNum := s.deltasNum - |gone|, merger := Deleting({}, 0))
  {
    path := PathGrows(hard, [s], PutSnapshot);
    path := DeleteSteps(hard, path, kept);
    path := UncountSteps(hard, path);
  }

  // ---------------------------------------------------------------------------------------
  // Writes and tasks
  // ---------------------------------------------------------------------------------------

  /** The state after a job has put its data object and its delta object and has updated the cache. */
  ghost function Committed(s: State, j: JobId, victims: set<Copy>): State {
    var out, u := s.nextFile, Update({s.nextFile}, Ids(victims));
    s.(jobs := s.jobs[j := Job(victims, Cached)], objects := s.objects + {out},
       deltas := s.deltas[s.nextDelta := u], log := s.log[s.nextDelta := u],
       cache := s.cache[out := 1] - Ids(victims),
       deltasNum := s.deltasNum + 1, nextFile := s.nextFile + 1, nextDelta := s.nextDelta + 1)
  }

  /** The output of a job has an id that no cached file has. */
  lemma FreshOutput(hard: nat, run: seq<State>)
    requires Run(hard, run)
    ensures Last(run).nextFile !in Last(run).cache
  {
    RunInv(hard, run);
    BelowClock(Last(run));
  }

  lemma BelowClock(s: State)
    requires InvIds(s) && InvJobs(s)
    ensures s.nextFile !in s.cache
  {
  }

  /** From the allocation of the output's id to the put of its data object and past the limit. */
  lemma PutsObject(hard: nat, path: seq<State>, j: JobId, out: FileId) returns (more: seq<State>)
    requires Path(hard, path) && Serves(path) && j in Last(path).jobs && Last(path).jobs[j].phase == Allocated(out)
    requires Last(path).deltasNum <= hard
    ensures Path(hard, more) && Serves(more) && more[0] == path[0]
    ensures var s := Last(path);
            Last(more) == s.(jobs := s.jobs[j := Job(s.jobs[j].victims, Counted(out))], objects := s.objects + {out}, deltasNum := s.deltasNum + 1)
  {
    more := WorkGrows(hard, path, PutObject(j));
    more := WorkGrows(hard, more, CheckLimit(j));
    more := WorkGrows(hard, more, Count(j));
  }

  lemma PutsUpdate(hard: nat, path: seq<State>, j: JobId, out: FileId) returns (more: seq<State>)
    requires Path(hard, path) && Serves(path) && j in Last(path).jobs && Last(path).jobs[j].phase == Counted(out)
    requires out !in Last(path).cache
    ensures Path(hard, more) && Serves(more) && more[0] == path[0]
    ensures var s := Last(path);
            var u := Update({out}, Ids(s.jobs[j].victims));
            Last(more) == s.(jobs := s.jobs[j := Job(s.jobs[j].victims, Cached)], cache := s.cache[out := 1] - Ids(s.jobs[j].victims),
                             deltas := s.deltas[s.nextDelta := u], log := s.log[s.nextDelta := u], nextDelta := s.nextDelta + 1)
  {
    more := WorkGrows(hard, path, NameDelta(j));
    more := WorkGrows(hard, more, PutDelta(j));
    more := WorkGrows(hard, more, UpdateCache(j));
  }

  lemma Commits(hard: nat, path: seq<State>, s: State, j: JobId, victims: set<Copy>) returns (more: seq<State>)
    requires Path(hard, path) && Serves(path) && s.nextFile !in s.cache && s.deltasNum <= hard
    requires Last(path) == s.(jobs := s.jobs[j := Job(victims, Allocated(s.nextFile))], nextFile := s.nextFile + 1)
    ensures Path(hard, more) && Serves(more) && more[0] == path[0] && Last(more) == Committed(s, j, victims)
  {
    more := PutsObject(hard, path, j, s.nextFile);
    more := PutsUpdate(hard, more, j, s.nextFile);
    assert Last(more).jobs == s.jobs[j := Job(victims, Cached)];
  }

  /** From every reachable serving state with the counter within the limit, a write that nothing
      disturbs adds one object, one delta object with one file, one cached copy and one to the counter,
      and changes nothing else. */
  lemma WriteCompletes(hard: nat, run: seq<State>, j: JobId) returns (path: seq<State>)
    requires Run(hard, run) && Last(run).mode.Up? && j !in Last(run).jobs && Last(run).deltasNum <= hard
    ensures Path(hard, path) && Serves(path) && path[0] == Last(run)
    ensures Last(path) == Committed(Last(run), j, {}).(jobs := Last(run).jobs)
    ensures Last(path).cache == Last(run).cache[Last(run).nextFile := 1]
  {
    FreshOutput(hard, run);
    path := WriteSteps(hard, Last(run), j);
    NoVictims(Last(run), j);
  }

  lemma NoVictims(s: State, j: JobId)
    ensures Committed(s, j, {}).cache == s.cache[s.nextFile := 1]
  {
    assert Ids({}) == {};
  }

  lemma WriteSteps(hard: nat, s: State, j: JobId) returns (path: seq<State>)
    requires s.nextFile !in s.cache && s.mode.Up? && j !in s.jobs && s.deltasNum <= hard
    ensures Path(hard, path) && Serves(path) && path[0] == s
    ensures Last(path) == Committed(s, j, {}).(jobs := s.jobs)
  {
    path := WorkGrows(hard, [s], BeginWrite(j));
    path := Commits(hard, path, s, j, {});
    path := WorkGrows(hard, path, Finish(j));
    assert s.jobs[j := Job({}, Cached)] - {j} == s.jobs;
  }

  /** The task deletes the data objects of its files one by one; those in `kept` fail to go. */
  lemma {:induction false} DeletesObjects(hard: nat, path: seq<State>, j: JobId, files: set<FileId>, kept: set<FileId>) returns (more: seq<State>)
    requires Path(hard, path) && Serves(path) && j in Last(path).jobs && Last(path).jobs[j].phase.Cached?
    requires files <= Ids(Last(path).jobs[j].victims)
    ensures Path(hard, more) && Serves(more) && more[0] == path[0]
    ensures Last(more) == Last(path).(objects := Last(path).objects - (files - kept))
    decreases files
  {
    var s := Last(path);
    more := path;
    if files != {} {
      var f :| f in files;
      if f !in kept {
        more := WorkGrows(hard, path, DeleteObject(j, f));
      }
      OneLessObject(s.objects, files, kept, f);
      more := DeletesObjects(hard, more, j, files - {f}, kept);
    }
  }

  lemma OneLessObject(objects: set<FileId>, files: set<FileId>, kept: set<FileId>, f: FileId)
    requires f in files
    ensures f in kept ==> objects - ((files - {f}) - kept) == objects - (files - kept)
    ensures f !in kept ==> objects - {f} - ((files - {f}) - kept) == objects - (files - kept)
  {
  }

  /** From every reachable state with a task sent and the counter within the limit, a task that
      nothing disturbs replaces its files by its output: in the cache, by one update in the log and on
      disk, and in the data objects except those whose deletion fails. Its copies stay marked. */
  lemma TaskCompletes(hard: nat, run: seq<State>, j: JobId, kept: set<FileId>) returns (path: seq<State>)
    requires Run(hard, run) && Last(run).mode.Up? && Last(run).deltasNum <= hard
    requires j in Last(run).jobs && Last(run).jobs[j].phase.Queued?
    ensures Path(hard, path) && Serves(path) && path[0] == Last(run)
    ensures var s := Last(run);
            var files := Ids(s.jobs[j].victims);
            Last(path) == Committed(s, j, s.jobs[j].victims).(jobs := s.jobs - {j}, objects := s.objects + {s.nextFile} - (files - kept))
  {
    FreshOutput(hard, run);
    path := TaskSteps(hard, Last(run), j, kept);
  }

  lemma TaskSteps(hard: nat, s: State, j: JobId, kept: set<FileId>) returns (path: seq<State>)
    requires s.nextFile !in s.cache && s.mode.Up? && j in s.jobs && s.jobs[j].phase.Queued? && s.deltasNum <= hard
    ensures Path(hard, path) && Serves(path) && path[0] == s
    ensures var files := Ids(s.jobs[j].victims);
            Last(path) == Committed(s, j, s.jobs[j].victims).(jobs := s.jobs - {j}, objects := s.objects + {s.nextFile} - (files - kept))
  {
    var victims := s.jobs[j].victims;
    path := WorkGrows(hard, [s], StartTask(j));
    path := Commits(hard, path, s, j, victims);
    path := DeletesObjects(hard, path, j, Ids(victims), kept);
    path := WorkGrows(hard, path, Finish(j));
    assert s.jobs[j := Job(victims, Cached)] - {j} == s.jobs - {j};
  }

  /** A job can fail before it starts, after its output has an id, after its data object is put,
      after it is counted and after its delta object has a name. It then leaves the files, the updates
      and the cache as they were, gives back its count and frees its copies. */
  lemma JobFails(hard: nat, s: State, j: JobId) returns (path: seq<State>)
    requires s.mode.Up? && j in s.jobs
    requires !s.jobs[j].phase.Checked? && !s.jobs[j].phase.Persisted? && !s.jobs[j].phase.Cached? && !s.jobs[j].phase.Failed?
    ensures Path(hard, path) && Serves(path) && path[0] == s
    ensures var counted := s.jobs[j].phase.Counted? || s.jobs[j].phase.Named?;
            Last(path) == s.(jobs := s.jobs - {j}, marks := s.marks - s.jobs[j].victims,
                             deltasNum := s.deltasNum - if counted then 1 else 0)
  {
    var failed := s.jobs[j := s.jobs[j].(phase := Failed)];
    path := WorkGrows(hard, [s], Fail(j));
    assert Last(path).jobs == failed && failed[j].victims == s.jobs[j].victims;
    path := WorkGrows(hard, path, Unmark(j));
    assert failed - {j} == s.jobs - {j};
  }

  /** The copies that a failed task had, if they are still cached, can be picked again all at once. */
  lemma FailedFilesFree(hard: nat, s: State, j: JobId)
    requires CanWork(hard, s, Unmark(j)) && s.mode.Up? && s.jobs[j].victims != {}
    requires forall c :: c in s.jobs[j].victims ==> HoldsCopy(s.cache, c)
    ensures var t := Work(hard, s, Unmark(j));
            CanWork(hard, t, TakeView) && CanWork(hard, Work(hard, t, TakeView), Pick(j, s.jobs[j].victims))
  {
  }

  // ---------------------------------------------------------------------------------------
  // Merge rounds, crashes and restarts
  // ---------------------------------------------------------------------------------------

  /** The delta objects that a listing returns are read, and then the snapshot. */
  lemma Reads(hard: nat, path: seq<State>) returns (more: seq<State>)
    requires Path(hard, path) && Last(path).merger == Listed(Last(path).deltas.Keys) && SnapshotReadable(Last(path))
    ensures Path(hard, more) && more[0] == path[0]
    ensures var s := Last(path); Last(more) == s.(merger := ReadAll(s.deltas.Keys, s.deltas, SnapshotRecords(s)))
  {
    var s := Last(path);
    var all := map d | d in s.deltas.Keys :: s.deltas[d];
    assert all == s.deltas;
    more := PathGrows(hard, path, FetchDeltas);
    assert Last(more) == s.(merger := ReadDeltas(s.deltas.Keys, all));
    more := PathGrows(hard, more, FetchSnapshot);
  }

  lemma Joined(hard: nat, a: seq<State>, b: seq<State>) returns (path: seq<State>)
    requires Path(hard, a) && Path(hard, b) && b[0] == Last(a)
    ensures Path(hard, path) && path[0] == a[0] && Last(path) == Last(b)
  {
    path := a + b[1..];
    forall i, j | 0 <= i < j < |path| && j == i + 1 ensures Next(hard, path[i], path[j]) {
      if j < |a| {
        assert Next(hard, a[i], a[j]);
      } else {
        assert path[i] == b[i - |a| + 1] && path[j] == b[j - |a| + 1];
      }
    }
  }

  /** A round from the listing on; the deletions of the objects in `kept` fail. */
  lemma ReadAndMerged(hard: nat, path: seq<State>, kept: set<DeltaId>) returns (more: seq<State>)
    requires Path(hard, path) && Last(path).merger == Listed(Last(path).deltas.Keys) && SnapshotReadable(Last(path))
    ensures Path(hard, more) && more[0] == path[0]
    ensures var s := Last(path);
            var gone := s.deltas.Keys - kept;
            Last(more) == s.(snapshot := Some(ReplayRecords(SnapshotRecords(s), s.deltas)), merged := s.listed, deltas := s.deltas - gone,
                             deltasNum := s.deltasNum - |gone|, merger := Deleting({}, 0))
  {
    more := Reads(hard, path);
    var round := RoundSteps(hard, Last(more), kept);
    more := Joined(hard, more, round);
  }

  lemma ListedRound(hard: nat, path: seq<State>, kept: set<DeltaId>) returns (more: seq<State>)
    requires Path(hard, path) && Last(path).merger == Listed(Last(path).deltas.Keys) && SnapshotReadable(Last(path))
    ensures Path(hard, more) && more[0] == path[0]
    ensures var s := Last(path);
            var gone := s.deltas.Keys - kept;
            Last(more) == s.(snapshot := Some(ReplayRecords(SnapshotRecords(s), s.deltas)), merged := s.listed, deltas := s.deltas - gone,
                             deltasNum := s.deltasNum - |gone|, merger := Idle, mode := if s.mode.Booting? then Loading else s.mode)
  {
    more := ReadAndMerged(hard, path, kept);
    more := PathGrows(hard, more, MergeDone);
  }

  /** From every reachable serving state with delta objects and no round under way, a round that
      nothing disturbs merges all updates into the snapshot, deletes the objects except those whose
      deletion fails, and uncounts exactly those deleted. */
  lemma RoundCompletes(hard: nat, run: seq<State>, kept: set<DeltaId>) returns (path: seq<State>)
    requires Run(hard, run) && Last(run).mode.Up? && Last(run).merger.Idle? && Last(run).deltas != map[]
    ensures Path(hard, path) && path[0] == Last(run)
    ensures var s := Last(run);
            var gone := s.deltas.Keys - kept;
            Last(path) == s.(snapshot := Some(DurableRecords(s)), merged := s.log, listed := s.log,
                             deltas := s.deltas - gone, deltasNum := s.deltasNum - |gone|)
  {
    NoEmptySnapshot(hard, run);
    path := PathGrows(hard, [Last(run)], List);
    path := ListedRound(hard, path, kept);
  }

  lemma InvReadable(s: State)
    requires Inv(s)
    ensures SnapshotReadable(s)
  {
  }

  /** A round can fail until its snapshot is put. It leaves the store as it is; while booting, the
      process stops, and otherwise the next round can start. */
  lemma RoundFails(hard: nat, s: State) returns (t: State)
    requires Merging(s.merger)
    ensures Next(hard, s, t) && t.snapshot == s.snapshot && t.deltas == s.deltas && t.objects == s.objects && t.log == s.log
    ensures t.merger == Idle && t.mode == if s.mode.Booting? then Down else s.mode
    ensures !s.mode.Booting? ==> t == s.(merger := Idle)
  {
    t := Merge(s, MergeFail);
    assert CanMerge(s, MergeFail);
  }

  /** The process can stop in every state. The store stays as it is, and everything in memory is lost. */
  lemma CrashAnywhere(hard: nat, s: State) returns (t: State)
    requires !s.mode.Down?
    ensures Next(hard, s, t) && t.mode.Down?
    ensures t.snapshot == s.snapshot && t.deltas == s.deltas && t.objects == s.objects && t.log == s.log
    ensures t.cache == map[] && t.jobs == map[] && t.marks == {} && t.view == None && t.merger == Idle && t.deltasNum == 0
  {
    t := Merge(s, Crash);
    assert CanMerge(s, Crash);
  }

  /** What booting can rely on. */
  ghost predicate CanBoot(s: State) {
    && s.mode.Down? && SnapshotReadable(s) && (s.deltas != map[] ==> DurableRecords(s) != map[])
    && s.jobs == map[] && s.marks == {} && s.view == None && s.merger == Idle
  }

  lemma DownCanBoot(hard: nat, run: seq<State>)
    requires Run(hard, run) && Last(run).mode.Down?
    ensures CanBoot(Last(run))
  {
    var s := Last(run);
    RunInv(hard, run);
    NoEmptySnapshot(hard, run);
    if s.deltas != map[] {
      var path := PathGrows(hard, [s], BootList(s.nextFile, s.nextDelta));
      path := ListedRound(hard, path, {});
      PathInv(hard, path);
      InvReadable(Last(path));
    }
  }

  /** From every reachable state in which the process is down, booting that nothing disturbs ends in
      serving: the cache is what the store decoded to, nothing is marked, and the counter is the
      number of the delta objects whose deletion failed. */
  lemma BootCompletes(hard: nat, run: seq<State>, kept: set<DeltaId>) returns (path: seq<State>)
    requires Run(hard, run) && Last(run).mode.Down?
    ensures Path(hard, path) && path[0] == Last(run)
    ensures var s, t := Last(run), Last(path);
            && t.mode.Up? && t.cache == DurableRecords(s) && t.jobs == map[] && t.marks == {} && t.view == None && t.merger == Idle
            && SnapshotRecords(t) == DurableRecords(s) && t.deltas == s.deltas - (s.deltas.Keys - kept) && t.deltasNum == |t.deltas|
            && t.objects == s.objects && t.log == s.log
  {
    DownCanBoot(hard, run);
    path := BootSteps(hard, Last(run), kept);
  }

  lemma BootSteps(hard: nat, s: State, kept: set<DeltaId>) returns (path: seq<State>)
    requires CanBoot(s)
    ensures Path(hard, path) && path[0] == s
    ensures var t := Last(path);
            && t.mode.Up? && t.cache == DurableRecords(s) && t.jobs == map[] && t.marks == {} && t.view == None && t.merger == Idle
            && SnapshotRecords(t) == DurableRecords(s) && t.deltas == s.deltas - (s.deltas.Keys - kept) && t.deltasNum == |t.deltas|
            && t.objects == s.objects && t.log == s.log
  {
    path := PathGrows(hard, [s], BootList(s.nextFile, s.nextDelta));
    if s.deltas == map[] {
      NothingToMerge(s);
    } else {
      path := ListedRound(hard, path, kept);
    }
    path := PathGrows(hard, path, BootLoad);
    LeftCount(s.deltas, kept);
  }

  lemma LeftCount(deltas: Log, kept: set<DeltaId>)
    ensures |deltas| - |deltas.Keys - kept| == |deltas - (deltas.Keys - kept)|
  {
    var left := deltas - (deltas.Keys - kept);
    LeftSize(deltas.Keys, kept);
    assert left.Keys == deltas.Keys - (deltas.Keys - kept);
    assert |left| == |left.Keys|;
  }

  lemma LeftSize(all: set<DeltaId>, kept: set<DeltaId>)
    ensures |all| - |all - kept| == |all - (all - kept)|
  {
    assert all == (all - kept) + (all - (all - kept));
  }

  lemma PathInv(hard: nat, path: seq<State>)
    requires Path(hard, path) && Inv(path[0])
    ensures Inv(Last(path))
  {
    forall i, j | 0 <= i < j < |path| && j == i + 1 && Inv(path[i]) ensures Inv(path[j]) {
      NextKeepsInv(hard, path[i], path[j]);
    }
    Along((s: State) => Inv(s), path, |path|);
  }
}
