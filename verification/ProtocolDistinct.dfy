/** What tasks promise as long as no file is loaded twice.

    Merging a delta object again adds the records of its files again. A snapshot that holds a file
    twice is loaded as two copies with a mark each, and the picker may give them to two tasks. A
    snapshot that is never loaded does no harm.
 */
module ProtocolDistinct {
  import opened Types
  import opened Updates
  import opened Protocol
  import opened ProtocolInvariant
  import opened ProtocolExact
  import opened ProtocolTheorems
  import opened ProtocolProgress

  /** The stored snapshot, and the one that the merger has read, hold no file twice. */
  ghost predicate SnapshotSingle(s: State) {
    Single(SnapshotRecords(s)) && (s.merger.ReadAll? ==> Single(s.merger.base))
  }

  /** Every victim is the only copy of its file, and is cached until its task's update is. */
  ghost predicate VictimsCached(jobs: Jobs, cache: set<FileId>) {
    forall j, c :: j in jobs && c in jobs[j].victims ==> c.copy == 0 && (jobs[j].phase.Cached? || c.id in cache)
  }

  /** An unmarked file in the picker's list is still cached. */
  ghost predicate ViewCached(view: set<FileId>, cache: set<FileId>, marks: set<Copy>) {
    forall f :: f in view && Copy(f, 0) !in marks ==> f in cache
  }

  ghost predicate TasksSingle(s: State) {
    && Single(s.cache) && (s.view.Some? ==> Single(s.view.value))
    && VictimsCached(s.jobs, s.cache.Keys) && ViewCached(ViewIds(s.view), s.cache.Keys, s.marks)
  }

  /** A merge round onto single records makes single records exactly when it gives none to a file
      that has one and keeps it. */
  lemma ReplaySingle(base: Records, m: Log)
    requires Single(base)
    ensures Single(ReplayRecords(base, m)) <==> NoRecordTwice(base, m)
  {
    var records := ReplayRecords(base, m);
    if Single(records) {
      forall f | f in Adds(m) - Dels(m) ensures f !in base {
        assert f in records && records[f] == CopiesOf(base, f) + 1;
      }
    }
  }

  // ---------------------------------------------------------------------------------------
  // Every step keeps it
  // ---------------------------------------------------------------------------------------

  lemma PickKeepsTasks(hard: nat, s: State, step: WorkStep)
    requires TasksSingle(s) && CanWork(hard, s, step)
    requires step.TakeView? || step.Pick? || step.PickDropped?
    ensures TasksSingle(Work(hard, s, step))
  {
    if step.Pick? {
      forall c | c in step.victims ensures c.copy == 0 && c.id in s.cache {
        assert HoldsCopy(s.view.value, c) && c == Copy(c.id, 0);
      }
    }
  }

  lemma MoveKeepsTasks(hard: nat, s: State, step: WorkStep)
    requires TasksSingle(s) && CanWork(hard, s, step)
    requires !step.TakeView? && !step.Pick? && !step.PickDropped? && !step.UpdateCache? && !step.Unmark?
    ensures TasksSingle(Work(hard, s, step))
  {
  }

  lemma UnmarkKeepsTasks(hard: nat, s: State, step: WorkStep)
    requires TasksSingle(s) && CanWork(hard, s, step) && step.Unmark?
    ensures TasksSingle(Work(hard, s, step))
  {
    assert forall c :: c in s.jobs[step.j].victims ==> c.id in s.cache.Keys;
  }

  /** Removing a task's victims from the cache removes no other task's. */
  lemma OthersStayCached(jobs: Jobs, marks: set<Copy>, cache: set<FileId>, j: JobId)
    requires CopiesOk(jobs, marks) && VictimsCached(jobs, cache) && j in jobs
    ensures forall k, c :: k in jobs && k != j && c in jobs[k].victims ==> c.id !in Ids(jobs[j].victims)
    ensures forall f :: f in Ids(jobs[j].victims) ==> Copy(f, 0) in marks
  {
    forall f | f in Ids(jobs[j].victims) ensures Copy(f, 0) in jobs[j].victims {
      var c :| c in jobs[j].victims && c.id == f;
      assert c == Copy(f, 0);
    }
    forall k, c | k in jobs && k != j && c in jobs[k].victims ensures c.id !in Ids(jobs[j].victims) {
      assert c == Copy(c.id, 0);
    }
  }

  lemma UpdateCacheKeepsTasks(hard: nat, s: State, step: WorkStep)
    requires InvJobs(s) && TasksSingle(s) && CanWork(hard, s, step) && step.UpdateCache?
    ensures TasksSingle(Work(hard, s, step))
  {
    OthersStayCached(s.jobs, s.marks, s.cache.Keys, step.j);
  }

  lemma WorkKeepsTasks(hard: nat, s: State, step: WorkStep)
    requires InvJobs(s) && TasksSingle(s) && CanWork(hard, s, step)
    ensures TasksSingle(Work(hard, s, step))
  {
    match step
    case TakeView => PickKeepsTasks(hard, s, step);
    case Pick(_, _) => PickKeepsTasks(hard, s, step);
    case PickDropped(_) => PickKeepsTasks(hard, s, step);
    case UpdateCache(_) => UpdateCacheKeepsTasks(hard, s, step);
    case Unmark(_) => UnmarkKeepsTasks(hard, s, step);
    case _ => MoveKeepsTasks(hard, s, step);
  }

  lemma MergeKeepsTasks(s: State, step: MergeStep)
    requires OffOk(s) && TasksSingle(s) && CanMerge(s, step)
    requires Loads(s, Merge(s, step)) ==> Single(Merge(s, step).cache)
    ensures TasksSingle(Merge(s, step))
  {
  }

  /** Every step keeps what tasks rely on, a load on the condition that it brings in no file twice. */
  lemma NextKeepsTasks(hard: nat, s: State, t: State)
    requires Inv(s) && TasksSingle(s) && Next(hard, s, t)
    requires Loads(s, t) ==> Single(t.cache)
    ensures TasksSingle(t)
  {
    if step :| CanWork(hard, s, step) && t == Work(hard, s, step) {
      WorkKeepsTasks(hard, s, step);
    } else {
      var step :| CanMerge(s, step) && t == Merge(s, step);
      MergeKeepsTasks(s, step);
    }
  }

  lemma InitSingle(s: State)
    requires Init(s)
    ensures SnapshotSingle(s) && TasksSingle(s)
  {
  }

  lemma RunTasksSingle(hard: nat, run: seq<State>)
    requires Run(hard, run) && LoadsSingle(run)
    ensures forall i :: 0 <= i < |run| ==> Inv(run[i])
    ensures forall i :: 0 <= i < |run| ==> TasksSingle(run[i])
  {
    RunInv(hard, run);
    InitSingle(run[0]);
    forall i, j | 0 <= i < j < |run| && j == i + 1 && TasksSingle(run[i]) ensures TasksSingle(run[j]) {
      NextKeepsTasks(hard, run[i], run[j]);
    }
    Along((s: State) => TasksSingle(s), run, |run|);
  }

  // ---------------------------------------------------------------------------------------
  // Snapshots
  // ---------------------------------------------------------------------------------------

  lemma NextKeepsSnapshotSingle(hard: nat, s: State, t: State)
    requires SnapshotSingle(s) && Next(hard, s, t)
    requires PutsSnapshot(s, t) ==> NoRecordTwice(s.merger.base, s.merger.updates)
    ensures SnapshotSingle(t)
  {
    if step :| CanWork(hard, s, step) && t == Work(hard, s, step) {
      WorkKeepsMerger(hard, s, step);
      WorkKeepsSnapshot(hard, s, step);
    } else {
      var step :| CanMerge(s, step) && t == Merge(s, step);
      MergeKeepsSnapshotSingle(s, step);
    }
  }

  lemma WorkKeepsSnapshot(hard: nat, s: State, step: WorkStep)
    requires CanWork(hard, s, step)
    ensures Work(hard, s, step).snapshot == s.snapshot
  {
  }

  lemma MergeKeepsSnapshotSingle(s: State, step: MergeStep)
    requires SnapshotSingle(s) && CanMerge(s, step)
    requires step.PutSnapshot? ==> NoRecordTwice(s.merger.base, s.merger.updates)
    ensures SnapshotSingle(Merge(s, step))
  {
    if step.PutSnapshot? {
      ReplaySingle(s.merger.base, s.merger.updates);
    }
  }

  lemma RunSnapshotSingle(hard: nat, run: seq<State>)
    requires Run(hard, run) && PutsDistinct(run)
    ensures forall i :: 0 <= i < |run| ==> SnapshotSingle(run[i])
  {
    InitSingle(run[0]);
    forall i, j | 0 <= i < j < |run| && j == i + 1 && SnapshotSingle(run[i]) ensures SnapshotSingle(run[j]) {
      NextKeepsSnapshotSingle(hard, run[i], run[j]);
    }
    Along((s: State) => SnapshotSingle(s), run, |run|);
  }

  /** Over a whole run, no snapshot holds a file twice if and only if no put gave a record to a
      file that had one and kept it. */
  lemma SnapshotsSingle(hard: nat, run: seq<State>)
    requires Run(hard, run)
    ensures PutsDistinct(run) <==> forall i :: 0 <= i < |run| ==> Single(SnapshotRecords(run[i]))
  {
    if PutsDistinct(run) {
      RunSnapshotSingle(hard, run);
    }
    if forall i :: 0 <= i < |run| ==> Single(SnapshotRecords(run[i])) {
      RunInv(hard, run);
      forall i, j | 0 <= i < j < |run| && j == i + 1 && PutsSnapshot(run[i], run[j])
        ensures NoRecordTwice(run[i].merger.base, run[i].merger.updates)
      {
        PutSingle(hard, run[i], run[j]);
      }
    }
  }

  /** Then no file is loaded twice. */
  lemma DistinctPutsLoadSingle(hard: nat, run: seq<State>)
    requires Run(hard, run) && PutsDistinct(run)
    ensures LoadsSingle(run)
  {
    RunInv(hard, run);
    RunSnapshotSingle(hard, run);
    forall i, j | 0 <= i < j < |run| && j == i + 1 && Loads(run[i], run[j]) ensures Single(run[j].cache) {
      LoadIsBootLoad(hard, run[i], run[j]);
    }
  }

  lemma PutSingle(hard: nat, s: State, t: State)
    requires InvLogs(s) && Next(hard, s, t) && PutsSnapshot(s, t)
    requires Single(SnapshotRecords(s)) && Single(SnapshotRecords(t))
    ensures NoRecordTwice(s.merger.base, s.merger.updates)
  {
    PutIsPutSnapshot(hard, s, t);
    ReplaySingle(s.merger.base, s.merger.updates);
  }

  /** If every round deletes all it merged before the next one lists, no snapshot does. */
  lemma CompletedDeletionsAreDistinct(hard: nat, run: seq<State>)
    requires Run(hard, run) && PutsFresh(run)
    ensures PutsDistinct(run)
  {
    RunInv(hard, run);
    forall i, j | 0 <= i < j < |run| && j == i + 1 && PutsSnapshot(run[i], run[j])
      ensures NoRecordTwice(run[i].merger.base, run[i].merger.updates)
    {
      FreshIsDistinct(run[i]);
    }
  }

  lemma FreshIsDistinct(s: State)
    requires InvLogs(s) && InvHistory(s) && SnapshotOk(s.snapshot, s.merged) && s.merger.ReadAll?
    requires s.merger.updates.Keys !! s.merged.Keys
    ensures NoRecordTwice(s.merger.base, s.merger.updates)
  {
    FreshAdds(s.merger.updates, s.merged, s.log);
  }

  lemma FreshAdds(us: Log, m: Log, n: Log)
    requires Within(us, n) && Within(m, n) && AddsOnce(n) && us.Keys !! m.Keys
    ensures Adds(us) !! Adds(m)
  {
    forall f | f in Adds(us) ensures f !in Adds(m) {
      var d :| d in us && f in us[d].adds;
      forall e | e in m ensures f !in m[e].adds {
        assert n[d].adds !! n[e].adds;
      }
    }
  }

  // ---------------------------------------------------------------------------------------
  // Tasks and deletes
  // ---------------------------------------------------------------------------------------

  /** In every run, no copy of a file is in two outstanding tasks. */
  lemma CopiesExclude(hard: nat, run: seq<State>, j: JobId, k: JobId)
    requires Run(hard, run) && j in Last(run).jobs && k in Last(run).jobs && j != k
    ensures Last(run).jobs[j].victims !! Last(run).jobs[k].victims
  {
    RunInv(hard, run);
    var s := Last(run);
    assert CopiesOk(s.jobs, s.marks);
  }

  lemma VictimsDisjoint(s: State, j: JobId, k: JobId)
    requires InvJobs(s) && TasksSingle(s) && j in s.jobs && k in s.jobs && j != k
    ensures Ids(s.jobs[j].victims) !! Ids(s.jobs[k].victims)
  {
    OthersStayCached(s.jobs, s.marks, s.cache.Keys, k);
  }

  /** If no file is loaded twice, no file is in two outstanding tasks. */
  lemma TasksExclude(hard: nat, run: seq<State>, j: JobId, k: JobId)
    requires Run(hard, run) && LoadsSingle(run) && j in Last(run).jobs && k in Last(run).jobs && j != k
    ensures Ids(Last(run).jobs[j].victims) !! Ids(Last(run).jobs[k].victims)
  {
    RunTasksSingle(hard, run);
    VictimsDisjoint(Last(run), j, k);
  }

  /** Then the files of a task stay in the cache until the task's own update. */
  lemma VictimsStayCached(hard: nat, run: seq<State>, j: JobId)
    requires Run(hard, run) && LoadsSingle(run) && j in Last(run).jobs && !Last(run).jobs[j].phase.Cached?
    ensures Ids(Last(run).jobs[j].victims) <= Last(run).cache.Keys
  {
    RunTasksSingle(hard, run);
    CachedVictims(Last(run), j);
  }

  lemma CachedVictims(s: State, j: JobId)
    requires TasksSingle(s) && j in s.jobs && !s.jobs[j].phase.Cached?
    ensures Ids(s.jobs[j].victims) <= s.cache.Keys
  {
  }

  /** So a task that fails can be picked again with the same files at once, from every state of every
      such run: nothing but its output's object and its ids is different then. */
  lemma FailedTaskPickedAgain(hard: nat, run: seq<State>, j: JobId) returns (path: seq<State>)
    requires Run(hard, run) && LoadsSingle(run) && j in Last(run).jobs && Last(run).jobs[j].victims != {}
    requires var p := Last(run).jobs[j].phase; !p.Checked? && !p.Persisted? && !p.Cached? && !p.Failed?
    ensures Path(hard, path) && Serves(path) && path[0] == Last(run)
    ensures var s, t := Last(run), Last(path);
            && t.jobs == s.jobs[j := Job(s.jobs[j].victims, Queued)] && t.marks == s.marks && t.cache == s.cache
            && t.log == s.log && t.deltas == s.deltas && t.objects == s.objects
  {
    RunTasksSingle(hard, run);
    VictimsHeld(Last(run), j);
    path := FailsAndRepeats(hard, Last(run), j);
  }

  lemma VictimsHeld(s: State, j: JobId)
    requires InvJobs(s) && TasksSingle(s) && j in s.jobs && !s.jobs[j].phase.Cached?
    ensures s.mode.Up? && s.jobs[j].victims <= s.marks && forall c :: c in s.jobs[j].victims ==> HoldsCopy(s.cache, c)
  {
  }

  lemma FailsAndRepeats(hard: nat, s: State, j: JobId) returns (path: seq<State>)
    requires s.mode.Up? && j in s.jobs && s.jobs[j].victims != {} && s.jobs[j].victims <= s.marks
    requires forall c :: c in s.jobs[j].victims ==> HoldsCopy(s.cache, c)
    requires var p := s.jobs[j].phase; !p.Checked? && !p.Persisted? && !p.Cached? && !p.Failed?
    ensures Path(hard, path) && Serves(path) && path[0] == s
    ensures var t := Last(path);
            && t.jobs == s.jobs[j := Job(s.jobs[j].victims, Queued)] && t.marks == s.marks && t.cache == s.cache
            && t.log == s.log && t.deltas == s.deltas && t.objects == s.objects
  {
    var victims := s.jobs[j].victims;
    path := JobFails(hard, s, j);
    path := WorkGrows(hard, path, TakeView);
    path := WorkGrows(hard, path, Pick(j, victims));
    assert (s.jobs - {j})[j := Job(victims, Queued)] == s.jobs[j := Job(victims, Queued)];
    assert s.marks - victims + victims == s.marks;
  }

  /** A victim that is not persisted yet is live in the log: the task is its only deleter. */
  lemma VictimsLive(s: State, j: JobId)
    requires InvJobs(s) && TasksSingle(s) && CacheExact(s)
    requires j in s.jobs && !s.jobs[j].phase.Cached? && !s.jobs[j].phase.Persisted?
    ensures Ids(s.jobs[j].victims) <= Live(s.log)
  {
    CachedVictims(s, j);
    forall f | f in Ids(s.jobs[j].victims) ensures f in s.cache.Keys && f !in InFlightDels(s.jobs) {
      forall k | k in s.jobs && s.jobs[k].phase.Persisted? ensures f !in Ids(s.jobs[k].victims) {
        VictimsDisjoint(s, j, k);
      }
    }
  }

  lemma PutDeltaKeepsDelsOnce(hard: nat, s: State, j: JobId)
    requires InvIds(s) && DelsOnce(s.log) && CanWork(hard, s, PutDelta(j))
    requires Ids(s.jobs[j].victims) <= Live(s.log)
    ensures DelsOnce(Work(hard, s, PutDelta(j)).log)
  {
    assert forall d :: d in s.log ==> s.log[d].dels !! Ids(s.jobs[j].victims);
  }

  lemma WorkKeepsLog(hard: nat, s: State, step: WorkStep)
    requires CanWork(hard, s, step) && !step.PutDelta?
    ensures Work(hard, s, step).log == s.log
  {
  }

  lemma MergeKeepsLog(s: State, step: MergeStep)
    requires CanMerge(s, step)
    ensures Merge(s, step).log == s.log
  {
    if !step.BootList? {
      MergerKeepsIds(s, step);
    }
  }

  lemma PutDeltaOnce(hard: nat, s: State, j: JobId)
    requires Inv(s) && CacheExact(s) && TasksSingle(s) && CanWork(hard, s, PutDelta(j)) && DelsOnce(s.log)
    ensures DelsOnce(Work(hard, s, PutDelta(j)).log)
  {
    VictimsLive(s, j);
    PutDeltaKeepsDelsOnce(hard, s, j);
  }

  lemma NextKeepsDelsOnce(hard: nat, s: State, t: State)
    requires Inv(s) && CacheExact(s) && TasksSingle(s) && Next(hard, s, t) && DelsOnce(s.log)
    ensures DelsOnce(t.log)
  {
    if step :| CanWork(hard, s, step) && t == Work(hard, s, step) {
      if step.PutDelta? {
        PutDeltaOnce(hard, s, step.j);
      } else {
        WorkKeepsLog(hard, s, step);
      }
    } else {
      var step :| CanMerge(s, step) && t == Merge(s, step);
      MergeKeepsLog(s, step);
    }
  }

  lemma RunDelsOnce(hard: nat, run: seq<State>)
    requires Run(hard, run) && LoadsExact(run) && LoadsSingle(run)
    ensures DelsOnce(Last(run).log)
  {
    RunCacheExact(hard, run);
    RunTasksSingle(hard, run);
    forall i, j | 0 <= i < j < |run| && j == i + 1 && DelsOnce(run[i].log) ensures DelsOnce(run[j].log) {
      NextKeepsDelsOnce(hard, run[i], run[j]);
    }
    Along((s: State) => DelsOnce(s.log), run, |run|);
  }

  /** If every load brings in exactly the live files, and each of them once, each file is deleted
      from the manifest at most once, and only while it is live. */
  lemma DeletedOnce(hard: nat, run: seq<State>)
    requires Run(hard, run) && LoadsExact(run) && LoadsSingle(run)
    ensures DelsOnce(Last(run).log) && Dels(Last(run).log) <= Adds(Last(run).log)
    ensures forall j :: j in Last(run).jobs && Last(run).jobs[j].phase.Named?
              ==> Ids(Last(run).jobs[j].victims) <= Live(Last(run).log)
  {
    RunDelsOnce(hard, run);
    RunCacheExact(hard, run);
    RunTasksSingle(hard, run);
    forall j | j in Last(run).jobs && Last(run).jobs[j].phase.Named?
      ensures Ids(Last(run).jobs[j].victims) <= Live(Last(run).log)
    {
      VictimsLive(Last(run), j);
    }
  }

  /** The merger's debug assertion that every deleted id has a record. */
  ghost predicate DeletesFound(m: Merger)
    requires m.ReadAll?
  {
    Dels(m.updates) <= m.base.Keys + Adds(m.updates)
  }

  /** If every put merges a closed set and no file is loaded twice, the assertion holds exactly when
      each delta object that an earlier snapshot had merged already deletes only files that the
      merged delta objects add. */
  lemma DeletesFoundExactly(hard: nat, run: seq<State>)
    requires Run(hard, run) && PutsClosed(run) && LoadsSingle(run) && Last(run).merger.ReadAll?
    ensures var s := Last(run);
            DeletesFound(s.merger) <==>
            forall d :: d in s.merger.updates && d in s.merged ==> s.merger.updates[d].dels <= Adds(s.merger.updates)
  {
    ClosedPutsLoadExactly(hard, run);
    RunDelsOnce(hard, run);
    RunInv(hard, run);
    RunSnapshotExact(hard, run);
    FoundExactly(Last(run));
  }

  lemma FoundExactly(s: State)
    requires InvLogs(s) && InvHistory(s) && DelsOnce(s.log) && s.merger.ReadAll? && SnapshotExact(s)
    ensures DeletesFound(s.merger) <==>
            forall d :: d in s.merger.updates && d in s.merged ==> s.merger.updates[d].dels <= Adds(s.merger.updates)
  {
    var us := s.merger.updates;
    JoinLogs(s.merged, us, s.listed);
    if DeletesFound(s.merger) {
      forall d, f | d in us && d in s.merged && f in us[d].dels ensures f in Adds(us) {
        assert us[d] == s.merged[d];
        assert f in Dels(s.merged) && f in Dels(us);
      }
    }
    if forall d :: d in us && d in s.merged ==> us[d].dels <= Adds(us) {
      forall f | f in Dels(us) ensures f in s.merger.base.Keys + Adds(us) {
        var d :| d in us && f in us[d].dels;
        if d !in s.merged && f !in Adds(us) {
          assert f in Dels(s.listed);
          assert f in Adds(s.merged);
          forall e | e in s.merged ensures f !in s.merged[e].dels {
            assert s.log[d].dels !! s.log[e].dels;
          }
        }
      }
    }
  }

  /** So it never fires in a run in which every round deletes all it merged. */
  lemma NeverNotFound(hard: nat, run: seq<State>)
    requires Run(hard, run) && PutsFresh(run) && Last(run).merger.ReadAll?
    requires Last(run).merger.updates.Keys !! Last(run).merged.Keys
    ensures DeletesFound(Last(run).merger)
  {
    CompletedDeletionsAreClosed(hard, run);
    CompletedDeletionsAreDistinct(hard, run);
    DistinctPutsLoadSingle(hard, run);
    DeletesFoundExactly(hard, run);
  }

  // ---------------------------------------------------------------------------------------
  // Exactly when a file can be in two tasks
  // ---------------------------------------------------------------------------------------

  /** Some file is in two outstanding tasks. */
  ghost predicate Shares(s: State) {
    exists j, k :: j in s.jobs && k in s.jobs && j != k && Ids(s.jobs[j].victims) * Ids(s.jobs[k].victims) != {}
  }

  /** While the process serves, single copies stay single. */
  lemma ServingKeepsSingle(hard: nat, path: seq<State>)
    requires Path(hard, path) && Serves(path) && Inv(path[0]) && TasksSingle(path[0])
    ensures forall i :: 0 <= i < |path| ==> Inv(path[i])
    ensures forall i :: 0 <= i < |path| ==> TasksSingle(path[i])
  {
    forall i, j | 0 <= i < j < |path| && j == i + 1 && Inv(path[i]) ensures Inv(path[j]) {
      NextKeepsInv(hard, path[i], path[j]);
    }
    Along((s: State) => Inv(s), path, |path|);
    forall i, j | 0 <= i < j < |path| && j == i + 1 && TasksSingle(path[i]) ensures TasksSingle(path[j]) {
      NextKeepsTasks(hard, path[i], path[j]);
    }
    Along((s: State) => TasksSingle(s), path, |path|);
  }

  lemma SingleNeverShares(s: State)
    requires InvJobs(s) && TasksSingle(s)
    ensures !Shares(s)
  {
    forall j, k | j in s.jobs && k in s.jobs && j != k ensures Ids(s.jobs[j].victims) * Ids(s.jobs[k].victims) == {} {
      VictimsDisjoint(s, j, k);
    }
  }

  /** From any serving state with two unmarked copies of a file, the picker can give them to two tasks. */
  lemma TwoCopiesTwoTasks(hard: nat, s: State, f: FileId, j: JobId, k: JobId) returns (path: seq<State>)
    requires s.mode.Up? && f in s.cache && s.cache[f] > 1 && Copy(f, 0) !in s.marks && Copy(f, 1) !in s.marks
    requires j !in s.jobs && k !in s.jobs && j != k
    ensures Path(hard, path) && Serves(path) && path[0] == s && Shares(Last(path))
  {
    var a, b := Copy(f, 0), Copy(f, 1);
    path := WorkGrows(hard, [s], TakeView);
    path := WorkGrows(hard, path, Pick(j, {a}));
    path := WorkGrows(hard, path, TakeView);
    path := WorkGrows(hard, path, Pick(k, {b}));
    var t := Last(path);
    assert a in t.jobs[j].victims && b in t.jobs[k].victims;
    assert f in Ids(t.jobs[j].victims) * Ids(t.jobs[k].victims);
  }

  /** Right after a load, no continuation without a crash puts a file in two tasks if and only if
      the load brought in no file twice. */
  lemma LoadDecides(hard: nat, run: seq<State>)
    requires Run(hard, run) && |run| > 1 && Loads(run[|run| - 2], Last(run))
    ensures Single(Last(run).cache) <==>
            forall path :: Path(hard, path) && Serves(path) && path[0] == Last(run) ==> !Shares(Last(path))
  {
    var before, s := run[|run| - 2], Last(run);
    RunInv(hard, run);
    LoadIsBootLoad(hard, before, s);
    if Single(s.cache) {
      forall path | Path(hard, path) && Serves(path) && path[0] == s ensures !Shares(Last(path)) {
        ServingKeepsSingle(hard, path);
        SingleNeverShares(Last(path));
      }
    } else {
      var f :| f in s.cache && s.cache[f] != 1;
      var path := TwoCopiesTwoTasks(hard, s, f, 0, 1);
    }
  }

  /** Which load that is, the store decides while the process is down. */
  lemma StoreDecides(hard: nat, run: seq<State>, down: nat, up: nat)
    requires Run(hard, run) && BootsBetween(run, down, up) && up < |run| && run[up].mode.Up?
    ensures Single(run[up].cache) <==> Single(DurableRecords(run[down]))
    ensures Single(SnapshotRecords(run[down])) ==>
              (Single(run[up].cache) <==> NoRecordTwice(SnapshotRecords(run[down]), run[down].deltas))
  {
    RestartRecovers(hard, run, down, up);
    if Single(SnapshotRecords(run[down])) {
      ReplaySingle(SnapshotRecords(run[down]), run[down].deltas);
    }
  }
}
