/** Theorems about every run of the protocol. */
module ProtocolTheorems {
  import opened Types
  import opened Updates
  import opened Protocol
  import opened ProtocolInvariant
  import opened ProtocolExact

  /** Induction over a run. */
  lemma {:induction false} Along(p: State -> bool, run: seq<State>, n: nat)
    requires n <= |run| && |run| > 0 && p(run[0])
    requires forall i, j :: 0 <= i < j < |run| && j == i + 1 && p(run[i]) ==> p(run[j])
    ensures forall k :: 0 <= k < n ==> p(run[k])
  {
    if n > 1 {
      Along(p, run, n - 1);
      assert p(run[n - 2]);
    }
  }

  /** The protocol's invariant holds in every state of every run. */
  lemma RunInv(hard: nat, run: seq<State>)
    requires Run(hard, run)
    ensures forall i :: 0 <= i < |run| ==> Inv(run[i])
  {
    InitInv(run[0]);
    forall i, j | 0 <= i < j < |run| && j == i + 1 && Inv(run[i]) ensures Inv(run[j]) {
      NextKeepsInv(hard, run[i], run[j]);
    }
    Along((s: State) => Inv(s), run, |run|);
  }

  lemma InitExact(s: State)
    requires Init(s)
    ensures SnapshotExact(s) && CacheExact(s) && LiveKept(s) && CacheKept(s)
  {
  }

  lemma RunSnapshotExact(hard: nat, run: seq<State>)
    requires Run(hard, run) && PutsClosed(run)
    ensures forall i :: 0 <= i < |run| ==> SnapshotExact(run[i])
  {
    RunInv(hard, run);
    InitExact(run[0]);
    forall i, j | 0 <= i < j < |run| && j == i + 1 && SnapshotExact(run[i]) ensures SnapshotExact(run[j]) {
      NextKeepsSnapshotExact(hard, run[i], run[j]);
    }
    Along((s: State) => SnapshotExact(s), run, |run|);
  }

  lemma RunCacheExact(hard: nat, run: seq<State>)
    requires Run(hard, run) && LoadsExact(run)
    ensures forall i :: 0 <= i < |run| ==> CacheExact(run[i])
  {
    RunInv(hard, run);
    InitExact(run[0]);
    forall i, j | 0 <= i < j < |run| && j == i + 1 && CacheExact(run[i]) ensures CacheExact(run[j]) {
      NextKeepsCacheExact(hard, run[i], run[j]);
    }
    Along((s: State) => CacheExact(s), run, |run|);
  }

  lemma RunLiveKept(hard: nat, run: seq<State>)
    requires Run(hard, run)
    ensures forall i :: 0 <= i < |run| ==> LiveKept(run[i])
  {
    RunInv(hard, run);
    InitExact(run[0]);
    forall i, j | 0 <= i < j < |run| && j == i + 1 && LiveKept(run[i]) ensures LiveKept(run[j]) {
      NextKeepsLive(hard, run[i], run[j]);
    }
    Along((s: State) => LiveKept(s), run, |run|);
  }

  lemma RunCacheKept(hard: nat, run: seq<State>)
    requires Run(hard, run) && LoadsKept(run)
    ensures forall i :: 0 <= i < |run| ==> CacheKept(run[i])
  {
    RunInv(hard, run);
    RunLiveKept(hard, run);
    InitExact(run[0]);
    forall i, j | 0 <= i < j < |run| && j == i + 1 && CacheKept(run[i]) ensures CacheKept(run[j]) {
      NextKeepsCacheKept(hard, run[i], run[j]);
    }
    Along((s: State) => CacheKept(s), run, |run|);
  }

  // ---------------------------------------------------------------------------------------
  // Loads
  // ---------------------------------------------------------------------------------------

  lemma LoadIsBootLoad(hard: nat, s: State, t: State)
    requires OffOk(s) && Next(hard, s, t) && Loads(s, t)
    ensures CanMerge(s, BootLoad) && t == Merge(s, BootLoad)
  {
    OnlyUpWorks(hard, s);
    var step :| CanMerge(s, step) && t == Merge(s, step);
    OnlyBootLoadLoads(s, step);
  }

  lemma OnlyBootLoadLoads(s: State, step: MergeStep)
    requires CanMerge(s, step) && Loads(s, Merge(s, step))
    ensures step == BootLoad
  {
  }

  lemma LoadedExact(hard: nat, s: State, t: State)
    requires InvLogs(s) && OffOk(s) && SnapshotExact(s) && Next(hard, s, t) && Loads(s, t)
    ensures t.cache.Keys == Live(t.log)
  {
    LoadIsBootLoad(hard, s, t);
  }

  /** Closed puts make exact loads, and exact loads bring in only files with data objects. */
  lemma ClosedPutsLoadExactly(hard: nat, run: seq<State>)
    requires Run(hard, run)
    ensures PutsClosed(run) ==> LoadsExact(run)
    ensures LoadsExact(run) ==> LoadsKept(run)
  {
    RunInv(hard, run);
    RunLiveKept(hard, run);
    if PutsClosed(run) {
      RunSnapshotExact(hard, run);
      forall i, j | 0 <= i < j < |run| && j == i + 1 && Loads(run[i], run[j]) ensures run[j].cache.Keys == Live(run[j].log) {
        LoadedExact(hard, run[i], run[j]);
      }
    }
  }

  // ---------------------------------------------------------------------------------------
  // Disk and cache
  // ---------------------------------------------------------------------------------------

  /** Over a whole run, the snapshot always is the live set of the updates it accounts for, if
      and only if every snapshot that was put merged a closed set of delta objects. */
  lemma SnapshotAlwaysExact(hard: nat, run: seq<State>)
    requires Run(hard, run)
    ensures PutsClosed(run) <==> forall i :: 0 <= i < |run| ==> SnapshotIds(run[i]) == Live(run[i].merged)
  {
    RunInv(hard, run);
    if PutsClosed(run) {
      RunSnapshotExact(hard, run);
    }
    if forall i :: 0 <= i < |run| ==> SnapshotIds(run[i]) == Live(run[i].merged) {
      forall i, j | 0 <= i < j < |run| && j == i + 1 && PutsSnapshot(run[i], run[j])
        ensures Closed(run[i].merger.updates, run[i].merged)
      {
        PutIsPutSnapshot(hard, run[i], run[j]);
        PutSnapshotExact(run[i]);
      }
    }
  }

  /** Over a whole run, the cache with the updates in flight always is the live set, if and only
      if every load brings in exactly the live files; puts made while serving do not matter. */
  lemma CacheAlwaysExact(hard: nat, run: seq<State>)
    requires Run(hard, run)
    ensures LoadsExact(run) <==> forall i :: 0 <= i < |run| ==> CacheExact(run[i])
  {
    if LoadsExact(run) {
      RunCacheExact(hard, run);
    }
    if forall i :: 0 <= i < |run| ==> CacheExact(run[i]) {
      RunInv(hard, run);
      forall i, j | 0 <= i < j < |run| && j == i + 1 && Loads(run[i], run[j]) ensures run[j].cache.Keys == Live(run[j].log) {
        ExactWhenLoaded(hard, run[i], run[j]);
      }
    }
  }

  lemma ExactWhenLoaded(hard: nat, s: State, t: State)
    requires OffOk(s) && Next(hard, s, t) && Loads(s, t) && CacheExact(t)
    ensures t.cache.Keys == Live(t.log)
  {
    LoadIsBootLoad(hard, s, t);
    assert InFlightAdds(t.jobs) == {} && InFlightDels(t.jobs) == {};
    CacheSettled(t);
  }

  lemma WorkKeepsMerger(hard: nat, s: State, step: WorkStep)
    requires CanWork(hard, s, step)
    ensures Work(hard, s, step).merger == s.merger && Work(hard, s, step).mode == s.mode
  {
  }

  lemma OnlyPutSnapshotPuts(s: State, step: MergeStep)
    requires CanMerge(s, step) && PutsSnapshot(s, Merge(s, step))
    ensures step == PutSnapshot
  {
  }

  lemma PutIsPutSnapshot(hard: nat, s: State, t: State)
    requires Next(hard, s, t) && PutsSnapshot(s, t)
    ensures t == Merge(s, PutSnapshot)
  {
    forall step | CanWork(hard, s, step) ensures Work(hard, s, step).merger == s.merger {
      WorkKeepsMerger(hard, s, step);
    }
    var step :| CanMerge(s, step) && t == Merge(s, step);
    OnlyPutSnapshotPuts(s, step);
  }

  /** What a reader of the object store decodes is the true live set exactly when the delta
      objects that survived are closed, and it never misses a live file. With no update in flight
      the cache agrees with it exactly then. */
  lemma DiskAgreesWithCache(hard: nat, run: seq<State>)
    requires Run(hard, run) && PutsClosed(run)
    ensures var s := Last(run);
            && Live(s.log) <= Durable(s)
            && (Durable(s) == Live(s.log) <==> Closed(s.deltas, s.merged))
            && (s.mode.Up? && InFlightAdds(s.jobs) == {} && InFlightDels(s.jobs) == {} ==>
                  (Durable(s) == s.cache.Keys <==> Closed(s.deltas, s.merged)))
  {
    RunInv(hard, run);
    RunSnapshotExact(hard, run);
    ClosedPutsLoadExactly(hard, run);
    RunCacheExact(hard, run);
    DiskExact(Last(run));
    CacheSettled(Last(run));
  }

  lemma DiskExact(s: State)
    requires InvLogs(s) && SnapshotExact(s)
    ensures Live(s.log) <= Durable(s)
    ensures Durable(s) == Live(s.log) <==> Closed(s.deltas, s.merged)
  {
    ReplayExact(s.merged, s.deltas, s.log);
  }

  lemma CacheSettled(s: State)
    requires CacheExact(s)
    ensures s.mode.Up? && InFlightAdds(s.jobs) == {} && InFlightDels(s.jobs) == {} ==> s.cache.Keys == Live(s.log)
  {
    assert s.cache.Keys + {} == s.cache.Keys && s.cache.Keys - {} == s.cache.Keys;
  }

  /** In every run, whatever deletions fail and whatever is merged, loaded or cut off by crashes,
      every live file has its data object. */
  lemma LiveFilesHaveObjects(hard: nat, run: seq<State>)
    requires Run(hard, run)
    ensures Live(Last(run).log) <= Last(run).objects
  {
    RunLiveKept(hard, run);
  }

  /** Over a whole run every cached file has its data object if and only if that is so right after
      every load. */
  lemma CachedFilesHaveObjects(hard: nat, run: seq<State>)
    requires Run(hard, run)
    ensures LoadsKept(run) <==> forall i :: 0 <= i < |run| ==> run[i].cache.Keys <= run[i].objects
  {
    if LoadsKept(run) {
      RunCacheKept(hard, run);
    }
  }

  /** A file that the store decodes lacks its data object exactly when it is a deleted file that
      surviving delta objects bring back and whose data object is gone. */
  lemma NoDanglingFile(hard: nat, run: seq<State>)
    requires Run(hard, run) && PutsClosed(run)
    ensures var s := Last(run);
            && (Durable(s) <= s.objects <==> Adds(s.deltas) * Dels(s.merged) - Dels(s.deltas) <= s.objects)
            && (Closed(s.deltas, s.merged) ==> Durable(s) <= s.objects)
  {
    RunInv(hard, run);
    RunSnapshotExact(hard, run);
    RunLiveKept(hard, run);
    DurableIs(Last(run));
  }

  /** What is decoded is what is live and what is brought back. */
  lemma DurableIs(s: State)
    requires InvLogs(s) && SnapshotExact(s)
    ensures Durable(s) == Live(s.log) + (Adds(s.deltas) * Dels(s.merged) - Dels(s.deltas))
  {
    JoinLogs(s.merged, s.deltas, s.log);
    DurableAlgebra(Adds(s.merged), Dels(s.merged), Adds(s.deltas), Dels(s.deltas));
  }

  lemma DurableAlgebra(a: set<FileId>, b: set<FileId>, c: set<FileId>, d: set<FileId>)
    ensures ((({} + a) - b) + c) - d == (({} + (a + c)) - (b + d)) + (c * b - d)
  {
  }

  /** Delta objects that no snapshot accounts for are closed against its history. */
  lemma FreshIsClosed(us: Log, m: Log, n: Log)
    requires Within(us, n) && Within(m, n) && AddsOnce(n) && Dels(m) <= Adds(m)
    requires us.Keys !! m.Keys
    ensures Closed(us, m)
  {
    forall f | f in Adds(us) ensures f !in Adds(m) {
      var d :| d in us && f in us[d].adds;
      forall e | e in m ensures f !in m[e].adds {
        assert n[d].adds !! n[e].adds;
      }
    }
  }

  /** If every round deletes all it merged before the next one lists, every put is closed. */
  lemma CompletedDeletionsAreClosed(hard: nat, run: seq<State>)
    requires Run(hard, run) && PutsFresh(run)
    ensures PutsClosed(run)
    ensures Last(run).deltas.Keys !! Last(run).merged.Keys ==> Closed(Last(run).deltas, Last(run).merged)
  {
    RunInv(hard, run);
    forall i, j | 0 <= i < j < |run| && j == i + 1 && PutsSnapshot(run[i], run[j])
      ensures Closed(run[i].merger.updates, run[i].merged)
    {
      FreshIsClosed(run[i].merger.updates, run[i].merged, run[i].log);
    }
    var s := Last(run);
    if s.deltas.Keys !! s.merged.Keys {
      FreshIsClosed(s.deltas, s.merged, s.log);
    }
  }

  /** A crash right after a snapshot of unmerged delta objects is put, before any of them is
      deleted, leaves a closed set. */
  lemma NoDeletionIsClosed(hard: nat, run: seq<State>)
    requires Run(hard, run) && Last(run).merger.ReadAll?
    requires Last(run).deltas.Keys !! Last(run).merged.Keys
    ensures var t := Merge(Last(run), PutSnapshot); Closed(t.deltas, t.merged)
  {
    var s := Last(run);
    RunInv(hard, run);
    FreshIsClosed(s.deltas, s.merged, s.log);
    JoinLogs(s.merged, s.merger.updates, s.listed);
    WithinMonotone(s.merger.updates, s.deltas);
    var t := Merge(s, PutSnapshot);
    assert Dels(t.merged) == Dels(s.merged) + Dels(s.merger.updates);
  }

  // ---------------------------------------------------------------------------------------
  // Restart
  // ---------------------------------------------------------------------------------------

  /** While booting, the store still decodes to what it did when the process was down. */
  ghost predicate Recovering(from: State, s: State) {
    && s.log == from.log
    && (Merging(s.merger) ==> s.snapshot == from.snapshot && s.deltas == from.deltas && s.merger.paths == from.deltas.Keys)
    && (!Merging(s.merger) ==> SnapshotRecords(s) == DurableRecords(from))
  }

  /** The records that a boot loads. */
  ghost function DurableRecords(s: State): Records { ReplayRecords(SnapshotRecords(s), s.deltas) }

  lemma OnlyUpWorks(hard: nat, s: State)
    requires OffOk(s) && !s.mode.Up?
    ensures forall step :: !CanWork(hard, s, step)
  {
  }

  lemma MergeKeepsRecovering(from: State, s: State, step: MergeStep)
    requires InvLogs(s) && OffOk(s) && (s.mode.Booting? || s.mode.Loading?) && CanMerge(s, step)
    requires Recovering(from, s) && !Merge(s, step).mode.Down?
    ensures Recovering(from, Merge(s, step))
    ensures Merge(s, step).mode.Up? ==> Merge(s, step).cache == DurableRecords(from)
  {
    if step.PutSnapshot? {
      assert s.merger.updates == s.deltas;
    }
  }

  lemma BootKeepsRecovering(hard: nat, from: State, s: State, t: State)
    requires InvLogs(s) && OffOk(s) && (s.mode.Booting? || s.mode.Loading?) && Next(hard, s, t)
    requires Recovering(from, s) && !t.mode.Down?
    ensures Recovering(from, t)
    ensures t.mode.Up? ==> t.cache == DurableRecords(from)
  {
    OnlyUpWorks(hard, s);
    var step :| CanMerge(s, step) && t == Merge(s, step);
    MergeKeepsRecovering(from, s, step);
  }

  lemma BootStarts(hard: nat, s: State, t: State)
    requires InvLogs(s) && OffOk(s) && s.mode.Down? && Next(hard, s, t) && !t.mode.Down?
    ensures !t.mode.Up? && Recovering(s, t)
  {
    OnlyUpWorks(hard, s);
    var step :| CanMerge(s, step) && t == Merge(s, step);
    BootListStarts(s, step);
  }

  lemma NothingToMerge(s: State)
    requires s.deltas == map[]
    ensures DurableRecords(s) == SnapshotRecords(s)
  {
    assert Adds(s.deltas) == {} && Dels(s.deltas) == {};
  }

  lemma BootListStarts(s: State, step: MergeStep)
    requires InvLogs(s) && s.mode.Down? && CanMerge(s, step)
    ensures Merge(s, step).mode.Down? || (!Merge(s, step).mode.Up? && Recovering(s, Merge(s, step)))
  {
    if s.deltas == map[] {
      NothingToMerge(s);
    }
  }

  ghost predicate BootsBetween(run: seq<State>, down: nat, n: nat) {
    && down < n <= |run|
    && run[down].mode.Down?
    && forall k :: down < k < n ==> run[k].mode.Booting? || run[k].mode.Loading?
  }

  ghost predicate BootOk(s: State) { InvLogs(s) && OffOk(s) }

  lemma RecoversNext(hard: nat, run: seq<State>, down: nat, i: nat)
    requires Run(hard, run) && BootsBetween(run, down, i) && i < |run| && !run[i].mode.Down?
    requires forall k :: 0 <= k < |run| ==> BootOk(run[k])
    requires forall k :: down < k < i ==> Recovering(run[down], run[k])
    ensures Recovering(run[down], run[i])
    ensures run[i].mode.Up? ==> run[i].cache == DurableRecords(run[down])
  {
    if i == down + 1 {
      BootStarts(hard, run[down], run[i]);
    } else {
      BootKeepsRecovering(hard, run[down], run[i - 1], run[i]);
    }
  }

  lemma {:induction false} RecoversUpTo(hard: nat, run: seq<State>, down: nat, n: nat)
    requires Run(hard, run) && BootsBetween(run, down, n)
    requires forall k :: 0 <= k < |run| ==> BootOk(run[k])
    ensures forall k :: down < k < n ==> Recovering(run[down], run[k])
    decreases n
  {
    if n > down + 1 {
      RecoversUpTo(hard, run, down, n - 1);
      RecoversNext(hard, run, down, n - 1);
    }
  }

  /** From a state in which the process is down to the next one in which it serves, however
      deletions of delta objects fail on the way, the cache is loaded with exactly the records
      that the store decoded to, and so with exactly the files. */
  lemma RestartRecovers(hard: nat, run: seq<State>, down: nat, up: nat)
    requires Run(hard, run) && BootsBetween(run, down, up) && up < |run| && run[up].mode.Up?
    ensures run[up].cache == DurableRecords(run[down]) && run[up].cache.Keys == Durable(run[down])
  {
    RunBoots(hard, run);
    RecoversUpTo(hard, run, down, up);
    RecoversNext(hard, run, down, up);
    DurableKeys(run[down]);
  }

  lemma RunBoots(hard: nat, run: seq<State>)
    requires Run(hard, run)
    ensures forall k :: 0 <= k < |run| ==> BootOk(run[k])
  {
    RunInv(hard, run);
  }

  lemma DurableKeys(s: State)
    ensures DurableRecords(s).Keys == Durable(s)
  {
  }

  // ---------------------------------------------------------------------------------------
  // Snapshots
  // ---------------------------------------------------------------------------------------

  /** In no run is the snapshot object empty, so its decoder never refuses it. */
  lemma NoEmptySnapshot(hard: nat, run: seq<State>)
    requires Run(hard, run)
    ensures SnapshotReadable(Last(run))
    ensures Last(run).merger.ReadAll? ==> ReplayRecords(Last(run).merger.base, Last(run).merger.updates) != map[]
  {
    RunInv(hard, run);
    var s := Last(run);
    if s.merger.ReadAll? {
      MergeKeepsInv(s, PutSnapshot);
      assert Live(s.listed) <= ReplayRecords(s.merger.base, s.merger.updates).Keys;
    }
  }

  // ---------------------------------------------------------------------------------------
  // The delta counter
  // ---------------------------------------------------------------------------------------

  /** The counter is the delta objects on disk, plus updates counted but not put, plus deltas
      deleted but not uncounted: it never underflows. */
  lemma CounterExact(hard: nat, run: seq<State>)
    requires Run(hard, run)
    ensures var s := Last(run);
            && s.deltasNum >= 0
            && (!s.mode.Down? ==> s.deltasNum == |s.deltas| + |CountedJobs(s.jobs)| + Uncounted(s.merger))
  {
    RunInv(hard, run);
  }

  ghost function CheckedJobs(jobs: Jobs): set<JobId> {
    set j | j in jobs && jobs[j].phase.Checked?
  }

  /** Updates between the limit check and the delta object. */
  ghost function Updaters(s: State): set<JobId> { CheckedJobs(s.jobs) + CountedJobs(s.jobs) }

  ghost predicate Bounded(s: State, max: nat) {
    && |s.deltas| <= max
    && (!s.mode.Down? ==> s.deltasNum + |CheckedJobs(s.jobs)| <= max)
  }

  lemma CheckedAfter(jobs: Jobs, j: JobId, job: Job)
    ensures CheckedJobs(jobs[j := job]) == CheckedJobs(jobs) - {j} + (if job.phase.Checked? then {j} else {})
    ensures CheckedJobs(jobs - {j}) == CheckedJobs(jobs) - {j}
  {
  }

  lemma CardinalityMonotone<T>(a: set<T>, b: set<T>)
    requires a <= b
    ensures |a| <= |b|
  {
    assert b == a + (b - a);
  }

  lemma WorkKeepsBounded(hard: nat, s: State, step: WorkStep, k: nat)
    requires Bounded(s, hard + k) && s.mode.Up? && CanWork(hard, s, step)
    requires |CheckedJobs(Work(hard, s, step).jobs)| <= k
    ensures var t := Work(hard, s, step); t.deltasNum + |CheckedJobs(t.jobs)| <= hard + k
  {
    if step.Finish? || step.Unmark? {
      CheckedAfter(s.jobs, step.j, s.jobs[step.j]);
      CardinalityMonotone(CheckedJobs(s.jobs - {step.j}), CheckedJobs(s.jobs));
    } else if !step.TakeView? && !step.PickDropped? && !step.DeleteObject? {
      CheckedAfter(s.jobs, step.j, Work(hard, s, step).jobs[step.j]);
    }
  }

  lemma MergeKeepsBounded(s: State, step: MergeStep, max: nat)
    requires Bounded(s, max) && OffOk(s) && CanMerge(s, step) && InvLogs(s)
    ensures Bounded(Merge(s, step), max)
  {
    if step.DeleteDelta? {
      assert s.deltas.Keys == Merge(s, step).deltas.Keys + {step.d};
    }
    if step.BootList? {
      assert CheckedJobs(s.jobs) == {};
    }
  }

  lemma NextKeepsBounded(hard: nat, s: State, t: State, k: nat)
    requires Bounded(s, hard + k) && Inv(s) && Next(hard, s, t) && CountOk(t)
    requires |CheckedJobs(t.jobs)| <= k
    ensures Bounded(t, hard + k)
  {
    if s.mode.Up? {
      if step :| CanWork(hard, s, step) && t == Work(hard, s, step) {
        WorkKeepsMerger(hard, s, step);
        WorkKeepsBounded(hard, s, step, k);
      } else {
        var step :| CanMerge(s, step) && t == Merge(s, step);
        MergeKeepsBounded(s, step, hard + k);
      }
    } else {
      OnlyUpWorks(hard, s);
      var step :| CanMerge(s, step) && t == Merge(s, step);
      MergeKeepsBounded(s, step, hard + k);
    }
  }

  lemma BoundedNext(hard: nat, s: State, t: State, k: nat)
    requires Inv(s) && CountOk(t) && Next(hard, s, t) && |Updaters(t)| <= k && Bounded(s, hard + k)
    ensures Bounded(t, hard + k)
  {
    CardinalityMonotone(CheckedJobs(t.jobs), Updaters(t));
    NextKeepsBounded(hard, s, t, k);
  }

  lemma BoundedSteps(hard: nat, run: seq<State>, k: nat)
    requires Run(hard, run)
    requires forall i :: 0 <= i < |run| ==> |Updaters(run[i])| <= k
    ensures forall i, j :: 0 <= i < j < |run| && j == i + 1 && Bounded(run[i], hard + k) ==> Bounded(run[j], hard + k)
    ensures CountOk(Last(run))
  {
    RunInv(hard, run);
    forall i, j | 0 <= i < j < |run| && j == i + 1 && Bounded(run[i], hard + k) ensures Bounded(run[j], hard + k) {
      BoundedNext(hard, run[i], run[j], k);
    }
  }

  /** With at most `k` updates between check and put at any time, the counter never exceeds the
      hard limit by more than `k`, although check and increment are separate steps. */
  lemma CounterBounded(hard: nat, run: seq<State>, k: nat)
    requires Run(hard, run)
    requires forall i :: 0 <= i < |run| ==> |Updaters(run[i])| <= k
    ensures Last(run).deltasNum <= hard + k && |Last(run).deltas| <= hard + k
  {
    BoundedSteps(hard, run, k);
    InitBounded(run[0], hard + k);
    Along((s: State) => Bounded(s, hard + k), run, |run|);
    BoundedCounter(Last(run), hard + k);
  }

  lemma InitBounded(s: State, max: nat)
    requires Init(s)
    ensures Bounded(s, max)
  {
  }

  lemma BoundedCounter(s: State, max: nat)
    requires Bounded(s, max) && CountOk(s)
    ensures s.deltasNum <= max && |s.deltas| <= max
  {
  }
}
