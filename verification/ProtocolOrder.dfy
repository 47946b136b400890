/** Deleting merged delta objects in ascending order of their ids keeps every state closed.

    Ids are taken before the objects are put, so objects may appear out of the order of their ids;
    but a task takes its id after it has seen its victims in the cache, so what adds a file always
    has a smaller id than what deletes it.
 */
module ProtocolOrder {
  import opened Types
  import opened Updates
  import opened Protocol
  import opened ProtocolInvariant
  import opened ProtocolTheorems

  /** A delta object is deleted only when no smaller one that was merged is left. */
  ghost predicate DeletesAscending(run: seq<State>) {
    forall i, j :: 0 <= i < j < |run| && j == i + 1 ==> DeletesLeast(run[i], run[j])
  }

  ghost predicate DeletesLeast(s: State, t: State) {
    forall d, e :: d in s.deltas && d !in t.deltas && e in s.deltas && e in s.merged ==> d <= e
  }

  /** What adds a file has a smaller id than what deletes it, or is about to. */
  ghost predicate LogOrdered(log: Log) {
    forall d, e, f :: d in log && e in log && f in log[d].adds && f in log[e].dels ==> d < e
  }

  ghost predicate NamesOrdered(jobs: Jobs, log: Log) {
    forall j, d, f :: j in jobs && jobs[j].phase.Named? && d in log && f in log[d].adds && f in Ids(jobs[j].victims) ==>
      d < jobs[j].phase.delta
  }

  ghost predicate Ordered(s: State) { LogOrdered(s.log) && NamesOrdered(s.jobs, s.log) }

  ghost function Part(deltas: Log, paths: set<DeltaId>): Log { map d | d in deltas && d in paths :: deltas[d] }

  /** What is on disk is closed, and so is what the merger has listed. */
  ghost predicate AlwaysClosed(s: State) {
    Closed(s.deltas, s.merged) && (Merging(s.merger) ==> Closed(Part(s.deltas, s.merger.paths), s.merged))
  }

  // ---------------------------------------------------------------------------------------
  // The order of ids
  // ---------------------------------------------------------------------------------------

  lemma PersistKeepsOrder(jobs: Jobs, cache: set<FileId>, log: Log, j: JobId)
    requires LogOrdered(log) && NamesOrdered(jobs, log) && VictimsOk(jobs, cache, log) && Dels(log) <= Adds(log)
    requires j in jobs && jobs[j].phase.Named? && jobs[j].phase.delta !in log && jobs[j].phase.out !in Adds(log)
    ensures LogOrdered(log[jobs[j].phase.delta := UpdateOf(jobs[j])])
    ensures NamesOrdered(jobs[j := jobs[j].(phase := Persisted(jobs[j].phase.out))], log[jobs[j].phase.delta := UpdateOf(jobs[j])])
  {
    var d := jobs[j].phase.delta;
    assert forall e, f :: e in log && f in log[e].dels ==> f in Dels(log);
  }

  lemma PutDeltaKeepsOrder(hard: nat, s: State, j: JobId)
    requires InvIds(s) && InvJobs(s) && Sane(s.log) && Ordered(s) && CanWork(hard, s, PutDelta(j))
    ensures Ordered(Work(hard, s, PutDelta(j)))
  {
    PersistKeepsOrder(s.jobs, s.cache.Keys, s.log, j);
  }

  lemma NameKeepsOrder(hard: nat, s: State, j: JobId)
    requires InvIds(s) && Ordered(s) && CanWork(hard, s, NameDelta(j))
    ensures Ordered(Work(hard, s, NameDelta(j)))
  {
  }

  lemma OtherKeepsOrder(hard: nat, s: State, step: WorkStep)
    requires Ordered(s) && CanWork(hard, s, step) && !step.PutDelta? && !step.NameDelta?
    ensures Ordered(Work(hard, s, step))
  {
  }

  lemma MergeKeepsOrder(s: State, step: MergeStep)
    requires Ordered(s) && CanMerge(s, step)
    ensures Ordered(Merge(s, step))
  {
    if !step.BootList? {
      MergerKeepsIds(s, step);
    }
  }

  lemma WorkKeepsOrder(hard: nat, s: State, step: WorkStep)
    requires InvIds(s) && InvJobs(s) && Sane(s.log) && Ordered(s) && CanWork(hard, s, step)
    ensures Ordered(Work(hard, s, step))
  {
    match step
    case PutDelta(j) => PutDeltaKeepsOrder(hard, s, j);
    case NameDelta(j) => NameKeepsOrder(hard, s, j);
    case _ => OtherKeepsOrder(hard, s, step);
  }

  lemma NextKeepsOrder(hard: nat, s: State, t: State)
    requires Inv(s) && Ordered(s) && Next(hard, s, t)
    ensures Ordered(t)
  {
    if step :| CanWork(hard, s, step) && t == Work(hard, s, step) {
      WorkKeepsOrder(hard, s, step);
    } else {
      var step :| CanMerge(s, step) && t == Merge(s, step);
      MergeKeepsOrder(s, step);
    }
  }

  // ---------------------------------------------------------------------------------------
  // Closed states
  // ---------------------------------------------------------------------------------------

  lemma PutDeltaKeepsClosed(hard: nat, s: State, j: JobId)
    requires InvIds(s) && InvLogs(s) && Sane(s.merged) && AlwaysClosed(s) && CanWork(hard, s, PutDelta(j))
    ensures AlwaysClosed(Work(hard, s, PutDelta(j)))
  {
    var t, d := Work(hard, s, PutDelta(j)), s.jobs[j].phase.delta;
    ExtendLog(s.deltas, d, UpdateOf(s.jobs[j]));
    WithinMonotone(s.merged, s.log);
    if Merging(s.merger) {
      assert Part(t.deltas, s.merger.paths) == Part(s.deltas, s.merger.paths);
    }
  }

  lemma WorkKeepsDeltas(hard: nat, s: State, step: WorkStep)
    requires CanWork(hard, s, step) && !step.PutDelta?
    ensures var t := Work(hard, s, step); t.deltas == s.deltas && t.merged == s.merged && t.merger == s.merger
  {
  }

  lemma OneAdder(log: Log, d: DeltaId, e: DeltaId, f: FileId)
    requires AddsOnce(log) && d in log && e in log && f in log[d].adds && f in log[e].adds
    ensures d == e
  {
  }

  /** A file that a left object adds is deleted by one with a greater id, which is left too. */
  lemma LeastDeleted(deltas: Log, merged: Log, log: Log, d: DeltaId)
    requires Within(deltas, log) && Within(merged, log) && LogOrdered(log) && AddsOnce(log) && Dels(merged) <= Adds(merged)
    requires Closed(deltas, merged) && d in deltas && d in merged
    requires forall e :: e in deltas && e in merged ==> d <= e
    ensures Closed(deltas - {d}, merged)
  {
    var left := deltas - {d};
    forall f | f in Adds(left) * Dels(merged) ensures f in Dels(left) {
      var a :| a in left && f in left[a].adds;
      assert a in deltas && f in Adds(deltas);
      var b :| b in merged && f in merged[b].adds;
      OneAdder(log, a, b, f);
      assert f in Adds(deltas) * Dels(merged);
      var c :| c in deltas && f in deltas[c].dels;
      assert d <= a < c;
      assert c in left;
    }
  }

  lemma DeleteKeepsClosed(s: State, d: DeltaId)
    requires InvLogs(s) && InvHistory(s) && LogOrdered(s.log) && AlwaysClosed(s) && CanMerge(s, DeleteDelta(d))
    requires DeletesLeast(s, Merge(s, DeleteDelta(d)))
    ensures AlwaysClosed(Merge(s, DeleteDelta(d)))
  {
    LeastDeleted(s.deltas, s.merged, s.log, d);
  }

  lemma PutSnapshotKeepsClosed(s: State)
    requires InvLogs(s) && AlwaysClosed(s) && CanMerge(s, PutSnapshot)
    ensures AlwaysClosed(Merge(s, PutSnapshot))
  {
    JoinLogs(s.merged, s.merger.updates, s.listed);
    WithinMonotone(s.merger.updates, s.deltas);
  }

  lemma QuietKeepsClosed(s: State, step: MergeStep)
    requires InvLogs(s) && AlwaysClosed(s) && CanMerge(s, step) && !step.DeleteDelta? && !step.PutSnapshot?
    ensures AlwaysClosed(Merge(s, step))
  {
    assert Part(s.deltas, s.deltas.Keys) == s.deltas;
  }

  lemma WorkKeepsClosed(hard: nat, s: State, step: WorkStep)
    requires InvIds(s) && InvLogs(s) && Sane(s.merged) && AlwaysClosed(s) && CanWork(hard, s, step)
    ensures AlwaysClosed(Work(hard, s, step))
  {
    if step.PutDelta? {
      PutDeltaKeepsClosed(hard, s, step.j);
    } else {
      WorkKeepsDeltas(hard, s, step);
    }
  }

  lemma MergeKeepsClosed(s: State, step: MergeStep)
    requires InvLogs(s) && InvHistory(s) && LogOrdered(s.log) && AlwaysClosed(s) && CanMerge(s, step)
    requires DeletesLeast(s, Merge(s, step))
    ensures AlwaysClosed(Merge(s, step))
  {
    match step
    case DeleteDelta(d) => DeleteKeepsClosed(s, d);
    case PutSnapshot => PutSnapshotKeepsClosed(s);
    case _ => QuietKeepsClosed(s, step);
  }

  lemma NextKeepsClosed(hard: nat, s: State, t: State)
    requires Inv(s) && LogOrdered(s.log) && AlwaysClosed(s) && Next(hard, s, t) && DeletesLeast(s, t)
    ensures AlwaysClosed(t)
  {
    if step :| CanWork(hard, s, step) && t == Work(hard, s, step) {
      WorkKeepsClosed(hard, s, step);
    } else {
      var step :| CanMerge(s, step) && t == Merge(s, step);
      MergeKeepsClosed(s, step);
    }
  }

  ghost predicate OrderedClosed(s: State) { Ordered(s) && AlwaysClosed(s) }

  lemma InitClosed(s: State)
    requires Init(s)
    ensures OrderedClosed(s)
  {
    assert Adds(s.deltas) == {};
  }

  lemma NextKeepsOrderedClosed(hard: nat, s: State, t: State)
    requires Inv(s) && OrderedClosed(s) && Next(hard, s, t) && DeletesLeast(s, t)
    ensures OrderedClosed(t)
  {
    NextKeepsOrder(hard, s, t);
    NextKeepsClosed(hard, s, t);
  }

  lemma RunClosed(hard: nat, run: seq<State>)
    requires Run(hard, run) && DeletesAscending(run)
    ensures forall i :: 0 <= i < |run| ==> Inv(run[i])
    ensures forall i :: 0 <= i < |run| ==> OrderedClosed(run[i])
  {
    RunInv(hard, run);
    InitClosed(run[0]);
    forall i, j | 0 <= i < j < |run| && j == i + 1 && OrderedClosed(run[i]) ensures OrderedClosed(run[j]) {
      NextKeepsOrderedClosed(hard, run[i], run[j]);
    }
    Along((s: State) => OrderedClosed(s), run, |run|);
  }

  lemma ListedIsClosed(s: State)
    requires InvLogs(s) && AlwaysClosed(s) && s.merger.ReadAll?
    ensures Closed(s.merger.updates, s.merged)
  {
    assert s.merger.updates == Part(s.deltas, s.merger.paths);
  }

  /** If merged delta objects are always deleted in ascending order of their ids, then whatever
      deletions are cut off by crashes, every state is closed, and so is what every put merges. */
  lemma AscendingDeletionsAreClosed(hard: nat, run: seq<State>)
    requires Run(hard, run) && DeletesAscending(run)
    ensures PutsClosed(run)
    ensures forall i :: 0 <= i < |run| ==> Closed(run[i].deltas, run[i].merged)
  {
    RunClosed(hard, run);
    forall i, j | 0 <= i < j < |run| && j == i + 1 && PutsSnapshot(run[i], run[j])
      ensures Closed(run[i].merger.updates, run[i].merged)
    {
      ListedIsClosed(run[i]);
    }
    forall i | 0 <= i < |run| ensures Closed(run[i].deltas, run[i].merged) {
      assert OrderedClosed(run[i]);
    }
  }
}
