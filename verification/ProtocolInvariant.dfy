/** What every step of the protocol keeps. */
module ProtocolInvariant {
  import opened Types
  import opened Updates
  import opened Protocol

  // ---------------------------------------------------------------------------------------
  // Logs
  // ---------------------------------------------------------------------------------------

  ghost predicate Within(m: Log, n: Log) { forall d :: d in m ==> d in n && m[d] == n[d] }

  ghost predicate AddsOnce(m: Log) {
    forall d, e :: d in m && e in m && d != e ==> m[d].adds !! m[e].adds
  }

  ghost predicate DelsOnce(m: Log) {
    forall d, e :: d in m && e in m && d != e ==> m[d].dels !! m[e].dels
  }

  /** Nothing is deleted before it is added, and some file stays live. */
  ghost predicate Sane(m: Log) { Dels(m) <= Adds(m) && (m != map[] ==> Live(m) != {}) }

  lemma ExtendLog(m: Log, d: DeltaId, u: Update)
    requires d !in m
    ensures Adds(m[d := u]) == Adds(m) + u.adds
    ensures Dels(m[d := u]) == Dels(m) + u.dels
  {
    var n := m[d := u];
    assert forall e :: e in m ==> e in n && n[e] == m[e];
    assert n[d] == u;
  }

  lemma JoinLogs(a: Log, b: Log, n: Log)
    requires Within(a, n) && Within(b, n) && n.Keys == a.Keys + b.Keys
    ensures Adds(n) == Adds(a) + Adds(b)
    ensures Dels(n) == Dels(a) + Dels(b)
  {
    forall d | d in n ensures (d in a && a[d] == n[d]) || (d in b && b[d] == n[d]) {
      assert d in a.Keys + b.Keys;
    }
    forall d | d in a ensures d in n && a[d] == n[d] {}
    forall d | d in b ensures d in n && b[d] == n[d] {}
  }

  lemma WithinMonotone(m: Log, n: Log)
    requires Within(m, n)
    ensures Adds(m) <= Adds(n) && Dels(m) <= Dels(n)
  {
  }

  // ---------------------------------------------------------------------------------------
  // The invariant
  // ---------------------------------------------------------------------------------------

  predicate HasOut(p: Phase) { !p.Queued? && !p.Cached? && !p.Failed? }

  type Jobs = map<JobId, Job>

  /** Ids in use lie below the clocks; unpersisted outputs and delta names are new and unshared. */
  ghost predicate IdsOk(jobs: Jobs, log: Log, nextFile: FileId, nextDelta: DeltaId) {
    && (forall d :: d in log ==> d < nextDelta)
    && (forall f :: f in Adds(log) ==> f < nextFile)
    && (forall j :: j in jobs && HasOut(jobs[j].phase) ==>
          && jobs[j].phase.out < nextFile
          && (jobs[j].phase.Persisted? <==> jobs[j].phase.out in Adds(log)))
    && (forall j, k :: j in jobs && k in jobs && j != k && HasOut(jobs[j].phase) && HasOut(jobs[k].phase)
          ==> jobs[j].phase.out != jobs[k].phase.out)
    && (forall j :: j in jobs && jobs[j].phase.Named?
          ==> jobs[j].phase.delta < nextDelta && jobs[j].phase.delta !in log)
    && (forall j, k :: j in jobs && k in jobs && j != k && jobs[j].phase.Named? && jobs[k].phase.Named?
          ==> jobs[j].phase.delta != jobs[k].phase.delta)
  }

  ghost predicate Merging(m: Merger) { m.Listed? || m.ReadDeltas? || m.ReadAll? }

  /** The log is what the snapshot accounts for plus what is on disk; the merger's inputs are
      the delta objects that a listing of the whole log returned. */
  ghost predicate LogsOk(mode: Mode, snapshot: Records, merger: Merger, deltas: Log, log: Log, merged: Log, listed: Log) {
    && Within(deltas, log) && Within(merged, log)
    && log.Keys == merged.Keys + deltas.Keys
    && (Merging(merger) ==>
          && Within(listed, log)
          && merger.paths <= deltas.Keys
          && merger.paths != {}
          && listed.Keys == merged.Keys + merger.paths)
    && (merger.ReadDeltas? || merger.ReadAll? ==>
          && merger.updates.Keys == merger.paths
          && Within(merger.updates, deltas))
    && (merger.ReadAll? ==> merger.base == snapshot)
    && (merger.Deleting? ==> merger.todo <= deltas.Keys && merger.todo <= merged.Keys)
    && (mode.Down? || mode.Loading? ==> merger.Idle?)
    && (mode.Booting? ==> !merger.Idle?)
    && (mode.Booting? && Merging(merger) ==> listed == log)
    && (mode.Loading? || (mode.Booting? && merger.Deleting?) ==> merged == log)
  }

  ghost predicate HistoryOk(merger: Merger, log: Log, merged: Log, listed: Log) {
    && AddsOnce(log)
    && Sane(log) && Sane(merged)
    && (Merging(merger) ==> Sane(listed))
  }

  /** Whatever the deletions did, the snapshot never loses a live file and is never empty. */
  ghost predicate SnapshotOk(snapshot: Option<Records>, merged: Log) {
    && (snapshot.None? ==> merged == map[])
    && (snapshot.Some? ==> merged != map[] && Live(merged) <= snapshot.value.Keys <= Adds(merged))
  }

  /** Victims were added; once its update is persisted, a task's victims are deleted, and once
      it is cached, no copy of them is cached. */
  ghost predicate VictimsOk(jobs: Jobs, cache: set<FileId>, log: Log) {
    && cache <= Adds(log)
    && (forall j, f :: j in jobs && f in Ids(jobs[j].victims) ==>
          && f in Adds(log)
          && (jobs[j].phase.Cached? ==> f !in cache)
          && (jobs[j].phase.Cached? || jobs[j].phase.Persisted? ==> f in Dels(log)))
  }

  /** Tasks own disjoint, marked copies. */
  ghost predicate CopiesOk(jobs: Jobs, marks: set<Copy>) {
    && (forall j, c :: j in jobs && c in jobs[j].victims ==> c in marks)
    && (forall j, k, c :: j in jobs && k in jobs && j != k && c in jobs[j].victims ==> c !in jobs[k].victims)
  }

  /** Outputs that are persisted but not cached are nobody's victims, and not in the picker's list. */
  ghost predicate OutputsOk(jobs: Jobs, cache: set<FileId>, view: set<FileId>) {
    forall k :: k in jobs && jobs[k].phase.Persisted? ==>
      && jobs[k].phase.out !in cache && jobs[k].phase.out !in view
      && forall j :: j in jobs ==> jobs[k].phase.out !in Ids(jobs[j].victims)
  }

  function ViewIds(view: Option<Records>): set<FileId> { if view.Some? then view.value.Keys else {} }

  ghost predicate OffOk(s: State) {
    !s.mode.Up? ==> s.jobs == map[] && s.cache == map[] && s.marks == {} && s.view == None
  }

  ghost function CountedJobs(jobs: Jobs): set<JobId> {
    set j | j in jobs && (jobs[j].phase.Counted? || jobs[j].phase.Named?)
  }

  function Uncounted(m: Merger): nat { if m.Deleting? then m.uncounted else 0 }

  /** The delta counter is exact. */
  ghost predicate CountOk(s: State) {
    s.deltasNum == if s.mode.Down? then 0 else |s.deltas| + |CountedJobs(s.jobs)| + Uncounted(s.merger)
  }

  ghost predicate InvIds(s: State) { IdsOk(s.jobs, s.log, s.nextFile, s.nextDelta) }

  ghost predicate InvLogs(s: State) {
    LogsOk(s.mode, SnapshotRecords(s), s.merger, s.deltas, s.log, s.merged, s.listed)
  }

  ghost predicate InvHistory(s: State) { HistoryOk(s.merger, s.log, s.merged, s.listed) }

  ghost predicate InvJobs(s: State) {
    && OffOk(s) && VictimsOk(s.jobs, s.cache.Keys, s.log) && CopiesOk(s.jobs, s.marks)
    && OutputsOk(s.jobs, s.cache.Keys, ViewIds(s.view)) && ViewIds(s.view) <= Adds(s.log)
  }

  ghost predicate Inv(s: State) {
    InvIds(s) && InvLogs(s) && InvHistory(s) && SnapshotOk(s.snapshot, s.merged) && InvJobs(s) && CountOk(s)
  }

  // ---------------------------------------------------------------------------------------
  // Every step keeps it
  // ---------------------------------------------------------------------------------------

  lemma InitInv(s: State)
    requires Init(s)
    ensures Inv(s)
  {
  }

  lemma NewJobKeepsIds(hard: nat, s: State, step: WorkStep)
    requires InvIds(s) && CanWork(hard, s, step)
    requires step.BeginWrite? || step.StartTask?
    ensures InvIds(Work(hard, s, step))
  {
  }

  lemma NameKeepsIds(hard: nat, s: State, step: WorkStep)
    requires InvIds(s) && CanWork(hard, s, step) && step.NameDelta?
    ensures InvIds(Work(hard, s, step))
  {
  }

  lemma PickKeepsIds(hard: nat, s: State, step: WorkStep)
    requires InvIds(s) && CanWork(hard, s, step) && step.Pick?
    ensures InvIds(Work(hard, s, step))
  {
  }

  lemma MovedIds(jobs: Jobs, log: Log, nextFile: FileId, nextDelta: DeltaId, j: JobId, p: Phase)
    requires IdsOk(jobs, log, nextFile, nextDelta)
    requires j in jobs && HasOut(jobs[j].phase) && !jobs[j].phase.Persisted?
    requires HasOut(p) && !p.Persisted? && !p.Named? && p.out == jobs[j].phase.out
    ensures IdsOk(jobs[j := jobs[j].(phase := p)], log, nextFile, nextDelta)
  {
  }

  lemma MoveKeepsIds(hard: nat, s: State, step: WorkStep)
    requires InvIds(s) && CanWork(hard, s, step)
    requires step.PutObject? || step.CheckLimit? || step.Count?
    ensures InvIds(Work(hard, s, step))
  {
    MovedIds(s.jobs, s.log, s.nextFile, s.nextDelta, step.j, Work(hard, s, step).jobs[step.j].phase);
  }

  lemma EndKeepsIds(hard: nat, s: State, step: WorkStep)
    requires InvIds(s) && CanWork(hard, s, step)
    requires step.UpdateCache? || step.Fail?
    ensures InvIds(Work(hard, s, step))
  {
    EndedIds(s.jobs, s.log, s.nextFile, s.nextDelta, step.j, Work(hard, s, step).jobs[step.j].phase);
  }

  lemma EndedIds(jobs: Jobs, log: Log, nextFile: FileId, nextDelta: DeltaId, j: JobId, p: Phase)
    requires IdsOk(jobs, log, nextFile, nextDelta) && j in jobs && !HasOut(p) && !p.Named?
    ensures IdsOk(jobs[j := jobs[j].(phase := p)], log, nextFile, nextDelta)
  {
  }

  lemma PutDeltaKeepsIds(hard: nat, s: State, step: WorkStep)
    requires InvIds(s) && CanWork(hard, s, step) && step.PutDelta?
    ensures InvIds(Work(hard, s, step))
  {
    ExtendLog(s.log, s.jobs[step.j].phase.delta, UpdateOf(s.jobs[step.j]));
  }

  lemma DropJobKeepsIds(hard: nat, s: State, step: WorkStep)
    requires InvIds(s) && CanWork(hard, s, step)
    requires step.TakeView? || step.PickDropped? || step.DeleteObject? || step.Finish? || step.Unmark?
    ensures InvIds(Work(hard, s, step))
  {
  }

  lemma LaterIds(jobs: Jobs, log: Log, nextFile: FileId, nextDelta: DeltaId, file: FileId, delta: DeltaId)
    requires IdsOk(jobs, log, nextFile, nextDelta) && nextFile <= file && nextDelta <= delta
    ensures IdsOk(jobs, log, file, delta) && IdsOk(map[], log, file, delta)
  {
  }

  lemma MergeKeepsIds(s: State, step: MergeStep)
    requires InvIds(s) && CanMerge(s, step)
    ensures InvIds(Merge(s, step))
  {
    if step.BootList? {
      LaterIds(s.jobs, s.log, s.nextFile, s.nextDelta, step.file, step.delta);
    } else {
      LaterIds(s.jobs, s.log, s.nextFile, s.nextDelta, s.nextFile, s.nextDelta);
      MergerKeepsIds(s, step);
    }
  }

  lemma MergerKeepsIds(s: State, step: MergeStep)
    requires CanMerge(s, step) && !step.BootList?
    ensures var t := Merge(s, step);
            t.log == s.log && t.nextFile == s.nextFile && t.nextDelta == s.nextDelta && (t.jobs == s.jobs || t.jobs == map[])
  {
  }

  lemma ExtendedLogs(snapshot: Records, merger: Merger, deltas: Log, log: Log, merged: Log, listed: Log, d: DeltaId, u: Update)
    requires LogsOk(Up, snapshot, merger, deltas, log, merged, listed) && d !in log
    ensures LogsOk(Up, snapshot, merger, deltas[d := u], log[d := u], merged, listed)
  {
  }

  lemma PutDeltaKeepsLogs(hard: nat, s: State, step: WorkStep)
    requires InvLogs(s) && s.mode.Up? && CanWork(hard, s, step) && step.PutDelta?
    requires s.jobs[step.j].phase.delta !in s.log
    ensures InvLogs(Work(hard, s, step))
  {
    var job := s.jobs[step.j];
    var u := UpdateOf(job);
    ExtendedLogs(SnapshotRecords(s), s.merger, s.deltas, s.log, s.merged, s.listed, job.phase.delta, u);
  }

  lemma WorkKeepsLogs(hard: nat, s: State, step: WorkStep)
    requires InvLogs(s) && CanWork(hard, s, step) && !step.PutDelta?
    ensures InvLogs(Work(hard, s, step))
  {
  }

  lemma FetchKeepsLogs(s: State, step: MergeStep)
    requires InvLogs(s) && CanMerge(s, step)
    requires step.List? || step.FetchDeltas? || step.FetchSnapshot? || step.PutSnapshot?
    ensures InvLogs(Merge(s, step))
  {
  }

  lemma DeleteKeepsLogs(s: State, step: MergeStep)
    requires InvLogs(s) && CanMerge(s, step)
    requires step.DeleteDelta? || step.KeepDelta? || step.Uncount? || step.MergeDone? || step.MergeFail?
    ensures InvLogs(Merge(s, step))
  {
  }

  lemma CrashKeepsLogs(s: State, step: MergeStep)
    requires InvLogs(s) && CanMerge(s, step) && (step.Crash? || step.BootLoad?)
    ensures InvLogs(Merge(s, step))
  {
  }

  lemma BootKeepsLogs(s: State, step: MergeStep)
    requires InvLogs(s) && CanMerge(s, step) && step.BootList?
    ensures InvLogs(Merge(s, step))
  {
    if s.deltas == map[] {
      assert s.merged.Keys == s.log.Keys;
      assert s.merged == s.log;
    }
  }

  lemma PutDeltaKeepsHistory(hard: nat, s: State, step: WorkStep)
    requires InvIds(s) && InvHistory(s) && InvJobs(s) && CanWork(hard, s, step) && step.PutDelta?
    ensures InvHistory(Work(hard, s, step))
  {
    var job := s.jobs[step.j];
    ExtendLog(s.log, job.phase.delta, UpdateOf(job));
    assert job.phase.out in Live(Work(hard, s, step).log);
  }

  lemma WorkKeepsHistory(hard: nat, s: State, step: WorkStep)
    requires InvHistory(s) && CanWork(hard, s, step) && !step.PutDelta?
    ensures InvHistory(Work(hard, s, step))
  {
  }

  lemma MergeKeepsHistory(s: State, step: MergeStep)
    requires InvHistory(s) && CanMerge(s, step)
    ensures InvHistory(Merge(s, step))
  {
  }

  lemma PutSnapshotKeepsSnapshot(s: State, step: MergeStep)
    requires InvLogs(s) && InvHistory(s) && SnapshotOk(s.snapshot, s.merged) && CanMerge(s, step)
    requires step.PutSnapshot?
    ensures var t := Merge(s, step); SnapshotOk(t.snapshot, t.merged)
  {
    var t := Merge(s, step);
    JoinLogs(s.merged, s.merger.updates, s.listed);
    assert Live(t.merged) <= SnapshotIds(t) <= Adds(t.merged);
  }

  lemma MergeKeepsSnapshot(s: State, step: MergeStep)
    requires SnapshotOk(s.snapshot, s.merged) && CanMerge(s, step) && !step.PutSnapshot?
    ensures var t := Merge(s, step); SnapshotOk(t.snapshot, t.merged)
  {
  }

  lemma TakeViewKeepsJobs(hard: nat, s: State)
    requires InvJobs(s) && CanWork(hard, s, TakeView)
    ensures InvJobs(Work(hard, s, TakeView))
  {
  }

  lemma PickedVictims(jobs: Jobs, cache: set<FileId>, log: Log, j: JobId, victims: set<Copy>)
    requires VictimsOk(jobs, cache, log) && j !in jobs && Ids(victims) <= Adds(log)
    ensures VictimsOk(jobs[j := Job(victims, Queued)], cache, log)
  {
  }

  lemma PickedCopies(jobs: Jobs, marks: set<Copy>, j: JobId, victims: set<Copy>)
    requires CopiesOk(jobs, marks) && j !in jobs && victims !! marks
    ensures CopiesOk(jobs, marks + victims) && CopiesOk(jobs[j := Job(victims, Queued)], marks + victims)
  {
  }

  lemma PickedOutputs(jobs: Jobs, cache: set<FileId>, view: set<FileId>, j: JobId, victims: set<Copy>)
    requires OutputsOk(jobs, cache, view) && j !in jobs && Ids(victims) <= view
    ensures OutputsOk(jobs, cache, {}) && OutputsOk(jobs[j := Job(victims, Queued)], cache, {})
  {
  }

  lemma PickKeepsJobs(hard: nat, s: State, step: WorkStep)
    requires InvJobs(s) && CanWork(hard, s, step) && step.Pick?
    ensures InvJobs(Work(hard, s, step))
  {
    assert Ids(step.victims) <= ViewIds(s.view);
    PickedVictims(s.jobs, s.cache.Keys, s.log, step.j, step.victims);
    PickedCopies(s.jobs, s.marks, step.j, step.victims);
    PickedOutputs(s.jobs, s.cache.Keys, ViewIds(s.view), step.j, step.victims);
  }

  lemma DroppedKeepsJobs(hard: nat, s: State, step: WorkStep)
    requires InvJobs(s) && CanWork(hard, s, step) && step.PickDropped?
    ensures InvJobs(Work(hard, s, step))
  {
  }

  lemma NewJobKeepsJobs(hard: nat, s: State, step: WorkStep)
    requires InvJobs(s) && CanWork(hard, s, step) && step.BeginWrite?
    ensures InvJobs(Work(hard, s, step))
  {
    var job := Work(hard, s, step).jobs[step.j];
    AddedVictims(s.jobs, s.cache.Keys, s.marks, s.log, step.j, job);
    AddedOutputs(s.jobs, s.cache.Keys, ViewIds(s.view), step.j, job);
  }

  lemma AddedVictims(jobs: Jobs, cache: set<FileId>, marks: set<Copy>, log: Log, j: JobId, job: Job)
    requires VictimsOk(jobs, cache, log) && CopiesOk(jobs, marks) && j !in jobs && job.victims == {}
    ensures VictimsOk(jobs[j := job], cache, log) && CopiesOk(jobs[j := job], marks)
  {
  }

  lemma AddedOutputs(jobs: Jobs, cache: set<FileId>, view: set<FileId>, j: JobId, job: Job)
    requires OutputsOk(jobs, cache, view) && j !in jobs && job.victims == {} && !job.phase.Persisted?
    ensures OutputsOk(jobs[j := job], cache, view)
  {
  }

  lemma MoveKeepsJobs(hard: nat, s: State, step: WorkStep)
    requires InvJobs(s) && CanWork(hard, s, step)
    requires step.StartTask? || step.PutObject? || step.CheckLimit? || step.Count? || step.NameDelta?
    ensures InvJobs(Work(hard, s, step))
  {
    var p := Work(hard, s, step).jobs[step.j].phase;
    MoveKeepsVictims(s.jobs, s.cache.Keys, s.marks, s.log, step.j, p);
    MoveKeepsOutputs(s.jobs, s.cache.Keys, ViewIds(s.view), step.j, p);
  }

  lemma MoveKeepsVictims(jobs: Jobs, cache: set<FileId>, marks: set<Copy>, log: Log, j: JobId, p: Phase)
    requires VictimsOk(jobs, cache, log) && CopiesOk(jobs, marks) && j in jobs
    requires !p.Cached? && !p.Persisted?
    ensures VictimsOk(jobs[j := jobs[j].(phase := p)], cache, log) && CopiesOk(jobs[j := jobs[j].(phase := p)], marks)
  {
  }

  lemma MoveKeepsOutputs(jobs: Jobs, cache: set<FileId>, view: set<FileId>, j: JobId, p: Phase)
    requires OutputsOk(jobs, cache, view) && j in jobs && !p.Persisted?
    ensures OutputsOk(jobs[j := jobs[j].(phase := p)], cache, view)
  {
  }

  lemma PersistKeepsVictims(jobs: Jobs, cache: set<FileId>, marks: set<Copy>, log: Log, j: JobId, d: DeltaId, u: Update)
    requires VictimsOk(jobs, cache, log) && CopiesOk(jobs, marks) && d !in log
    requires j in jobs && HasOut(jobs[j].phase) && u.dels == Ids(jobs[j].victims)
    ensures VictimsOk(jobs[j := jobs[j].(phase := Persisted(jobs[j].phase.out))], cache, log[d := u])
    ensures CopiesOk(jobs[j := jobs[j].(phase := Persisted(jobs[j].phase.out))], marks)
  {
    ExtendLog(log, d, u);
  }

  lemma PersistKeepsOutputs(jobs: Jobs, cache: set<FileId>, view: set<FileId>, log: Log, j: JobId)
    requires OutputsOk(jobs, cache, view) && VictimsOk(jobs, cache, log) && view <= Adds(log)
    requires j in jobs && HasOut(jobs[j].phase) && jobs[j].phase.out !in Adds(log)
    ensures OutputsOk(jobs[j := jobs[j].(phase := Persisted(jobs[j].phase.out))], cache, view)
  {
  }

  lemma PutDeltaKeepsJobs(hard: nat, s: State, step: WorkStep)
    requires InvIds(s) && InvJobs(s) && CanWork(hard, s, step) && step.PutDelta?
    ensures InvJobs(Work(hard, s, step))
  {
    var job := s.jobs[step.j];
    ExtendLog(s.log, job.phase.delta, UpdateOf(job));
    PersistKeepsVictims(s.jobs, s.cache.Keys, s.marks, s.log, step.j, job.phase.delta, UpdateOf(job));
    PersistKeepsOutputs(s.jobs, s.cache.Keys, ViewIds(s.view), s.log, step.j);
  }

  lemma UpdateCacheKeepsJobs(hard: nat, s: State, step: WorkStep)
    requires InvIds(s) && InvJobs(s) && CanWork(hard, s, step) && step.UpdateCache?
    ensures InvJobs(Work(hard, s, step))
  {
  }

  lemma FinishKeepsJobs(hard: nat, s: State, step: WorkStep)
    requires InvJobs(s) && CanWork(hard, s, step)
    requires step.DeleteObject? || step.Finish? || step.Fail? || step.Unmark?
    ensures InvJobs(Work(hard, s, step))
  {
  }

  lemma LoadKeepsJobs(s: State)
    requires InvLogs(s) && SnapshotOk(s.snapshot, s.merged) && OffOk(s) && CanMerge(s, BootLoad)
    ensures InvJobs(Merge(s, BootLoad))
  {
    WithinMonotone(s.merged, s.log);
  }

  lemma OffKeepsJobs(s: State)
    ensures InvJobs(TurnOff(s))
  {
  }

  /** The merger does not touch what tasks and picker work on. */
  lemma MergerKeepsJobs(s: State, step: MergeStep)
    requires InvJobs(s) && CanMerge(s, step) && !step.BootLoad? && !step.Crash? && !step.MergeFail?
    requires step.MergeDone? ==> s.mode.Up? || s.mode.Booting?
    ensures InvJobs(Merge(s, step))
  {
  }

  lemma MergeKeepsJobs(s: State, step: MergeStep)
    requires InvLogs(s) && SnapshotOk(s.snapshot, s.merged) && InvJobs(s) && CanMerge(s, step)
    ensures InvJobs(Merge(s, step))
  {
    if step.BootLoad? {
      LoadKeepsJobs(s);
    } else if step.Crash? || step.MergeFail? {
      OffKeepsJobs(s);
    } else {
      MergerKeepsJobs(s, step);
    }
  }

  lemma CountedAfter(jobs: Jobs, j: JobId, job: Job)
    ensures CountedJobs(jobs[j := job])
         == CountedJobs(jobs) - {j} + (if job.phase.Counted? || job.phase.Named? then {j} else {})
  {
  }

  lemma CountKeepsCount(hard: nat, s: State, step: WorkStep)
    requires CountOk(s) && s.mode.Up? && CanWork(hard, s, step) && step.Count?
    ensures CountOk(Work(hard, s, step))
  {
    CountedAfter(s.jobs, step.j, Work(hard, s, step).jobs[step.j]);
  }

  lemma FailKeepsCount(hard: nat, s: State, step: WorkStep)
    requires CountOk(s) && s.mode.Up? && CanWork(hard, s, step) && step.Fail?
    ensures CountOk(Work(hard, s, step))
  {
    CountedAfter(s.jobs, step.j, Work(hard, s, step).jobs[step.j]);
  }

  lemma PutDeltaKeepsCount(hard: nat, s: State, step: WorkStep)
    requires CountOk(s) && s.mode.Up? && CanWork(hard, s, step) && step.PutDelta?
    requires s.jobs[step.j].phase.delta !in s.deltas
    ensures CountOk(Work(hard, s, step))
  {
    var t, j := Work(hard, s, step), step.j;
    CountedAfter(s.jobs, j, t.jobs[j]);
    assert j in CountedJobs(s.jobs);
    OneMore(s.deltas, s.jobs[j].phase.delta, UpdateOf(s.jobs[j]));
  }

  lemma DropKeepsCount(hard: nat, s: State, step: WorkStep)
    requires CountOk(s) && s.mode.Up? && CanWork(hard, s, step) && (step.Finish? || step.Unmark?)
    ensures CountOk(Work(hard, s, step))
  {
    assert CountedJobs(s.jobs - {step.j}) == CountedJobs(s.jobs);
  }

  lemma StayKeepsCount(hard: nat, s: State, step: WorkStep)
    requires CountOk(s) && s.mode.Up? && CanWork(hard, s, step)
    requires step.TakeView? || step.PickDropped? || step.DeleteObject?
    ensures CountOk(Work(hard, s, step))
  {
  }

  predicate CountedPhase(p: Phase) { p.Counted? || p.Named? }

  lemma CountedSame(jobs: Jobs, j: JobId, job: Job)
    requires CountedPhase(job.phase) == (j in jobs && CountedPhase(jobs[j].phase))
    ensures CountedJobs(jobs[j := job]) == CountedJobs(jobs)
  {
  }

  lemma NewKeepsCount(hard: nat, s: State, step: WorkStep)
    requires CountOk(s) && s.mode.Up? && CanWork(hard, s, step) && (step.BeginWrite? || step.Pick?)
    ensures CountOk(Work(hard, s, step))
  {
    CountedSame(s.jobs, step.j, Work(hard, s, step).jobs[step.j]);
  }

  lemma MovedKeepsCount(s: State, t: State, j: JobId, p: Phase)
    requires CountOk(s) && s.mode.Up? && j in s.jobs && CountedPhase(p) == CountedPhase(s.jobs[j].phase)
    requires t.jobs == s.jobs[j := s.jobs[j].(phase := p)] && t.mode.Up?
    requires t.deltas == s.deltas && t.merger == s.merger && t.deltasNum == s.deltasNum
    ensures CountOk(t)
  {
    CountedSame(s.jobs, j, s.jobs[j].(phase := p));
  }

  lemma MoveKeepsCount(hard: nat, s: State, step: WorkStep)
    requires CountOk(s) && s.mode.Up? && CanWork(hard, s, step)
    requires step.StartTask? || step.PutObject? || step.CheckLimit? || step.NameDelta? || step.UpdateCache?
    ensures CountOk(Work(hard, s, step))
  {
    var t := Work(hard, s, step);
    MovedKeepsCount(s, t, step.j, t.jobs[step.j].phase);
  }

  lemma WorkKeepsCount(hard: nat, s: State, step: WorkStep)
    requires CountOk(s) && s.mode.Up? && CanWork(hard, s, step)
    requires !step.Count? && !step.PutDelta? && !step.Fail?
    ensures CountOk(Work(hard, s, step))
  {
    if step.Finish? || step.Unmark? {
      DropKeepsCount(hard, s, step);
    } else if step.TakeView? || step.PickDropped? || step.DeleteObject? {
      StayKeepsCount(hard, s, step);
    } else if step.BeginWrite? || step.Pick? {
      NewKeepsCount(hard, s, step);
    } else {
      MoveKeepsCount(hard, s, step);
    }
  }

  lemma OneLess(m: Log, d: DeltaId)
    requires d in m
    ensures |m - {d}| == |m| - 1
  {
    assert m.Keys == (m - {d}).Keys + {d};
  }

  lemma OneMore(m: Log, d: DeltaId, u: Update)
    requires d !in m
    ensures |m[d := u]| == |m| + 1
  {
    assert m[d := u].Keys == m.Keys + {d};
  }

  lemma DeleteKeepsCount(s: State, d: DeltaId)
    requires CountOk(s) && CanMerge(s, DeleteDelta(d)) && d in s.deltas && !s.mode.Down?
    ensures CountOk(Merge(s, DeleteDelta(d)))
  {
    OneLess(s.deltas, d);
  }

  /** No job runs while the manifest is loaded. */
  lemma BootKeepsCount(s: State, step: MergeStep)
    requires CountOk(s) && s.jobs == map[] && s.merger.Idle? && CanMerge(s, step) && step.BootList?
    ensures CountOk(Merge(s, step))
  {
    assert CountedJobs(s.jobs) == {};
  }

  lemma QuietKeepsCount(s: State, step: MergeStep)
    requires CountOk(s) && CanMerge(s, step) && !step.BootList? && !step.DeleteDelta?
    requires (step.BootLoad? ==> !s.mode.Down?) && (s.mode.Down? ==> s.merger.Idle?)
    ensures CountOk(Merge(s, step))
  {
  }

  lemma MergeKeepsCount(s: State, step: MergeStep)
    requires InvLogs(s) && OffOk(s) && CountOk(s) && CanMerge(s, step)
    ensures CountOk(Merge(s, step))
  {
    if step.DeleteDelta? {
      DeleteKeepsCount(s, step.d);
    } else if step.BootList? {
      BootKeepsCount(s, step);
    } else {
      QuietKeepsCount(s, step);
    }
  }

  lemma WorkKeepsIds(hard: nat, s: State, step: WorkStep)
    requires InvIds(s) && CanWork(hard, s, step)
    ensures InvIds(Work(hard, s, step))
  {
    match step
    case BeginWrite(_) => NewJobKeepsIds(hard, s, step);
    case StartTask(_) => NewJobKeepsIds(hard, s, step);
    case NameDelta(_) => NameKeepsIds(hard, s, step);
    case Pick(_, _) => PickKeepsIds(hard, s, step);
    case PutObject(_) => MoveKeepsIds(hard, s, step);
    case CheckLimit(_) => MoveKeepsIds(hard, s, step);
    case Count(_) => MoveKeepsIds(hard, s, step);
    case PutDelta(_) => PutDeltaKeepsIds(hard, s, step);
    case UpdateCache(_) => EndKeepsIds(hard, s, step);
    case Fail(_) => EndKeepsIds(hard, s, step);
    case _ => DropJobKeepsIds(hard, s, step);
  }

  lemma WorkKeepsJobs(hard: nat, s: State, step: WorkStep)
    requires InvIds(s) && InvJobs(s) && CanWork(hard, s, step)
    ensures InvJobs(Work(hard, s, step))
  {
    match step
    case BeginWrite(_) => NewJobKeepsJobs(hard, s, step);
    case StartTask(_) => MoveKeepsJobs(hard, s, step);
    case TakeView => TakeViewKeepsJobs(hard, s);
    case Pick(_, _) => PickKeepsJobs(hard, s, step);
    case PickDropped(_) => DroppedKeepsJobs(hard, s, step);
    case NameDelta(_) => MoveKeepsJobs(hard, s, step);
    case PutObject(_) => MoveKeepsJobs(hard, s, step);
    case CheckLimit(_) => MoveKeepsJobs(hard, s, step);
    case Count(_) => MoveKeepsJobs(hard, s, step);
    case PutDelta(_) => PutDeltaKeepsJobs(hard, s, step);
    case UpdateCache(_) => UpdateCacheKeepsJobs(hard, s, step);
    case _ => FinishKeepsJobs(hard, s, step);
  }

  lemma WorkNeedsUp(hard: nat, s: State, step: WorkStep)
    requires OffOk(s) && CanWork(hard, s, step)
    ensures s.mode.Up?
  {
  }

  lemma WorkKeepsInv(hard: nat, s: State, step: WorkStep)
    requires Inv(s) && CanWork(hard, s, step)
    ensures Inv(Work(hard, s, step))
  {
    WorkNeedsUp(hard, s, step);
    WorkKeepsIds(hard, s, step);
    WorkKeepsJobs(hard, s, step);
    if step.PutDelta? {
      PutDeltaKeepsLogs(hard, s, step);
      PutDeltaKeepsHistory(hard, s, step);
      PutDeltaKeepsCount(hard, s, step);
    } else {
      WorkKeepsLogs(hard, s, step);
      WorkKeepsHistory(hard, s, step);
      if step.Count? {
        CountKeepsCount(hard, s, step);
      } else if step.Fail? {
        FailKeepsCount(hard, s, step);
      } else {
        WorkKeepsCount(hard, s, step);
      }
    }
  }

  lemma MergeKeepsLogs(s: State, step: MergeStep)
    requires InvLogs(s) && CanMerge(s, step)
    ensures InvLogs(Merge(s, step))
  {
    match step
    case Crash => CrashKeepsLogs(s, step);
    case BootList(_, _) => BootKeepsLogs(s, step);
    case BootLoad => CrashKeepsLogs(s, step);
    case List => FetchKeepsLogs(s, step);
    case FetchDeltas => FetchKeepsLogs(s, step);
    case FetchSnapshot => FetchKeepsLogs(s, step);
    case PutSnapshot => FetchKeepsLogs(s, step);
    case _ => DeleteKeepsLogs(s, step);
  }

  lemma MergeKeepsInv(s: State, step: MergeStep)
    requires Inv(s) && CanMerge(s, step)
    ensures Inv(Merge(s, step))
  {
    MergeKeepsIds(s, step);
    MergeKeepsLogs(s, step);
    MergeKeepsJobs(s, step);
    MergeKeepsCount(s, step);
    MergeKeepsHistory(s, step);
    if step.PutSnapshot? {
      PutSnapshotKeepsSnapshot(s, step);
    } else {
      MergeKeepsSnapshot(s, step);
    }
  }

  lemma NextKeepsInv(hard: nat, s: State, t: State)
    requires Inv(s) && Next(hard, s, t)
    ensures Inv(t)
  {
    if step :| CanWork(hard, s, step) && t == Work(hard, s, step) {
      WorkKeepsInv(hard, s, step);
    } else {
      var step :| CanMerge(s, step) && t == Merge(s, step);
      MergeKeepsInv(s, step);
    }
  }
}
