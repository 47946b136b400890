/** What every step keeps of the live set: in the cache, in the snapshot and among the data objects. */
module ProtocolExact {
  import opened Types
  import opened Updates
  import opened Protocol
  import opened ProtocolInvariant

  /** The cache plus the updates in flight is the live set of the log. */
  ghost predicate CacheExact(s: State) {
    s.mode.Up? ==> (s.cache.Keys + InFlightAdds(s.jobs)) - InFlightDels(s.jobs) == Live(s.log)
  }

  ghost predicate SnapshotExact(s: State) { SnapshotIds(s) == Live(s.merged) }

  predicate HasObject(p: Phase) { HasOut(p) && !p.Allocated? }

  /** Every live file, and every output written, has its data object. */
  ghost predicate LiveKept(s: State) {
    && Live(s.log) <= s.objects
    && forall j :: j in s.jobs && HasObject(s.jobs[j].phase) ==> s.jobs[j].phase.out in s.objects
  }

  ghost predicate CacheKept(s: State) { s.cache.Keys <= s.objects }

  /** Replaying `us` onto the live set of `m` gives the live set of both exactly when closed. */
  lemma ReplayExact(m: Log, us: Log, n: Log)
    requires Within(m, n) && Within(us, n) && n.Keys == m.Keys + us.Keys
    ensures ReplayLog(Live(m), us) == Live(n) <==> Closed(us, m)
    ensures Live(n) <= ReplayLog(Live(m), us)
  {
    JoinLogs(m, us, n);
    var a, b, c, d := Adds(m), Dels(m), Adds(us), Dels(us);
    ReplayAlgebra(a, b, c, d);
  }

  lemma ReplayAlgebra(a: set<FileId>, b: set<FileId>, c: set<FileId>, d: set<FileId>)
    ensures (((({} + a) - b) + c) - d == ({} + (a + c)) - (b + d)) <==> c * b <= d
    ensures ({} + (a + c)) - (b + d) <= (((({} + a) - b) + c) - d)
  {
    if (({} + a) - b + c) - d == ({} + (a + c)) - (b + d) {
      forall f | f in c * b ensures f in d {
        assert f in (({} + a) - b + c) - d <==> f !in d;
      }
    }
  }

  /** The snapshot that a put writes is exact if and only if the merged delta objects are closed. */
  lemma PutSnapshotExact(s: State)
    requires InvLogs(s) && s.merger.ReadAll? && SnapshotExact(s)
    ensures SnapshotExact(Merge(s, PutSnapshot)) <==> Closed(s.merger.updates, s.merged)
  {
    ReplayExact(s.merged, s.merger.updates, s.listed);
  }

  lemma MergeKeepsSnapshotExact(s: State, step: MergeStep)
    requires InvLogs(s) && SnapshotExact(s) && CanMerge(s, step)
    requires step.PutSnapshot? ==> Closed(s.merger.updates, s.merged)
    ensures SnapshotExact(Merge(s, step))
  {
    if step.PutSnapshot? {
      PutSnapshotExact(s);
    } else {
      OthersKeepSnapshot(s, step);
    }
  }

  lemma OthersKeepSnapshot(s: State, step: MergeStep)
    requires CanMerge(s, step) && !step.PutSnapshot?
    ensures Merge(s, step).snapshot == s.snapshot && Merge(s, step).merged == s.merged
  {
  }

  lemma WorkKeepsSnapshotExact(hard: nat, s: State, step: WorkStep)
    requires SnapshotExact(s) && CanWork(hard, s, step)
    ensures SnapshotExact(Work(hard, s, step))
  {
  }

  lemma NextKeepsSnapshotExact(hard: nat, s: State, t: State)
    requires InvLogs(s) && SnapshotExact(s) && Next(hard, s, t)
    requires PutsSnapshot(s, t) ==> Closed(s.merger.updates, s.merged)
    ensures SnapshotExact(t)
  {
    if step :| CanWork(hard, s, step) && t == Work(hard, s, step) {
      WorkKeepsSnapshotExact(hard, s, step);
    } else {
      var step :| CanMerge(s, step) && t == Merge(s, step);
      MergeKeepsSnapshotExact(s, step);
    }
  }

  // ---------------------------------------------------------------------------------------
  // Updates in flight
  // ---------------------------------------------------------------------------------------

  lemma InFlightGains(jobs: Jobs, j: JobId, job: Job)
    requires job.phase.Persisted? && (j in jobs ==> !jobs[j].phase.Persisted?)
    ensures InFlightAdds(jobs[j := job]) == InFlightAdds(jobs) + {job.phase.out}
    ensures InFlightDels(jobs[j := job]) == InFlightDels(jobs) + Ids(job.victims)
  {
    var next := jobs[j := job];
    forall k | k in jobs && jobs[k].phase.Persisted? ensures k in next && next[k] == jobs[k] {}
    assert next[j] == job;
  }

  lemma InFlightSame(jobs: Jobs, j: JobId, job: Job)
    requires !job.phase.Persisted? && (j in jobs ==> !jobs[j].phase.Persisted?)
    ensures InFlightAdds(jobs[j := job]) == InFlightAdds(jobs)
    ensures InFlightDels(jobs[j := job]) == InFlightDels(jobs)
  {
    var next := jobs[j := job];
    forall k | k in jobs && jobs[k].phase.Persisted? ensures k in next && next[k] == jobs[k] {}
  }

  lemma InFlightLoses(jobs: Jobs, j: JobId)
    requires j in jobs
    ensures InFlightAdds(jobs - {j}) + (if jobs[j].phase.Persisted? then {jobs[j].phase.out} else {}) == InFlightAdds(jobs)
    ensures InFlightDels(jobs - {j}) + (if jobs[j].phase.Persisted? then Ids(jobs[j].victims) else {}) == InFlightDels(jobs)
  {
    var next := jobs - {j};
    forall k | k in next ensures k in jobs && next[k] == jobs[k] {}
    forall k | k in jobs && k != j ensures k in next && next[k] == jobs[k] {}
  }

  // ---------------------------------------------------------------------------------------
  // Writers, tasks and the picker
  // ---------------------------------------------------------------------------------------

  lemma ExtendLive(a: set<FileId>, b: set<FileId>, c: set<FileId>, d: set<FileId>, out: FileId, victims: set<FileId>)
    requires a - b == c - d && out !in b && out !in d
    ensures (a + {out}) - (b + victims) == (c + {out}) - (d + victims)
  {
    forall f ensures f in (a + {out}) - (b + victims) <==> f in (c + {out}) - (d + victims) {
      assert f in a - b <==> f in c - d;
    }
  }

  lemma PutDeltaKeepsCacheExact(hard: nat, s: State, j: JobId)
    requires InvIds(s) && InvJobs(s) && Sane(s.log) && CacheExact(s) && CanWork(hard, s, PutDelta(j))
    ensures CacheExact(Work(hard, s, PutDelta(j)))
  {
    var job := s.jobs[j];
    ExtendLog(s.log, job.phase.delta, UpdateOf(job));
    InFlightGains(s.jobs, j, job.(phase := Persisted(job.phase.out)));
    assert job.phase.out !in Dels(s.log) + Ids(job.victims);
    assert InFlightDels(s.jobs) <= Dels(s.log);
    var adds := s.cache.Keys + InFlightAdds(s.jobs);
    ExtendLive(adds, InFlightDels(s.jobs), Adds(s.log), Dels(s.log), job.phase.out, Ids(job.victims));
    assert s.cache.Keys + (InFlightAdds(s.jobs) + {job.phase.out}) == adds + {job.phase.out};
  }

  /** What is in flight once a job's update has landed. */
  lemma InFlightLands(jobs: Jobs, j: JobId)
    requires j in jobs && jobs[j].phase.Persisted?
    ensures var landed := jobs[j := jobs[j].(phase := Cached)];
            && InFlightAdds(landed) + {jobs[j].phase.out} == InFlightAdds(jobs)
            && InFlightDels(landed) + Ids(jobs[j].victims) == InFlightDels(jobs)
  {
    var rest := jobs - {j};
    InFlightLoses(jobs, j);
    InFlightSame(rest, j, jobs[j].(phase := Cached));
    assert rest[j := jobs[j].(phase := Cached)] == jobs[j := jobs[j].(phase := Cached)];
  }

  lemma UpdateCacheKeepsCacheExact(hard: nat, s: State, j: JobId)
    requires InvJobs(s) && CacheExact(s) && CanWork(hard, s, UpdateCache(j))
    ensures CacheExact(Work(hard, s, UpdateCache(j)))
  {
    var job, t := s.jobs[j], Work(hard, s, UpdateCache(j));
    InFlightLands(s.jobs, j);
    assert InFlightAdds(t.jobs) !! Ids(job.victims);
    assert t.cache.Keys == (s.cache.Keys + {job.phase.out}) - Ids(job.victims);
    LandedLive(s.cache.Keys, InFlightAdds(t.jobs), InFlightDels(t.jobs), job.phase.out, Ids(job.victims));
  }

  lemma LandedLive(cache: set<FileId>, adds: set<FileId>, dels: set<FileId>, out: FileId, victims: set<FileId>)
    requires adds !! victims
    ensures (((cache + {out}) - victims) + adds) - dels == (cache + (adds + {out})) - (dels + victims)
  {
  }

  lemma WorkKeepsCacheExact(hard: nat, s: State, step: WorkStep)
    requires CacheExact(s) && CanWork(hard, s, step) && !step.PutDelta? && !step.UpdateCache?
    ensures CacheExact(Work(hard, s, step))
  {
    if step.Finish? || step.Unmark? {
      InFlightLoses(s.jobs, step.j);
    } else if !step.TakeView? && !step.PickDropped? && !step.DeleteObject? {
      InFlightSame(s.jobs, step.j, Work(hard, s, step).jobs[step.j]);
    }
  }

  lemma MergeKeepsCacheExact(s: State, step: MergeStep)
    requires CacheExact(s) && OffOk(s) && CanMerge(s, step)
    requires Loads(s, Merge(s, step)) ==> Merge(s, step).cache.Keys == Live(Merge(s, step).log)
    ensures CacheExact(Merge(s, step))
  {
    if step.BootLoad? {
      assert InFlightAdds(s.jobs) == {} && InFlightDels(s.jobs) == {};
    } else {
      MergeServes(s, step);
    }
  }

  /** The merger does not touch what serving works on. */
  lemma MergeServes(s: State, step: MergeStep)
    requires CanMerge(s, step) && !step.BootLoad?
    ensures var t := Merge(s, step);
            t.mode.Up? ==> s.mode.Up? && t.cache == s.cache && t.jobs == s.jobs && t.log == s.log
  {
  }

  lemma WorkKeepsCache(hard: nat, s: State, step: WorkStep)
    requires InvIds(s) && InvJobs(s) && Sane(s.log) && CacheExact(s) && CanWork(hard, s, step)
    ensures CacheExact(Work(hard, s, step))
  {
    match step
    case PutDelta(j) => PutDeltaKeepsCacheExact(hard, s, j);
    case UpdateCache(j) => UpdateCacheKeepsCacheExact(hard, s, j);
    case _ => WorkKeepsCacheExact(hard, s, step);
  }

  /** The cache stays exact if it is loaded exactly. */
  lemma NextKeepsCacheExact(hard: nat, s: State, t: State)
    requires Inv(s) && CacheExact(s) && Next(hard, s, t)
    requires Loads(s, t) ==> t.cache.Keys == Live(t.log)
    ensures CacheExact(t)
  {
    if step :| CanWork(hard, s, step) && t == Work(hard, s, step) {
      WorkKeepsCache(hard, s, step);
    } else {
      var step :| CanMerge(s, step) && t == Merge(s, step);
      MergeKeepsCacheExact(s, step);
    }
  }

  // ---------------------------------------------------------------------------------------
  // Data objects
  // ---------------------------------------------------------------------------------------

  lemma PutDeltaKeepsLive(hard: nat, s: State, j: JobId)
    requires InvIds(s) && LiveKept(s) && CanWork(hard, s, PutDelta(j))
    ensures LiveKept(Work(hard, s, PutDelta(j)))
  {
    var job := s.jobs[j];
    ExtendLog(s.log, job.phase.delta, UpdateOf(job));
  }

  lemma DeleteKeepsLive(hard: nat, s: State, j: JobId, f: FileId)
    requires InvIds(s) && InvJobs(s) && LiveKept(s) && CanWork(hard, s, DeleteObject(j, f))
    ensures LiveKept(Work(hard, s, DeleteObject(j, f)))
  {
    assert f in Dels(s.log);
  }

  lemma OtherKeepsLive(hard: nat, s: State, step: WorkStep)
    requires LiveKept(s) && CanWork(hard, s, step) && !step.PutDelta? && !step.DeleteObject?
    ensures LiveKept(Work(hard, s, step))
  {
  }

  lemma WorkKeepsLive(hard: nat, s: State, step: WorkStep)
    requires InvIds(s) && InvJobs(s) && LiveKept(s) && CanWork(hard, s, step)
    ensures LiveKept(Work(hard, s, step))
  {
    match step
    case PutDelta(j) => PutDeltaKeepsLive(hard, s, j);
    case DeleteObject(j, f) => DeleteKeepsLive(hard, s, j, f);
    case _ => OtherKeepsLive(hard, s, step);
  }

  lemma MergeKeepsLive(s: State, step: MergeStep)
    requires LiveKept(s) && CanMerge(s, step)
    ensures LiveKept(Merge(s, step))
  {
    MergeStays(s, step);
    if !step.BootList? {
      MergerKeepsIds(s, step);
    }
  }

  lemma MergeStays(s: State, step: MergeStep)
    requires CanMerge(s, step)
    ensures Merge(s, step).objects == s.objects
  {
  }

  /** No step takes the data object of a live file, whatever is merged, loaded or cut off. */
  lemma NextKeepsLive(hard: nat, s: State, t: State)
    requires Inv(s) && LiveKept(s) && Next(hard, s, t)
    ensures LiveKept(t)
  {
    if step :| CanWork(hard, s, step) && t == Work(hard, s, step) {
      WorkKeepsLive(hard, s, step);
    } else {
      var step :| CanMerge(s, step) && t == Merge(s, step);
      MergeKeepsLive(s, step);
    }
  }

  lemma WorkKeepsCacheKept(hard: nat, s: State, step: WorkStep)
    requires InvJobs(s) && LiveKept(s) && CacheKept(s) && CanWork(hard, s, step)
    ensures CacheKept(Work(hard, s, step))
  {
  }

  lemma MergeKeepsCacheKept(s: State, step: MergeStep)
    requires CacheKept(s) && OffOk(s) && CanMerge(s, step)
    requires Loads(s, Merge(s, step)) ==> CacheKept(Merge(s, step))
    ensures CacheKept(Merge(s, step))
  {
  }

  /** No step takes the data object of a cached file, unless it is loaded without one. */
  lemma NextKeepsCacheKept(hard: nat, s: State, t: State)
    requires Inv(s) && LiveKept(s) && CacheKept(s) && Next(hard, s, t)
    requires Loads(s, t) ==> CacheKept(t)
    ensures CacheKept(t)
  {
    if step :| CanWork(hard, s, step) && t == Work(hard, s, step) {
      WorkKeepsCacheKept(hard, s, step);
    } else {
      var step :| CanMerge(s, step) && t == Merge(s, step);
      MergeKeepsCacheKept(s, step);
    }
  }
}
