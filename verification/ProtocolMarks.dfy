/** Which copies of files are marked, over whole runs. */
module ProtocolMarks {
  import opened Types
  import opened Protocol
  import opened ProtocolInvariant
  import opened ProtocolTheorems

  // ---------------------------------------------------------------------------------------
  // Runs with their steps
  // ---------------------------------------------------------------------------------------

  datatype Step = Worked(work: WorkStep) | Merged(merge: MergeStep)

  ghost predicate Takes(hard: nat, s: State, step: Step, t: State) {
    match step
    case Worked(work) => CanWork(hard, s, work) && t == Work(hard, s, work)
    case Merged(merge) => CanMerge(s, merge) && t == Merge(s, merge)
  }

  /** `steps[i]` leads from `run[i]` to the next state. */
  ghost predicate TracesUpTo(hard: nat, run: seq<State>, steps: seq<Step>) {
    |steps| < |run| && forall i, j :: 0 <= i < |steps| && j == i + 1 ==> Takes(hard, run[i], steps[i], run[j])
  }

  ghost predicate Traces(hard: nat, run: seq<State>, steps: seq<Step>) {
    |run| == |steps| + 1 && TracesUpTo(hard, run, steps)
  }

  lemma StepOf(hard: nat, s: State, t: State) returns (step: Step)
    requires Next(hard, s, t)
    ensures Takes(hard, s, step, t)
  {
    if work :| CanWork(hard, s, work) && t == Work(hard, s, work) {
      step := Worked(work);
    } else {
      var merge :| CanMerge(s, merge) && t == Merge(s, merge);
      step := Merged(merge);
    }
  }

  lemma {:induction false} StepsUpTo(hard: nat, run: seq<State>, n: nat) returns (steps: seq<Step>)
    requires Run(hard, run) && n < |run|
    ensures |steps| == n && TracesUpTo(hard, run, steps)
  {
    steps := [];
    if n > 0 {
      steps := StepsUpTo(hard, run, n - 1);
      var step := StepOf(hard, run[n - 1], run[n]);
      steps := steps + [step];
    }
  }

  /** Every run has steps. */
  lemma RunHasSteps(hard: nat, run: seq<State>) returns (steps: seq<Step>)
    requires Run(hard, run)
    ensures Traces(hard, run, steps)
  {
    steps := StepsUpTo(hard, run, |run| - 1);
  }

  // ---------------------------------------------------------------------------------------
  // Marks
  // ---------------------------------------------------------------------------------------

  /** An outstanding task has the copy. */
  ghost predicate Held(s: State, c: Copy) { exists j :: j in s.jobs && c in s.jobs[j].victims }

  /** The step takes the copy out of circulation: its task is dropped, or finishes. */
  ghost predicate Retires(s: State, step: Step, c: Copy) {
    || (step.Worked? && step.work.PickDropped? && c in step.work.victims)
    || (step.Worked? && step.work.Finish? && step.work.j in s.jobs && c in s.jobs[step.work.j].victims)
  }

  /** The copy's task was dropped or has finished, and the process has served ever since. */
  ghost predicate Retired(run: seq<State>, steps: seq<Step>, k: nat, c: Copy)
    requires k < |run| == |steps| + 1
  {
    exists i :: 0 <= i < k && Retires(run[i], steps[i], c) && forall l :: i < l <= k ==> run[l].mode.Up?
  }

  lemma RetiredNow(run: seq<State>, steps: seq<Step>, k: nat, c: Copy)
    requires k + 1 < |run| == |steps| + 1
    requires Retires(run[k], steps[k], c) ==> run[k + 1].mode.Up?
    ensures Retired(run, steps, k + 1, c) <==>
            Retires(run[k], steps[k], c) || (Retired(run, steps, k, c) && run[k + 1].mode.Up?)
  {
    if Retired(run, steps, k + 1, c) {
      var i :| 0 <= i < k + 1 && Retires(run[i], steps[i], c) && forall l :: i < l <= k + 1 ==> run[l].mode.Up?;
      if i < k {
        assert Retired(run, steps, k, c);
      }
    }
    if Retired(run, steps, k, c) && run[k + 1].mode.Up? {
      var i :| 0 <= i < k && Retires(run[i], steps[i], c) && forall l :: i < l <= k ==> run[l].mode.Up?;
      assert forall l :: i < l <= k + 1 ==> run[l].mode.Up?;
    }
    if Retires(run[k], steps[k], c) {
      assert forall l :: k < l <= k + 1 ==> run[l].mode.Up?;
    }
  }

  /** A marked copy is held by a task or retired, and not both. */
  ghost predicate MarkOk(s: State, c: Copy, retired: bool) {
    (c in s.marks <==> Held(s, c) || retired) && !(Held(s, c) && retired)
  }

  lemma WorkMarks(hard: nat, s: State, work: WorkStep, c: Copy, retired: bool)
    requires CanWork(hard, s, work) && InvJobs(s) && MarkOk(s, c, retired)
    ensures var t := Work(hard, s, work);
            t.mode.Up? && MarkOk(t, c, retired || Retires(s, Worked(work), c))
  {
    WorkNeedsUp(hard, s, work);
    var t := Work(hard, s, work);
    match work
    case Finish(j) => LetsGo(s, t, j, c);
    case Unmark(j) => LetsGo(s, t, j, c);
    case Pick(j, victims) => TakesOn(s, t, j, Job(victims, Queued), c);
    case BeginWrite(j) => TakesOn(s, t, j, t.jobs[j], c);
    case _ => SameHolders(s, t, c);
  }

  lemma TakesOn(s: State, t: State, j: JobId, job: Job, c: Copy)
    requires j !in s.jobs && t.jobs == s.jobs[j := job]
    ensures Held(t, c) <==> Held(s, c) || c in job.victims
  {
    if Held(s, c) {
      var k :| k in s.jobs && c in s.jobs[k].victims;
      assert t.jobs[k] == s.jobs[k];
    }
    assert t.jobs[j] == job;
  }

  lemma LetsGo(s: State, t: State, j: JobId, c: Copy)
    requires CopiesOk(s.jobs, s.marks) && j in s.jobs && t.jobs == s.jobs - {j}
    ensures Held(t, c) <==> Held(s, c) && c !in s.jobs[j].victims
  {
    if Held(s, c) && c !in s.jobs[j].victims {
      var k :| k in s.jobs && c in s.jobs[k].victims;
      assert k in t.jobs && t.jobs[k] == s.jobs[k];
    }
  }

  lemma SameHolders(s: State, t: State, c: Copy)
    requires s.jobs.Keys == t.jobs.Keys && forall j :: j in s.jobs ==> t.jobs[j].victims == s.jobs[j].victims
    ensures Held(t, c) <==> Held(s, c)
  {
  }

  lemma MergeMarks(s: State, merge: MergeStep, c: Copy, retired: bool)
    requires CanMerge(s, merge) && OffOk(s) && MarkOk(s, c, retired) && (retired ==> s.mode.Up?)
    ensures var t := Merge(s, merge); MarkOk(t, c, retired && t.mode.Up?)
  {
    var t := Merge(s, merge);
    if t.mode.Down? {
      assert s.mode.Down? || (t.jobs == map[] && t.marks == {});
    } else {
      assert t.jobs == s.jobs && t.marks == s.marks && (s.mode.Up? ==> t.mode.Up?);
    }
  }

  lemma StepMarks(hard: nat, s: State, step: Step, t: State, c: Copy, retired: bool)
    requires Takes(hard, s, step, t) && InvJobs(s) && MarkOk(s, c, retired) && (retired ==> s.mode.Up?)
    ensures MarkOk(t, c, Retires(s, step, c) || (retired && t.mode.Up?))
    ensures Retires(s, step, c) ==> t.mode.Up?
  {
    match step
    case Worked(work) => WorkMarks(hard, s, work, c, retired);
    case Merged(merge) => MergeMarks(s, merge, c, retired);
  }

  lemma {:induction false} MarkOkAt(hard: nat, run: seq<State>, steps: seq<Step>, k: nat, c: Copy)
    requires Run(hard, run) && Traces(hard, run, steps) && k < |run|
    requires forall i :: 0 <= i < |run| ==> InvJobs(run[i])
    ensures MarkOk(run[k], c, Retired(run, steps, k, c))
  {
    if k > 0 {
      MarkOkAt(hard, run, steps, k - 1, c);
      StepMarks(hard, run[k - 1], steps[k - 1], run[k], c, Retired(run, steps, k - 1, c));
      RetiredNow(run, steps, k - 1, c);
    }
  }

  lemma RunJobs(hard: nat, run: seq<State>)
    requires Run(hard, run)
    ensures forall i :: 0 <= i < |run| ==> InvJobs(run[i])
  {
    RunInv(hard, run);
  }

  /** In every state of every run the marked copies are exactly those of the outstanding tasks, of
      the tasks that were dropped and of those that have finished since the process began to serve;
      the copies of a task that failed are free. */
  lemma MarkedExactly(hard: nat, run: seq<State>, steps: seq<Step>, k: nat, c: Copy)
    requires Run(hard, run) && Traces(hard, run, steps) && k < |run|
    ensures c in run[k].marks <==> Held(run[k], c) || Retired(run, steps, k, c)
    ensures !(Held(run[k], c) && Retired(run, steps, k, c))
  {
    RunJobs(hard, run);
    MarkOkAt(hard, run, steps, k, c);
  }
}
