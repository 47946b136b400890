/** The memory that running compactions reserve. */
module Executor {
  import opened Types
  import opened Sst
  import opened Picker

  const WORD: int := 0x1_0000_0000_0000_0000

  function Wrap(x: int): u64 { x % WORD }

  function InputSize(task: Task): u64 { Wrap(Total(Infos(task.inputs))) }

  /** Whether a task passes the check; the sum wraps. */
  predicate Passes(inused: u64, size: u64, limit: u64) { Wrap(inused + size) <= limit }

  /** Only the inputs count: each by its size, added with wrapping, whatever has expired. */
  lemma InputSizeAdds(inputs: seq<SstFile>, f: SstFile, expireds: seq<SstFile>, others: seq<SstFile>)
    ensures InputSize(Task([], expireds)) == 0
    ensures InputSize(Task(inputs + [f], expireds)) == Wrap(InputSize(Task(inputs, others)) + f.meta.size)
  {
    assert Infos(inputs + [f]) == Infos(inputs) + [Info(f)];
    assert (Infos(inputs) + [Info(f)])[..|inputs|] == Infos(inputs);
    WrapSum(Total(Infos(inputs)), f.meta.size);
  }

  /** As long as the sum does not wrap, a task passes exactly when it fits beside what is in use. */
  lemma PassesExactly(inused: u64, size: u64, limit: u64)
    requires inused + size < WORD
    ensures Passes(inused, size, limit) <==> inused + size <= limit
  {
  }

  /** An idle executor admits every task that the picker makes, if it allows tasks of the picker's
      size limit, however many files have expired. */
  lemma PickedPasses(strategy: Strategy, files: seq<SstFile>, task: Task, limit: u64)
    requires strategy.BestOfNewest(files, task.inputs) && strategy.memoryLimit <= limit
    ensures InputSize(task) == Total(Infos(task.inputs)) <= strategy.memoryLimit
    ensures Passes(0, InputSize(task), limit)
    ensures strategy.minNum > 0 ==> task.inputs != []
  {
    strategy.PickedFits(files, task.inputs);
    assert |Infos(task.inputs)| == |task.inputs|;
  }

  class Executor {
    const memLimit: u64
    var inusedMemory: u64

    constructor (memLimit: u64)
      ensures this.memLimit == memLimit && inusedMemory == 0
    {
      this.memLimit := memLimit;
      this.inusedMemory := 0;
    }

    /** The check and the reservation, when no other task comes between them: the steps `Check` and
        `Reserve` below. */
    method PreCheck(task: Task) returns (admitted: bool)
      requires task.inputs != []
      requires forall f | f in task.inputs :: f.inCompaction
      requires forall f | f in task.expireds :: f.inCompaction
      modifies this
      ensures admitted == Passes(old(inusedMemory), InputSize(task), memLimit)
      ensures inusedMemory == if admitted then Wrap(old(inusedMemory) + InputSize(task)) else old(inusedMemory)
      ensures var t := After(memLimit, Alone(old(inusedMemory), task, Submitted), Check(0));
              && (admitted <==> t.jobs[0].phase.Passed?) && (!admitted <==> t.jobs[0].phase.Refused?)
              && inusedMemory == if admitted then After(memLimit, t, Reserve(0)).inused else t.inused
    {
      var size := InputSize(task);
      admitted := Wrap(inusedMemory + size) <= memLimit;
      if admitted {
        inusedMemory := Wrap(inusedMemory + size);
      }
    }

    /** The step `Finish`. */
    method OnSuccess(task: Task)
      modifies this
      ensures inusedMemory == Wrap(old(inusedMemory) - InputSize(task))
      ensures inusedMemory == After(memLimit, Alone(old(inusedMemory), task, Running), Finish(0)).inused
    {
      inusedMemory := Wrap(inusedMemory - InputSize(task));
    }

    /** Releases the reservation, even of a task that the check refused, and unmarks the files: the
        step `Finish` of a running task, the step `Report` of a refused one. */
    method OnFailure(task: Task)
      modifies this, task.inputs + task.expireds
      ensures inusedMemory == Wrap(old(inusedMemory) - InputSize(task))
      ensures inusedMemory == After(memLimit, Alone(old(inusedMemory), task, Running), Finish(0)).inused
      ensures inusedMemory == After(memLimit, Alone(old(inusedMemory), task, Refused), Report(0)).inused
      ensures forall f | f in task.inputs + task.expireds :: !f.inCompaction
    {
      inusedMemory := Wrap(inusedMemory - InputSize(task));
      UnmarkAll(task.inputs + task.expireds);
    }
  }

  /** Picks a candidate and checks it, as the scheduler and the executor do one after the other. */
  method PickAndCheck(strategy: Strategy, ssts: seq<SstFile>, expireTime: Option<int>, executor: Executor)
    returns (task: Option<Task>, admitted: bool)
    requires strategy.minNum > 0 && strategy.memoryLimit <= executor.memLimit
    modifies ssts, executor
    ensures task.None? ==> executor.inusedMemory == old(executor.inusedMemory)
    ensures task.Some? && old(executor.inusedMemory) == 0 ==> admitted && executor.inusedMemory == Total(Infos(task.value.inputs))
  {
    admitted := false;
    task := PickSized(strategy, ssts, expireTime, executor.memLimit);
    if task.Some? {
      admitted := executor.PreCheck(task.value);
    }
  }

  /** What the executor needs to know of a pick. */
  method PickSized(strategy: Strategy, ssts: seq<SstFile>, expireTime: Option<int>, ghost limit: u64) returns (task: Option<Task>)
    requires strategy.minNum > 0 && strategy.memoryLimit <= limit
    modifies ssts
    ensures task.Some? ==> task.value.inputs != [] && InputSize(task.value) == Total(Infos(task.value.inputs)) <= limit
    ensures task.Some? ==> forall f | f in task.value.inputs :: f.inCompaction
    ensures task.Some? ==> forall f | f in task.value.expireds :: f.inCompaction
  {
    task := strategy.PickCandidate(ssts, expireTime);
    if task.Some? {
      PickedPasses(strategy, old(Unmarked(ssts, expireTime, false)), task.value, limit);
    }
  }

  method UnmarkAll(files: seq<SstFile>)
    modifies files
    ensures forall f | f in files :: !f.inCompaction
  {
    for i := 0 to |files|
      invariant forall f | f in files[..i] :: !f.inCompaction
    {
      assert files[i] in files;
      files[i].UnmarkCompaction();
      assert files[..i + 1] == files[..i] + [files[i]];
    }
    assert files[..|files|] == files;
  }

  // ---------------------------------------------------------------------------------------
  // Tasks that run at the same time
  // ---------------------------------------------------------------------------------------

  /** A task has been submitted; has passed the check but not reserved yet; has reserved; has
      been refused but not reported yet; was refused and reported; is done. */
  datatype Phase = Submitted | Passed | Running | Refused | Reported | Done

  datatype Job = Job(size: u64, phase: Phase)

  datatype State = State(inused: u64, jobs: seq<Job>)

  datatype Step = Submit(size: u64) | Check(i: nat) | Reserve(i: nat) | Finish(i: nat) | Report(i: nat)

  /** A state that looks at one task only. */
  function Alone(inused: u64, task: Task, phase: Phase): State { State(inused, [Job(InputSize(task), phase)]) }

  predicate Can(s: State, step: Step) {
    match step
    case Submit(_) => true
    case Check(i) => i < |s.jobs| && s.jobs[i].phase.Submitted?
    case Reserve(i) => i < |s.jobs| && s.jobs[i].phase.Passed?
    case Finish(i) => i < |s.jobs| && s.jobs[i].phase.Running?
    case Report(i) => i < |s.jobs| && s.jobs[i].phase.Refused?
  }

  function Move(jobs: seq<Job>, i: nat, phase: Phase): seq<Job>
    requires i < |jobs|
  {
    jobs[i := jobs[i].(phase := phase)]
  }

  function After(limit: u64, s: State, step: Step): State
    requires Can(s, step)
  {
    match step
    case Submit(size) => s.(jobs := s.jobs + [Job(size, Submitted)])
    case Check(i) => s.(jobs := Move(s.jobs, i, if Passes(s.inused, s.jobs[i].size, limit) then Passed else Refused))
    case Reserve(i) => State(Wrap(s.inused + s.jobs[i].size), Move(s.jobs, i, Running))
    case Finish(i) => State(Wrap(s.inused - s.jobs[i].size), Move(s.jobs, i, Done))
    case Report(i) => State(Wrap(s.inused - s.jobs[i].size), Move(s.jobs, i, Reported))
  }

  ghost predicate Run(limit: u64, steps: seq<Step>, run: seq<State>) {
    && |run| == |steps| + 1 && run[0] == State(0, [])
    && forall i :: 0 <= i < |steps| ==> Can(run[i], steps[i]) && run[i + 1] == After(limit, run[i], steps[i])
  }

  /** The summed sizes of the tasks in a phase. */
  function Sum(jobs: seq<Job>, phase: Phase): nat
    decreases |jobs|
  {
    if jobs == [] then 0
    else
      var last := jobs[|jobs| - 1];
      Sum(jobs[..|jobs| - 1], phase) + if last.phase == phase then last.size else 0
  }

  lemma {:induction false} SumMove(jobs: seq<Job>, i: nat, to: Phase, phase: Phase)
    requires i < |jobs|
    ensures Sum(Move(jobs, i, to), phase) == Sum(jobs, phase)
              - (if jobs[i].phase == phase then jobs[i].size else 0) + (if to == phase then jobs[i].size else 0)
    decreases |jobs|
  {
    var n := |jobs| - 1;
    var moved := Move(jobs, i, to);
    if i < n {
      SumMove(jobs[..n], i, to, phase);
      assert moved[..n] == Move(jobs[..n], i, to);
    } else {
      assert moved[..n] == jobs[..n];
    }
  }

  lemma WrapSum(a: int, b: int)
    ensures Wrap(Wrap(a) + b) == Wrap(a + b)
  {
    assert a == WORD * (a / WORD) + a % WORD;
    WrapMultiple(a % WORD + b, a / WORD);
    assert a % WORD + b + WORD * (a / WORD) == a + b;
  }

  lemma WrapMultiple(x: int, q: int)
    ensures Wrap(x + WORD * q) == Wrap(x)
  {
    var d := (x + WORD * q) / WORD - x / WORD - q;
    assert x + WORD * q == WORD * ((x + WORD * q) / WORD) + (x + WORD * q) % WORD;
    assert x == WORD * (x / WORD) + x % WORD;
    assert (x + WORD * q) % WORD - x % WORD == -WORD * d;
  }

  /** What the counter holds, before it wraps. */
  function Held(jobs: seq<Job>): int { Sum(jobs, Running) - Sum(jobs, Reported) }

  lemma HeldMoves(jobs: seq<Job>, i: nat, to: Phase)
    requires i < |jobs|
    ensures Held(Move(jobs, i, to)) == Held(jobs)
              - (if jobs[i].phase.Running? then jobs[i].size else 0) + (if jobs[i].phase.Reported? then jobs[i].size else 0)
              + (if to.Running? then jobs[i].size else 0) - (if to.Reported? then jobs[i].size else 0)
  {
    SumMove(jobs, i, to, Running);
    SumMove(jobs, i, to, Reported);
  }

  lemma SubmitHolds(jobs: seq<Job>, size: u64)
    ensures Held(jobs + [Job(size, Submitted)]) == Held(jobs)
  {
    assert (jobs + [Job(size, Submitted)])[..|jobs|] == jobs;
  }

  lemma MoveHolds(inused: u64, jobs: seq<Job>, i: nat, to: Phase, change: int)
    requires i < |jobs| && inused == Wrap(Held(jobs)) && Held(Move(jobs, i, to)) == Held(jobs) + change
    ensures Wrap(inused + change) == Wrap(Held(Move(jobs, i, to)))
  {
    WrapSum(Held(jobs), change);
  }

  lemma StepHolds(limit: u64, s: State, step: Step)
    requires Can(s, step) && s.inused == Wrap(Held(s.jobs))
    ensures After(limit, s, step).inused == Wrap(Held(After(limit, s, step).jobs))
  {
    match step
    case Submit(size) => SubmitHolds(s.jobs, size);
    case Check(i) => HeldMoves(s.jobs, i, if Passes(s.inused, s.jobs[i].size, limit) then Passed else Refused);
    case Reserve(i) =>
      HeldMoves(s.jobs, i, Running);
      MoveHolds(s.inused, s.jobs, i, Running, s.jobs[i].size);
    case Finish(i) =>
      HeldMoves(s.jobs, i, Done);
      MoveHolds(s.inused, s.jobs, i, Done, 0 - s.jobs[i].size);
    case Report(i) =>
      HeldMoves(s.jobs, i, Reported);
      MoveHolds(s.inused, s.jobs, i, Reported, 0 - s.jobs[i].size);
  }

  /** In every reachable state the counter is, modulo the word, the summed sizes of the running
      tasks less those of the tasks that were refused and reported. */
  lemma {:induction false} InusedExact(limit: u64, steps: seq<Step>, run: seq<State>, k: nat)
    requires Run(limit, steps, run) && k < |run|
    ensures run[k].inused == Wrap(Sum(run[k].jobs, Running) - Sum(run[k].jobs, Reported))
  {
    if k > 0 {
      InusedExact(limit, steps, run, k - 1);
      assert Can(run[k - 1], steps[k - 1]) && run[k - 1 + 1] == After(limit, run[k - 1], steps[k - 1]);
      StepHolds(limit, run[k - 1], steps[k - 1]);
    }
  }

  lemma {:induction false} SumZero(jobs: seq<Job>, phase: Phase)
    ensures Sum(jobs, phase) == 0 <==> forall i :: 0 <= i < |jobs| && jobs[i].phase == phase ==> jobs[i].size == 0
    decreases |jobs|
  {
    if jobs != [] {
      var n := |jobs| - 1;
      SumZero(jobs[..n], phase);
      assert forall i :: 0 <= i < n ==> jobs[..n][i] == jobs[i];
    }
  }

  /** Reports change the sum of the reported sizes, one size at a time. */
  lemma ReportedGrows(limit: u64, s: State, step: Step)
    requires Can(s, step)
    ensures Sum(s.jobs, Reported) <= Sum(After(limit, s, step).jobs, Reported) <= Sum(s.jobs, Reported) + WORD - 1
  {
    match step
    case Submit(size) => assert (s.jobs + [Job(size, Submitted)])[..|s.jobs|] == s.jobs;
    case Check(i) => SumMove(s.jobs, i, if Passes(s.inused, s.jobs[i].size, limit) then Passed else Refused, Reported);
    case Reserve(i) => SumMove(s.jobs, i, Running, Reported);
    case Finish(i) => SumMove(s.jobs, i, Done, Reported);
    case Report(i) => SumMove(s.jobs, i, Reported, Reported);
  }

  lemma WrapApart(a: int, b: int)
    requires 0 <= b < WORD && Wrap(a - b) == Wrap(a)
    ensures b == 0
  {
    assert a == WORD * (a / WORD) + a % WORD;
    assert a - b == WORD * ((a - b) / WORD) + (a - b) % WORD;
    var q := a / WORD - (a - b) / WORD;
    assert b == WORD * q;
  }

  /** If the counter has always been the sum of the running tasks, no reported task had a size. */
  lemma {:induction false} ExactMeansNoReport(limit: u64, steps: seq<Step>, run: seq<State>, k: nat)
    requires Run(limit, steps, run) && k < |run|
    requires forall j :: 0 <= j <= k ==> run[j].inused == Wrap(Sum(run[j].jobs, Running))
    ensures Sum(run[k].jobs, Reported) == 0
  {
    if k > 0 {
      ExactMeansNoReport(limit, steps, run, k - 1);
      assert Can(run[k - 1], steps[k - 1]) && run[k - 1 + 1] == After(limit, run[k - 1], steps[k - 1]);
      ReportedGrows(limit, run[k - 1], steps[k - 1]);
      InusedExact(limit, steps, run, k);
      WrapApart(Sum(run[k].jobs, Running), Sum(run[k].jobs, Reported));
    }
  }

  /** Over a whole run the counter is the summed sizes of the running tasks exactly when every
      task that the check refused, and that was then reported as failed, had size zero. */
  lemma InusedIsRunning(limit: u64, steps: seq<Step>, run: seq<State>)
    requires Run(limit, steps, run)
    ensures (forall k :: 0 <= k < |run| ==> run[k].inused == Wrap(Sum(run[k].jobs, Running)))
       <==> (forall k, i :: 0 <= k < |run| && 0 <= i < |run[k].jobs| && run[k].jobs[i].phase.Reported? ==> run[k].jobs[i].size == 0)
  {
    if forall k :: 0 <= k < |run| ==> run[k].inused == Wrap(Sum(run[k].jobs, Running)) {
      forall k, i | 0 <= k < |run| && 0 <= i < |run[k].jobs| && run[k].jobs[i].phase.Reported? ensures run[k].jobs[i].size == 0 {
        ExactMeansNoReport(limit, steps, run, k);
        SumZero(run[k].jobs, Reported);
      }
    }
    if forall k, i :: 0 <= k < |run| && 0 <= i < |run[k].jobs| && run[k].jobs[i].phase.Reported? ==> run[k].jobs[i].size == 0 {
      forall k | 0 <= k < |run| ensures run[k].inused == Wrap(Sum(run[k].jobs, Running)) {
        InusedExact(limit, steps, run, k);
        SumZero(run[k].jobs, Reported);
      }
    }
  }

  /** In a run in which the check refuses no task, the counter returns to zero whenever no task
      is running. */
  lemma InusedReturnsToZero(limit: u64, steps: seq<Step>, run: seq<State>, k: nat)
    requires Run(limit, steps, run) && k < |run|
    requires forall i :: 0 <= i < |run[k].jobs| ==> !run[k].jobs[i].phase.Reported? && !run[k].jobs[i].phase.Running?
    ensures run[k].inused == 0
  {
    InusedExact(limit, steps, run, k);
    SumZero(run[k].jobs, Reported);
    SumZero(run[k].jobs, Running);
  }

  // ---------------------------------------------------------------------------------------
  // The limit
  // ---------------------------------------------------------------------------------------

  /** A check is made only when no other task is between its check and its reservation, no task
      of non-zero size is reported after a refusal, and the sum in the check does not wrap. */
  ghost predicate Serial(limit: u64, steps: seq<Step>, run: seq<State>)
    requires |run| == |steps| + 1
  {
    && (forall k :: 0 <= k < |steps| && steps[k].Check? ==> Sum(run[k].jobs, Passed) == 0)
    && (forall k :: 0 <= k < |run| ==> Sum(run[k].jobs, Reported) == 0)
    && (forall k, i :: 0 <= k < |run| && 0 <= i < |run[k].jobs| ==> run[k].jobs[i].size + limit < WORD)
  }

  predicate Within(limit: u64, s: State) { Sum(s.jobs, Running) + Sum(s.jobs, Passed) <= limit }

  lemma StepWithin(limit: u64, s: State, step: Step)
    requires Can(s, step) && Within(limit, s) && s.inused == Sum(s.jobs, Running)
    requires step.Check? ==> Sum(s.jobs, Passed) == 0 && s.jobs[step.i].size + limit < WORD
    ensures Within(limit, After(limit, s, step))
  {
    match step
    case Submit(size) => assert (s.jobs + [Job(size, Submitted)])[..|s.jobs|] == s.jobs;
    case Check(i) =>
      var to := if Passes(s.inused, s.jobs[i].size, limit) then Passed else Refused;
      SumMove(s.jobs, i, to, Running);
      SumMove(s.jobs, i, to, Passed);
    case Reserve(i) =>
      SumMove(s.jobs, i, Running, Running);
      SumMove(s.jobs, i, Running, Passed);
    case Finish(i) =>
      SumMove(s.jobs, i, Done, Running);
      SumMove(s.jobs, i, Done, Passed);
    case Report(i) =>
      SumMove(s.jobs, i, Reported, Running);
      SumMove(s.jobs, i, Reported, Passed);
  }

  /** Then the running tasks never exceed the limit, and the counter is their sum. */
  lemma {:induction false} SerialWithinLimit(limit: u64, steps: seq<Step>, run: seq<State>, k: nat)
    requires Run(limit, steps, run) && Serial(limit, steps, run) && k < |run|
    ensures Within(limit, run[k]) && run[k].inused == Sum(run[k].jobs, Running) <= limit
  {
    if k > 0 {
      SerialWithinLimit(limit, steps, run, k - 1);
      assert Can(run[k - 1], steps[k - 1]) && run[k - 1 + 1] == After(limit, run[k - 1], steps[k - 1]);
      StepWithin(limit, run[k - 1], steps[k - 1]);
    }
    InusedExact(limit, steps, run, k);
  }

  /** And a task is admitted exactly when it fits beside the tasks that run. */
  lemma SerialAdmits(limit: u64, steps: seq<Step>, run: seq<State>, k: nat)
    requires Run(limit, steps, run) && Serial(limit, steps, run) && k < |steps| && steps[k].Check?
    ensures var i := steps[k].i;
            && i < |run[k].jobs| && i < |run[k + 1].jobs|
            && (run[k + 1].jobs[i].phase.Passed? <==> Sum(run[k].jobs, Running) + run[k].jobs[i].size <= limit)
            && (run[k + 1].jobs[i].phase.Refused? <==> Sum(run[k].jobs, Running) + run[k].jobs[i].size > limit)
  {
    SerialWithinLimit(limit, steps, run, k);
    assert Can(run[k], steps[k]) && run[k + 1] == After(limit, run[k], steps[k]);
    PassesExactly(run[k].inused, run[k].jobs[steps[k].i].size, limit);
  }

  /** A task larger than the limit, on an idle executor: it is refused, and reporting that makes
      the counter wrap below zero. */
  lemma RefusalUnderflows(limit: u64, size: u64) returns (steps: seq<Step>, run: seq<State>)
    requires size > limit
    ensures Run(limit, steps, run)
    ensures run[|steps|].inused == WORD - size && Sum(run[|steps|].jobs, Running) == 0
  {
    steps := [Submit(size), Check(0), Report(0)];
    var s1 := State(0, [Job(size, Submitted)]);
    var s2 := State(0, [Job(size, Refused)]);
    var s3 := State(WORD - size, [Job(size, Reported)]);
    run := [State(0, []), s1, s2, s3];
    assert Run(limit, steps, run);
    SumZero(s3.jobs, Running);
  }

  /** Two tasks that are both checked before either reserves may exceed the limit. */
  lemma InterleavedChecksExceed(limit: u64) returns (steps: seq<Step>, run: seq<State>)
    requires 0 < limit && limit + limit < WORD
    ensures Run(limit, steps, run)
    ensures Sum(run[|steps|].jobs, Reported) == 0 && Sum(run[|steps|].jobs, Running) == 2 * limit
  {
    var a, b, c := Job(limit, Submitted), Job(limit, Passed), Job(limit, Running);
    steps, run := [], [State(0, [])];
    steps, run := Extend(limit, steps, run, Submit(limit), State(0, [a]));
    steps, run := Extend(limit, steps, run, Submit(limit), State(0, [a, a]));
    steps, run := Extend(limit, steps, run, Check(0), State(0, [b, a]));
    steps, run := Extend(limit, steps, run, Check(1), State(0, [b, b]));
    steps, run := Extend(limit, steps, run, Reserve(0), State(limit, [c, b]));
    steps, run := Extend(limit, steps, run, Reserve(1), State(limit + limit, [c, c]));
    SumZero([c, c], Reported);
    assert [c, c][..1] == [c] && [c][..0] == [];
    assert Sum([c], Running) == limit;
  }

  lemma Extend(limit: u64, steps: seq<Step>, run: seq<State>, step: Step, t: State)
    returns (moreSteps: seq<Step>, moreRun: seq<State>)
    requires Run(limit, steps, run) && Can(run[|steps|], step) && t == After(limit, run[|steps|], step)
    ensures Run(limit, moreSteps, moreRun) && moreRun[|moreSteps|] == t
  {
    moreSteps, moreRun := steps + [step], run + [t];
  }
}
