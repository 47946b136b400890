/** The storage engine as a step machine over one object store.

    Writers, compaction tasks, the picker and the manifest merger interleave step by step; the
    process may crash at any step and boot again. A state also records the history that the
    theorems speak about: every manifest update ever persisted (`log`), the part of it that the
    snapshot accounts for (`merged`), and the part that the merger has in hand (`listed`).

    A snapshot is a list of records that may hold one file more than once, and loading it makes
    one `SstFile` with its own mark for each record. So snapshot and cache say how many copies
    of each file they hold, and tasks and marks are about copies.

    Assumed of the environment: a put or a delete either happens or leaves the store as it was,
    listing is atomic, and ids never go back over a restart.
 */
module Protocol {
  import opened Types
  import opened Updates

  type JobId = nat
  type Log = map<DeltaId, Update>

  ghost function Adds(m: Log): set<FileId> { set d, f | d in m && f in m[d].adds :: f }

  ghost function Dels(m: Log): set<FileId> { set d, f | d in m && f in m[d].dels :: f }

  /** All adds, then all deletes, of a set of delta objects. */
  ghost function ReplayLog(base: set<FileId>, m: Log): set<FileId> {
    (base + Adds(m)) - Dels(m)
  }

  /** The files that a history of updates leaves live. */
  ghost function Live(m: Log): set<FileId> { ReplayLog({}, m) }

  /** How many copies of each file. */
  type Records = map<FileId, Positive>

  /** One of the copies of a file. */
  datatype Copy = Copy(id: FileId, copy: nat)

  function Ids(copies: set<Copy>): set<FileId> { set c | c in copies :: c.id }

  predicate HoldsCopy(records: Records, c: Copy) { c.id in records && c.copy < records[c.id] }

  function CopiesOf(records: Records, f: FileId): nat { if f in records then records[f] else 0 }

  /** Records are added for every added file, then all records of every deleted file removed. */
  ghost function ReplayRecords(base: Records, m: Log): Records {
    map f | f in ReplayLog(base.Keys, m) :: CopiesOf(base, f) + if f in Adds(m) then 1 else 0
  }

  /** Where a write or a compaction task stands. */
  datatype Phase =
    | Queued                              // compaction only: picked, marked and sent
    | Allocated(out: FileId)              // output file id allocated
    | ObjectPut(out: FileId)              // data object written
    | Checked(out: FileId)                // passed the hard delta limit
    | Counted(out: FileId)                // delta counted
    | Named(out: FileId, delta: DeltaId)  // delta id allocated
    | Persisted(out: FileId)              // delta object written
    | Cached                              // cache updated; victims' objects may be deleted
    | Failed                              // error returned; victims not yet unmarked

  /** A write has no victims; a compaction's victims are its inputs and expired files. */
  datatype Job = Job(victims: set<Copy>, phase: Phase)

  datatype Merger =
    | Idle
    | Listed(paths: set<DeltaId>)
    | ReadDeltas(paths: set<DeltaId>, updates: Log)
    | ReadAll(paths: set<DeltaId>, updates: Log, base: Records)
    | Deleting(todo: set<DeltaId>, uncounted: nat)

  datatype Mode = Down | Booting | Loading | Up

  datatype State = State(
    // in the object store
    snapshot: Option<Records>,
    deltas: Log,
    objects: set<FileId>,
    // in memory
    mode: Mode,
    cache: Records,
    jobs: map<JobId, Job>,
    marks: set<Copy>,
    view: Option<Records>,
    merger: Merger,
    deltasNum: int,
    // id clocks
    nextFile: FileId,
    nextDelta: DeltaId,
    // history
    log: Log,
    merged: Log,
    listed: Log
  )

  /** The steps of writers, compaction tasks and the picker. */
  datatype WorkStep =
    | BeginWrite(j: JobId)
    | TakeView
    | Pick(j: JobId, victims: set<Copy>)
    | PickDropped(victims: set<Copy>)
    | StartTask(j: JobId)
    | PutObject(j: JobId)
    | CheckLimit(j: JobId)
    | Count(j: JobId)
    | NameDelta(j: JobId)
    | PutDelta(j: JobId)
    | UpdateCache(j: JobId)
    | DeleteObject(j: JobId, f: FileId)
    | Finish(j: JobId)
    | Fail(j: JobId)
    | Unmark(j: JobId)

  /** The steps of the merger, of booting and of crashing. */
  datatype MergeStep =
    | List
    | FetchDeltas
    | FetchSnapshot
    | PutSnapshot
    | DeleteDelta(d: DeltaId)
    | KeepDelta(d: DeltaId)
    | Uncount
    | MergeDone
    | MergeFail
    | Crash
    | BootList(file: FileId, delta: DeltaId)
    | BootLoad

  /** A missing snapshot object reads as no records. */
  function SnapshotRecords(s: State): Records {
    if s.snapshot.Some? then s.snapshot.value else map[]
  }

  function SnapshotIds(s: State): set<FileId> { SnapshotRecords(s).Keys }

  /** An empty snapshot object is refused by its decoder. */
  predicate SnapshotReadable(s: State) { s.snapshot != Some(map[]) }

  /** The picker takes copies from its list that are not marked. */
  predicate MayPick(s: State, victims: set<Copy>) {
    && s.mode.Up? && s.view.Some? && victims != {}
    && (forall c :: c in victims ==> HoldsCopy(s.view.value, c)) && victims !! s.marks
  }

  predicate CanFail(p: Phase) {
    p.Queued? || p.Allocated? || p.ObjectPut? || p.Counted? || p.Named?
  }

  predicate CanWork(hard: nat, s: State, step: WorkStep) {
    match step
    case BeginWrite(j) => s.mode.Up? && j !in s.jobs
    case TakeView => s.mode.Up?
    case Pick(j, victims) => j !in s.jobs && MayPick(s, victims)
    case PickDropped(victims) => MayPick(s, victims)
    case StartTask(j) => j in s.jobs && s.jobs[j].phase.Queued?
    case PutObject(j) => j in s.jobs && s.jobs[j].phase.Allocated?
    case CheckLimit(j) => j in s.jobs && s.jobs[j].phase.ObjectPut? && s.deltasNum <= hard
    case Count(j) => j in s.jobs && s.jobs[j].phase.Checked?
    case NameDelta(j) => j in s.jobs && s.jobs[j].phase.Counted?
    case PutDelta(j) => j in s.jobs && s.jobs[j].phase.Named?
    case UpdateCache(j) => j in s.jobs && s.jobs[j].phase.Persisted?
    case DeleteObject(j, f) => j in s.jobs && s.jobs[j].phase.Cached? && f in Ids(s.jobs[j].victims)
    case Finish(j) => j in s.jobs && s.jobs[j].phase.Cached?
    case Fail(j) => j in s.jobs && CanFail(s.jobs[j].phase)
    case Unmark(j) => j in s.jobs && s.jobs[j].phase.Failed?
  }

  predicate CanMerge(s: State, step: MergeStep) {
    match step
    case List => s.mode.Up? && s.merger.Idle? && s.deltas != map[]
    case FetchDeltas => s.merger.Listed? && s.merger.paths <= s.deltas.Keys
    case FetchSnapshot => s.merger.ReadDeltas? && SnapshotReadable(s)
    case PutSnapshot => s.merger.ReadAll?
    case DeleteDelta(d) => s.merger.Deleting? && d in s.merger.todo
    case KeepDelta(d) => s.merger.Deleting? && d in s.merger.todo
    case Uncount => s.merger.Deleting? && s.merger.todo == {} && s.merger.uncounted > 0
    case MergeDone => s.merger.Deleting? && s.merger.todo == {} && s.merger.uncounted == 0
    case MergeFail => s.merger.Listed? || s.merger.ReadDeltas? || s.merger.ReadAll?
    case Crash => !s.mode.Down?
    case BootList(file, delta) => s.mode.Down? && file >= s.nextFile && delta >= s.nextDelta
    case BootLoad => s.mode.Loading? && SnapshotReadable(s)
  }

  function UpdateOf(job: Job): Update
    requires job.phase.Named? || job.phase.Persisted?
  {
    Update({job.phase.out}, Ids(job.victims))
  }

  function Move(s: State, j: JobId, p: Phase): State
    requires j in s.jobs
  {
    s.(jobs := s.jobs[j := s.jobs[j].(phase := p)])
  }

  function TurnOff(s: State): State {
    s.(mode := Down, cache := map[], jobs := map[], marks := {}, view := None, merger := Idle, deltasNum := 0)
  }

  function Work(hard: nat, s: State, step: WorkStep): State
    requires CanWork(hard, s, step)
  {
    match step
    case BeginWrite(j) =>
      s.(jobs := s.jobs[j := Job({}, Allocated(s.nextFile))], nextFile := s.nextFile + 1)
    case TakeView =>
      s.(view := Some(s.cache))
    case Pick(j, victims) =>
      s.(jobs := s.jobs[j := Job(victims, Queued)], marks := s.marks + victims, view := None)
    case PickDropped(victims) =>
      s.(marks := s.marks + victims, view := None)
    case StartTask(j) =>
      Move(s, j, Allocated(s.nextFile)).(nextFile := s.nextFile + 1)
    case PutObject(j) =>
      Move(s, j, ObjectPut(s.jobs[j].phase.out)).(objects := s.objects + {s.jobs[j].phase.out})
    case CheckLimit(j) =>
      Move(s, j, Checked(s.jobs[j].phase.out))
    case Count(j) =>
      Move(s, j, Counted(s.jobs[j].phase.out)).(deltasNum := s.deltasNum + 1)
    case NameDelta(j) =>
      Move(s, j, Named(s.jobs[j].phase.out, s.nextDelta)).(nextDelta := s.nextDelta + 1)
    case PutDelta(j) =>
      var u := UpdateOf(s.jobs[j]);
      var d := s.jobs[j].phase.delta;
      Move(s, j, Persisted(s.jobs[j].phase.out)).(deltas := s.deltas[d := u], log := s.log[d := u])
    case UpdateCache(j) =>
      var out := s.jobs[j].phase.out;
      Move(s, j, Cached).(cache := s.cache[out := CopiesOf(s.cache, out) + 1] - Ids(s.jobs[j].victims))
    case DeleteObject(j, f) =>
      s.(objects := s.objects - {f})
    case Finish(j) =>
      s.(jobs := s.jobs - {j})
    case Fail(j) =>
      var counted := s.jobs[j].phase.Counted? || s.jobs[j].phase.Named?;
      Move(s, j, Failed).(deltasNum := if counted then s.deltasNum - 1 else s.deltasNum)
    case Unmark(j) =>
      s.(jobs := s.jobs - {j}, marks := s.marks - s.jobs[j].victims)
  }

  ghost function Merge(s: State, step: MergeStep): State
    requires CanMerge(s, step)
  {
    match step
    case List =>
      s.(merger := Listed(s.deltas.Keys), listed := s.log)
    case FetchDeltas =>
      var paths := s.merger.paths;
      s.(merger := ReadDeltas(paths, map d | d in paths :: s.deltas[d]))
    case FetchSnapshot =>
      s.(merger := ReadAll(s.merger.paths, s.merger.updates, SnapshotRecords(s)))
    case PutSnapshot =>
      s.(snapshot := Some(ReplayRecords(s.merger.base, s.merger.updates)),
         merger := Deleting(s.merger.paths, 0), merged := s.listed)
    case DeleteDelta(d) =>
      s.(deltas := s.deltas - {d}, merger := Deleting(s.merger.todo - {d}, s.merger.uncounted + 1))
    case KeepDelta(d) =>
      s.(merger := Deleting(s.merger.todo - {d}, s.merger.uncounted))
    case Uncount =>
      s.(merger := Deleting({}, s.merger.uncounted - 1), deltasNum := s.deltasNum - 1)
    case MergeDone =>
      s.(merger := Idle, mode := if s.mode.Booting? then Loading else s.mode)
    case MergeFail =>
      if s.mode.Booting? then TurnOff(s) else s.(merger := Idle)
    case Crash =>
      TurnOff(s)
    case BootList(file, delta) =>
      var t := s.(nextFile := file, nextDelta := delta, deltasNum := |s.deltas|);
      if s.deltas == map[] then t.(mode := Loading)
      else t.(mode := Booting, merger := Listed(s.deltas.Keys), listed := s.log)
    case BootLoad =>
      s.(mode := Up, cache := SnapshotRecords(s))
  }

  ghost predicate Init(s: State) {
    s == State(None, map[], {}, Down, map[], map[], {}, None, Idle, 0, s.nextFile, s.nextDelta, map[], map[], map[])
  }

  ghost predicate Next(hard: nat, s: State, t: State) {
    || (exists step :: CanWork(hard, s, step) && t == Work(hard, s, step))
    || (exists step :: CanMerge(s, step) && t == Merge(s, step))
  }

  /** A run from the empty object store. */
  ghost predicate Run(hard: nat, run: seq<State>) {
    && |run| > 0
    && Init(run[0])
    && forall i, j :: 0 <= i < j < |run| && j == i + 1 ==> Next(hard, run[i], run[j])
  }

  /** Steps from any state. */
  ghost predicate Path(hard: nat, path: seq<State>) {
    |path| > 0 && forall i, j :: 0 <= i < j < |path| && j == i + 1 ==> Next(hard, path[i], path[j])
  }

  // ---------------------------------------------------------------------------------------
  // What the theorems speak about
  // ---------------------------------------------------------------------------------------

  /** The live set that a reader of the object store decodes. */
  ghost function Durable(s: State): set<FileId> { ReplayLog(SnapshotIds(s), s.deltas) }

  /** Every file that these delta objects add and that the snapshot's history deletes is
      deleted by these delta objects too. */
  ghost predicate Closed(deltas: Log, merged: Log) { Adds(deltas) * Dels(merged) <= Dels(deltas) }

  /** The manifest is loaded and begins to serve. */
  predicate Loads(s: State, t: State) { !s.mode.Up? && t.mode.Up? }

  /** Every load brings in exactly the live files. */
  ghost predicate LoadsExact(run: seq<State>) {
    forall i, j :: 0 <= i < j < |run| && j == i + 1 && Loads(run[i], run[j]) ==> run[j].cache.Keys == Live(run[j].log)
  }

  /** Every load brings in only files that have their data objects. */
  ghost predicate LoadsKept(run: seq<State>) {
    forall i, j :: 0 <= i < j < |run| && j == i + 1 && Loads(run[i], run[j]) ==> run[j].cache.Keys <= run[j].objects
  }

  predicate Single(records: Records) { forall f :: f in records ==> records[f] == 1 }

  /** No load brings in a file twice. */
  ghost predicate LoadsSingle(run: seq<State>) {
    forall i, j :: 0 <= i < j < |run| && j == i + 1 && Loads(run[i], run[j]) ==> Single(run[j].cache)
  }

  ghost predicate PutsSnapshot(s: State, t: State) { s.merger.ReadAll? && t.merger.Deleting? }

  /** Every snapshot that was put merged a closed set of delta objects. */
  ghost predicate PutsClosed(run: seq<State>) {
    forall i, j :: 0 <= i < j < |run| && j == i + 1 && PutsSnapshot(run[i], run[j])
                ==> Closed(run[i].merger.updates, run[i].merged)
  }

  /** No snapshot that was put gives a record to a file that already had one and keeps it. */
  ghost predicate PutsDistinct(run: seq<State>) {
    forall i, j :: 0 <= i < j < |run| && j == i + 1 && PutsSnapshot(run[i], run[j])
                ==> NoRecordTwice(run[i].merger.base, run[i].merger.updates)
  }

  ghost predicate NoRecordTwice(base: Records, m: Log) { (Adds(m) - Dels(m)) !! base.Keys }

  /** No snapshot merged a delta object that an earlier snapshot had merged: every deletion of
      merged delta objects was completed before the next listing. */
  ghost predicate PutsFresh(run: seq<State>) {
    forall i, j :: 0 <= i < j < |run| && j == i + 1 && PutsSnapshot(run[i], run[j])
                ==> run[i].merger.updates.Keys !! run[i].merged.Keys
  }

  /** The files that updates on disk, but not in the cache yet, add and delete. */
  ghost function InFlightAdds(jobs: map<JobId, Job>): set<FileId> {
    set j | j in jobs && jobs[j].phase.Persisted? :: jobs[j].phase.out
  }

  ghost function InFlightDels(jobs: map<JobId, Job>): set<FileId> {
    set j, f | j in jobs && jobs[j].phase.Persisted? && f in Ids(jobs[j].victims) :: f
  }
}
