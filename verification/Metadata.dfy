/** The metadata of files through delta objects, snapshots and restarts. */
module Metadata {
  import opened Types
  import opened Sst
  import opened Codec
  import opened Manifest

  /** The manifest's list, the delta objects, the snapshot's records, and every file ever created. */
  datatype State = State(cache: seq<FileInfo>, deltas: map<DeltaId, ManifestUpdate>, snapshot: seq<Record>, known: map<u64, FileInfo>)

  datatype Step =
    | Create(file: FileInfo)
    | PutDelta(d: DeltaId, update: ManifestUpdate)
    | UpdateCache(update: ManifestUpdate)
    | Merge(paths: seq<DeltaId>, gone: set<DeltaId>)
    | Load
    | Crash

  /** All of these files were created as they are. */
  ghost predicate Known(files: seq<FileInfo>, known: map<u64, FileInfo>) {
    forall f :: f in files ==> f.id in known && known[f.id] == f
  }

  /** Writers and compactions give a new file its id as sequence. */
  ghost predicate Can(s: State, step: Step) {
    match step
    case Create(file) => file.id !in s.known && file.meta.maxSequence == file.id
    case PutDelta(d, update) => Known(update.toAdds, s.known)
    case UpdateCache(update) => Known(update.toAdds, s.known)
    case Merge(paths, _) => forall p :: p in paths ==> p in s.deltas
    case Load => true
    case Crash => true
  }

  function Loaded(records: seq<Record>): seq<FileInfo> {
    seq(|records|, i requires 0 <= i < |records| => FromRecord(records[i]))
  }

  function RetainInfos(files: seq<FileInfo>, ids: seq<u64>): (kept: seq<FileInfo>)
    ensures forall f :: f in kept ==> f in files
  {
    if files == [] then [] else (if files[0].id in ids then [] else [files[0]]) + RetainInfos(files[1..], ids)
  }

  ghost function After(s: State, step: Step): State
    requires Can(s, step)
  {
    match step
    case Create(file) => s.(known := s.known[file.id := file])
    case PutDelta(d, update) => s.(deltas := s.deltas[d := update])
    case UpdateCache(update) => s.(cache := RetainInfos(s.cache + update.toAdds, update.toDeletes))
    case Merge(paths, gone) =>
      var us := Fetch(s.deltas, paths);
      s.(snapshot := Retain(s.snapshot + AddedRecords(us), DeletedIds(us)), deltas := s.deltas - gone)
    case Load => s.(cache := Loaded(s.snapshot))
    case Crash => s.(cache := [])
  }

  ghost predicate Run(steps: seq<Step>, run: seq<State>) {
    && |run| == |steps| + 1 && run[0] == State([], map[], [], map[])
    && forall i :: 0 <= i < |steps| ==> Can(run[i], steps[i]) && run[i + 1] == After(run[i], steps[i])
  }

  ghost predicate RecordsKnown(records: seq<Record>, known: map<u64, FileInfo>) {
    forall r :: r in records ==> r.id in known && r == ToRecord(known[r.id])
  }

  ghost predicate Inv(s: State) {
    && (forall id :: id in s.known ==> s.known[id].id == id && s.known[id].meta.maxSequence == id)
    && Known(s.cache, s.known) && RecordsKnown(s.snapshot, s.known)
    && (forall d :: d in s.deltas ==> Known(s.deltas[d].toAdds, s.known))
  }

  lemma {:induction false} AddedKnown(us: seq<ManifestUpdate>, known: map<u64, FileInfo>)
    requires forall u :: u in us ==> Known(u.toAdds, known)
    requires forall id :: id in known ==> known[id].id == id
    ensures RecordsKnown(AddedRecords(us), known)
    decreases |us|
  {
    if us != [] {
      var n := |us| - 1;
      assert us == us[..n] + [us[n]];
      AddedKnown(us[..n], known);
      ToRecordsKnown(us[n].toAdds, known);
    }
  }

  lemma ToRecordsKnown(files: seq<FileInfo>, known: map<u64, FileInfo>)
    requires Known(files, known)
    ensures RecordsKnown(ToRecords(files), known)
  {
    forall r | r in ToRecords(files) ensures r.id in known && r == ToRecord(known[r.id]) {
      var i :| 0 <= i < |files| && r == ToRecords(files)[i];
      assert files[i] in files;
    }
  }

  lemma MergeKeepsRecords(s: State, paths: seq<DeltaId>, gone: set<DeltaId>)
    requires Inv(s) && Can(s, Merge(paths, gone))
    ensures RecordsKnown(After(s, Merge(paths, gone)).snapshot, s.known)
  {
    var us := Fetch(s.deltas, paths);
    forall u | u in us ensures Known(u.toAdds, s.known) {
      var i :| 0 <= i < |us| && us[i] == u;
      assert paths[i] in paths;
    }
    AddedKnown(us, s.known);
  }

  lemma LoadKnown(records: seq<Record>, known: map<u64, FileInfo>)
    requires RecordsKnown(records, known)
    requires forall id :: id in known ==> known[id].id == id && known[id].meta.maxSequence == id
    ensures Known(Loaded(records), known)
  {
    forall f | f in Loaded(records) ensures f.id in known && known[f.id] == f {
      var i :| 0 <= i < |records| && f == FromRecord(records[i]);
      assert records[i] in records;
      SequenceRestored(known[records[i].id]);
    }
  }

  lemma StepKeepsInv(s: State, step: Step)
    requires Inv(s) && Can(s, step)
    ensures Inv(After(s, step))
  {
    match step
    case Create(_) =>
    case PutDelta(_, _) =>
    case UpdateCache(_) =>
    case Merge(paths, gone) => MergeKeepsRecords(s, paths, gone);
    case Load => LoadKnown(s.snapshot, s.known);
    case Crash =>
  }

  lemma {:induction false} RunInv(steps: seq<Step>, run: seq<State>, i: nat)
    requires Run(steps, run) && i < |run|
    ensures Inv(run[i])
  {
    if i > 0 {
      RunInv(steps, run, i - 1);
      assert Can(run[i - 1], steps[i - 1]) && run[i - 1 + 1] == After(run[i - 1], steps[i - 1]);
      StepKeepsInv(run[i - 1], steps[i - 1]);
    }
  }

  /** Through any run of updates, merge rounds, crashes and restarts, every file in the manifest's
      list has the very metadata with which it was created, its sequence included, although
      snapshots do not store the sequence. */
  lemma MetadataRecovered(steps: seq<Step>, run: seq<State>, i: nat, f: FileInfo)
    requires Run(steps, run) && i < |run| && f in run[i].cache
    ensures f.id in run[i].known && run[i].known[f.id] == f && f.meta.maxSequence == f.id
  {
    RunInv(steps, run, i);
  }
}
