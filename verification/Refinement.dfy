/** The manifest, the picker and the merger over lists, records and objects carry out steps of the
    protocol over counted ids and copies. */
module Refinement {
  import opened Types
  import opened Sst
  import opened Updates
  import opened Codec
  import opened Manifest
  import opened Picker
  import opened Protocol
  import opened ProtocolProgress
  import Metadata
  import Executor

  // ---------------------------------------------------------------------------------------
  // Counting ids
  // ---------------------------------------------------------------------------------------

  /** How often each id occurs. */
  function Tally(ids: seq<FileId>): Records { map f | f in ids :: multiset(ids)[f] }

  function IdsOf(records: seq<Record>): seq<FileId> { seq(|records|, i requires 0 <= i < |records| => records[i].id) }

  function FileIdsOf(files: seq<SstFile>): seq<FileId> { seq(|files|, i requires 0 <= i < |files| => files[i].id) }

  lemma TallyCount(ids: seq<FileId>, f: FileId)
    ensures CopiesOf(Tally(ids), f) == multiset(ids)[f]
    ensures f in Tally(ids) <==> multiset(ids)[f] > 0
  {
    assert f in ids <==> multiset(ids)[f] > 0;
  }

  /** Records are determined by their counts. */
  lemma SameRecords(a: Records, b: Records)
    requires forall f :: CopiesOf(a, f) == CopiesOf(b, f)
    ensures a == b
  {
    forall f ensures f in a <==> f in b {
      assert CopiesOf(a, f) == CopiesOf(b, f);
    }
    forall f | f in a ensures a[f] == b[f] {
      assert CopiesOf(a, f) == CopiesOf(b, f);
    }
  }

  function RetainIds(ids: seq<FileId>, dels: set<FileId>): seq<FileId> {
    if ids == [] then [] else (if ids[0] in dels then [] else [ids[0]]) + RetainIds(ids[1..], dels)
  }

  lemma {:induction false} RetainIdsCount(ids: seq<FileId>, dels: set<FileId>, f: FileId)
    ensures multiset(RetainIds(ids, dels))[f] == if f in dels then 0 else multiset(ids)[f]
  {
    if ids != [] {
      RetainIdsCount(ids[1..], dels, f);
      assert ids == [ids[0]] + ids[1..];
    }
  }

  lemma {:induction false} RetainedRecords(records: seq<Record>, dels: seq<u64>)
    ensures IdsOf(Retain(records, dels)) == RetainIds(IdsOf(records), IdSet(dels))
  {
    if records != [] {
      RetainedRecords(records[1..], dels);
      assert IdsOf(records)[1..] == IdsOf(records[1..]);
      assert records[0].id in dels <==> records[0].id in IdSet(dels);
    }
  }

  lemma {:induction false} RetainedFiles(files: seq<SstFile>, dels: seq<u64>)
    ensures FileIdsOf(RetainFiles(files, dels)) == RetainIds(FileIdsOf(files), IdSet(dels))
  {
    if files != [] {
      RetainedFiles(files[1..], dels);
      assert FileIdsOf(files)[1..] == FileIdsOf(files[1..]);
      assert files[0].id in dels <==> files[0].id in IdSet(dels);
    }
  }

  // ---------------------------------------------------------------------------------------
  // The manifest's list
  // ---------------------------------------------------------------------------------------

  /** Loading a snapshot makes one copy for each record. */
  lemma LoadRefines(records: seq<Record>, ssts: seq<SstFile>)
    requires |ssts| == |records| && forall i :: 0 <= i < |ssts| ==> Info(ssts[i]) == FromRecord(records[i])
    ensures Tally(FileIdsOf(ssts)) == Tally(IdsOf(records))
  {
    assert FileIdsOf(ssts) == IdsOf(records);
  }

  lemma TallyUpdated(ids: seq<FileId>, out: FileId, dels: set<FileId>)
    ensures Tally(RetainIds(ids + [out], dels)) == Tally(ids)[out := CopiesOf(Tally(ids), out) + 1] - dels
  {
    var a, b := Tally(RetainIds(ids + [out], dels)), Tally(ids)[out := CopiesOf(Tally(ids), out) + 1] - dels;
    forall f ensures CopiesOf(a, f) == CopiesOf(b, f) {
      RetainIdsCount(ids + [out], dels, f);
      TallyCount(ids, f);
      TallyCount(RetainIds(ids + [out], dels), f);
    }
    SameRecords(a, b);
  }

  /** The change that `Cache.Update` makes is that of the step `UpdateCache`. */
  lemma UpdateRefines(hard: nat, s: State, j: JobId, ssts: seq<SstFile>, file: SstFile, dels: seq<u64>)
    requires CanWork(hard, s, Protocol.UpdateCache(j)) && s.cache == Tally(FileIdsOf(ssts))
    requires s.jobs[j].phase.out == file.id && Ids(s.jobs[j].victims) == IdSet(dels)
    ensures Work(hard, s, Protocol.UpdateCache(j)).cache == Tally(FileIdsOf(RetainFiles(ssts + [file], dels)))
  {
    UpdatedFiles(ssts, file, dels);
    CachedAfter(hard, s, j);
  }

  lemma CachedAfter(hard: nat, s: State, j: JobId)
    requires CanWork(hard, s, Protocol.UpdateCache(j))
    ensures var out := s.jobs[j].phase.out;
            Work(hard, s, Protocol.UpdateCache(j)).cache == s.cache[out := CopiesOf(s.cache, out) + 1] - Ids(s.jobs[j].victims)
  {
  }

  lemma UpdatedFiles(ssts: seq<SstFile>, file: SstFile, dels: seq<u64>)
    ensures var before := Tally(FileIdsOf(ssts));
            Tally(FileIdsOf(RetainFiles(ssts + [file], dels))) == before[file.id := CopiesOf(before, file.id) + 1] - IdSet(dels)
  {
    RetainedFiles(ssts + [file], dels);
    assert FileIdsOf(ssts + [file]) == FileIdsOf(ssts) + [file.id as FileId];
    TallyUpdated(FileIdsOf(ssts), file.id, IdSet(dels));
  }

  // ---------------------------------------------------------------------------------------
  // Picks
  // ---------------------------------------------------------------------------------------

  /** The copy that stands at a place of the list. */
  function CopyAt(ids: seq<FileId>, i: nat): Copy
    requires i < |ids|
  {
    Copy(ids[i], multiset(ids[..i])[ids[i]])
  }

  ghost function CopiesAt(ids: seq<FileId>, places: set<nat>): set<Copy> {
    set i | i in places && i < |ids| :: CopyAt(ids, i)
  }

  lemma {:induction false} CountGrows(ids: seq<FileId>, i: nat, j: nat)
    requires i < j <= |ids|
    ensures multiset(ids[..i])[ids[i]] < multiset(ids[..j])[ids[i]]
    decreases j
  {
    assert ids[..j] == ids[..j - 1] + [ids[j - 1]];
    if i < j - 1 {
      CountGrows(ids, i, j - 1);
    }
  }

  /** Different places hold different copies, and the list holds them all. */
  lemma CopiesDiffer(ids: seq<FileId>, i: nat, j: nat)
    requires i < |ids| && j < |ids|
    ensures CopyAt(ids, i) == CopyAt(ids, j) ==> i == j
    ensures HoldsCopy(Tally(ids), CopyAt(ids, i))
  {
    if i < j {
      CountGrows(ids, i, j);
    }
    if j < i {
      CountGrows(ids, j, i);
    }
    CountGrows(ids, i, |ids|);
    assert ids[..|ids|] == ids;
    TallyCount(ids, ids[i]);
  }

  /** A choice of places that are not marked is a pick of the machine, with its effect on marks. */
  lemma PickRefines(s: State, ids: seq<FileId>, marked: set<nat>, picked: set<nat>)
    requires s.mode.Up? && s.view == Some(Tally(ids)) && s.marks == CopiesAt(ids, marked)
    requires picked != {} && picked !! marked && forall i :: i in picked ==> i < |ids|
    ensures MayPick(s, CopiesAt(ids, picked))
    ensures s.marks + CopiesAt(ids, picked) == CopiesAt(ids, marked + picked)
  {
    var i :| i in picked;
    assert CopyAt(ids, i) in CopiesAt(ids, picked);
    forall c | c in CopiesAt(ids, picked) ensures HoldsCopy(s.view.value, c) && c !in s.marks {
      var i :| i in picked && i < |ids| && c == CopyAt(ids, i);
      CopiesDiffer(ids, i, i);
      forall j | j in marked && j < |ids| ensures CopyAt(ids, j) != c {
        CopiesDiffer(ids, i, j);
      }
    }
  }

  ghost function MarkedPlaces(ssts: seq<SstFile>): set<nat>
    reads ssts
  {
    set i: nat | i < |ssts| && ssts[i].inCompaction
  }

  /** The places that hold one of these files. */
  ghost function PlacesOf(ssts: seq<SstFile>, files: seq<SstFile>): set<nat> {
    set i: nat | i < |ssts| && ssts[i] in files
  }

  /** What a pick does to the marks. */
  method PickAndMark(strategy: Strategy, ssts: seq<SstFile>, expireTime: Option<int>) returns (task: Option<Task>)
    modifies ssts
    ensures task.Some? ==> task.value.inputs + task.value.expireds != []
    ensures task.Some? ==> forall f | f in task.value.inputs + task.value.expireds :: f in ssts && !old(f.inCompaction)
    ensures forall f | f in ssts ::
              f.inCompaction == (old(f.inCompaction) || (task.Some? && f in task.value.inputs + task.value.expireds))
  {
    task := strategy.PickCandidate(ssts, expireTime);
  }

  /** Picking a candidate is a choice of places that are not marked; it marks exactly those. */
  method PickStep(strategy: Strategy, ssts: seq<SstFile>, expireTime: Option<int>)
    returns (task: Option<Task>, ghost picked: set<nat>)
    requires forall i, j :: 0 <= i < j < |ssts| ==> ssts[i] != ssts[j]
    modifies ssts
    ensures task.None? ==> MarkedPlaces(ssts) == old(MarkedPlaces(ssts))
    ensures task.Some? ==>
              && picked == PlacesOf(ssts, task.value.inputs + task.value.expireds) && picked != {}
              && picked !! old(MarkedPlaces(ssts)) && MarkedPlaces(ssts) == old(MarkedPlaces(ssts)) + picked
  {
    task := PickAndMark(strategy, ssts, expireTime);
    picked := {};
    assert forall i :: 0 <= i < |ssts| ==> ssts[i] in ssts;
    if task.Some? {
      ghost var files := task.value.inputs + task.value.expireds;
      picked := PlacesOf(ssts, files);
      ghost var f := files[0];
      assert f in files;
      ghost var i :| 0 <= i < |ssts| && ssts[i] == f;
      assert i in picked;
    }
  }

  /** What the executor does when a task fails: of the places of the list, exactly those of the
      task's files are not marked any more. */
  method FailureStep(executor: Executor.Executor, task: Task, ssts: seq<SstFile>)
    modifies executor, task.inputs + task.expireds
    ensures MarkedPlaces(ssts) == old(MarkedPlaces(ssts)) - PlacesOf(ssts, task.inputs + task.expireds)
  {
    executor.OnFailure(task);
    ghost var files := task.inputs + task.expireds;
    assert forall i :: 0 <= i < |ssts| && ssts[i] !in files ==> ssts[i].inCompaction == old(ssts[i].inCompaction);
  }

  /** That is what the step `Unmark` does to the marks. */
  lemma UnmarkRefines(hard: nat, s: State, j: JobId, ids: seq<FileId>, marked: set<nat>, freed: set<nat>)
    requires CanWork(hard, s, Unmark(j)) && s.marks == CopiesAt(ids, marked) && s.jobs[j].victims == CopiesAt(ids, freed)
    ensures Work(hard, s, Unmark(j)).marks == CopiesAt(ids, marked - freed)
  {
    CopiesLeft(ids, marked, freed);
  }

  lemma CopiesLeft(ids: seq<FileId>, marked: set<nat>, freed: set<nat>)
    ensures CopiesAt(ids, marked - freed) == CopiesAt(ids, marked) - CopiesAt(ids, freed)
  {
    forall i, k | i in marked && i < |ids| && k in freed && k < |ids| && i != k ensures CopyAt(ids, i) != CopyAt(ids, k) {
      CopiesDiffer(ids, i, k);
    }
  }

  // ---------------------------------------------------------------------------------------
  // A merge round
  // ---------------------------------------------------------------------------------------

  /** The delta objects as updates of id sets. */
  ghost function LogOf(deltas: map<DeltaId, ManifestUpdate>): Log {
    map d | d in deltas :: AsUpdate(deltas[d])
  }

  /** The listing order is immaterial: replaying the fetched updates is replaying the log. */
  lemma ListingReplays(base: set<FileId>, deltas: map<DeltaId, ManifestUpdate>, paths: seq<DeltaId>)
    requires Listing(deltas, paths)
    ensures Replay(base, AsUpdates(Fetch(deltas, paths))) == ReplayLog(base, LogOf(deltas))
    ensures AddsOf(AsUpdates(Fetch(deltas, paths))) == Adds(LogOf(deltas))
    ensures DelsOf(AsUpdates(Fetch(deltas, paths))) == Dels(LogOf(deltas))
  {
    forall i | 0 <= i < |paths|
      ensures paths[i] in deltas && AsUpdates(Fetch(deltas, paths))[i] == AsUpdate(deltas[paths[i]])
    {
      assert paths[i] in paths;
    }
    SameUpdates(AsUpdates(Fetch(deltas, paths)), LogOf(deltas), paths);
  }

  lemma SameUpdates(us: seq<Update>, log: Log, paths: seq<DeltaId>)
    requires |us| == |paths| && forall d :: d in log ==> d in paths
    requires forall i :: 0 <= i < |us| ==> paths[i] in log && us[i] == log[paths[i]]
    ensures AddsOf(us) == Adds(log) && DelsOf(us) == Dels(log)
  {
    forall d | d in log ensures exists i :: 0 <= i < |us| && us[i] == log[d] {
      var i :| 0 <= i < |paths| && paths[i] == d;
      assert us[i] == log[d];
    }
  }

  /** Every update adds one file, and no two the same. */
  ghost predicate OneEach(us: seq<ManifestUpdate>) {
    && (forall i :: 0 <= i < |us| ==> |us[i].toAdds| == 1)
    && (forall i, j :: 0 <= i < j < |us| ==> us[i].toAdds[0].id != us[j].toAdds[0].id)
  }

  lemma {:induction false} AddedOnce(us: seq<ManifestUpdate>, f: FileId)
    requires OneEach(us)
    ensures multiset(IdsOf(AddedRecords(us)))[f] == if exists i :: 0 <= i < |us| && us[i].toAdds[0].id == f then 1 else 0
    decreases |us|
  {
    if us != [] {
      var n := |us| - 1;
      AddedOnce(us[..n], f);
      assert ToRecords(us[n].toAdds) == [ToRecord(us[n].toAdds[0])];
      assert IdsOf(AddedRecords(us)) == IdsOf(AddedRecords(us[..n])) + [us[n].toAdds[0].id as FileId];
      if us[n].toAdds[0].id == f {
        assert forall i :: 0 <= i < n ==> us[..n][i].toAdds[0].id != f;
      } else if i :| 0 <= i < |us| && us[i].toAdds[0].id == f {
        assert us[..n][i].toAdds[0].id == f;
      }
    }
  }

  lemma AddedIsAdds(us: seq<ManifestUpdate>, f: FileId)
    requires OneEach(us)
    ensures (exists i :: 0 <= i < |us| && us[i].toAdds[0].id == f) <==> f in AddsOf(AsUpdates(us))
  {
    forall i | 0 <= i < |us| ensures f in AsUpdates(us)[i].adds <==> us[i].toAdds[0].id == f {
      assert us[i].toAdds == [us[i].toAdds[0]];
    }
  }

  /** The records that a round writes are those that the machine puts, copies included. */
  lemma RoundRecords(base: seq<Record>, deltas: map<DeltaId, ManifestUpdate>, paths: seq<DeltaId>)
    requires Listing(deltas, paths) && OneEach(Fetch(deltas, paths))
    ensures var us := Fetch(deltas, paths);
            Tally(IdsOf(Retain(base + AddedRecords(us), DeletedIds(us)))) == ReplayRecords(Tally(IdsOf(base)), LogOf(deltas))
  {
    var us, log := Fetch(deltas, paths), LogOf(deltas);
    var all, dels := base + AddedRecords(us), DeletedIds(us);
    ListingReplays({}, deltas, paths);
    AddedIds(us);
    RetainedRecords(all, dels);
    assert IdsOf(all) == IdsOf(base) + IdsOf(AddedRecords(us));
    var a, b := Tally(IdsOf(Retain(all, dels))), ReplayRecords(Tally(IdsOf(base)), log);
    forall f ensures CopiesOf(a, f) == CopiesOf(b, f) {
      RecordCount(IdsOf(base), IdsOf(AddedRecords(us)), log, f);
      AddedOnce(us, f);
      AddedIsAdds(us, f);
      RetainIdsCount(IdsOf(all), Dels(log), f);
      TallyCount(IdsOf(Retain(all, dels)), f);
    }
    SameRecords(a, b);
  }

  lemma RecordCount(base: seq<FileId>, added: seq<FileId>, log: Log, f: FileId)
    ensures CopiesOf(ReplayRecords(Tally(base), log), f) ==
            if f in Dels(log) then 0 else multiset(base)[f] + if f in Adds(log) then 1 else 0
    ensures multiset(base + added)[f] == multiset(base)[f] + multiset(added)[f]
  {
    TallyCount(base, f);
  }

  /** A state of the machine that has read what the store holds. */
  ghost predicate HasRead(s: State, base: Contents, deltas: map<DeltaId, ManifestUpdate>, num: int) {
    && s.deltas == LogOf(deltas) && s.deltasNum == num
    && s.merger == ReadAll(deltas.Keys, LogOf(deltas), Tally(IdsOf(base.records)))
  }

  /** What `DoMerge` does to the snapshot object, to the delta objects and to the counter, the
      machine does in steps: it puts a snapshot with the same records, copies included, leaves the
      same delta objects and uncounts as many. */
  lemma RoundRefines(hard: nat, s: State, base: Contents, deltas: map<DeltaId, ManifestUpdate>, num: int,
                     paths: seq<DeltaId>, kept: set<DeltaId>) returns (path: seq<State>)
    requires HasRead(s, base, deltas, num) && Listing(deltas, paths) && OneEach(Fetch(deltas, paths))
    requires |base.records| + |AddedRecords(Fetch(deltas, paths))| < MAX_RECORDS
    ensures Path(hard, path) && path[0] == s && Last(path).merger == Deleting({}, 0)
    ensures Last(path).snapshot == Some(Tally(IdsOf(Manifest.Merged(base, Fetch(deltas, paths)).records)))
    ensures Last(path).deltas == LogOf(deltas - (deltas.Keys - kept))
    ensures Last(path).deltasNum == num - |deltas.Keys - kept|
  {
    MergedTally(base, deltas, paths);
    LogLeft(deltas, deltas.Keys - kept);
    path := RoundSteps(hard, s, kept);
  }

  lemma LogLeft(deltas: map<DeltaId, ManifestUpdate>, gone: set<DeltaId>)
    ensures LogOf(deltas - gone) == LogOf(deltas) - gone && LogOf(deltas).Keys == deltas.Keys
  {
  }

  lemma MergedTally(base: Contents, deltas: map<DeltaId, ManifestUpdate>, paths: seq<DeltaId>)
    requires Listing(deltas, paths) && OneEach(Fetch(deltas, paths))
    requires |base.records| + |AddedRecords(Fetch(deltas, paths))| < MAX_RECORDS
    ensures Tally(IdsOf(Manifest.Merged(base, Fetch(deltas, paths)).records)) == ReplayRecords(Tally(IdsOf(base.records)), LogOf(deltas))
  {
    RoundRecords(base.records, deltas, paths);
  }

  // ---------------------------------------------------------------------------------------
  // Metadata
  // ---------------------------------------------------------------------------------------

  function InfoIdsOf(files: seq<FileInfo>): seq<FileId> { seq(|files|, i requires 0 <= i < |files| => files[i].id) }

  lemma {:induction false} RetainedInfos(files: seq<FileInfo>, dels: seq<u64>)
    ensures InfoIdsOf(Metadata.RetainInfos(files, dels)) == RetainIds(InfoIdsOf(files), IdSet(dels))
  {
    if files != [] {
      RetainedInfos(files[1..], dels);
      assert InfoIdsOf(files)[1..] == InfoIdsOf(files[1..]);
      assert files[0].id in dels <==> files[0].id in IdSet(dels);
    }
  }

  lemma UpdatedInfos(files: seq<FileInfo>, file: FileInfo, dels: seq<u64>)
    ensures var before := Tally(InfoIdsOf(files));
            Tally(InfoIdsOf(Metadata.RetainInfos(files + [file], dels))) == before[file.id := CopiesOf(before, file.id) + 1] - IdSet(dels)
  {
    RetainedInfos(files + [file], dels);
    assert InfoIdsOf(files + [file]) == InfoIdsOf(files) + [file.id as FileId];
    TallyUpdated(InfoIdsOf(files), file.id, IdSet(dels));
  }

  /** The steps on metadata are the machine's steps `PutDelta`, `UpdateCache`, `PutSnapshot` with its
      deletions, and `BootLoad`, seen on ids. */
  lemma MetadataRefines(s: Metadata.State, step: Metadata.Step)
    requires Metadata.Can(s, step)
    ensures var t := Metadata.After(s, step);
            && (step.PutDelta? ==> LogOf(t.deltas) == LogOf(s.deltas)[step.d := AsUpdate(step.update)])
            && (step.UpdateCache? && |step.update.toAdds| == 1 ==>
                  var before, out := Tally(InfoIdsOf(s.cache)), step.update.toAdds[0].id;
                  Tally(InfoIdsOf(t.cache)) == before[out := CopiesOf(before, out) + 1] - IdSet(step.update.toDeletes))
            && (step.Merge? && Listing(s.deltas, step.paths) && OneEach(Fetch(s.deltas, step.paths)) ==>
                  && Tally(IdsOf(t.snapshot)) == ReplayRecords(Tally(IdsOf(s.snapshot)), LogOf(s.deltas))
                  && LogOf(t.deltas) == LogOf(s.deltas) - step.gone)
            && (step.Load? ==> Tally(InfoIdsOf(t.cache)) == Tally(IdsOf(s.snapshot)))
            && (step.Crash? ==> t == s.(cache := []))
  {
    match step
    case UpdateCache(update) =>
      if |update.toAdds| == 1 {
        assert update.toAdds == [update.toAdds[0]];
        UpdatedInfos(s.cache, update.toAdds[0], update.toDeletes);
      }
    case Merge(paths, gone) =>
      if Listing(s.deltas, paths) && OneEach(Fetch(s.deltas, paths)) {
        RoundRecords(s.snapshot, s.deltas, paths);
        LogLeft(s.deltas, gone);
      }
    case Load => assert InfoIdsOf(Metadata.Loaded(s.snapshot)) == IdsOf(s.snapshot);
    case _ =>
  }
}
