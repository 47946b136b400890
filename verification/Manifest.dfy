/** The manifest: an in-memory list of SST files, a snapshot object and delta objects. */
module Manifest {
  import opened Types
  import opened Sst
  import opened LittleEndian
  import opened Codec
  import opened Updates

  /** A stored update; a delta object holds one. */
  datatype ManifestUpdate = ManifestUpdate(toAdds: seq<FileInfo>, toDeletes: seq<u64>)

  /** A vector of records cannot take more bytes than the address space has. */
  const MAX_RECORDS: nat := 0x400_0000_0000_0000

  function ToRecord(f: FileInfo): Record { Record(f.id, f.meta.range, f.meta.size, f.meta.numRows) }

  /** The sequence is not stored; a file's id stands in for it. */
  function FromRecord(r: Record): FileInfo { FileInfo(r.id, FileMeta(r.id, r.numRows, r.size, r.range)) }

  function ToRecords(fs: seq<FileInfo>): (rs: seq<Record>)
    ensures |rs| == |fs|
  {
    seq(|fs|, i requires 0 <= i < |fs| => ToRecord(fs[i]))
  }

  function Retain(rs: seq<Record>, ids: seq<u64>): (kept: seq<Record>)
    ensures |kept| <= |rs|
    ensures forall r :: r in kept <==> r in rs && r.id !in ids
  {
    if rs == [] then []
    else
      var rest := Retain(rs[1..], ids);
      assert rs == [rs[0]] + rs[1..];
      if rs[0].id in ids then rest else [rs[0]] + rest
  }

  lemma {:induction false} RetainAppend(rs: seq<Record>, r: Record, ids: seq<u64>)
    ensures Retain(rs + [r], ids) == Retain(rs, ids) + (if r.id in ids then [] else [r])
  {
    if rs == [] {
      assert rs + [r] == [r];
    } else {
      assert (rs + [r])[1..] == rs[1..] + [r];
      RetainAppend(rs[1..], r, ids);
    }
  }

  ghost function RecordIds(rs: seq<Record>): set<FileId> { set r | r in rs :: r.id }

  ghost function InfoIds(fs: seq<FileInfo>): set<FileId> { set f | f in fs :: f.id }

  ghost function IdSet(ids: seq<u64>): set<FileId> { set i | i in ids :: i }

  /** A stored update as a change to sets of ids. */
  ghost function AsUpdate(u: ManifestUpdate): Update { Update(InfoIds(u.toAdds), IdSet(u.toDeletes)) }

  ghost function AsUpdates(us: seq<ManifestUpdate>): (r: seq<Update>)
    ensures |r| == |us|
  {
    seq(|us|, i requires 0 <= i < |us| => AsUpdate(us[i]))
  }

  /** Where a file's record has its id, its time range, its size and its number of rows. */
  lemma FileLayout(f: FileInfo)
    ensures var bs := EncodeRecord(ToRecord(f));
            && FieldAt(bs, 0, f.id, 8) && FieldAt(bs, 8, Unsigned(f.meta.range.start), 8) && FieldAt(bs, 16, Unsigned(f.meta.range.end), 8)
            && FieldAt(bs, 24, f.meta.size, 4) && FieldAt(bs, 28, f.meta.numRows, 4)
  {
    RecordLayout(ToRecord(f));
  }

  /** A file survives the trip through a snapshot record, sequence included, exactly when its
      sequence is its id. */
  lemma SequenceRestored(f: FileInfo)
    ensures FromRecord(ToRecord(f)) == f <==> f.meta.maxSequence == f.id
  {
  }

  // ---------------------------------------------------------------------------------------
  // Snapshot
  // ---------------------------------------------------------------------------------------

  class Snapshot {
    var header: Header
    var records: seq<Record>

    function Data(): Contents
      reads this
    {
      Contents(header, records)
    }

    /** The header counts the records. */
    ghost predicate Valid()
      reads this
    {
      header.magic == MAGIC && header.length == RECORD_LENGTH * |records| && |records| < MAX_RECORDS
    }

    constructor (contents: Contents)
      ensures Data() == contents
    {
      header := contents.header;
      records := contents.records;
    }

    method AddRecords(files: seq<FileInfo>)
      requires Valid() && |records| + |files| < MAX_RECORDS
      modifies this
      ensures Valid()
      ensures records == old(records) + ToRecords(files)
      ensures header == old(header).(length := RECORD_LENGTH * |records|)
    {
      records := records + ToRecords(files);
      header := header.(length := |records| * RECORD_LENGTH);
    }

    method DeleteRecords(ids: seq<u64>)
      requires Valid()
      modifies this
      ensures Valid()
      ensures records == Retain(old(records), ids)
      ensures header == old(header).(length := RECORD_LENGTH * |records|)
    {
      var kept: seq<Record> := [];
      for i := 0 to |records|
        invariant records == old(records) && header == old(header)
        invariant kept == Retain(records[..i], ids)
      {
        RetainAppend(records[..i], records[i], ids);
        assert records[..i + 1] == records[..i] + [records[i]];
        if records[i].id !in ids {
          kept := kept + [records[i]];
        }
      }
      assert records[..|records|] == records;
      records := kept;
      header := header.(length := |records| * RECORD_LENGTH);
    }

    method IntoBytes() returns (bytes: seq<u8>)
      ensures bytes == Encode(Data())
    {
      bytes := EncodeHeader(header);
      for i := 0 to |records|
        invariant bytes == EncodeHeader(header) + EncodeRecords(records[..i])
      {
        EncodeRecordsAppend(records[..i], records[i]);
        assert records[..i + 1] == records[..i] + [records[i]];
        bytes := bytes + EncodeRecord(records[i]);
      }
      assert records[..|records|] == records;
    }

    /** The files of a snapshot that is loaded at startup. */
    method IntoSsts() returns (ssts: seq<SstFile>)
      requires Valid()
      ensures |ssts| == |records| && fresh(ssts)
      ensures forall i :: 0 <= i < |ssts| ==> Info(ssts[i]) == FromRecord(records[i]) && !ssts[i].inCompaction
    {
      ssts := [];
      if header.length == 0 {
        return;
      }
      for i := 0 to |records|
        invariant |ssts| == i && fresh(ssts)
        invariant forall k :: 0 <= k < i ==> Info(ssts[k]) == FromRecord(records[k]) && !ssts[k].inCompaction
      {
        var info := FromRecord(records[i]);
        var f := new SstFile(info.id, info.meta);
        ssts := ssts + [f];
      }
    }
  }

  // ---------------------------------------------------------------------------------------
  // The cached list
  // ---------------------------------------------------------------------------------------

  function RetainFiles(fs: seq<SstFile>, ids: seq<u64>): (kept: seq<SstFile>)
    ensures forall f | f in kept :: f in fs && f.id !in ids
    ensures forall f | f in fs && f.id !in ids :: f in kept
  {
    if fs == [] then []
    else
      var rest := RetainFiles(fs[1..], ids);
      assert fs == [fs[0]] + fs[1..];
      if fs[0].id in ids then rest else [fs[0]] + rest
  }

  lemma {:induction false} RetainFilesAppend(fs: seq<SstFile>, f: SstFile, ids: seq<u64>)
    ensures RetainFiles(fs + [f], ids) == RetainFiles(fs, ids) + (if f.id in ids then [] else [f])
  {
    if fs == [] {
      assert fs + [f] == [f];
    } else {
      assert (fs + [f])[1..] == fs[1..] + [f];
      RetainFilesAppend(fs[1..], f, ids);
    }
  }

  function Overlapping(fs: seq<SstFile>, range: TimeRange): (found: seq<SstFile>)
    ensures forall f | f in found :: f in fs && f.meta.range.Overlaps(range)
    ensures forall f | f in fs && f.meta.range.Overlaps(range) :: f in found
  {
    if fs == [] then []
    else
      var rest := Overlapping(fs[1..], range);
      assert fs == [fs[0]] + fs[1..];
      if fs[0].meta.range.Overlaps(range) then [fs[0]] + rest else rest
  }

  lemma {:induction false} OverlappingAppend(fs: seq<SstFile>, f: SstFile, range: TimeRange)
    ensures Overlapping(fs + [f], range) == Overlapping(fs, range) + (if f.meta.range.Overlaps(range) then [f] else [])
  {
    if fs == [] {
      assert fs + [f] == [f];
    } else {
      assert (fs + [f])[1..] == fs[1..] + [f];
      OverlappingAppend(fs[1..], f, range);
    }
  }

  /** A query finds exactly the files that have a timestamp of its range in theirs. */
  lemma FoundExactly(fs: seq<SstFile>, query: TimeRange, f: SstFile)
    requires f in fs && f.meta.range.NonEmpty() && query.NonEmpty()
    ensures f in Overlapping(fs, query) <==> exists t :: f.meta.range.Contains(t) && query.Contains(t)
  {
    OverlapsMeansShares(f.meta.range, query);
  }

  ghost function FileIds(fs: seq<SstFile>): set<FileId> { set f | f in fs :: f.id }

  class Cache {
    var ssts: seq<SstFile>

    constructor (ssts: seq<SstFile>)
      ensures this.ssts == ssts
    {
      this.ssts := ssts;
    }

    /** The cache half of an update: push the new files, then retain the files not deleted. */
    method Update(toAdds: seq<SstFile>, toDeletes: seq<u64>)
      modifies this
      ensures ssts == RetainFiles(old(ssts) + toAdds, toDeletes)
      ensures FileIds(ssts) == Apply(old(FileIds(ssts)), Updates.Update(FileIds(toAdds), IdSet(toDeletes)))
    {
      var all := ssts;
      for i := 0 to |toAdds|
        invariant all == old(ssts) + toAdds[..i]
      {
        assert toAdds[..i + 1] == toAdds[..i] + [toAdds[i]];
        all := all + [toAdds[i]];
      }
      assert toAdds[..|toAdds|] == toAdds;
      var kept: seq<SstFile> := [];
      for i := 0 to |all|
        invariant kept == RetainFiles(all[..i], toDeletes)
      {
        RetainFilesAppend(all[..i], all[i], toDeletes);
        assert all[..i + 1] == all[..i] + [all[i]];
        if all[i].id !in toDeletes {
          kept := kept + [all[i]];
        }
      }
      assert all[..|all|] == all;
      RetainFilesIds(ssts, toAdds, toDeletes);
      ssts := kept;
    }

    method FindSsts(range: TimeRange) returns (found: seq<SstFile>)
      ensures found == Overlapping(ssts, range)
    {
      found := [];
      for i := 0 to |ssts|
        invariant found == Overlapping(ssts[..i], range)
      {
        OverlappingAppend(ssts[..i], ssts[i], range);
        assert ssts[..i + 1] == ssts[..i] + [ssts[i]];
        if ssts[i].meta.range.Overlaps(range) {
          found := found + [ssts[i]];
        }
      }
      assert ssts[..|ssts|] == ssts;
    }
  }

  lemma RetainFilesIds(fs: seq<SstFile>, adds: seq<SstFile>, ids: seq<u64>)
    ensures FileIds(RetainFiles(fs + adds, ids)) == Apply(FileIds(fs), Update(FileIds(adds), IdSet(ids)))
  {
    var kept := RetainFiles(fs + adds, ids);
    forall x ensures x in FileIds(kept) <==> x in Apply(FileIds(fs), Update(FileIds(adds), IdSet(ids))) {
      if x in Apply(FileIds(fs), Update(FileIds(adds), IdSet(ids))) {
        var f :| (f in fs || f in adds) && f.id == x;
        assert f in fs + adds && f in kept;
      }
      if x in FileIds(kept) {
        var f :| f in kept && f.id == x;
        assert f in fs || f in adds;
      }
    }
  }

  // ---------------------------------------------------------------------------------------
  // The merger
  // ---------------------------------------------------------------------------------------

  /** The records after all adds of the updates, in listing order. */
  function AddedRecords(us: seq<ManifestUpdate>): seq<Record> {
    if us == [] then [] else AddedRecords(us[..|us| - 1]) + ToRecords(us[|us| - 1].toAdds)
  }

  function DeletedIds(us: seq<ManifestUpdate>): seq<u64> {
    if us == [] then [] else DeletedIds(us[..|us| - 1]) + us[|us| - 1].toDeletes
  }

  /** Merging stored updates onto stored records is the replay of their ids. */
  lemma MergedIds(base: seq<Record>, us: seq<ManifestUpdate>)
    ensures RecordIds(Retain(base + AddedRecords(us), DeletedIds(us))) == Replay(RecordIds(base), AsUpdates(us))
  {
    var merged := Retain(base + AddedRecords(us), DeletedIds(us));
    AddedIds(us);
    forall x ensures x in RecordIds(merged) <==> x in Replay(RecordIds(base), AsUpdates(us)) {
      if x in Replay(RecordIds(base), AsUpdates(us)) {
        var r :| (r in base || r in AddedRecords(us)) && r.id == x;
        assert r in base + AddedRecords(us) && r in merged;
      }
      if x in RecordIds(merged) {
        var r :| r in merged && r.id == x;
        assert r in base || r in AddedRecords(us);
      }
    }
  }

  lemma ToRecordsIds(fs: seq<FileInfo>)
    ensures RecordIds(ToRecords(fs)) == InfoIds(fs)
  {
    forall i | 0 <= i < |fs| ensures ToRecords(fs)[i].id == fs[i].id {}
    forall f | f in fs ensures f.id in RecordIds(ToRecords(fs)) {
      var i :| 0 <= i < |fs| && fs[i] == f;
      assert ToRecords(fs)[i] in ToRecords(fs);
    }
  }

  lemma {:induction false} AddedIds(us: seq<ManifestUpdate>)
    ensures RecordIds(AddedRecords(us)) == AddsOf(AsUpdates(us))
    ensures IdSet(DeletedIds(us)) == DelsOf(AsUpdates(us))
    decreases |us|
  {
    if us != [] {
      var n := |us| - 1;
      var init, last := us[..n], us[n];
      AddedIds(init);
      ToRecordsIds(last.toAdds);
      assert AsUpdates(us) == AsUpdates(init) + [AsUpdate(last)];
      DelsOfConcat(AsUpdates(init), [AsUpdate(last)]);
      OneUpdate(AsUpdate(last));
      assert RecordIds(AddedRecords(us)) == RecordIds(AddedRecords(init)) + RecordIds(ToRecords(last.toAdds));
      IdSetConcat(DeletedIds(init), last.toDeletes);
    }
  }

  lemma IdSetConcat(a: seq<u64>, b: seq<u64>)
    ensures IdSet(a + b) == IdSet(a) + IdSet(b)
  {
    forall x | x in IdSet(a + b) ensures x in IdSet(a) + IdSet(b) {
      var i :| i in a + b && i == x;
      assert i in a || i in b;
    }
    forall x | x in IdSet(a) + IdSet(b) ensures x in IdSet(a + b) {
      var i :| (i in a || i in b) && i == x;
      assert i in a + b;
    }
  }

  /** A merge round or a load fails on a snapshot that does not decode, or on an object store error. */
  datatype Failure = Undecodable(error: Error) | StoreError

  /** Which of the requests of a merge round fail. */
  datatype Faults = Faults(readSnapshot: bool, readDelta: bool, putSnapshot: bool) {
    predicate None() { !readSnapshot && !readDelta && !putSnapshot }
  }

  class ObjectStore {
    var snapshot: Option<seq<u8>>
    var deltas: map<DeltaId, ManifestUpdate>

    constructor ()
      ensures snapshot == None && deltas == map[]
    {
      snapshot := None;
      deltas := map[];
    }

    /** A missing snapshot object reads as the empty snapshot; other read errors are errors. */
    method ReadSnapshot(fails: bool) returns (r: Result<Contents, Failure>)
      ensures fails ==> r == Err(StoreError)
      ensures !fails && (snapshot.None? || snapshot == Some([])) ==> r == Ok(Empty)
      ensures !fails && snapshot.Some? && snapshot.value != [] ==>
                (r.Ok? <==> Accepts(snapshot.value)) && (r.Err? ==> r.error.Undecodable?) &&
                (r.Ok? ==> WellFormed(r.value) && Encode(r.value) == snapshot.value)
    {
      if fails {
        return Err(StoreError);
      }
      if snapshot.None? {
        return Ok(Empty);
      }
      var contents := TryFrom(snapshot.value);
      r := if contents.Ok? then Ok(contents.value) else Err(Undecodable(contents.error));
    }
  }

  function Fetch(deltas: map<DeltaId, ManifestUpdate>, paths: seq<DeltaId>): (us: seq<ManifestUpdate>)
    requires forall p :: p in paths ==> p in deltas
    ensures |us| == |paths|
  {
    seq(|paths|, i requires 0 <= i < |paths| => deltas[paths[i]])
  }

  ghost predicate Listing(deltas: map<DeltaId, ManifestUpdate>, paths: seq<DeltaId>) {
    && (forall p :: p in paths <==> p in deltas)
    && (forall i, j :: 0 <= i < j < |paths| ==> paths[i] != paths[j])
  }

  /** The snapshot object, if there is one, is the encoding of `base`. */
  ghost predicate Holds(snapshot: Option<seq<u8>>, base: Contents) {
    if snapshot.None? || snapshot == Some([]) then base == Empty
    else WellFormed(base) && snapshot == Some(Encode(base))
  }

  predicate Readable(snapshot: Option<seq<u8>>) {
    snapshot.None? || snapshot.value == [] || Accepts(snapshot.value)
  }

  /** The records of the next snapshot fit in memory. */
  ghost predicate Fits(snapshot: Option<seq<u8>>, us: seq<ManifestUpdate>) {
    forall base :: Holds(snapshot, base) ==> |base.records| + |AddedRecords(us)| < MAX_RECORDS
  }

  /** The contents after one merge round. */
  function Merged(base: Contents, us: seq<ManifestUpdate>): Contents
    requires |base.records| + |AddedRecords(us)| < MAX_RECORDS
  {
    var records := Retain(base.records + AddedRecords(us), DeletedIds(us));
    Contents(base.header.(length := RECORD_LENGTH * |records|), records)
  }

  /** One merge round replays the ids; what it writes can be read back exactly when some file
      stays live, and it is then the base of the next round. */
  lemma MergedReadable(base: Contents, us: seq<ManifestUpdate>)
    requires |base.records| + |AddedRecords(us)| < MAX_RECORDS
    requires base.header.magic == MAGIC
    ensures RecordIds(Merged(base, us).records) == Replay(RecordIds(base.records), AsUpdates(us))
    ensures Accepts(Encode(Merged(base, us))) <==> Replay(RecordIds(base.records), AsUpdates(us)) != {}
    ensures Replay(RecordIds(base.records), AsUpdates(us)) != {} ==> Holds(Some(Encode(Merged(base, us))), Merged(base, us))
  {
    MergedIds(base.records, us);
    var m := Merged(base, us);
    if m.records != [] {
      assert m.records[0].id in RecordIds(m.records);
      EncodingAccepted(m);
    } else {
      assert RecordIds(m.records) == {};
      HeaderRoundTrip(m.header);
      assert Encode(m) == EncodeHeader(m.header);
      assert HeaderOf(Encode(m)) == m.header;
    }
  }

  class ManifestMerger {
    const store: ObjectStore
    var deltasNum: int

    constructor (store: ObjectStore)
      ensures this.store == store && deltasNum == 0
    {
      this.store := store;
      deltasNum := 0;
    }

    /** One merge round. `paths` is what the listing returns, in whatever order; `kept` are the
        delta objects whose deletion fails; `base` is what the snapshot object decodes to. An error
        of the store, or a snapshot object that does not decode, leaves the store as it was. */
    method DoMerge(firstRun: bool, paths: seq<DeltaId>, kept: set<DeltaId>, faults: Faults)
      returns (r: Result<(), Failure>, ghost base: Contents)
      requires Listing(store.deltas, paths) && Fits(store.snapshot, Fetch(store.deltas, paths))
      modifies this`deltasNum, store
      ensures r.Ok? <==> paths == [] || (Readable(old(store.snapshot)) && faults.None())
      ensures r.Err? && (faults.readSnapshot || Readable(old(store.snapshot))) ==> r.error == StoreError
      ensures r.Err? || paths == [] ==> store.snapshot == old(store.snapshot) && store.deltas == old(store.deltas)
      ensures paths == [] ==> deltasNum == old(deltasNum)
      ensures r.Err? ==> deltasNum == if firstRun then |paths| else old(deltasNum)
      ensures r.Ok? && paths != [] ==>
                && Holds(old(store.snapshot), base)
                && |base.records| + |AddedRecords(old(Fetch(store.deltas, paths)))| < MAX_RECORDS
                && store.snapshot == Some(Encode(Merged(base, old(Fetch(store.deltas, paths)))))
                && store.deltas == old(store.deltas) - (old(store.deltas.Keys) - kept)
                && deltasNum == (if firstRun then |paths| else old(deltasNum)) - |old(store.deltas.Keys) - kept|
    {
      base := Empty;
      if paths == [] {
        return Ok(()), base;
      }
      if firstRun {
        deltasNum := |paths|;
      }
      var us := Fetch(store.deltas, paths);
      r, base := PutMerged(us, faults);
      if r.Ok? {
        DeleteDeltas(paths, kept);
      }
    }

    method PutMerged(us: seq<ManifestUpdate>, faults: Faults) returns (r: Result<(), Failure>, ghost base: Contents)
      requires Fits(store.snapshot, us)
      modifies store`snapshot
      ensures r.Ok? <==> Readable(old(store.snapshot)) && faults.None()
      ensures r.Err? && (faults.readSnapshot || Readable(old(store.snapshot))) ==> r.error == StoreError
      ensures r.Err? ==> store.snapshot == old(store.snapshot)
      ensures r.Ok? ==>
                && Holds(old(store.snapshot), base) && |base.records| + |AddedRecords(us)| < MAX_RECORDS
                && store.snapshot == Some(Encode(Merged(base, us)))
    {
      base := Empty;
      var contents := store.ReadSnapshot(faults.readSnapshot);
      if contents.Err? {
        return Err(contents.error), base;
      }
      if faults.readDelta {
        return Err(StoreError), base;
      }
      base := contents.value;
      assert Holds(store.snapshot, base);
      var snapshot := new Snapshot(contents.value);
      var toDeletes := Collect(snapshot, us);
      snapshot.DeleteRecords(toDeletes);
      var bytes := snapshot.IntoBytes();
      if faults.putSnapshot {
        return Err(StoreError), base;
      }
      store.snapshot := Some(bytes);
      r := Ok(());
    }

    /** Adds the records of every update to the snapshot and collects the deletes. */
    method Collect(snapshot: Snapshot, us: seq<ManifestUpdate>) returns (toDeletes: seq<u64>)
      requires snapshot.Valid() && |snapshot.records| + |AddedRecords(us)| < MAX_RECORDS
      modifies snapshot
      ensures snapshot.Valid() && snapshot.records == old(snapshot.records) + AddedRecords(us)
      ensures snapshot.header == old(snapshot.header).(length := RECORD_LENGTH * |snapshot.records|)
      ensures toDeletes == DeletedIds(us)
    {
      toDeletes := [];
      for i := 0 to |us|
        invariant snapshot.Valid() && snapshot.records == old(snapshot.records) + AddedRecords(us[..i])
        invariant snapshot.header == old(snapshot.header).(length := RECORD_LENGTH * |snapshot.records|)
        invariant toDeletes == DeletedIds(us[..i])
      {
        var next := us[..i + 1];
        assert next[..i] == us[..i];
        AddedPrefix(us, i + 1);
        snapshot.AddRecords(us[i].toAdds);
        toDeletes := toDeletes + us[i].toDeletes;
      }
      assert us[..|us|] == us;
    }

    method DeleteDeltas(paths: seq<DeltaId>, kept: set<DeltaId>)
      requires Listing(store.deltas, paths)
      modifies this`deltasNum, store`deltas
      ensures store.deltas == old(store.deltas) - (old(store.deltas.Keys) - kept)
      ensures deltasNum == old(deltasNum) - |old(store.deltas.Keys) - kept|
    {
      ghost var gone: set<DeltaId> := {};
      for i := 0 to |paths|
        invariant forall p :: p in gone <==> p in paths[..i] && p !in kept
        invariant store.deltas == old(store.deltas) - gone
        invariant deltasNum == old(deltasNum) - |gone|
      {
        PrefixMember(paths, i);
        if paths[i] !in kept {
          Remove(old(store.deltas), gone, paths[i]);
          store.deltas := store.deltas - {paths[i]};
          deltasNum := deltasNum - 1;
          gone := gone + {paths[i]};
        }
      }
      assert paths[..|paths|] == paths;
      assert gone == old(store.deltas.Keys) - kept;
    }
  }

  lemma PrefixMember(paths: seq<DeltaId>, i: nat)
    requires i < |paths| && forall a, b :: 0 <= a < b < |paths| ==> paths[a] != paths[b]
    ensures paths[i] !in paths[..i]
    ensures forall p :: p in paths[..i + 1] <==> p in paths[..i] || p == paths[i]
  {
    assert paths[..i + 1] == paths[..i] + [paths[i]];
  }

  lemma Remove<T>(m: map<DeltaId, T>, gone: set<DeltaId>, d: DeltaId)
    requires d !in gone
    ensures m - gone - {d} == m - (gone + {d}) && |gone + {d}| == |gone| + 1
  {
  }

  lemma {:induction false} AddedPrefix(us: seq<ManifestUpdate>, n: nat)
    requires n <= |us|
    ensures |AddedRecords(us[..n])| <= |AddedRecords(us)|
    decreases |us|
  {
    if n < |us| {
      var init := us[..|us| - 1];
      AddedPrefix(init, n);
      assert init[..n] == us[..n];
    } else {
      assert us[..n] == us;
    }
  }
}
