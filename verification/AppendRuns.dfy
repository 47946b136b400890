/** Over every run in append mode no chunk of any key is lost, doubled, cut or moved to another key.

    Behind every live row stand the written rows whose values it holds, end to end.
 */
module AppendRuns {
  import opened Types
  import opened Runs
  import opened Rows
  import opened SortedRows
  import opened Readings
  import opened Compaction
  import opened AppendTheorems
  import opened Pools

  // ---------------------------------------------------------------------------------------
  // The rows behind a row
  // ---------------------------------------------------------------------------------------

  /** `r` holds the values of `behind`, end to end; several rows had some byte in every column. */
  ghost predicate Stands(r: Row, behind: seq<Row>, width: nat) {
    && behind != [] && |r.values| == width
    && (forall q :: q in behind ==> q.key == r.key && |q.values| == width)
    && (forall i | 0 <= i < width :: Column(behind, i) == ValueAt(r, i))
    && (|behind| > 1 ==> forall i | 0 <= i < width :: Column(behind, i) != [])
  }

  ghost predicate AllStand(rows: seq<Row>, behind: seq<seq<Row>>, width: nat) {
    |behind| == |rows| && forall i :: 0 <= i < |rows| ==> Stands(rows[i], behind[i], width)
  }

  /** The rows behind each row of each file. */
  type Trace = map<FileId, seq<seq<Row>>>

  ghost predicate TraceOk(files: Files, trace: Trace, width: nat) {
    trace.Keys == files.Keys && forall f :: f in files ==> AllStand(files[f], trace[f], width)
  }

  /** How often `r` stands behind rows of each file. */
  function BehindEach(trace: Trace, r: Row): map<FileId, nat> { map f | f in trace :: multiset(Flatten(trace[f]))[r] }

  lemma BehindUpdate(trace: Trace, f: FileId, behind: seq<seq<Row>>, r: Row)
    ensures BehindEach(trace[f := behind], r) == BehindEach(trace, r)[f := multiset(Flatten(behind))[r]]
  {
  }

  lemma FlattenLast(behind: seq<seq<Row>>, last: seq<Row>, r: Row)
    ensures multiset(Flatten(behind + [last]))[r] == multiset(Flatten(behind))[r] + multiset(last)[r]
  {
    assert (behind + [last])[..|behind|] == behind;
  }

  /** The rows behind the rows of a merge. */
  lemma {:induction false} MergeTrace(files: Files, trace: Trace, out: seq<Row>, tags: seq<FileId>, width: nat, n: nat)
    returns (behind: seq<seq<Row>>)
    requires Interleaves(files, out, tags) && TraceOk(files, trace, width) && forall f :: f in files ==> f < n
    ensures AllStand(out, behind, width)
    ensures forall r :: multiset(Flatten(behind))[r] == Pool(BehindEach(trace, r), n)
    decreases |out|
  {
    if out == [] {
      behind := [];
      forall r ensures Pool(BehindEach(trace, r), n) == 0 {
        PoolZero(BehindEach(trace, r), n);
      }
    } else {
      var m := |out| - 1;
      var f, file := tags[m], files[tags[m]];
      var l := |file| - 1;
      var last := trace[f][l];
      var before := MergeTrace(files[f := file[..l]], trace[f := trace[f][..l]], out[..m], tags[..m], width, n);
      behind := before + [last];
      StandsAppend(out[..m], before, out[m], last, width);
      assert out == out[..m] + [out[m]];
      forall r ensures multiset(Flatten(behind))[r] == Pool(BehindEach(trace, r), n) {
        TraceLast(trace, f, before, r, n);
      }
    }
  }

  lemma StandsAppend(rows: seq<Row>, behind: seq<seq<Row>>, r: Row, last: seq<Row>, width: nat)
    requires AllStand(rows, behind, width) && Stands(r, last, width)
    ensures AllStand(rows + [r], behind + [last], width)
  {
  }

  lemma TraceLast(trace: Trace, f: FileId, before: seq<seq<Row>>, r: Row, n: nat)
    requires f in trace && f < n && trace[f] != []
    requires multiset(Flatten(before))[r] == Pool(BehindEach(trace[f := trace[f][..|trace[f]| - 1]], r), n)
    ensures multiset(Flatten(before + [Last(trace[f])]))[r] == Pool(BehindEach(trace, r), n)
  {
    var init, last := trace[f][..|trace[f]| - 1], Last(trace[f]);
    FlattenLast(before, last, r);
    FlattenLast(init, last, r);
    assert trace[f] == init + [last];
    BehindUpdate(trace, f, init, r);
    PoolUpdate(BehindEach(trace, r), f, multiset(Flatten(init))[r], n);
  }

  /** The rows behind the rows of one key. */
  function KeyBehind(rows: seq<Row>, behind: seq<seq<Row>>, k: Key): seq<Row>
    requires |behind| == |rows|
    decreases |rows|
  {
    if rows == [] then []
    else
      var n := |rows| - 1;
      KeyBehind(rows[..n], behind[..n], k) + if rows[n].key == k then behind[n] else []
  }

  /** `behind` stands behind the rows of one key. */
  ghost predicate KeyStands(mine: seq<Row>, behind: seq<Row>, k: Key, width: nat) {
    && (forall q :: q in behind ==> q.key == k && |q.values| == width)
    && (forall i | 0 <= i < width :: Column(behind, i) == Column(mine, i))
    && |mine| <= |behind| && (mine == [] ==> behind == [])
    && (|mine| == 1 && |behind| > 1 ==> forall i | 0 <= i < width :: Column(behind, i) != [])
  }

  lemma {:induction false} KeyBehindStands(rows: seq<Row>, behind: seq<seq<Row>>, k: Key, width: nat)
    requires AllStand(rows, behind, width)
    ensures KeyStands(KeyRows(rows, k), KeyBehind(rows, behind, k), k, width)
    decreases |rows|
  {
    if rows != [] {
      var n := |rows| - 1;
      var init := rows[..n];
      KeyBehindStands(init, behind[..n], k, width);
      assert rows == init + [rows[n]];
      KeyRowsAppend(init, rows[n], k);
      if rows[n].key == k {
        KeyStandsGrows(KeyRows(init, k), KeyBehind(init, behind[..n], k), rows[n], behind[n], k, width);
      } else {
        assert KeyRows(rows, k) == KeyRows(init, k) && KeyBehind(rows, behind, k) == KeyBehind(init, behind[..n], k);
      }
    }
  }

  lemma KeyStandsGrows(mine: seq<Row>, behind: seq<Row>, r: Row, more: seq<Row>, k: Key, width: nat)
    requires KeyStands(mine, behind, k, width) && Stands(r, more, width) && r.key == k
    ensures KeyStands(mine + [r], behind + more, k, width)
  {
    forall i | 0 <= i < width ensures Column(behind + more, i) == Column(mine + [r], i) {
      ColumnConcat(behind, more, i);
      ColumnConcat(mine, [r], i);
      ColumnOne(r, i);
    }
    if behind == [] {
      assert behind + more == more;
    }
  }

  lemma {:induction false} KeyBehindCount(rows: seq<Row>, behind: seq<seq<Row>>, k: Key, width: nat, r: Row)
    requires AllStand(rows, behind, width)
    ensures multiset(KeyBehind(rows, behind, k))[r] == if r.key == k then multiset(Flatten(behind))[r] else 0
    decreases |rows|
  {
    if rows != [] {
      var n := |rows| - 1;
      KeyBehindCount(rows[..n], behind[..n], k, width, r);
      FlattenLast(behind[..n], behind[n], r);
      assert behind == behind[..n] + [behind[n]];
      OtherKey(rows[n], behind[n], width, r);
      ConcatCount(KeyBehind(rows[..n], behind[..n], k), if rows[n].key == k then behind[n] else [], r);
    }
  }

  lemma OtherKey(x: Row, behind: seq<Row>, width: nat, r: Row)
    requires Stands(x, behind, width)
    ensures r.key != x.key ==> multiset(behind)[r] == 0
  {
    assert multiset(behind)[r] > 0 ==> r in behind;
  }

  lemma ConcatCount(a: seq<Row>, b: seq<Row>, r: Row)
    ensures multiset(a + b)[r] == multiset(a)[r] + multiset(b)[r]
  {
  }

  lemma {:induction false} KeyRowsCount(rows: seq<Row>, k: Key, r: Row)
    ensures multiset(KeyRows(rows, k))[r] == if r.key == k then multiset(rows)[r] else 0
    decreases |rows|
  {
    if rows != [] {
      var n := |rows| - 1;
      KeyRowsCount(rows[..n], k, r);
      CountLast(rows, r);
      assert rows == rows[..n] + [rows[n]];
      KeyRowsAppend(rows[..n], rows[n], k);
      ConcatCount(KeyRows(rows[..n], k), if rows[n].key == k then [rows[n]] else [], r);
    }
  }

  // ---------------------------------------------------------------------------------------
  // Compactions and writes
  // ---------------------------------------------------------------------------------------

  /** The rows behind the rows of a compacted file. */
  function Compacted(merged: seq<Row>, behind: seq<seq<Row>>, rows: seq<Row>): seq<seq<Row>>
    requires |behind| == |merged|
  {
    seq(|rows|, i requires 0 <= i < |rows| => KeyBehind(merged, behind, rows[i].key))
  }

  lemma CompactedRowStands(merged: seq<Row>, behind: seq<seq<Row>>, r: Row, width: nat)
    requires AllStand(merged, behind, width)
    requires KeyRows(merged, r.key) != [] && MergeRun(Append, KeyRows(merged, r.key)) == Ok(r)
    ensures Stands(r, KeyBehind(merged, behind, r.key), width)
  {
    var mine := KeyRows(merged, r.key);
    KeyBehindStands(merged, behind, r.key, width);
    StandWidth(merged, behind, width);
    assert mine[0] in mine;
    MergedValues(mine, r, width);
  }

  lemma MergedValues(mine: seq<Row>, r: Row, width: nat)
    requires mine != [] && |mine[0].values| == width && MergeRun(Append, mine) == Ok(r)
    ensures |r.values| == width
    ensures forall i | 0 <= i < width :: ValueAt(r, i) == Column(mine, i)
    ensures |mine| > 1 ==> forall i | 0 <= i < width :: Column(mine, i) != []
  {
  }

  lemma StandWidth(rows: seq<Row>, behind: seq<seq<Row>>, width: nat)
    requires AllStand(rows, behind, width)
    ensures forall r :: r in rows ==> |r.values| == width
  {
    forall r | r in rows ensures |r.values| == width {
      var i :| 0 <= i < |rows| && rows[i] == r;
      assert Stands(rows[i], behind[i], width);
    }
  }

  lemma CompactedStands(merged: seq<Row>, behind: seq<seq<Row>>, width: nat)
    requires Sorted(merged) && AllStand(merged, behind, width) && OneShot(Append, true, merged).Ok?
    ensures var rows := OneShot(Append, true, merged).value; AllStand(rows, Compacted(merged, behind, rows), width)
  {
    var rows := OneShot(Append, true, merged).value;
    OneShotMeaning(Append, true, merged);
    forall i | 0 <= i < |rows| ensures Stands(rows[i], Compacted(merged, behind, rows)[i], width) {
      var r := rows[i];
      assert r in KeyRows(rows, r.key);
      assert KeyRows(rows, r.key) == Given(Append, true, merged, r.key);
      CompactedRowStands(merged, behind, r, width);
    }
  }

  /** In rows with ascending keys only one row has the key of `r`. */
  lemma {:induction false} CompactedCount(merged: seq<Row>, behind: seq<seq<Row>>, rows: seq<Row>, width: nat, r: Row)
    requires AllStand(merged, behind, width) && Ascending(rows)
    ensures multiset(Flatten(Compacted(merged, behind, rows)))[r] ==
            if KeyRows(rows, r.key) != [] then multiset(KeyBehind(merged, behind, r.key))[r] else 0
    decreases |rows|
  {
    if rows != [] {
      var n := |rows| - 1;
      var init := rows[..n];
      CompactedCount(merged, behind, init, width, r);
      CompactedLast(merged, behind, rows, r);
      KeyBehindCount(merged, behind, rows[n].key, width, r);
      OnlyKey(rows, r.key);
    }
  }

  lemma CompactedLast(merged: seq<Row>, behind: seq<seq<Row>>, rows: seq<Row>, r: Row)
    requires |behind| == |merged| && rows != []
    ensures multiset(Flatten(Compacted(merged, behind, rows)))[r] ==
            multiset(Flatten(Compacted(merged, behind, rows[..|rows| - 1])))[r]
            + multiset(KeyBehind(merged, behind, Last(rows).key))[r]
  {
    var n := |rows| - 1;
    var init, last := Compacted(merged, behind, rows[..n]), KeyBehind(merged, behind, rows[n].key);
    assert Compacted(merged, behind, rows) == init + [last];
    FlattenLast(init, last, r);
  }

  lemma OnlyKey(rows: seq<Row>, k: Key)
    requires Ascending(rows) && rows != []
    ensures Last(rows).key == k ==> KeyRows(rows, k) != [] && KeyRows(rows[..|rows| - 1], k) == []
    ensures Last(rows).key != k ==> KeyRows(rows, k) == KeyRows(rows[..|rows| - 1], k)
  {
    var n := |rows| - 1;
    var init := rows[..n];
    assert rows == init + [rows[n]];
    KeyRowsAppend(init, rows[n], k);
    if rows[n].key == k {
      forall q | q in init ensures q.key != k {
        LessTotal(q.key, k);
      }
      FilterNone((q: Row) => q.key == k, init);
    }
  }

  lemma CompactedKeeps(merged: seq<Row>, behind: seq<seq<Row>>, width: nat, r: Row)
    requires Sorted(merged) && AllStand(merged, behind, width) && OneShot(Append, true, merged).Ok?
    ensures var rows := OneShot(Append, true, merged).value;
            multiset(Flatten(Compacted(merged, behind, rows)))[r] == multiset(Flatten(behind))[r]
  {
    var rows := OneShot(Append, true, merged).value;
    OneShotMeaning(Append, true, merged);
    CompactedCount(merged, behind, rows, width, r);
    KeyBehindCount(merged, behind, r.key, width, r);
    KeyBehindStands(merged, behind, r.key, width);
    assert KeyRows(rows, r.key) == Given(Append, true, merged, r.key);
    if KeyRows(merged, r.key) != [] {
      assert Answer(Append, true, merged, r.key).Some? && Answer(Append, true, merged, r.key).value.Ok?;
    }
  }

  function Taken(trace: Trace, ids: set<FileId>): Trace { map f | f in trace && f in ids :: trace[f] }

  lemma TraceReplaced(trace: Trace, inputs: set<FileId>, output: FileId, behind: seq<seq<Row>>, r: Row, n: nat)
    requires output !in trace && output < n
    requires multiset(Flatten(behind))[r] == Pool(BehindEach(Taken(trace, inputs), r), n)
    ensures Pool(BehindEach((trace - inputs)[output := behind], r), n) == Pool(BehindEach(trace, r), n)
  {
    PoolSplit(BehindEach(trace, r), BehindEach(Taken(trace, inputs), r), BehindEach(trace - inputs, r), n);
    BehindUpdate(trace - inputs, output, behind, r);
    PoolUpdate(BehindEach(trace - inputs, r), output, multiset(Flatten(behind))[r], n);
  }

  lemma CompactKeepsTrace(files: Files, trace: Trace, inputs: set<FileId>, output: FileId, merged: seq<Row>,
                          tags: seq<FileId>, width: nat, n: nat)
    returns (after: Trace)
    requires TraceOk(files, trace, width) && output !in files && output < n && forall f :: f in files ==> f < n
    requires Merges(Restrict(files, inputs), merged, tags) && OneShot(Append, true, merged).Ok?
    ensures TraceOk(Replace(files, inputs, output, OneShot(Append, true, merged).value), after, width)
    ensures forall r :: Pool(BehindEach(after, r), n) == Pool(BehindEach(trace, r), n)
  {
    var behind := MergeTrace(Restrict(files, inputs), Taken(trace, inputs), merged, tags, width, n);
    var rows := OneShot(Append, true, merged).value;
    CompactedStands(merged, behind, width);
    after := (trace - inputs)[output := Compacted(merged, behind, rows)];
    forall r ensures Pool(BehindEach(after, r), n) == Pool(BehindEach(trace, r), n) {
      CompactedKeeps(merged, behind, width, r);
      TraceReplaced(trace, inputs, output, Compacted(merged, behind, rows), r, n);
    }
  }

  function Themselves(rows: seq<Row>): seq<seq<Row>> {
    seq(|rows|, i requires 0 <= i < |rows| => [rows[i]])
  }

  lemma {:induction false} FlattenThemselves(rows: seq<Row>)
    ensures Flatten(Themselves(rows)) == rows
    decreases |rows|
  {
    if rows != [] {
      var n := |rows| - 1;
      FlattenThemselves(rows[..n]);
      assert Themselves(rows)[..n] == Themselves(rows[..n]);
      assert rows == rows[..n] + [rows[n]];
    }
  }

  lemma StandThemselves(rows: seq<Row>, width: nat)
    requires forall r :: r in rows ==> |r.values| == width
    ensures AllStand(rows, Themselves(rows), width)
  {
    forall i, c: nat | 0 <= i < |rows| ensures Column([rows[i]], c) == ValueAt(rows[i], c) {
      ColumnOne(rows[i], c);
    }
    assert forall i :: 0 <= i < |rows| ==> rows[i] in rows;
  }

  lemma WriteKeepsTrace(files: Files, written: Files, trace: Trace, f: FileId, rows: seq<Row>, width: nat, r: Row, n: nat)
    requires f !in trace && f !in written && Pool(BehindEach(trace, r), n) == Pool(Occurrences(written, r), n)
    ensures Pool(BehindEach(trace[f := Themselves(rows)], r), n) == Pool(Occurrences(written[f := rows], r), n)
  {
    FlattenThemselves(rows);
    BehindUpdate(trace, f, Themselves(rows), r);
    OccurrencesUpdate(written, f, rows, r);
    PoolUpdate(BehindEach(trace, r), f, multiset(rows)[r], n);
    PoolUpdate(Occurrences(written, r), f, multiset(rows)[r], n);
  }

  // ---------------------------------------------------------------------------------------
  // Every run
  // ---------------------------------------------------------------------------------------

  lemma {:induction false} UsedGrows(mode: UpdateMode, width: nat, steps: seq<Step>, run: seq<Store>, i: nat, j: nat)
    requires Run(mode, width, steps, run) && i <= j < |run|
    ensures run[i].used <= run[j].used
    decreases j
  {
    if i < j {
      UsedGrows(mode, width, steps, run, i, j - 1);
      assert run[j - 1 + 1] == After(mode, run[j - 1], steps[j - 1]);
    }
  }

  /** Behind the live rows stand exactly the written rows. */
  ghost predicate Behind(s: Store, trace: Trace, width: nat, n: nat) {
    TraceOk(s.files, trace, width) && forall r :: Pool(BehindEach(trace, r), n) == Pool(Occurrences(s.written, r), n)
  }

  lemma StepKeepsBehind(width: nat, s: Store, step: Step, trace: Trace, n: nat) returns (after: Trace)
    requires FilesOk(s.files, s.used, width) && s.written.Keys <= s.used && Can(Append, width, s, step)
    requires Behind(s, trace, width, n) && forall f :: f in After(Append, s, step).used ==> f < n
    ensures Behind(After(Append, s, step), after, width, n)
  {
    match step
    case Write(f, rows) =>
      after := trace[f := Themselves(rows)];
      StandThemselves(rows, width);
      forall r ensures Pool(BehindEach(after, r), n) == Pool(Occurrences(s.written[f := rows], r), n) {
        WriteKeepsTrace(s.files, s.written, trace, f, rows, width, r, n);
      }
    case Compact(inputs, output, merged, tags) =>
      assert output in After(Append, s, step).used;
      after := CompactKeepsTrace(s.files, trace, inputs, output, merged, tags, width, n);
  }

  lemma {:induction false} RunBehind(width: nat, steps: seq<Step>, run: seq<Store>, j: nat, n: nat) returns (trace: Trace)
    requires Run(Append, width, steps, run) && j < |run|
    requires forall f :: f in run[j].used ==> f < n
    ensures Behind(run[j], trace, width, n)
  {
    if j == 0 {
      trace := map[];
    } else {
      UsedGrows(Append, width, steps, run, j - 1, j);
      var before := RunBehind(width, steps, run, j - 1, n);
      RunFiles(Append, width, steps, run, j - 1);
      assert Can(Append, width, run[j - 1], steps[j - 1]) && run[j - 1 + 1] == After(Append, run[j - 1], steps[j - 1]);
      trace := StepKeepsBehind(width, run[j - 1], steps[j - 1], before, n);
    }
  }

  lemma SameCounts<T>(a: seq<T>, b: seq<T>)
    requires forall x :: multiset(a)[x] == multiset(b)[x]
    ensures multiset(a) == multiset(b)
  {
  }

  /** The rows ever written under a key, in the order in which the live rows hold them. */
  lemma RunChunks(width: nat, steps: seq<Step>, run: seq<Store>, j: nat, k: Key,
                  out: seq<Row>, tags: seq<FileId>, all: seq<Row>, allTags: seq<FileId>) returns (chunks: seq<Row>)
    requires Run(Append, width, steps, run) && j < |run|
    requires Merges(run[j].files, out, tags) && Merges(run[j].written, all, allTags)
    ensures KeyStands(KeyRows(out, k), chunks, k, width) && multiset(chunks) == multiset(KeyRows(all, k))
  {
    RunFiles(Append, width, steps, run, j);
    var n := Bound(run[j].used);
    var trace := RunBehind(width, steps, run, j, n);
    var behind := MergeTrace(run[j].files, trace, out, tags, width, n);
    chunks := KeyBehind(out, behind, k);
    KeyBehindStands(out, behind, k, width);
    forall r ensures multiset(chunks)[r] == multiset(KeyRows(all, k))[r] {
      KeyBehindCount(out, behind, k, width, r);
      KeyRowsCount(all, k, r);
      MergeOccurrences(run[j].written, all, allTags, r, n);
    }
    SameCounts(chunks, KeyRows(all, k));
  }

  /** In every reachable state the merge of the live files holds, for every key, the values of all
      rows ever written under it, whole, end to end, and in one order for all columns. */
  lemma ChunksConserved(width: nat, steps: seq<Step>, run: seq<Store>, j: nat, k: Key,
                        out: seq<Row>, tags: seq<FileId>, all: seq<Row>, allTags: seq<FileId>) returns (chunks: seq<Row>)
    requires Run(Append, width, steps, run) && j < |run|
    requires Merges(run[j].files, out, tags) && Merges(run[j].written, all, allTags)
    ensures multiset(chunks) == multiset(KeyRows(all, k))
    ensures forall i | 0 <= i < width :: Column(KeyRows(out, k), i) == Column(chunks, i)
  {
    chunks := RunChunks(width, steps, run, j, k, out, tags, all, allTags);
  }

  /** So no byte is lost, doubled or moved to another key. */
  lemma BytesConserved(width: nat, steps: seq<Step>, run: seq<Store>, j: nat, k: Key, i: nat,
                       out: seq<Row>, tags: seq<FileId>, all: seq<Row>, allTags: seq<FileId>)
    requires Run(Append, width, steps, run) && j < |run| && i < width
    requires Merges(run[j].files, out, tags) && Merges(run[j].written, all, allTags)
    ensures multiset(Column(KeyRows(out, k), i)) == multiset(Column(KeyRows(all, k), i))
  {
    var chunks := RunChunks(width, steps, run, j, k, out, tags, all, allTags);
    SameBytes(chunks, KeyRows(all, k), i);
  }

  lemma {:induction false} SameBytes(xs: seq<Row>, ys: seq<Row>, i: nat)
    requires multiset(xs) == multiset(ys)
    ensures multiset(Column(xs, i)) == multiset(Column(ys, i))
    decreases |xs|
  {
    SameLength(xs, ys);
    if xs != [] {
      var n, x := |xs| - 1, Last(xs);
      assert x in multiset(ys);
      var j :| 0 <= j < |ys| && ys[j] == x;
      var a, b := ys[..j], ys[j + 1..];
      assert xs == xs[..n] + [x] && ys == a + [x] + b;
      WithoutRow(xs[..n], a, b, x);
      SameBytes(xs[..n], a + b, i);
      ColumnConcat(a + [x], b, i);
      ColumnConcat(a, [x], i);
      ColumnConcat(a, b, i);
      ColumnOne(x, i);
    }
  }

  lemma WithoutRow(init: seq<Row>, a: seq<Row>, b: seq<Row>, x: Row)
    requires multiset(init + [x]) == multiset(a + [x] + b)
    ensures multiset(init) == multiset(a + b)
  {
    assert multiset(init) == multiset(init + [x]) - multiset{x};
    assert multiset(a + b) == multiset(a + [x] + b) - multiset{x};
  }

  /** Merging a key fails exactly when merging all that was ever written under it does. */
  lemma StandsMergeable(mine: seq<Row>, chunks: seq<Row>, all: seq<Row>, k: Key, width: nat)
    requires KeyStands(mine, chunks, k, width) && multiset(chunks) == multiset(all)
    requires forall r :: r in mine || r in all ==> |r.values| == width
    ensures mine == [] <==> all == []
    ensures mine != [] ==> (Mergeable(Append, mine) <==> Mergeable(Append, all))
  {
    SameLength(chunks, all);
    if mine != [] {
      assert mine[0] in mine && all[0] in all;
      forall i | 0 <= i < width ensures Column(mine, i) == [] <==> Column(all, i) == [] {
        SameEmptyColumn(chunks, all, i);
      }
    }
  }

  /** In every reachable state a scan of the live files fails exactly when a scan of all that was
      ever written does. */
  lemma FailureConserved(width: nat, steps: seq<Step>, run: seq<Store>, j: nat,
                         out: seq<Row>, tags: seq<FileId>, all: seq<Row>, allTags: seq<FileId>)
    requires Run(Append, width, steps, run) && j < |run|
    requires Merges(run[j].files, out, tags) && Merges(run[j].written, all, allTags)
    ensures OneShot(Append, false, out).Err? <==> OneShot(Append, false, all).Err?
  {
    RunFiles(Append, width, steps, run, j);
    MergedWidth(run[j].files, run[j].used, width, out, tags);
    MergedWidth(run[j].written, run[j].used, width, all, allTags);
    OneShotMeaning(Append, false, out);
    OneShotMeaning(Append, false, all);
    forall k
      ensures (Answer(Append, false, out, k).Some? && Answer(Append, false, out, k).value.Err?)
         <==> (Answer(Append, false, all, k).Some? && Answer(Append, false, all, k).value.Err?)
    {
      var chunks := RunChunks(width, steps, run, j, k, out, tags, all, allTags);
      StandsMergeable(KeyRows(out, k), chunks, KeyRows(all, k), k, width);
      AnswerIs(out, width, k);
      AnswerIs(all, width, k);
    }
  }
}
