/** The rows that a whole scan gives: one merge for each plan, and the union of their results. */
module ScanRows {
  import opened Types
  import opened Runs
  import opened Rows
  import opened SortedRows
  import opened Readings
  import opened Compaction
  import opened Sst
  import opened Scan
  import opened Segments
  import opened SegmentKeys
  import opened Sorting

  /** The files of each plan, a merge of them, and what the plan gives. */
  ghost predicate Scans(mode: UpdateMode, plans: seq<Files>, outs: seq<seq<Row>>, results: seq<seq<Row>>) {
    && |outs| == |plans| && |results| == |plans|
    && (forall p :: 0 <= p < |plans| ==> exists tags :: Merges(plans[p], outs[p], tags))
    && (forall p :: 0 <= p < |plans| ==> OneShot(mode, false, outs[p]) == Ok(results[p]))
  }

  /** Some file of the plan holds a row of `k`. */
  ghost predicate HoldsKey(plan: Files, k: Key) {
    exists f, r :: f in plan && r in plan[f] && r.key == k
  }

  /** A plan gives one row for each key that its files hold, and none for others. */
  lemma PlanGives(mode: UpdateMode, plan: Files, out: seq<Row>, tags: seq<FileId>, result: seq<Row>, k: Key)
    requires Merges(plan, out, tags) && OneShot(mode, false, out) == Ok(result)
    ensures |KeyRows(result, k)| == if HoldsKey(plan, k) then 1 else 0
  {
    OneShotMeaning(mode, false, out);
    assert KeyRows(result, k) == Given(mode, false, out, k);
    if HoldsKey(plan, k) {
      var f, r :| f in plan && r in plan[f] && r.key == k;
      InterleavesMembers(plan, out, tags, r);
      assert r in KeyRows(out, k);
      assert Answer(mode, false, out, k).Some? && Answer(mode, false, out, k).value.Ok?;
    } else {
      forall r | r in out ensures r.key != k {
        InterleavesMembers(plan, out, tags, r);
      }
      FilterNone((r: Row) => r.key == k, out);
    }
  }

  /** How many of the first `n` plans hold a key. */
  ghost function Holders(plans: seq<Files>, k: Key, n: nat): nat
    requires n <= |plans|
  {
    if n == 0 then 0 else Holders(plans, k, n - 1) + if HoldsKey(plans[n - 1], k) then 1 else 0
  }

  /** A scan gives a key once for each plan that holds it. */
  lemma {:induction false} ScanGives(mode: UpdateMode, plans: seq<Files>, outs: seq<seq<Row>>, results: seq<seq<Row>>, k: Key, n: nat)
    requires Scans(mode, plans, outs, results) && n <= |plans|
    ensures |KeyRows(Flatten(results[..n]), k)| == Holders(plans, k, n)
  {
    if n > 0 {
      ScanGives(mode, plans, outs, results, k, n - 1);
      var tags :| Merges(plans[n - 1], outs[n - 1], tags);
      PlanGives(mode, plans[n - 1], outs[n - 1], tags, results[n - 1], k);
      UnionGrows(results, k, n);
    }
  }

  lemma UnionGrows(results: seq<seq<Row>>, k: Key, n: nat)
    requires 0 < n <= |results|
    ensures KeyRows(Flatten(results[..n]), k) == KeyRows(Flatten(results[..n - 1]), k) + KeyRows(results[n - 1], k)
  {
    assert results[..n][..n - 1] == results[..n - 1];
    FilterConcat((r: Row) => r.key == k, Flatten(results[..n - 1]), results[n - 1]);
  }

  lemma {:induction false} NoHolder(plans: seq<Files>, k: Key, n: nat)
    requires n <= |plans|
    ensures Holders(plans, k, n) == 0 <==> forall p :: 0 <= p < n ==> !HoldsKey(plans[p], k)
  {
    if n > 0 {
      NoHolder(plans, k, n - 1);
    }
  }

  lemma {:induction false} OneHolder(plans: seq<Files>, k: Key, n: nat)
    requires n <= |plans|
    ensures Holders(plans, k, n) <= 1 <==> forall p, q :: 0 <= p < q < n ==> !(HoldsKey(plans[p], k) && HoldsKey(plans[q], k))
  {
    if n > 0 {
      OneHolder(plans, k, n - 1);
      NoHolder(plans, k, n - 1);
      if HoldsKey(plans[n - 1], k) && Holders(plans, k, n - 1) > 0 {
        var p :| 0 <= p < n - 1 && HoldsKey(plans[p], k);
        assert 0 <= p < n - 1 < n;
      }
    }
  }

  /** A scan gives every key at most once exactly when the selected files that hold a key are all in
      one plan. */
  lemma OneRowPerKey(mode: UpdateMode, plans: seq<Files>, outs: seq<seq<Row>>, results: seq<seq<Row>>, k: Key)
    requires Scans(mode, plans, outs, results)
    ensures |KeyRows(Flatten(results), k)| <= 1 <==>
            forall p, q :: 0 <= p < q < |plans| ==> !(HoldsKey(plans[p], k) && HoldsKey(plans[q], k))
  {
    ScanGives(mode, plans, outs, results, k, |plans|);
    assert results[..|plans|] == results;
    OneHolder(plans, k, |plans|);
  }

  // ---------------------------------------------------------------------------------------
  // The plans of a scan
  // ---------------------------------------------------------------------------------------

  /** The rows of the files of a plan, by their places in it. */
  function PlanRows(plan: seq<FileInfo>, contents: map<u64, seq<Row>>): Files
    requires forall f :: f in plan ==> f.id in contents
  {
    map i: nat | i < |plan| :: contents[plan[i].id]
  }

  /** Every selected file is in one plan, once. */
  lemma PlansCover(files: seq<FileInfo>, duration: int, plans: seq<seq<FileInfo>>)
    requires duration > 0 && multiset(plans) == multiset(RunsOf(SegmentOf(duration), files))
    ensures multiset(Flatten(plans)) == multiset(files)
  {
    RunsCut(SegmentOf(duration), files);
    FlattenPermutes(plans, RunsOf(SegmentOf(duration), files));
  }

  lemma {:induction false} FlattenPermutes(a: seq<seq<FileInfo>>, b: seq<seq<FileInfo>>)
    requires multiset(a) == multiset(b)
    ensures multiset(Flatten(a)) == multiset(Flatten(b))
    decreases |a|
  {
    if a == [] {
      assert |multiset(b)| == |b| && multiset(b) == multiset{};
    } else {
      var n := |a| - 1;
      assert a[n] in multiset(b);
      var i :| 0 <= i < |b| && b[i] == a[n];
      SameRest(a, b, i);
      FlattenPermutes(a[..n], b[..i] + b[i + 1..]);
      FlattenRemove(b, i);
      FlattenInit(a);
    }
  }

  lemma FlattenInit(a: seq<seq<FileInfo>>)
    requires a != []
    ensures multiset(Flatten(a)) == multiset(Flatten(a[..|a| - 1])) + multiset(Last(a))
  {
  }

  lemma FlattenRemove(b: seq<seq<FileInfo>>, i: nat)
    requires i < |b|
    ensures multiset(Flatten(b)) == multiset(Flatten(b[..i] + b[i + 1..])) + multiset(b[i])
  {
    SplitAt(b, i);
    FlattenAround(b[..i], b[i], b[i + 1..]);
  }

  lemma SplitAt(b: seq<seq<FileInfo>>, i: nat)
    requires i < |b|
    ensures b[..i] + [b[i]] + b[i + 1..] == b
  {
  }

  lemma SameRest(a: seq<seq<FileInfo>>, b: seq<seq<FileInfo>>, i: nat)
    requires multiset(a) == multiset(b) && a != [] && i < |b| && b[i] == Last(a)
    ensures multiset(a[..|a| - 1]) == multiset(b[..i] + b[i + 1..])
  {
    Without(a, |a| - 1);
    Without(b, i);
    assert a[..|a| - 1] + a[|a|..] == a[..|a| - 1];
  }

  lemma FlattenAround(a: seq<seq<FileInfo>>, x: seq<FileInfo>, b: seq<seq<FileInfo>>)
    ensures multiset(Flatten(a + [x] + b)) == multiset(Flatten(a + b)) + multiset(x)
  {
    FlattenConcat(a + [x], b);
    FlattenConcat(a, [x]);
    FlattenConcat(a, b);
    FlattenOne(x);
  }

  /** A plan has the files of one key. */
  lemma PlanKey(files: seq<FileInfo>, duration: int, plans: seq<seq<FileInfo>>, p: nat, f: FileInfo)
    requires duration > 0 && multiset(plans) == multiset(RunsOf(SegmentOf(duration), files)) && p < |plans| && f in plans[p]
    ensures f in files && SegmentOf(duration)(f) == SegmentOf(duration)(plans[p][0])
  {
    FlattenHolds(plans, p, f);
    PlansCover(files, duration, plans);
    assert f in multiset(Flatten(plans)) && f in multiset(files);
    RunsCut(SegmentOf(duration), files);
    assert plans[p] in multiset(RunsOf(SegmentOf(duration), files));
  }

  /** If every selected file lies in one segment, the timestamps of the files of a plan are all of one
      segment; and if the files of every segment stand side by side, the timestamps of one segment are
      all in one plan. */
  lemma PlansAreSegments(files: seq<FileInfo>, duration: int, plans: seq<seq<FileInfo>>, p: nat, q: nat, f: FileInfo, g: FileInfo, t: int, u: int)
    requires duration > 0 && multiset(plans) == multiset(RunsOf(SegmentOf(duration), files)) && Scan.ByKey(SegmentOf(duration), plans)
    requires forall h :: h in files ==> OneSegment(h.meta.range, duration)
    requires p < |plans| && q < |plans| && f in plans[p] && g in plans[q] && f.meta.range.Contains(t) && g.meta.range.Contains(u)
    ensures p == q ==> Segment(t, duration) == Segment(u, duration)
    ensures Contiguous(Keys(SegmentOf(duration), files)) ==> (Segment(t, duration) == Segment(u, duration) <==> p == q)
  {
    PlanKey(files, duration, plans, p, f);
    PlanKey(files, duration, plans, q, g);
    SegmentOfTimes(f, duration, t);
    SegmentOfTimes(g, duration, u);
    OnePlanPerSegment(files, duration, plans);
  }

  /** A scan gives a key once for each plan that holds it; if the selected files of every segment
      stand side by side, those plans are of different segments, and so a key is given at most
      once for each segment. */
  lemma OncePerSegment(mode: UpdateMode, files: seq<FileInfo>, duration: int, plans: seq<seq<FileInfo>>,
                       contents: map<u64, seq<Row>>, rows: seq<Files>, outs: seq<seq<Row>>, results: seq<seq<Row>>, k: Key)
    requires duration > 0 && multiset(plans) == multiset(RunsOf(SegmentOf(duration), files)) && Scan.ByKey(SegmentOf(duration), plans)
    requires forall p, f :: 0 <= p < |plans| && f in plans[p] ==> f.id in contents
    requires |rows| == |plans| && forall p :: 0 <= p < |plans| ==> rows[p] == PlanRows(plans[p], contents)
    requires Scans(mode, rows, outs, results)
    ensures |KeyRows(Flatten(results), k)| == Holders(rows, k, |rows|)
    ensures Contiguous(Keys(SegmentOf(duration), files)) ==>
              forall p, q :: 0 <= p < q < |plans| && HoldsKey(rows[p], k) && HoldsKey(rows[q], k) ==>
                SegmentOf(duration)(plans[p][0]) < SegmentOf(duration)(plans[q][0])
  {
    ScanGives(mode, rows, outs, results, k, |rows|);
    assert results[..|rows|] == results;
    OnePlanPerSegment(files, duration, plans);
  }
}
