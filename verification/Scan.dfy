/** How a scan puts the selected files into one plan per segment, and when it fails to. */
module Scan {
  import opened Types
  import opened Runs
  import opened Sst
  import opened Sorting

  function SegmentOf(duration: int): FileInfo -> int
    requires duration > 0
  {
    (f: FileInfo) => Segment(f.meta.range.start, duration)
  }

  function Keys(key: FileInfo -> int, files: seq<FileInfo>): seq<int> {
    seq(|files|, i requires 0 <= i < |files| => key(files[i]))
  }

  /** The keys of the groups, in order. */
  function GroupKeys(key: FileInfo -> int, groups: seq<seq<FileInfo>>): seq<int>
    requires forall i :: 0 <= i < |groups| ==> groups[i] != []
  {
    seq(|groups|, i requires 0 <= i < |groups| => key(groups[i][0]))
  }

  /** A sequence without the repetitions of neighbours. */
  function Squeeze(keys: seq<int>): seq<int>
    decreases |keys|
  {
    if keys == [] then []
    else
      var n := |keys| - 1;
      var before := Squeeze(keys[..n]);
      if before != [] && before[|before| - 1] == keys[n] then before else before + [keys[n]]
  }

  ghost predicate Distinct(keys: seq<int>) {
    forall i, j :: 0 <= i < j < |keys| ==> keys[i] != keys[j]
  }

  /** Equal keys stand side by side. */
  ghost predicate Contiguous(keys: seq<int>) {
    forall i, j, l :: 0 <= i < j < l < |keys| && keys[i] == keys[l] ==> keys[j] == keys[i]
  }

  lemma {:induction false} RunsSqueeze(key: FileInfo -> int, files: seq<FileInfo>)
    ensures GroupKeys(key, RunsOf(key, files)) == Squeeze(Keys(key, files))
    decreases |files|
  {
    if files != [] {
      var n := |files| - 1;
      RunsSqueeze(key, files[..n]);
      assert Keys(key, files)[..n] == Keys(key, files[..n]);
    }
  }

  lemma {:induction false} SqueezeKeeps(keys: seq<int>)
    ensures forall k :: k in Squeeze(keys) <==> k in keys
    ensures keys != [] ==> Squeeze(keys) != [] && Squeeze(keys)[|Squeeze(keys)| - 1] == keys[|keys| - 1]
    decreases |keys|
  {
    if keys != [] {
      var n := |keys| - 1;
      SqueezeKeeps(keys[..n]);
      assert keys == keys[..n] + [keys[n]];
    }
  }

  /** Grouping neighbours gives every key one group exactly when equal keys are side by side. */
  lemma {:induction false} SqueezeDistinct(keys: seq<int>)
    ensures Distinct(Squeeze(keys)) <==> Contiguous(keys)
    decreases |keys|
  {
    if keys != [] {
      var n := |keys| - 1;
      var init, k := keys[..n], keys[n];
      SqueezeDistinct(init);
      SqueezeKeeps(init);
      ContiguousAppend(init, k);
      assert keys == init + [k];
      DistinctAppend(Squeeze(init), k);
    }
  }

  lemma ContiguousAppend(keys: seq<int>, k: int)
    ensures Contiguous(keys + [k]) <==> Contiguous(keys) && (k !in keys || keys[|keys| - 1] == k)
  {
    var more, n := keys + [k], |keys|;
    assert forall i :: 0 <= i < n ==> more[i] == keys[i];
    if Contiguous(more) {
      forall i, j, l | 0 <= i < j < l < n && keys[i] == keys[l] ensures keys[j] == keys[i] {
        assert more[i] == more[l] && more[j] == keys[j];
      }
      if i :| 0 <= i < n && keys[i] == k {
        assert more[i] == more[n] && (i < n - 1 ==> keys[n - 1] == more[n - 1] == more[i]);
      }
    }
    if Contiguous(keys) && (k !in keys || keys[n - 1] == k) {
      forall i, j, l | 0 <= i < j < l <= n && more[i] == more[l] ensures more[j] == more[i] {
        if l == n && j < n - 1 {
          assert keys[i] in keys && keys[i] == keys[n - 1];
        }
      }
    }
  }

  lemma DistinctAppend(keys: seq<int>, k: int)
    ensures Distinct(keys + [k]) <==> Distinct(keys) && k !in keys
  {
    var more := keys + [k];
    assert forall i :: 0 <= i < |keys| ==> more[i] == keys[i];
    if Distinct(more) {
      forall i | 0 <= i < |keys| ensures keys[i] != k {
        assert more[i] != more[|keys|];
      }
    }
  }

  // ---------------------------------------------------------------------------------------
  // Plans
  // ---------------------------------------------------------------------------------------

  ghost predicate ByKey(key: FileInfo -> int, plans: seq<seq<FileInfo>>) {
    && (forall i :: 0 <= i < |plans| ==> plans[i] != [])
    && (forall i, j :: 0 <= i < j < |plans| ==> key(plans[i][0]) <= key(plans[j][0]))
  }

  method GroupNeighbours(files: seq<FileInfo>, duration: int) returns (groups: seq<seq<FileInfo>>)
    requires duration > 0
    ensures groups == RunsOf(SegmentOf(duration), files)
  {
    var key := SegmentOf(duration);
    groups := [];
    for i := 0 to |files|
      invariant groups == RunsOf(key, files[..i])
    {
      assert files[..i + 1][..i] == files[..i];
      var last := |groups| - 1;
      if groups != [] && key(groups[last][0]) == key(files[i]) {
        groups := groups[..last] + [groups[last] + [files[i]]];
      } else {
        groups := groups + [[files[i]]];
      }
    }
    assert files[..|files|] == files;
  }

  /** The key of a group is that of its first file. */
  function GroupKey(key: FileInfo -> int): seq<FileInfo> -> int {
    (group: seq<FileInfo>) => if group == [] then 0 else key(group[0])
  }

  /** The plans of a scan: the groups of neighbours, sorted by segment. */
  method PlanFiles(files: seq<FileInfo>, duration: int) returns (plans: seq<seq<FileInfo>>)
    requires duration > 0
    ensures multiset(plans) == multiset(RunsOf(SegmentOf(duration), files))
    ensures ByKey(SegmentOf(duration), plans)
  {
    var key := SegmentOf(duration);
    var groups := GroupNeighbours(files, duration);
    plans := SortBy(GroupKey(key), groups);
    SortedGroups(key, groups, plans);
  }

  lemma SortedGroups(key: FileInfo -> int, groups: seq<seq<FileInfo>>, plans: seq<seq<FileInfo>>)
    requires multiset(plans) == multiset(groups) && forall i :: 0 <= i < |groups| ==> groups[i] != []
    requires SortedBy(GroupKey(key), plans)
    ensures ByKey(key, plans)
  {
    forall i | 0 <= i < |plans| ensures plans[i] != [] {
      assert plans[i] in multiset(plans) && plans[i] in multiset(groups);
    }
    forall i, j | 0 <= i < j < |plans| ensures key(plans[i][0]) <= key(plans[j][0]) {
      assert GroupKey(key)(plans[i]) <= GroupKey(key)(plans[j]);
    }
  }

  lemma {:induction false} DistinctCount(keys: seq<int>)
    ensures Distinct(keys) <==> forall k :: multiset(keys)[k] <= 1
    decreases |keys|
  {
    if keys != [] {
      var n := |keys| - 1;
      DistinctCount(keys[..n]);
      DistinctAppend(keys[..n], keys[n]);
      assert keys == keys[..n] + [keys[n]];
      assert multiset(keys) == multiset(keys[..n]) + multiset{keys[n]};
      assert keys[n] in keys[..n] <==> multiset(keys[..n])[keys[n]] > 0;
      if Distinct(keys) {
        forall k ensures multiset(keys)[k] <= 1 {}
      } else if !Distinct(keys[..n]) {
        var k :| multiset(keys[..n])[k] > 1;
        assert multiset(keys)[k] > 1;
      } else {
        assert multiset(keys)[keys[n]] > 1;
      }
    }
  }

  /** A permutation of the groups permutes their keys. */
  lemma KeysPermute(key: FileInfo -> int, a: seq<seq<FileInfo>>, b: seq<seq<FileInfo>>)
    requires multiset(a) == multiset(b)
    requires forall i :: 0 <= i < |a| ==> a[i] != []
    requires forall i :: 0 <= i < |b| ==> b[i] != []
    ensures multiset(GroupKeys(key, a)) == multiset(GroupKeys(key, b))
  {
    MapPermutes(GroupKey(key), a, b);
    assert Map(GroupKey(key), a) == GroupKeys(key, a) && Map(GroupKey(key), b) == GroupKeys(key, b);
  }

  /** Every segment is scanned by one plan exactly when the files of every segment stand side by
      side in the manifest's list. */
  lemma OnePlanPerSegment(files: seq<FileInfo>, duration: int, plans: seq<seq<FileInfo>>)
    requires duration > 0 && multiset(plans) == multiset(RunsOf(SegmentOf(duration), files))
    requires ByKey(SegmentOf(duration), plans)
    ensures (forall i, j :: 0 <= i < j < |plans| ==> SegmentOf(duration)(plans[i][0]) < SegmentOf(duration)(plans[j][0]))
       <==> Contiguous(Keys(SegmentOf(duration), files))
  {
    var key := SegmentOf(duration);
    var runs := RunsOf(key, files);
    KeysPermute(key, plans, runs);
    DistinctCount(GroupKeys(key, plans));
    DistinctCount(GroupKeys(key, runs));
    RunsSqueeze(key, files);
    SqueezeDistinct(Keys(key, files));
    assert forall i :: 0 <= i < |plans| ==> GroupKeys(key, plans)[i] == key(plans[i][0]);
  }

  /** Files of the segments 0, 1 and again 0 are scanned by three plans, two of them of segment 0,
      so rows of one key in the two files are not merged. */
  lemma SegmentScannedTwice(duration: int, a: FileInfo, b: FileInfo, c: FileInfo)
    requires duration > 0
    requires SegmentOf(duration)(a) == SegmentOf(duration)(c) == 0 && SegmentOf(duration)(b) == 1
    ensures RunsOf(SegmentOf(duration), [a, b, c]) == [[a], [b], [c]]
  {
    var key, xs := SegmentOf(duration), [a, b, c];
    assert xs[..2][..1][..0] == [] && xs[..2][..1] == [a] && xs[..2] == [a, b];
    assert RunsOf(key, []) == [];
    assert RunsOf(key, [a]) == [[a]];
    assert RunsOf(key, [a, b]) == [[a], [b]];
  }
}
