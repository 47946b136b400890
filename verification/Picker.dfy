/** How the picker chooses the files of a compaction. */
module Picker {
  import opened Types
  import opened Sst
  import opened Sorting

  datatype Task = Task(inputs: seq<SstFile>, expireds: seq<SstFile>)

  // ---------------------------------------------------------------------------------------
  // Sizes
  // ---------------------------------------------------------------------------------------

  function Total(files: seq<FileInfo>): nat
    decreases |files|
  {
    if files == [] then 0 else Total(files[..|files| - 1]) + files[|files| - 1].meta.size
  }

  ghost predicate BySize(files: seq<FileInfo>) {
    forall i, j :: 0 <= i < j < |files| ==> files[i].meta.size <= files[j].meta.size
  }

  lemma {:induction false} TotalConcat(a: seq<FileInfo>, b: seq<FileInfo>)
    ensures Total(a + b) == Total(a) + Total(b)
    decreases |b|
  {
    if b == [] {
      assert a + b == a;
    } else {
      var n := |b| - 1;
      TotalConcat(a, b[..n]);
      assert (a + b)[..|a + b| - 1] == a + b[..n];
    }
  }

  lemma TotalAround(a: seq<FileInfo>, x: FileInfo, b: seq<FileInfo>)
    ensures Total(a + [x] + b) == Total(a + b) + x.meta.size
  {
    TotalConcat(a + [x], b);
    TotalConcat(a, b);
    assert (a + [x])[..|a|] == a;
  }

  /** The first files have at most the total of as many chosen ones. */
  predicate Least(files: seq<FileInfo>, chosen: seq<FileInfo>) {
    |chosen| <= |files| && Total(files[..|chosen|]) <= Total(chosen)
  }

  /** Of all choices of as many files, the smallest files have the least total. */
  lemma {:induction false} SmallestAreLeast(files: seq<FileInfo>, chosen: seq<FileInfo>)
    requires BySize(files) && multiset(chosen) <= multiset(files)
    ensures Least(files, chosen)
    decreases |files|
  {
    if files == [] {
      assert multiset(chosen) == multiset{} && |chosen| == |multiset(chosen)|;
    } else {
      var n := |files| - 1;
      assert files == files[..n] + [files[n]];
      if files[n] in chosen {
        var rest := ChosenWithout(files[..n], files[n], chosen);
        SmallestAreLeast(files[..n], rest);
        LeastMore(files, rest, chosen);
      } else {
        ChosenElsewhere(files[..n], files[n], chosen);
        SmallestAreLeast(files[..n], chosen);
        assert files[..n][..|chosen|] == files[..|chosen|];
      }
    }
  }

  lemma LeastMore(files: seq<FileInfo>, rest: seq<FileInfo>, chosen: seq<FileInfo>)
    requires BySize(files) && files != [] && Least(files[..|files| - 1], rest)
    requires |chosen| == |rest| + 1 && Total(chosen) == Total(rest) + files[|files| - 1].meta.size
    ensures Least(files, chosen)
  {
    var m, n := |rest|, |files| - 1;
    assert files[..n][..m] == files[..m] && files[..m + 1][..m] == files[..m];
    assert m < n ==> files[m].meta.size <= files[n].meta.size;
  }

  lemma ChosenWithout(init: seq<FileInfo>, x: FileInfo, chosen: seq<FileInfo>) returns (rest: seq<FileInfo>)
    requires multiset(chosen) <= multiset(init + [x]) && x in chosen
    ensures multiset(rest) <= multiset(init)
    ensures |chosen| == |rest| + 1 && Total(chosen) == Total(rest) + x.meta.size
  {
    var i :| 0 <= i < |chosen| && chosen[i] == x;
    var a, b := chosen[..i], chosen[i + 1..];
    rest := a + b;
    assert chosen == a + [x] + b;
    TotalAround(a, x, b);
    assert multiset(chosen) == multiset(rest) + multiset{x};
    OneLess(multiset(rest), multiset(init), x);
  }

  lemma OneLess(a: multiset<FileInfo>, b: multiset<FileInfo>, x: FileInfo)
    requires a + multiset{x} <= b + multiset{x}
    ensures a <= b
  {
    forall y ensures a[y] <= b[y] {
      assert (a + multiset{x})[y] <= (b + multiset{x})[y];
    }
  }

  lemma ChosenElsewhere(init: seq<FileInfo>, x: FileInfo, chosen: seq<FileInfo>)
    requires multiset(chosen) <= multiset(init + [x]) && x !in chosen
    ensures multiset(chosen) <= multiset(init)
  {
    assert multiset(init + [x]) == multiset(init) + multiset{x};
    assert x !in multiset(chosen);
  }

  lemma {:induction false} TotalPrefix(files: seq<FileInfo>, m: nat, n: nat)
    requires m <= n <= |files|
    ensures Total(files[..m]) <= Total(files[..n])
    decreases n
  {
    if m < n {
      TotalPrefix(files, m, n - 1);
      assert files[..n][..n - 1] == files[..n - 1];
    }
  }

  /** The longest prefix within the limits. */
  ghost predicate Greedy(files: seq<FileInfo>, n: nat, maxNum: nat, limit: nat) {
    && n <= |files| && n <= maxNum && Total(files[..n]) <= limit
    && (n < |files| && n < maxNum ==> Total(files[..n + 1]) > limit)
  }

  /** No choice of files within the limits has more files than the longest such prefix. */
  lemma GreedyIsOptimal(files: seq<FileInfo>, n: nat, maxNum: nat, limit: nat, chosen: seq<FileInfo>)
    requires BySize(files) && Greedy(files, n, maxNum, limit)
    requires multiset(chosen) <= multiset(files) && |chosen| <= maxNum && Total(chosen) <= limit
    ensures |chosen| <= n
  {
    SmallestAreLeast(files, chosen);
    if |chosen| > n {
      TotalPrefix(files, n + 1, |chosen|);
    }
  }

  // ---------------------------------------------------------------------------------------
  // Lists of files
  // ---------------------------------------------------------------------------------------

  /** The files of a segment, in the order given. */
  function InSegment(files: seq<SstFile>, duration: int, segment: int): seq<SstFile>
    requires duration > 0
    decreases |files|
  {
    if files == [] then []
    else
      var n := |files| - 1;
      var before := InSegment(files[..n], duration, segment);
      if TruncateBy(files[n].meta.range.start, duration) == segment then before + [files[n]] else before
  }

  /** Every segment start is a timestamp. */
  lemma SegmentsInRange(files: seq<SstFile>, duration: int)
    requires duration > 0
    ensures forall s :: InSegment(files, duration, s) != [] ==> -0x8000_0000_0000_0000 <= s < 0x8000_0000_0000_0000
  {
    forall s | InSegment(files, duration, s) != [] ensures -0x8000_0000_0000_0000 <= s < 0x8000_0000_0000_0000 {
      var f := InSegment(files, duration, s)[0];
      InSegmentMember(files, duration, s, f);
      TruncateTowardZero(f.meta.range.start, duration);
    }
  }

  /** The files that are not in a compaction, expired or not as asked. */
  function Unmarked(files: seq<SstFile>, expireTime: Option<int>, expired: bool): (r: seq<SstFile>)
    reads files
    ensures forall f | f in r :: f in files && !f.inCompaction && f.IsExpired(expireTime) == expired
    ensures forall f | f in files && !f.inCompaction && f.IsExpired(expireTime) == expired :: f in r
    decreases |files|
  {
    if files == [] then []
    else
      var n := |files| - 1;
      var before := Unmarked(files[..n], expireTime, expired);
      assert files == files[..n] + [files[n]];
      if !files[n].inCompaction && files[n].IsExpired(expireTime) == expired then before + [files[n]] else before
  }

  /** With an expire time, the expired files are the unmarked ones all of whose timestamps, and the
      ones after them, lie before it; without one there are none. */
  lemma ExpiredFiles(files: seq<SstFile>, expireTime: Option<int>, f: SstFile)
    requires f.meta.range.NonEmpty()
    ensures f in Unmarked(files, expireTime, true) <==>
            f in files && !f.inCompaction && expireTime.Some? && forall t :: f.meta.range.Contains(t) ==> t + 1 < expireTime.value
    ensures f in Unmarked(files, expireTime, false) <==>
            f in files && !f.inCompaction && (expireTime.Some? ==> exists t :: f.meta.range.Contains(t) && t + 1 >= expireTime.value)
  {
    if expireTime.Some? {
      ExpiredExactly(f, expireTime.value);
    }
  }

  lemma {:induction false} InSegmentMember(files: seq<SstFile>, duration: int, segment: int, f: SstFile)
    requires duration > 0
    ensures f in InSegment(files, duration, segment) <==>
            f in files && TruncateBy(f.meta.range.start, duration) == segment
    decreases |files|
  {
    if files != [] {
      var n := |files| - 1;
      InSegmentMember(files[..n], duration, segment, f);
      assert files == files[..n] + [files[n]];
    }
  }

  /** The order of files of one size is not specified. */
  method SortBySize(files: seq<SstFile>) returns (sorted: seq<SstFile>)
    ensures multiset(sorted) == multiset(files) && multiset(Infos(sorted)) == multiset(Infos(files))
    ensures BySize(Infos(sorted))
  {
    sorted := SortBy((f: SstFile) => f.Size() as int, files);
    MapPermutes((f: SstFile) => Info(f), sorted, files);
    assert Map((f: SstFile) => Info(f), sorted) == Infos(sorted) && Map((f: SstFile) => Info(f), files) == Infos(files);
  }

  // ---------------------------------------------------------------------------------------
  // The strategy
  // ---------------------------------------------------------------------------------------

  class Strategy {
    const segmentDuration: Positive
    const memoryLimit: nat
    const maxNum: nat
    const minNum: nat

    constructor (segmentDuration: Positive, memoryLimit: nat, maxNum: nat, minNum: nat)
      ensures this.segmentDuration == segmentDuration && this.memoryLimit == memoryLimit
      ensures this.maxNum == maxNum && this.minNum == minNum
    {
      this.segmentDuration := segmentDuration;
      this.memoryLimit := memoryLimit;
      this.maxNum := maxNum;
      this.minNum := minNum;
    }

    predicate Fits(files: seq<FileInfo>) {
      minNum <= |files| <= maxNum && Total(files) <= memoryLimit
    }

    /** Some choice of the files is within the limits. */
    ghost predicate Qualifies(files: seq<SstFile>) {
      exists chosen :: multiset(chosen) <= multiset(Infos(files)) && Fits(chosen)
    }

    /** A choice within the limits, and none has more files. */
    ghost predicate Best(files: seq<SstFile>, picked: seq<SstFile>) {
      && multiset(picked) <= multiset(files)
      && multiset(Infos(picked)) <= multiset(Infos(files)) && Fits(Infos(picked))
      && (forall chosen :: multiset(chosen) <= multiset(Infos(files)) && Fits(chosen) ==> |chosen| <= |picked|)
    }

    method FindUncompactedAndExpired(files: seq<SstFile>, expireTime: Option<int>)
      returns (uncompacted: seq<SstFile>, expired: seq<SstFile>)
      ensures uncompacted == Unmarked(files, expireTime, false)
      ensures expired == Unmarked(files, expireTime, true)
    {
      uncompacted, expired := [], [];
      for i := 0 to |files|
        invariant uncompacted == Unmarked(files[..i], expireTime, false)
        invariant expired == Unmarked(files[..i], expireTime, true)
      {
        var f := files[i];
        assert files[..i + 1][..i] == files[..i];
        if !f.inCompaction {
          if f.IsExpired(expireTime) {
            expired := expired + [f];
          } else {
            uncompacted := uncompacted + [f];
          }
        }
      }
      assert files[..|files|] == files;
    }

    method FilesBySegment(files: seq<SstFile>) returns (groups: map<i64, seq<SstFile>>)
      ensures forall s :: s in groups <==> InSegment(files, segmentDuration, s) != []
      ensures forall s :: s in groups ==> groups[s] == InSegment(files, segmentDuration, s)
    {
      groups := map[];
      for i := 0 to |files|
        invariant forall s :: s in groups <==> InSegment(files[..i], segmentDuration, s) != []
        invariant forall s :: s in groups ==> groups[s] == InSegment(files[..i], segmentDuration, s)
      {
        TruncateTowardZero(files[i].meta.range.start, segmentDuration);
        var segment: i64 := TruncateBy(files[i].meta.range.start, segmentDuration);
        assert files[..i + 1][..i] == files[..i];
        var group := if segment in groups then groups[segment] else [];
        groups := groups[segment := group + [files[i]]];
      }
      assert files[..|files|] == files;
    }

    method TakeWithinLimits(files: seq<SstFile>) returns (picked: seq<SstFile>)
      ensures |picked| <= |files| && picked == files[..|picked|]
      ensures Greedy(Infos(files), |picked|, maxNum, memoryLimit)
    {
      picked := [];
      var inputSize := 0;
      while |picked| < |files| && |picked| < maxNum
        invariant |picked| <= |files| && picked == files[..|picked|] && |picked| <= maxNum
        invariant inputSize == Total(Infos(files)[..|picked|]) <= memoryLimit
        decreases |files| - |picked|
      {
        var n := |picked|;
        assert Infos(files)[..n + 1][..n] == Infos(files)[..n];
        inputSize := inputSize + files[n].Size();
        if inputSize > memoryLimit {
          break;
        }
        picked := picked + [files[n]];
      }
    }

    lemma TakenIsBest(files: seq<SstFile>, sorted: seq<SstFile>, picked: seq<SstFile>)
      requires multiset(sorted) == multiset(files) && multiset(Infos(sorted)) == multiset(Infos(files))
      requires BySize(Infos(sorted)) && |picked| <= |sorted| && picked == sorted[..|picked|]
      requires Greedy(Infos(sorted), |picked|, maxNum, memoryLimit)
      ensures |picked| >= minNum ==> Best(files, picked)
      ensures |picked| < minNum ==> !Qualifies(files)
    {
      PrefixChosen(sorted, |picked|);
      forall chosen | multiset(chosen) <= multiset(Infos(files)) && Fits(chosen) ensures |chosen| <= |picked| {
        GreedyIsOptimal(Infos(sorted), |picked|, maxNum, memoryLimit, chosen);
      }
    }

    lemma TooFew(files: seq<SstFile>)
      requires |files| < minNum
      ensures !Qualifies(files)
    {
      forall chosen | multiset(chosen) <= multiset(Infos(files)) ensures |chosen| <= |files| {
        SubsetSize(Infos(files), chosen);
      }
    }

    /** No segment has a choice within the limits. */
    ghost predicate NothingToPick(files: seq<SstFile>) {
      forall s :: InSegment(files, segmentDuration, s) != [] ==> !Qualifies(InSegment(files, segmentDuration, s))
    }

    /** A best choice from the newest segment that has one. */
    ghost predicate BestOfNewest(files: seq<SstFile>, picked: seq<SstFile>) {
      exists s ::
        && InSegment(files, segmentDuration, s) != [] && Best(InSegment(files, segmentDuration, s), picked)
        && forall later :: later > s && InSegment(files, segmentDuration, later) != [] ==>
             !Qualifies(InSegment(files, segmentDuration, later))
    }

    lemma PickedFits(files: seq<SstFile>, picked: seq<SstFile>)
      requires BestOfNewest(files, picked)
      ensures Fits(Infos(picked))
    {
      var s :| InSegment(files, segmentDuration, s) != [] && Best(InSegment(files, segmentDuration, s), picked);
    }

    lemma PickedSomething(files: seq<SstFile>, picked: seq<SstFile>)
      requires BestOfNewest(files, picked)
      ensures !NothingToPick(files)
      ensures forall f | f in picked :: f in files
      ensures forall f, g | f in picked && g in picked ::
                TruncateBy(f.meta.range.start, segmentDuration) == TruncateBy(g.meta.range.start, segmentDuration)
      ensures minNum > 0 ==> picked != []
    {
      var s :| InSegment(files, segmentDuration, s) != [] && Best(InSegment(files, segmentDuration, s), picked);
      var group := InSegment(files, segmentDuration, s);
      assert multiset(Infos(picked)) <= multiset(Infos(group)) && Fits(Infos(picked));
      forall f | f in picked ensures f in files && TruncateBy(f.meta.range.start, segmentDuration) == s {
        assert f in multiset(picked);
        assert f in multiset(group);
        InSegmentMember(files, segmentDuration, s, f);
      }
    }

    method PickCompactionFiles(groups: map<i64, seq<SstFile>>) returns (r: Option<seq<SstFile>>)
      ensures r.None? <==> forall s :: s in groups ==> !Qualifies(groups[s])
      ensures r.Some? ==>
                exists s :: s in groups && Best(groups[s], r.value) &&
                  forall later :: later in groups && later > s ==> !Qualifies(groups[later])
    {
      var left := groups.Keys;
      while left != {}
        invariant left <= groups.Keys
        invariant forall s :: s in groups && s !in left ==> !Qualifies(groups[s])
        invariant forall s, t :: s in left && t in groups && t !in left ==> s < t
      {
        var segment := Greatest(left);
        left := left - {segment};
        var files := groups[segment];
        if |files| < minNum {
          TooFew(files);
          continue;
        }
        var sorted := SortBySize(files);
        var picked := TakeWithinLimits(sorted);
        TakenIsBest(files, sorted, picked);
        if |picked| >= minNum {
          assert Qualifies(files);
          return Some(picked);
        }
      }
      r := None;
    }

    /** What to compact and what has expired, among the files that are not marked. */
    method Choose(ssts: seq<SstFile>, expireTime: Option<int>) returns (picked: Option<seq<SstFile>>, expired: seq<SstFile>)
      ensures expired == Unmarked(ssts, expireTime, true)
      ensures picked.None? <==> NothingToPick(Unmarked(ssts, expireTime, false))
      ensures picked.Some? ==> BestOfNewest(Unmarked(ssts, expireTime, false), picked.value)
    {
      var uncompacted;
      uncompacted, expired := FindUncompactedAndExpired(ssts, expireTime);
      picked := PickFromSegments(uncompacted);
    }

    method PickFromSegments(files: seq<SstFile>) returns (picked: Option<seq<SstFile>>)
      ensures picked.None? <==> NothingToPick(files)
      ensures picked.Some? ==> BestOfNewest(files, picked.value)
    {
      var groups := FilesBySegment(files);
      picked := PickCompactionFiles(groups);
      SegmentsInRange(files, segmentDuration);
      if picked.Some? {
        ghost var s :| s in groups && Best(groups[s], picked.value) &&
                 forall later :: later in groups && later > s ==> !Qualifies(groups[later]);
        assert InSegment(files, segmentDuration, s) != [];
      }
    }

    /** Marks and returns a best choice from the newest segment that has one, with all files
        that have expired; nothing if no segment has one. Only a minimum of zero can make the
        choice empty, and then there must be an expired file. */
    method PickCandidate(ssts: seq<SstFile>, expireTime: Option<int>) returns (task: Option<Task>)
      modifies ssts
      ensures task.Some? ==>
                && task.value.expireds == old(Unmarked(ssts, expireTime, true))
                && BestOfNewest(old(Unmarked(ssts, expireTime, false)), task.value.inputs)
                && (task.value.inputs != [] || task.value.expireds != [])
      ensures task.Some? ==>
                forall f | f in task.value.inputs || f in task.value.expireds :: f in ssts && !old(f.inCompaction)
      ensures task.Some? && expireTime.Some? ==>
                forall f, t | f in task.value.expireds && f.meta.range.Contains(t) :: t < expireTime.value
      ensures task.Some? && expireTime.None? ==> task.value.expireds == []
      ensures task.None? ==> NothingToPick(old(Unmarked(ssts, expireTime, false))) || minNum == 0
      ensures task.None? && !NothingToPick(old(Unmarked(ssts, expireTime, false))) ==>
                old(Unmarked(ssts, expireTime, true)) == [] && BestOfNewest(old(Unmarked(ssts, expireTime, false)), [])
      ensures forall f | f in ssts ::
                f.inCompaction == (old(f.inCompaction) ||
                                   (task.Some? && (f in task.value.inputs || f in task.value.expireds)))
    {
      var picked, expired := Choose(ssts, expireTime);
      if picked.None? {
        return None;
      }
      var inputs := picked.value;
      PickedSomething(Unmarked(ssts, expireTime, false), inputs);
      if inputs == [] && expired == [] {
        return None;
      }
      ExpiredAreOld(ssts, expireTime, expired);
      MarkAll(ssts, inputs);
      MarkAll(ssts, expired);
      task := Some(Task(inputs, expired));
    }
  }

  lemma ExpiredAreOld(files: seq<SstFile>, expireTime: Option<int>, expired: seq<SstFile>)
    requires expired == Unmarked(files, expireTime, true)
    ensures expireTime.None? ==> expired == []
    ensures expireTime.Some? ==> forall f, t | f in expired && f.meta.range.Contains(t) :: t < expireTime.value
  {
    if expired != [] {
      assert expired[0] in expired;
    }
    if expireTime.Some? {
      forall f | f in expired ensures forall t :: f.meta.range.Contains(t) ==> t < expireTime.value {
        ExpiredExactly(f, expireTime.value);
      }
    }
  }

  lemma PrefixChosen(files: seq<SstFile>, n: nat)
    requires n <= |files|
    ensures Infos(files[..n]) == Infos(files)[..n]
    ensures multiset(files[..n]) <= multiset(files) && multiset(Infos(files)[..n]) <= multiset(Infos(files))
  {
    assert files == files[..n] + files[n..] && Infos(files) == Infos(files)[..n] + Infos(files)[n..];
  }

  lemma SubsetSize(files: seq<FileInfo>, chosen: seq<FileInfo>)
    requires multiset(chosen) <= multiset(files)
    ensures |chosen| <= |files|
  {
    assert multiset(files) == multiset(chosen) + (multiset(files) - multiset(chosen));
    assert |multiset(files)| == |multiset(chosen)| + |multiset(files) - multiset(chosen)|;
    assert |multiset(files)| == |files| && |multiset(chosen)| == |chosen|;
  }

  method Greatest(keys: set<i64>) returns (k: i64)
    requires keys != {}
    ensures k in keys && forall o :: o in keys ==> o <= k
  {
    k :| k in keys;
    var left := keys - {k};
    while left != {}
      invariant left <= keys && k in keys
      invariant forall o :: o in keys && o !in left ==> o <= k
    {
      var o :| o in left;
      left := left - {o};
      if o > k {
        k := o;
      }
    }
  }

  method MarkAll(ssts: seq<SstFile>, files: seq<SstFile>)
    requires forall f | f in files :: f in ssts
    modifies ssts
    ensures forall f | f in ssts :: f.inCompaction == (old(f.inCompaction) || f in files)
  {
    for i := 0 to |files|
      invariant forall f | f in ssts :: f.inCompaction == (old(f.inCompaction) || f in files[..i])
    {
      assert files[i] in files;
      files[i].MarkCompaction();
      assert files[..i + 1] == files[..i] + [files[i]];
    }
    assert files[..|files|] == files;
  }
}
