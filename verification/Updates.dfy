/** Replaying manifest updates onto a set of live file ids.

    A manifest update adds some SST files and deletes others. The cache applies each update
    as it is persisted, adds before deletes; the merger collects many updates in no fixed
    order and applies all their adds, then all their deletes.
 */
module Updates {

  import opened Types
  import opened Runs

  datatype Update = Update(adds: set<FileId>, dels: set<FileId>)

  // ---------------------------------------------------------------------------------------
  // Updates in the order in which they were persisted
  // ---------------------------------------------------------------------------------------

  ghost function AddsOf(us: seq<Update>): set<FileId> {
    set i, f | 0 <= i < |us| && f in us[i].adds :: f
  }

  ghost function DelsOf(us: seq<Update>): set<FileId> {
    set i, f | 0 <= i < |us| && f in us[i].dels :: f
  }

  /** All adds, then all deletes. */
  ghost function Replay(base: set<FileId>, us: seq<Update>): set<FileId> {
    (base + AddsOf(us)) - DelsOf(us)
  }

  /** One update on the cache: push the added files, then retain the files not deleted. */
  function Apply(live: set<FileId>, u: Update): set<FileId> {
    (live + u.adds) - u.dels
  }

  /** The updates applied one by one. */
  function ApplyAll(live: set<FileId>, us: seq<Update>): set<FileId>
    decreases |us|
  {
    if us == [] then live else ApplyAll(Apply(live, us[0]), us[1..])
  }

  /** No file is added after it was deleted, unless it is deleted once more. */
  ghost predicate NoLateAdd(us: seq<Update>) {
    forall j, f :: 0 <= j < |us| && f in us[j].adds && f in DelsOf(us[..j]) ==> f in DelsOf(us[j..])
  }

  /** Some update adds `f`, and neither it nor a later one deletes it. */
  ghost predicate AddedForGood(us: seq<Update>, f: FileId) {
    exists j :: 0 <= j < |us| && f in us[j].adds && f !in DelsOf(us[j..])
  }

  lemma {:induction false} ApplyAllMember(live: set<FileId>, us: seq<Update>, f: FileId)
    ensures f in ApplyAll(live, us) <==> (f in live && f !in DelsOf(us)) || AddedForGood(us, f)
    decreases |us|
  {
    if us != [] {
      var rest := us[1..];
      ApplyAllMember(Apply(live, us[0]), rest, f);
      FirstDels(us, f);
      AddedFirst(us, f);
    }
  }

  lemma FirstDels(us: seq<Update>, f: FileId)
    requires us != []
    ensures f in DelsOf(us) <==> f in us[0].dels || f in DelsOf(us[1..])
  {
    DelsOfConcat([us[0]], us[1..]);
    OneUpdate(us[0]);
    assert us == [us[0]] + us[1..];
  }

  /** The first update adds it for good, or a later one does. */
  lemma AddedFirst(us: seq<Update>, f: FileId)
    requires us != []
    ensures AddedForGood(us, f) <==> (f in us[0].adds && f !in DelsOf(us)) || AddedForGood(us[1..], f)
  {
    var rest := us[1..];
    assert us[0..] == us;
    forall j | 0 <= j < |rest| ensures us[j + 1] == rest[j] && us[j + 1..] == rest[j..] {}
    if AddedForGood(us, f) {
      var j :| 0 <= j < |us| && f in us[j].adds && f !in DelsOf(us[j..]);
      if j > 0 {
        assert f in rest[j - 1].adds && f !in DelsOf(rest[j - 1..]);
      }
    }
    if AddedForGood(rest, f) {
      var j :| 0 <= j < |rest| && f in rest[j].adds && f !in DelsOf(rest[j..]);
      assert f in us[j + 1].adds && f !in DelsOf(us[j + 1..]);
    }
  }

  lemma DelsOfConcat(a: seq<Update>, b: seq<Update>)
    ensures DelsOf(a + b) == DelsOf(a) + DelsOf(b)
    ensures AddsOf(a + b) == AddsOf(a) + AddsOf(b)
  {
    var c := a + b;
    forall i | 0 <= i < |a| ensures c[i] == a[i] {}
    forall i | 0 <= i < |b| ensures c[|a| + i] == b[i] {}
    forall i | 0 <= i < |c| ensures c[i] == if i < |a| then a[i] else b[i - |a|] {}
  }

  /** The merger's replay agrees with applying the updates in put order exactly when no file
      is added after its delete. */
  lemma ReplayIsPutOrder(base: set<FileId>, us: seq<Update>)
    ensures NoLateAdd(us) <==> Replay(base, us) == ApplyAll(base, us)
  {
    forall f ensures f in ApplyAll(base, us) <==> (f in base && f !in DelsOf(us)) || AddedForGood(us, f) {
      ApplyAllMember(base, us, f);
    }
    forall j | 0 <= j <= |us| ensures DelsOf(us) == DelsOf(us[..j]) + DelsOf(us[j..]) {
      assert us == us[..j] + us[j..];
      DelsOfConcat(us[..j], us[j..]);
    }
    if NoLateAdd(us) {
      forall f ensures f in Replay(base, us) <==> f in ApplyAll(base, us) {
        if f in ApplyAll(base, us) && !(f in base && f !in DelsOf(us)) {
          var j :| 0 <= j < |us| && f in us[j].adds && f !in DelsOf(us[j..]);
          assert f !in DelsOf(us[..j]);
        }
        if f in Replay(base, us) && f !in base {
          var j :| 0 <= j < |us| && f in us[j].adds;
          assert f !in DelsOf(us[j..]);
        }
      }
    } else {
      var j, f :| 0 <= j < |us| && f in us[j].adds && f in DelsOf(us[..j]) && f !in DelsOf(us[j..]);
      assert f in ApplyAll(base, us) && f !in Replay(base, us);
    }
  }

  /** The listing order does not matter. */
  lemma ReplayAnyOrder(base: set<FileId>, us: seq<Update>, vs: seq<Update>)
    requires multiset(us) == multiset(vs)
    ensures Replay(base, us) == Replay(base, vs)
  {
    forall i | 0 <= i < |us| ensures us[i] in vs { assert us[i] in multiset(us); }
    forall i | 0 <= i < |vs| ensures vs[i] in us { assert vs[i] in multiset(vs); }
  }

  /** Replaying in two rounds gives the one-round result exactly when no file that the first
      round deleted is added again, for good, by the second. */
  lemma ReplayInTwoRounds(base: set<FileId>, first: seq<Update>, second: seq<Update>)
    ensures Replay(Replay(base, first), second) == Replay(base, first + second)
       <==> AddsOf(second) * DelsOf(first) <= DelsOf(second)
  {
    DelsOfConcat(first, second);
    var twice, once := Replay(Replay(base, first), second), Replay(base, first + second);
    forall f ensures f in once ==> f in twice {}
    forall f ensures (f in twice && f !in once) <==> (f in AddsOf(second) * DelsOf(first) && f !in DelsOf(second)) {}
    if twice != once {
      var f :| f in twice && f !in once;
      assert f in AddsOf(second) * DelsOf(first);
    }
  }

  /** Successive merge rounds, each replaying its own listing onto the previous snapshot. */
  ghost function ReplayRounds(base: set<FileId>, rounds: seq<seq<Update>>): set<FileId>
    decreases |rounds|
  {
    if rounds == [] then base
    else Replay(ReplayRounds(base, rounds[..|rounds| - 1]), rounds[|rounds| - 1])
  }

  /** File ids are allocated once, so no update adds a file that an earlier one deletes. */
  ghost predicate FreshAdds(us: seq<Update>) {
    forall j :: 0 <= j < |us| ==> us[j].adds !! DelsOf(us[..j])
  }

  /** Splitting the updates over any number of merge rounds gives the set that the cache has. */
  lemma {:induction false} ReplayInAnyRounds(base: set<FileId>, rounds: seq<seq<Update>>)
    requires FreshAdds(Flatten(rounds))
    ensures ReplayRounds(base, rounds) == ApplyAll(base, Flatten(rounds))
    decreases |rounds|
  {
    var us := Flatten(rounds);
    if rounds != [] {
      var n := |rounds| - 1;
      var head, last := Flatten(rounds[..n]), rounds[n];
      assert us == head + last;
      assert forall j :: 0 <= j < |head| ==> us[..j] == head[..j] && us[j] == head[j];
      ReplayInAnyRounds(base, rounds[..n]);
      ReplayIsPutOrder(base, head);
      forall i, f | 0 <= i < |last| && f in last[i].adds ensures f !in DelsOf(head) {
        var j := |head| + i;
        assert us[j] == last[i] && us[..j] == head + last[..i];
        DelsOfConcat(head, last[..i]);
      }
      ReplayInTwoRounds(base, head, last);
      assert NoLateAdd(us);
      ReplayIsPutOrder(base, us);
    }
  }

  // ---------------------------------------------------------------------------------------
  // Updates that are merged again
  // ---------------------------------------------------------------------------------------

  /** `left` are delta objects among those merged whose deletion failed or was cut off. */
  ghost predicate LeftOver(left: seq<Update>, merged: seq<Update>) {
    forall u :: u in left ==> u in merged
  }

  lemma LeftOverSets(left: seq<Update>, merged: seq<Update>)
    requires LeftOver(left, merged)
    ensures AddsOf(left) <= AddsOf(merged) && DelsOf(left) <= DelsOf(merged)
  {
    forall i | 0 <= i < |left| ensures exists j :: 0 <= j < |merged| && merged[j] == left[i] {
      assert left[i] in merged;
    }
  }

  /** After a crash that leaves some merged delta objects beside newer ones, merging again gives
      the right set exactly when every file that a left-over object adds and a merged one deletes
      is also deleted by a left-over or a newer object. */
  lemma CrashRecovery(base: set<FileId>, merged: seq<Update>, left: seq<Update>, newer: seq<Update>)
    requires LeftOver(left, merged) && AddsOf(newer) !! DelsOf(merged)
    ensures Replay(Replay(base, merged), left + newer) == Replay(base, merged + newer)
       <==> AddsOf(left) * DelsOf(merged) <= DelsOf(left + newer)
  {
    LeftOverSets(left, merged);
    DelsOfConcat(left, newer);
    DelsOfConcat(merged, newer);
    DelsOfConcat(merged, left + newer);
    assert Replay(base, merged + (left + newer)) == Replay(base, merged + newer);
    ReplayInTwoRounds(base, merged, left + newer);
    assert AddsOf(left + newer) * DelsOf(merged) == AddsOf(left) * DelsOf(merged);
  }

  /** It does after a crash before any deletion. */
  lemma CrashBeforeDeletion(base: set<FileId>, merged: seq<Update>, newer: seq<Update>)
    requires AddsOf(newer) !! DelsOf(merged)
    ensures Replay(Replay(base, merged), merged + newer) == Replay(base, merged + newer)
  {
    DelsOfConcat(merged, newer);
    CrashRecovery(base, merged, merged, newer);
  }

  /** It does when the merged objects are deleted oldest first. */
  lemma OldestFirstDeletion(base: set<FileId>, merged: seq<Update>, newer: seq<Update>, k: nat)
    requires FreshAdds(merged) && k <= |merged| && AddsOf(newer) !! DelsOf(merged)
    ensures Replay(Replay(base, merged), merged[k..] + newer) == Replay(base, merged + newer)
  {
    SuffixClosed(merged, k);
    DelsOfConcat(merged[k..], newer);
    CrashRecovery(base, merged, merged[k..], newer);
  }

  /** What the newest updates add and any update deletes, the newest updates delete. */
  lemma SuffixClosed(us: seq<Update>, k: nat)
    requires FreshAdds(us) && k <= |us|
    ensures LeftOver(us[k..], us) && AddsOf(us[k..]) * DelsOf(us) <= DelsOf(us[k..])
  {
    forall f | f in AddsOf(us[k..]) * DelsOf(us) ensures f in DelsOf(us[k..]) {
      var i :| 0 <= i < |us[k..]| && f in us[k..][i].adds;
      var j :| 0 <= j < |us| && f in us[j].dels;
      assert us[k..][i] == us[k + i];
      DeletedLater(us, k + i, j, f);
      assert us[k..][j - k] == us[j];
    }
  }

  lemma DeletedLater(us: seq<Update>, i: nat, j: nat, f: FileId)
    requires FreshAdds(us) && i < |us| && j < |us| && f in us[i].adds && f in us[j].dels
    ensures i <= j
  {
    forall l | 0 <= l < i ensures f !in us[l].dels {
      assert us[..i][l] == us[l];
    }
  }

  /** It does not when only the delete of a file is gone: file 1 comes back. */
  lemma DeletedFileComesBack()
    ensures var add, swap := Update({1}, {}), Update({2}, {1});
            && FreshAdds([add, swap]) && LeftOver([add], [add, swap])
            && Replay({}, [add, swap]) == {2}
            && Replay(Replay({}, [add, swap]), [add]) == {1, 2}
  {
    var add, swap := Update({1}, {}), Update({2}, {1});
    var both := [add, swap];
    assert both == [add] + [swap];
    OneUpdate(add);
    OneUpdate(swap);
    DelsOfConcat([add], [swap]);
    assert both[..0] == [] && both[..1] == [add];
    assert DelsOf([]) == {};
  }

  lemma OneUpdate(u: Update)
    ensures AddsOf([u]) == u.adds && DelsOf([u]) == u.dels
  {
    assert [u][0] == u;
  }
}
