/** Sorting by a key, and permutations. */
module Sorting {

  ghost predicate SortedBy<T>(key: T -> int, xs: seq<T>) {
    forall i, j :: 0 <= i < j < |xs| ==> key(xs[i]) <= key(xs[j])
  }

  function Insert<T>(xs: seq<T>, j: nat, x: T): seq<T>
    requires j <= |xs|
  {
    xs[..j] + [x] + xs[j..]
  }

  lemma InsertPermutes<T>(xs: seq<T>, j: nat, x: T)
    requires j <= |xs|
    ensures multiset(Insert(xs, j, x)) == multiset(xs) + multiset{x}
  {
    assert xs == xs[..j] + xs[j..];
  }

  lemma InsertSorts<T>(key: T -> int, xs: seq<T>, j: nat, x: T)
    requires SortedBy(key, xs) && j <= |xs|
    requires j > 0 ==> key(xs[j - 1]) <= key(x)
    requires forall k :: j <= k < |xs| ==> key(xs[k]) > key(x)
    ensures SortedBy(key, Insert(xs, j, x))
  {
    var more := Insert(xs, j, x);
    forall i, k | 0 <= i < k < |more| ensures key(more[i]) <= key(more[k]) {
      assert more[i] == if i < j then xs[i] else if i == j then x else xs[i - 1];
      assert more[k] == if k < j then xs[k] else if k == j then x else xs[k - 1];
      assert i < j - 1 ==> key(xs[i]) <= key(xs[j - 1]);
    }
  }

  /** Where `x` belongs: after everything whose key is not greater. */
  method Place<T>(key: T -> int, xs: seq<T>, x: T) returns (j: nat)
    ensures j <= |xs| && (j > 0 ==> key(xs[j - 1]) <= key(x))
    ensures forall k :: j <= k < |xs| ==> key(xs[k]) > key(x)
  {
    j := |xs|;
    while j > 0 && key(xs[j - 1]) > key(x)
      invariant j <= |xs|
      invariant forall k :: j <= k < |xs| ==> key(xs[k]) > key(x)
    {
      j := j - 1;
    }
  }

  lemma PrefixGrows<T>(xs: seq<T>, i: nat)
    requires i < |xs|
    ensures multiset(xs[..i + 1]) == multiset(xs[..i]) + multiset{xs[i]}
  {
    assert xs[..i + 1] == xs[..i] + [xs[i]];
  }

  method SortBy<T>(key: T -> int, xs: seq<T>) returns (sorted: seq<T>)
    ensures multiset(sorted) == multiset(xs) && SortedBy(key, sorted)
  {
    sorted := [];
    for i := 0 to |xs|
      invariant multiset(sorted) == multiset(xs[..i]) && SortedBy(key, sorted)
    {
      var j := Place(key, sorted, xs[i]);
      InsertPermutes(sorted, j, xs[i]);
      InsertSorts(key, sorted, j, xs[i]);
      PrefixGrows(xs, i);
      sorted := Insert(sorted, j, xs[i]);
    }
    assert xs[..|xs|] == xs;
  }

  function Map<T, U>(f: T -> U, xs: seq<T>): seq<U> { seq(|xs|, i requires 0 <= i < |xs| => f(xs[i])) }

  lemma Without<T>(xs: seq<T>, i: nat)
    requires i < |xs|
    ensures multiset(xs[..i] + xs[i + 1..]) == multiset(xs) - multiset{xs[i]}
  {
    assert xs == xs[..i] + [xs[i]] + xs[i + 1..];
  }

  lemma MapWithout<T, U>(f: T -> U, xs: seq<T>, i: nat)
    requires i < |xs|
    ensures multiset(Map(f, xs)) == multiset(Map(f, xs[..i] + xs[i + 1..])) + multiset{f(xs[i])}
  {
    var ys := Map(f, xs);
    assert ys == ys[..i] + [ys[i]] + ys[i + 1..];
    assert Map(f, xs[..i] + xs[i + 1..]) == ys[..i] + ys[i + 1..];
  }

  /** Mapping a permutation gives a permutation. */
  lemma {:induction false} MapPermutes<T, U>(f: T -> U, a: seq<T>, b: seq<T>)
    requires multiset(a) == multiset(b)
    ensures multiset(Map(f, a)) == multiset(Map(f, b))
    decreases |a|
  {
    if a == [] {
      assert |multiset(b)| == |b| && multiset(b) == multiset{};
    } else {
      var n := |a| - 1;
      assert a[n] in multiset(b);
      var i :| 0 <= i < |b| && b[i] == a[n];
      Without(a, n);
      Without(b, i);
      MapPermutes(f, a[..n] + a[n + 1..], b[..i] + b[i + 1..]);
      MapWithout(f, a, n);
      MapWithout(f, b, i);
    }
  }
}
