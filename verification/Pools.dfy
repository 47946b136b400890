/** Sums over the files of a map, and how often a row occurs in them. */
module Pools {
  import opened Types
  import opened Rows
  import opened SortedRows
  import opened Compaction

  /** The sum of the weights of the files with ids below `n`. */
  function Pool(weights: map<FileId, nat>, n: nat): nat {
    if n == 0 then 0 else Pool(weights, n - 1) + Weight(weights, n - 1)
  }

  function Weight(weights: map<FileId, nat>, f: FileId): nat { if f in weights then weights[f] else 0 }

  lemma {:induction false} PoolUpdate(weights: map<FileId, nat>, f: FileId, w: nat, n: nat)
    ensures Pool(weights[f := w], n)
         == Pool(weights, n) + if f < n then w - Weight(weights, f) else 0
  {
    if n > 0 {
      PoolUpdate(weights, f, w, n - 1);
    }
  }

  /** The weights of some files and of the others. */
  lemma {:induction false} PoolSplit(all: map<FileId, nat>, some: map<FileId, nat>, rest: map<FileId, nat>, n: nat)
    requires some.Keys !! rest.Keys && all.Keys == some.Keys + rest.Keys
    requires forall f :: f in all ==> all[f] == if f in some then some[f] else rest[f]
    ensures Pool(all, n) == Pool(some, n) + Pool(rest, n)
  {
    if n > 0 {
      PoolSplit(all, some, rest, n - 1);
      assert n - 1 in all <==> n - 1 in some || n - 1 in rest;
    }
  }

  lemma {:induction false} PoolZero(weights: map<FileId, nat>, n: nat)
    requires forall f :: f in weights ==> weights[f] == 0
    ensures Pool(weights, n) == 0
  {
    if n > 0 {
      PoolZero(weights, n - 1);
    }
  }

  /** How often `r` occurs in each file. */
  function Occurrences(files: Files, r: Row): map<FileId, nat> { map f | f in files :: multiset(files[f])[r] }

  lemma OccurrencesUpdate(files: Files, f: FileId, rows: seq<Row>, r: Row)
    ensures Occurrences(files[f := rows], r) == Occurrences(files, r)[f := multiset(rows)[r]]
  {
  }

  lemma CountLast(rows: seq<Row>, r: Row)
    requires rows != []
    ensures multiset(rows)[r] == multiset(rows[..|rows| - 1])[r] + if Last(rows) == r then 1 else 0
  {
    var n := |rows| - 1;
    assert rows == rows[..n] + [rows[n]];
    assert multiset(rows) == multiset(rows[..n]) + multiset{rows[n]};
  }

  /** A merge has the rows of its files. */
  lemma {:induction false} MergeOccurrences(files: Files, out: seq<Row>, tags: seq<FileId>, r: Row, n: nat)
    requires Interleaves(files, out, tags) && forall f :: f in files ==> f < n
    ensures multiset(out)[r] == Pool(Occurrences(files, r), n)
    decreases |out|
  {
    if out == [] {
      PoolZero(Occurrences(files, r), n);
    } else {
      var m := |out| - 1;
      var x, f, file := out[m], tags[m], files[tags[m]];
      var rest := file[..|file| - 1];
      MergeOccurrences(files[f := rest], out[..m], tags[..m], r, n);
      OccurrencesUpdate(files, f, rest, r);
      PoolUpdate(Occurrences(files, r), f, multiset(rest)[r], n);
      CountLast(out, r);
      CountLast(file, r);
    }
  }
}
