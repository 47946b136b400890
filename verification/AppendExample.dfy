/** A compaction in append mode that changes the order of the bytes of a key. */
module AppendExample {
  import opened Types
  import opened Runs
  import opened Rows
  import opened MergeStreams
  import opened SortedRows
  import opened Readings
  import opened Compaction
  import opened CompactionAppend
  import opened AppendTheorems

  function Chunk(s: nat, bytes: Bytes): Row { Row([0], [bytes], Kept(s)) }

  lemma ChunksMerge(rows: seq<Row>, s: nat, bytes: Bytes)
    requires rows != [] && rows[0].key == [0] && rows[0].builtin == Kept(s) && |rows[0].values| == 1
    requires Column(rows, 0) == bytes && bytes != []
    ensures MergeRun(Append, rows) == Ok(Chunk(s, bytes))
  {
    assert Mergeable(Append, rows);
    assert MergeRun(Append, rows).value.values == [bytes];
  }

  lemma ChunkColumn(rows: seq<Row>, bytes: Bytes, s: nat, more: Bytes)
    requires Column(rows, 0) == bytes
    ensures Column(rows + [Chunk(s, more)], 0) == bytes + more
  {
    ColumnConcat(rows, [Chunk(s, more)], 0);
    ColumnOne(Chunk(s, more), 0);
  }

  /** Files of one row each. */
  lemma MergeTwo(f: FileId, g: FileId, a: Row, b: Row)
    requires f != g && AtMost(a, b)
    ensures Merges(map[f := [a], g := [b]], [a, b], [f, g])
  {
    var none: Files, one: Files, two: Files :=
      map[f := [], g := []], map[f := [a], g := []], map[f := [a], g := [b]];
    assert one[f := []] == none && two[g := []] == one;
    InterleavesAppend(one, f, [], [], a);
    InterleavesAppend(two, g, [a], [f], b);
    assert [a] + [b] == [a, b] && [f] + [g] == [f, g];
  }

  lemma MergeThree(a: Row, b: Row, d: Row)
    requires AtMost(a, b) && AtMost(b, d) && AtMost(a, d)
    ensures Merges(map[1 := [a], 2 := [b], 3 := [d]], [a, b, d], [1, 2, 3])
  {
    var none: Files, one: Files, two: Files, three: Files :=
      map[1 := [], 2 := [], 3 := []], map[1 := [a], 2 := [], 3 := []], map[1 := [a], 2 := [b], 3 := []],
      map[1 := [a], 2 := [b], 3 := [d]];
    assert one[1 := []] == none && two[2 := []] == one && three[3 := []] == two;
    InterleavesAppend(one, 1, [], [], a);
    InterleavesAppend(two, 2, [a], [1], b);
    assert [a] + [b] == [a, b] && [1] + [2] == [1, 2];
    InterleavesAppend(three, 3, [a, b], [1, 2], d);
    assert [a, b] + [d] == [a, b, d] && [1, 2] + [3] == [1, 2, 3];
  }

  lemma ThreeWrites(a: Row, b: Row, d: Row)
    requires a == Chunk(1, [1]) && b == Chunk(2, [2]) && d == Chunk(3, [3])
    ensures FilesOk(map[1 := [a], 2 := [b], 3 := [d]], {1, 2, 3}, 1)
  {
  }

  /** Three writes of one key, and a compaction of the first and the last: the scan gave the
      bytes 1, 2, 3 before it and gives 1, 3, 2 after it. */
  lemma StraddlingReorders() returns (c: Round)
    ensures c.Valid({1, 2, 3}, 1)
    ensures OneShot(Append, false, c.before) == Ok([Row([0], [[1, 2, 3]], Dropped)])
    ensures OneShot(Append, false, c.after) == Ok([Row([0], [[1, 3, 2]], Dropped)])
  {
    var a, b, d, ad := Chunk(1, [1]), Chunk(2, [2]), Chunk(3, [3]), Chunk(1, [1, 3]);
    var files: Files := map[1 := [a], 2 := [b], 3 := [d]];
    c := Round(files, {1, 3}, 4, [a, d], [a, b, d], [ad, b]);
    StraddledColumns(a, b, d, ad);
    OneKey(Append, true, [a, d], [0], ad);
    OneKey(Append, false, [a, b, d], [0], Chunk(1, [1, 2, 3]));
    OneKey(Append, false, [ad, b], [0], Chunk(1, [1, 3, 2]));
    StraddledRound(c, a, b, d, ad);
  }

  lemma StraddledRound(c: Round, a: Row, b: Row, d: Row, ad: Row)
    requires a == Chunk(1, [1]) && b == Chunk(2, [2]) && d == Chunk(3, [3]) && ad == Chunk(1, [1, 3])
    requires c == Round(map[1 := [a], 2 := [b], 3 := [d]], {1, 3}, 4, [a, d], [a, b, d], [ad, b])
    requires OneShot(Append, true, [a, d]) == Ok([ad])
    ensures c.Valid({1, 2, 3}, 1)
  {
    ThreeWrites(a, b, d);
    StraddledMerges(c, a, b, d, ad);
    ValidRound(c, {1, 2, 3}, 1, [1, 3], [1, 2, 3], [4, 2]);
  }

  lemma ValidRound(c: Round, used: set<FileId>, width: nat, mergedTags: seq<FileId>, beforeTags: seq<FileId>, afterTags: seq<FileId>)
    requires FilesOk(c.files, used, width) && c.output !in used && OneShot(Append, true, c.merged).Ok?
    requires Merges(Restrict(c.files, c.inputs), c.merged, mergedTags)
    requires Merges(c.files, c.before, beforeTags)
    requires Merges(Replace(c.files, c.inputs, c.output, c.Rows()), c.after, afterTags)
    ensures c.Valid(used, width)
  {
  }

  lemma StraddledMerges(c: Round, a: Row, b: Row, d: Row, ad: Row)
    requires a == Chunk(1, [1]) && b == Chunk(2, [2]) && d == Chunk(3, [3]) && ad == Chunk(1, [1, 3])
    requires c == Round(map[1 := [a], 2 := [b], 3 := [d]], {1, 3}, 4, [a, d], [a, b, d], [ad, b])
    ensures Merges(Restrict(c.files, c.inputs), c.merged, [1, 3])
    ensures Merges(c.files, c.before, [1, 2, 3])
    ensures Merges(Replace(c.files, c.inputs, c.output, [ad]), c.after, [4, 2])
  {
    MergeTwo(1, 3, a, d);
    MergeThree(a, b, d);
    MergeTwo(4, 2, ad, b);
    assert Restrict(c.files, c.inputs) == map[1 := [a], 3 := [d]];
    assert Replace(c.files, c.inputs, c.output, [ad]) == map[4 := [ad], 2 := [b]];
  }

  lemma StraddledColumns(a: Row, b: Row, d: Row, ad: Row)
    requires a == Chunk(1, [1]) && b == Chunk(2, [2]) && d == Chunk(3, [3]) && ad == Chunk(1, [1, 3])
    ensures MergeRun(Append, [a, d]) == Ok(ad)
    ensures MergeRun(Append, [a, b, d]) == Ok(Chunk(1, [1, 2, 3]))
    ensures MergeRun(Append, [ad, b]) == Ok(Chunk(1, [1, 3, 2]))
  {
    ColumnOne(a, 0);
    ColumnOne(ad, 0);
    ChunkColumn([a], [1], 3, [3]);
    ChunkColumn([a], [1], 2, [2]);
    ChunkColumn([a, b], [1, 2], 3, [3]);
    ChunkColumn([ad], [1, 3], 2, [2]);
    assert [a] + [d] == [a, d] && [a] + [b] == [a, b] && [a, b] + [d] == [a, b, d] && [ad] + [b] == [ad, b];
    ChunksMerge([a, d], 1, [1, 3]);
    ChunksMerge([a, b, d], 1, [1, 2, 3]);
    ChunksMerge([ad, b], 1, [1, 3, 2]);
  }
}
