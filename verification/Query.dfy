/** Queries over a time range read only the files that overlap it, and see compactions through it. */
module Query {
  import opened Types
  import opened Rows
  import opened MergeStreams
  import opened SortedRows
  import opened Readings
  import opened Compaction
  import opened CompactionOverwrite
  import opened AppendOrder
  import opened Segments

  type Ranges = map<FileId, TimeRange>

  /** The files that a query reads. */
  function Selected(files: Files, ranges: Ranges, query: TimeRange): Files {
    map f | f in files && f in ranges && ranges[f].Overlaps(query) :: files[f]
  }

  /** The output of a compaction has a range that covers those of its inputs. */
  ghost predicate OutputRanged(files: Files, ranges: Ranges, inputs: set<FileId>, output: FileId, range: TimeRange) {
    && files.Keys <= ranges.Keys && inputs <= files.Keys && inputs != {} && output !in files
    && forall f :: f in inputs ==> Covers(range, ranges[f])
  }

  /** A query that overlaps every input reads the output in their place; one that misses the output's
      range reads neither. */
  lemma SelectedAfter(files: Files, ranges: Ranges, inputs: set<FileId>, output: FileId, range: TimeRange, rows: seq<Row>, query: TimeRange)
    requires OutputRanged(files, ranges, inputs, output, range)
    ensures (forall f :: f in inputs ==> ranges[f].Overlaps(query)) ==>
              && inputs <= Selected(files, ranges, query).Keys
              && Selected(Replace(files, inputs, output, rows), ranges[output := range], query)
                 == Replace(Selected(files, ranges, query), inputs, output, rows)
              && Restrict(Selected(files, ranges, query), inputs) == Restrict(files, inputs)
    ensures !range.Overlaps(query) ==>
              Selected(Replace(files, inputs, output, rows), ranges[output := range], query) == Selected(files, ranges, query)
  {
    if forall f :: f in inputs ==> ranges[f].Overlaps(query) {
      var f :| f in inputs;
      CoverSelected(query, range, ranges[f]);
    }
    if !range.Overlaps(query) {
      forall f | f in inputs ensures !ranges[f].Overlaps(query) {
        if ranges[f].Overlaps(query) {
          CoverSelected(query, range, ranges[f]);
        }
      }
    }
  }

  lemma SelectedOk(files: Files, used: set<FileId>, width: nat, ranges: Ranges, query: TimeRange)
    requires FilesOk(files, used, width)
    ensures FilesOk(Selected(files, ranges, query), used, width)
  {
    var ids := set f | f in files && f in ranges && ranges[f].Overlaps(query);
    RestrictKeepsFiles(files, used, width, ids);
    assert Selected(files, ranges, query) == Restrict(files, ids);
  }

  // ---------------------------------------------------------------------------------------
  // Overwrite mode
  // ---------------------------------------------------------------------------------------

  /** Files that keep the newest rows, and hold no others, answer the same. */
  lemma SameTopAfter(files: Files, live: Files, before: seq<Row>, beforeTags: seq<FileId>, after: seq<Row>, afterTags: seq<FileId>, k: Key)
    requires NoTies(files) && NoTies(live) && forall f :: f in files ==> Sorted(files[f])
    requires Merges(files, before, beforeTags) && Merges(live, after, afterTags)
    requires forall r :: Newest(files, k, r) ==> Newest(live, k, r)
    requires forall g, r :: g in live && r in live[g] ==> exists f :: f in files && r in files[f]
    ensures Answer(Overwrite, false, after, k) == Answer(Overwrite, false, before, k)
  {
    if KeyRows(before, k) != [] {
      var r := Last(KeyRows(before, k));
      TopsNewest(files, before, beforeTags, k, r);
      NewestTops(live, after, afterTags, k, r);
    } else {
      NoneAfter(files, live, before, beforeTags, after, afterTags, k);
    }
  }

  lemma NoneAfter(files: Files, live: Files, before: seq<Row>, beforeTags: seq<FileId>, after: seq<Row>, afterTags: seq<FileId>, k: Key)
    requires Merges(files, before, beforeTags) && Merges(live, after, afterTags) && KeyRows(before, k) == []
    requires forall g, r :: g in live && r in live[g] ==> exists f :: f in files && r in files[f]
    ensures KeyRows(after, k) == []
  {
    forall r | r in after ensures r.key != k {
      InterleavesMembers(live, after, afterTags, r);
      InterleavesMembers(files, before, beforeTags, r);
      assert r in before && (r.key == k ==> r in KeyRows(before, k));
    }
    FilterNone((r: Row) => r.key == k, after);
  }

  /** In overwrite mode a compaction does not change what merging files that include its inputs answers. */
  lemma OverwritePreserved(files: Files, used: set<FileId>, width: nat, inputs: set<FileId>, output: FileId, merged: seq<Row>, tags: seq<FileId>,
                           before: seq<Row>, beforeTags: seq<FileId>, after: seq<Row>, afterTags: seq<FileId>)
    requires FilesOk(files, used, width) && output !in used && OneShot(Overwrite, true, merged).Ok?
    requires Merges(Restrict(files, inputs), merged, tags) && Merges(files, before, beforeTags)
    requires Merges(Replace(files, inputs, output, OneShot(Overwrite, true, merged).value), after, afterTags)
    ensures OneShot(Overwrite, false, after) == OneShot(Overwrite, false, before)
  {
    var live := Replace(files, inputs, output, OneShot(Overwrite, true, merged).value);
    CompactKeepsFiles(Overwrite, files, used, width, inputs, output, merged, tags);
    CompactedRows(files, inputs, merged, tags);
    forall k ensures Answer(Overwrite, false, after, k) == Answer(Overwrite, false, before, k) {
      forall r | Newest(files, k, r) ensures Newest(live, k, r) {
        CompactKeepsNewest(files, inputs, output, merged, tags, k, r);
      }
      SameTopAfter(files, live, before, beforeTags, after, afterTags, k);
    }
    SameAnswers(Overwrite, false, after, before);
  }

  /** A query that overlaps every input, or misses the range of the output, gets the same answer
      after a compaction; in append mode if the compaction encloses no other row that it reads. */
  lemma QueryUnchanged(mode: UpdateMode, files: Files, used: set<FileId>, width: nat, ranges: Ranges,
                       inputs: set<FileId>, output: FileId, range: TimeRange, merged: seq<Row>, tags: seq<FileId>, query: TimeRange,
                       before: seq<Row>, beforeTags: seq<FileId>, after: seq<Row>, afterTags: seq<FileId>)
    requires FilesOk(files, used, width) && output !in used && OneShot(mode, true, merged).Ok?
    requires Merges(Restrict(files, inputs), merged, tags) && OutputRanged(files, ranges, inputs, output, range)
    requires Merges(Selected(files, ranges, query), before, beforeTags)
    requires Merges(Selected(Replace(files, inputs, output, OneShot(mode, true, merged).value), ranges[output := range], query), after, afterTags)
    requires (forall f :: f in inputs ==> ranges[f].Overlaps(query)) || !range.Overlaps(query)
    requires mode.Append? ==> NoneEnclosed(Selected(files, ranges, query), inputs)
    ensures OneShot(mode, false, after) == OneShot(mode, false, before)
  {
    var seen := Selected(files, ranges, query);
    SelectedAfter(files, ranges, inputs, output, range, OneShot(mode, true, merged).value, query);
    SelectedOk(files, used, width, ranges, query);
    if !range.Overlaps(query) {
      MergeUnique(seen, before, beforeTags, after, afterTags);
    } else if mode.Overwrite? {
      OverwritePreserved(seen, used, width, inputs, output, merged, tags, before, beforeTags, after, afterTags);
    } else {
      CompactionKeepsOrder(seen, used, width, inputs, output, merged, tags, before, beforeTags, after, afterTags);
    }
  }

  // ---------------------------------------------------------------------------------------
  // A query that overlaps one input only
  // ---------------------------------------------------------------------------------------

  function Only(s: nat): Row { Row([0], [[s % 256]], Kept(s)) }

  /** The files of the example, before and after. */
  ghost function Apart(): Files { map[1 := [Only(1)], 2 := [Only(2)]] }

  ghost function ApartRanges(): Ranges { map[1 := TimeRange(0, 10), 2 := TimeRange(50, 60)] }

  lemma OneFile(f: FileId, r: Row)
    ensures Merges(map[f := [r]], [r], [f])
  {
    var one: Files, none: Files := map[f := [r]], map[f := []];
    assert one[f := []] == none;
    assert Interleaves(none, [], []);
    InterleavesAppend(one, f, [], [], r);
    assert [] + [r] == [r] && [] + [f] == [f];
  }

  lemma Gives(r: Row)
    ensures OneShot(Overwrite, false, [r]) == Ok([Drop(r)])
  {
    OneKey(Overwrite, false, [r], r.key, r);
  }

  /** A key is written at time 0 and, newer, at time 50. The query of the times from 0 to 10 reads
      only the first file and gives its row. After the compaction of both files it reads the output,
      which holds only the newer row: the row of the queried times is gone. */
  lemma NarrowQueryChanges()
    ensures Merges(Restrict(Apart(), {1, 2}), [Only(1), Only(2)], [1, 2])
    ensures OneShot(Overwrite, true, [Only(1), Only(2)]) == Ok([Only(2)])
    ensures Merges(Selected(Apart(), ApartRanges(), TimeRange(0, 10)), [Only(1)], [1])
    ensures Merges(Selected(Replace(Apart(), {1, 2}, 3, [Only(2)]), ApartRanges()[3 := TimeRange(0, 60)], TimeRange(0, 10)), [Only(2)], [3])
    ensures OneShot(Overwrite, false, [Only(1)]) == Ok([Drop(Only(1))])
    ensures OneShot(Overwrite, false, [Only(2)]) == Ok([Drop(Only(2))]) && Drop(Only(1)) != Drop(Only(2))
  {
    ApartMerges();
    ApartAnswers();
  }

  lemma ApartAnswers()
    ensures OneShot(Overwrite, true, [Only(1), Only(2)]) == Ok([Only(2)])
    ensures OneShot(Overwrite, false, [Only(1)]) == Ok([Drop(Only(1))])
    ensures OneShot(Overwrite, false, [Only(2)]) == Ok([Drop(Only(2))]) && Drop(Only(1)) != Drop(Only(2))
  {
    OneKey(Overwrite, true, [Only(1), Only(2)], [0], Only(2));
    Gives(Only(1));
    Gives(Only(2));
  }

  lemma ApartMerges()
    ensures Merges(Restrict(Apart(), {1, 2}), [Only(1), Only(2)], [1, 2])
    ensures Merges(Selected(Apart(), ApartRanges(), TimeRange(0, 10)), [Only(1)], [1])
    ensures Merges(Selected(Replace(Apart(), {1, 2}, 3, [Only(2)]), ApartRanges()[3 := TimeRange(0, 60)], TimeRange(0, 10)), [Only(2)], [3])
  {
    BothMerge();
    OneFile(1, Only(1));
    OneFile(3, Only(2));
    SelectedApart();
  }

  lemma BothMerge()
    ensures Merges(Restrict(Apart(), {1, 2}), [Only(1), Only(2)], [1, 2])
  {
    var a, b := Only(1), Only(2);
    var none: Files, one: Files, two: Files := map[1 := [], 2 := []], map[1 := [a], 2 := []], map[1 := [a], 2 := [b]];
    assert one[1 := []] == none && two[2 := []] == one && Restrict(Apart(), {1, 2}) == two;
    assert Interleaves(none, [], []);
    InterleavesAppend(one, 1, [], [], a);
    InterleavesAppend(two, 2, [a], [1], b);
    assert [a] + [b] == [a, b] && [1] + [2] == [1, 2];
  }

  lemma SelectedApart()
    ensures Selected(Apart(), ApartRanges(), TimeRange(0, 10)) == map[1 := [Only(1)]]
    ensures Selected(Replace(Apart(), {1, 2}, 3, [Only(2)]), ApartRanges()[3 := TimeRange(0, 60)], TimeRange(0, 10)) == map[3 := [Only(2)]]
  {
  }
}
