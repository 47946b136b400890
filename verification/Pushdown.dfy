/** Filtering by primary key below the merge, as the scan plan does. */
module Pushdown {
  import opened Types
  import opened Rows
  import opened SortedRows
  import opened Readings

  /** A predicate on primary-key columns only. */
  function ByKey(p: Key -> bool): Row -> bool { (r: Row) => p(r.key) }

  lemma FilteredKeyRows(p: Key -> bool, rows: seq<Row>, k: Key)
    ensures KeyRows(Filter(ByKey(p), rows), k) == if p(k) then KeyRows(rows, k) else []
  {
    var q := (r: Row) => r.key == k;
    FilterTwice(q, ByKey(p), rows);
    if p(k) {
      FilterSame((r: Row) => q(r) && ByKey(p)(r), q, rows);
    } else {
      FilterNone((r: Row) => q(r) && ByKey(p)(r), rows);
    }
  }

  lemma FilteredAnswer(mode: UpdateMode, keep: bool, p: Key -> bool, rows: seq<Row>, k: Key)
    ensures Answer(mode, keep, Filter(ByKey(p), rows), k) == if p(k) then Answer(mode, keep, rows, k) else None
  {
    FilteredKeyRows(p, rows, k);
  }

  /** Merging the filtered rows fails exactly when the merge of some selected key does, and
      when no key's merge fails it gives the filtered merge. */
  lemma FilterThenMerge(mode: UpdateMode, keep: bool, p: Key -> bool, rows: seq<Row>)
    requires Sorted(rows)
    ensures OneShot(mode, keep, Filter(ByKey(p), rows)).Err? <==>
            exists k :: p(k) && Answer(mode, keep, rows, k).Some? && Answer(mode, keep, rows, k).value.Err?
    ensures OneShot(mode, keep, rows).Ok? ==>
              OneShot(mode, keep, Filter(ByKey(p), rows)) == Ok(Filter(ByKey(p), OneShot(mode, keep, rows).value))
  {
    var low := Filter(ByKey(p), rows);
    FilterSorted(ByKey(p), rows);
    OneShotMeaning(mode, keep, rows);
    OneShotMeaning(mode, keep, low);
    forall k ensures Answer(mode, keep, low, k) == if p(k) then Answer(mode, keep, rows, k) else None {
      FilteredAnswer(mode, keep, p, rows, k);
    }
    if OneShot(mode, keep, rows).Ok? {
      var merged, lowMerged := OneShot(mode, keep, rows).value, OneShot(mode, keep, low).value;
      AscendingSorted(merged);
      AscendingSorted(lowMerged);
      FilterSorted(ByKey(p), merged);
      forall k ensures KeyRows(lowMerged, k) == KeyRows(Filter(ByKey(p), merged), k) {
        FilteredKeyRows(p, merged, k);
        assert KeyRows(merged, k) == Given(mode, keep, rows, k) && KeyRows(lowMerged, k) == Given(mode, keep, low, k);
      }
      KeysDetermine(lowMerged, Filter(ByKey(p), merged));
    }
  }

  /** Filtering every file before the merge gives what filtering after it gives. The filtered
      merge is a sorted merge of the filtered files, and the only one when no two files tie. */
  lemma FilterPushdown(mode: UpdateMode, keep: bool, p: Key -> bool, files: map<FileId, seq<Row>>,
                       out: seq<Row>, tags: seq<FileId>)
    requires Interleaves(files, out, tags) && Sorted(out)
    ensures exists kept :: Interleaves(FilterFiles(ByKey(p), files), Filter(ByKey(p), out), kept)
    ensures Sorted(Filter(ByKey(p), out))
    ensures NoTies(files) ==>
              forall low, lowTags :: Sorted(low) && Interleaves(FilterFiles(ByKey(p), files), low, lowTags) ==>
                low == Filter(ByKey(p), out)
    ensures OneShot(mode, keep, out).Ok? ==>
              OneShot(mode, keep, Filter(ByKey(p), out)) == Ok(Filter(ByKey(p), OneShot(mode, keep, out).value))
    ensures OneShot(mode, keep, Filter(ByKey(p), out)).Err? <==>
            exists k :: p(k) && Answer(mode, keep, out, k).Some? && Answer(mode, keep, out, k).value.Err?
  {
    var kept := InterleavesFilter(ByKey(p), files, out, tags);
    FilterSorted(ByKey(p), out);
    FilterThenMerge(mode, keep, p, out);
    if NoTies(files) {
      assert NoTies(FilterFiles(ByKey(p), files));
      forall low, lowTags | Sorted(low) && Interleaves(FilterFiles(ByKey(p), files), low, lowTags)
        ensures low == Filter(ByKey(p), out)
      {
        MergeUnique(FilterFiles(ByKey(p), files), low, lowTags, Filter(ByKey(p), out), kept);
      }
    }
  }
}
