/** In overwrite mode the store is a last-writer-wins map, whatever is compacted. */
module CompactionOverwrite {
  import opened Types
  import opened Rows
  import opened SortedRows
  import opened Readings
  import opened Compaction

  /** `r` is the last row of `k`. */
  predicate Tops(rows: seq<Row>, k: Key, r: Row) {
    KeyRows(rows, k) != [] && Last(KeyRows(rows, k)) == r
  }

  /** `r` is the row of `k` with the greatest sequence in any of the files. */
  ghost predicate Newest(files: Files, k: Key, r: Row) {
    && (exists f :: f in files && Tops(files[f], k, r))
    && (forall g, q :: g in files && q in files[g] && q.key == k ==> Seq(q) <= Seq(r))
  }

  lemma TopsMember(rows: seq<Row>, k: Key, r: Row)
    requires Tops(rows, k, r)
    ensures r in rows && r.key == k
  {
    assert r in KeyRows(rows, k);
  }

  lemma TopsGreatest(rows: seq<Row>, k: Key, r: Row)
    requires Sorted(rows) && Tops(rows, k, r)
    ensures forall q :: q in rows && q.key == k ==> Seq(q) <= Seq(r)
  {
    var mine := KeyRows(rows, k);
    TopsMember(rows, k, r);
    FilterSorted((q: Row) => q.key == k, rows);
    LessTotal(k, k);
    forall q | q in rows && q.key == k ensures Seq(q) <= Seq(r) {
      assert q in mine;
      var i :| 0 <= i < |mine| && mine[i] == q;
      assert i < |mine| - 1 ==> AtMost(mine[i], mine[|mine| - 1]);
    }
  }

  lemma TopsCell(rows: seq<Row>, k: Key, r: Row)
    requires Tops(rows, k, r)
    ensures Cell(rows, k, Seq(r)) != [] && Last(Cell(rows, k, Seq(r))) == r
  {
    CellOfKeyRows(rows, k, Seq(r));
    FilterLast((q: Row) => Seq(q) == Seq(r), KeyRows(rows, k));
  }

  lemma HasTop(rows: seq<Row>, r: Row)
    requires r in rows
    ensures Tops(rows, r.key, Last(KeyRows(rows, r.key)))
  {
    assert r in KeyRows(rows, r.key);
  }

  /** Merging finds the newest row. */
  lemma NewestTops(files: Files, out: seq<Row>, tags: seq<FileId>, k: Key, r: Row)
    requires Merges(files, out, tags) && NoTies(files) && Newest(files, k, r)
    ensures Tops(out, k, r)
  {
    MergedRows(files, out, tags);
    InterleavesCollects(files, out, tags);
    var f :| f in files && Tops(files[f], k, r);
    TopsMember(files[f], k, r);
    TopsCell(files[f], k, r);
    HasTop(out, r);
    var z := Last(KeyRows(out, k));
    TopsMember(out, k, z);
    TopsGreatest(out, k, z);
    TopsCell(out, k, z);
    assert Seq(z) == Seq(r);
  }

  lemma TopsNewest(files: Files, out: seq<Row>, tags: seq<FileId>, k: Key, r: Row)
    requires Merges(files, out, tags) && NoTies(files) && Tops(out, k, r)
    requires forall f :: f in files ==> Sorted(files[f])
    ensures Newest(files, k, r)
  {
    MergedRows(files, out, tags);
    InterleavesCollects(files, out, tags);
    TopsGreatest(out, k, r);
    TopsCell(out, k, r);
    var f :| f in files && Cell(files[f], k, Seq(r)) != [];
    assert r in Cell(files[f], k, Seq(r));
    HasTop(files[f], r);
    var y := Last(KeyRows(files[f], k));
    TopsMember(files[f], k, y);
    TopsGreatest(files[f], k, y);
    TopsCell(files[f], k, y);
    assert Seq(y) == Seq(r);
  }

  // ---------------------------------------------------------------------------------------
  // Every run
  // ---------------------------------------------------------------------------------------

  /** Live rows were written, and the newest row of a key is live. */
  ghost predicate Current(files: Files, written: Files) {
    && (forall f, r :: f in files && r in files[f] ==> exists g :: g in written && r in written[g])
    && (forall k, r :: Newest(written, k, r) ==> Newest(files, k, r))
  }

  lemma WriteKeepsCurrent(files: Files, written: Files, f: FileId, rows: seq<Row>)
    requires Current(files, written) && f !in files && f !in written
    ensures Current(files[f := rows], written[f := rows])
  {
    var live, all := files[f := rows], written[f := rows];
    forall g, r | g in live && r in live[g] ensures exists h :: h in all && r in all[h] {
      if g == f {
        assert r in all[f];
      } else {
        var h :| h in written && r in written[h];
        assert h in all && r in all[h];
      }
    }
    forall k, r | Newest(all, k, r) ensures Newest(live, k, r) {
      var g :| g in all && Tops(all[g], k, r);
      assert forall h, q :: h in written && q in written[h] ==> h in all && q in all[h];
      if g == f {
        assert f in live && Tops(live[f], k, r);
      } else {
        assert g in written && Tops(written[g], k, r);
        assert Newest(files, k, r);
        var h :| h in files && Tops(files[h], k, r);
        assert h in live && Tops(live[h], k, r);
      }
    }
  }

  lemma RestrictNewest(files: Files, ids: set<FileId>, f: FileId, k: Key, r: Row)
    requires NoTies(files) && Newest(files, k, r) && f in files && f in ids && Tops(files[f], k, r)
    ensures NoTies(Restrict(files, ids)) && Newest(Restrict(files, ids), k, r)
  {
    assert f in Restrict(files, ids) && Tops(Restrict(files, ids)[f], k, r);
  }

  /** A compacted file holds rows of its inputs. */
  lemma CompactedRows(files: Files, inputs: set<FileId>, merged: seq<Row>, tags: seq<FileId>)
    requires NoTies(files) && Merges(Restrict(files, inputs), merged, tags) && OneShot(Overwrite, true, merged).Ok?
    ensures forall q :: q in OneShot(Overwrite, true, merged).value ==> exists f :: f in files && q in files[f]
  {
    MergedRows(Restrict(files, inputs), merged, tags);
    forall q | q in OneShot(Overwrite, true, merged).value ensures exists f :: f in files && q in files[f] {
      var m := CompactedRow(Overwrite, merged, q);
      var f :| f in Restrict(files, inputs) && m in Restrict(files, inputs)[f];
      assert q in files[f];
    }
  }

  /** It has the last row that they have for a key. */
  lemma CompactedTop(merged: seq<Row>, k: Key, r: Row)
    requires Sorted(merged) && OneShot(Overwrite, true, merged).Ok? && Tops(merged, k, r)
    ensures Tops(OneShot(Overwrite, true, merged).value, k, r)
  {
    OneShotMeaning(Overwrite, true, merged);
    assert KeyRows(OneShot(Overwrite, true, merged).value, k) == Given(Overwrite, true, merged, k);
  }

  /** Replacing files by rows of theirs that have the newest row of a key. */
  lemma ReplaceKeepsNewest(files: Files, inputs: set<FileId>, output: FileId, rows: seq<Row>, f: FileId, k: Key, r: Row)
    requires Newest(files, k, r) && output !in files && f in files && Tops(files[f], k, r)
    requires forall q :: q in rows ==> exists f :: f in files && q in files[f]
    requires f in inputs ==> Tops(rows, k, r)
    ensures Newest(Replace(files, inputs, output, rows), k, r)
  {
    var live := Replace(files, inputs, output, rows);
    if f in inputs {
      assert output in live && Tops(live[output], k, r);
    } else {
      assert f in live && Tops(live[f], k, r);
    }
    forall g, q: Row | g in live && q in live[g] && q.key == k ensures Seq(q) <= Seq(r) {
      var h :| h in files && q in files[h];
    }
  }

  lemma CompactKeepsNewest(files: Files, inputs: set<FileId>, output: FileId, merged: seq<Row>, tags: seq<FileId>,
                           k: Key, r: Row)
    requires NoTies(files) && output !in files && Merges(Restrict(files, inputs), merged, tags)
    requires OneShot(Overwrite, true, merged).Ok? && Newest(files, k, r)
    ensures Newest(Replace(files, inputs, output, OneShot(Overwrite, true, merged).value), k, r)
  {
    CompactedRows(files, inputs, merged, tags);
    var f :| f in files && Tops(files[f], k, r);
    if f in inputs {
      RestrictNewest(files, inputs, f, k, r);
      NewestTops(Restrict(files, inputs), merged, tags, k, r);
      CompactedTop(merged, k, r);
    }
    ReplaceKeepsNewest(files, inputs, output, OneShot(Overwrite, true, merged).value, f, k, r);
  }

  lemma CompactKeepsCurrent(files: Files, written: Files, inputs: set<FileId>, output: FileId,
                            merged: seq<Row>, tags: seq<FileId>)
    requires Current(files, written) && NoTies(files) && output !in files
    requires Merges(Restrict(files, inputs), merged, tags) && OneShot(Overwrite, true, merged).Ok?
    ensures Current(Replace(files, inputs, output, OneShot(Overwrite, true, merged).value), written)
  {
    CompactedRows(files, inputs, merged, tags);
    forall k, r | Newest(written, k, r)
      ensures Newest(Replace(files, inputs, output, OneShot(Overwrite, true, merged).value), k, r)
    {
      CompactKeepsNewest(files, inputs, output, merged, tags, k, r);
    }
  }

  lemma {:induction false} RunCurrent(width: nat, steps: seq<Step>, run: seq<Store>, i: nat)
    requires Run(Overwrite, width, steps, run) && i < |run|
    ensures Current(run[i].files, run[i].written)
  {
    if i > 0 {
      RunCurrent(width, steps, run, i - 1);
      RunFiles(Overwrite, width, steps, run, i - 1);
      var s, step := run[i - 1], steps[i - 1];
      assert Can(Overwrite, width, s, step) && run[i] == After(Overwrite, s, step);
      match step
      case Write(f, rows) => WriteKeepsCurrent(s.files, s.written, f, rows);
      case Compact(inputs, output, merged, tags) =>
        CompactKeepsCurrent(s.files, s.written, inputs, output, merged, tags);
    }
  }

  /** A merge has no row of a key exactly when no write has. */
  lemma SameAbsent(files: Files, written: Files, out: seq<Row>, tags: seq<FileId>,
                   all: seq<Row>, allTags: seq<FileId>, k: Key)
    requires Current(files, written) && NoTies(files) && NoTies(written)
    requires Merges(files, out, tags) && Merges(written, all, allTags) && KeyRows(all, k) == []
    ensures KeyRows(out, k) == []
  {
    MergedRows(files, out, tags);
    MergedRows(written, all, allTags);
    forall r | r in out ensures r.key != k {
      assert r in all && (r.key == k ==> r in KeyRows(all, k));
    }
    FilterNone((r: Row) => r.key == k, out);
  }

  /** The last row of a key in a merge is the newest row written under it. */
  lemma SameNewest(files: Files, written: Files, out: seq<Row>, tags: seq<FileId>,
                   all: seq<Row>, allTags: seq<FileId>, k: Key)
    requires Current(files, written) && NoTies(files) && NoTies(written)
    requires forall f :: f in written ==> Sorted(written[f])
    requires Merges(files, out, tags) && Merges(written, all, allTags)
    ensures Answer(Overwrite, false, out, k) == Answer(Overwrite, false, all, k)
    ensures forall r :: Tops(out, k, r) <==> Newest(written, k, r)
  {
    forall r | Newest(written, k, r) ensures Tops(out, k, r) && Tops(all, k, r) {
      NewestTops(written, all, allTags, k, r);
      NewestTops(files, out, tags, k, r);
    }
    if KeyRows(all, k) == [] {
      SameAbsent(files, written, out, tags, all, allTags, k);
    } else {
      TopsNewest(written, all, allTags, k, Last(KeyRows(all, k)));
    }
  }

  /** In every reachable state, merging the live files gives, in ascending order of the keys,
      exactly the row with the greatest sequence ever written under each key. */
  lemma LastWriterWins(width: nat, steps: seq<Step>, run: seq<Store>, i: nat, out: seq<Row>, tags: seq<FileId>)
    requires Run(Overwrite, width, steps, run) && i < |run| && Merges(run[i].files, out, tags)
    ensures OneShot(Overwrite, false, out).Ok? && Ascending(OneShot(Overwrite, false, out).value)
    ensures forall r :: r in OneShot(Overwrite, false, out).value <==>
              exists w: Row :: Newest(run[i].written, w.key, w) && r == Drop(w)
  {
    var s := run[i];
    RunFiles(Overwrite, width, steps, run, i);
    RunCurrent(width, steps, run, i);
    OneShotMeaning(Overwrite, false, out);
    var all, allTags := MergeExists(s.written);
    var result := OneShot(Overwrite, false, out).value;
    forall r | r in result ensures exists w: Row :: Newest(s.written, w.key, w) && r == Drop(w) {
      assert r in KeyRows(result, r.key);
      var w := Last(KeyRows(out, r.key));
      TopsMember(out, r.key, w);
      SameNewest(s.files, s.written, out, tags, all, allTags, r.key);
    }
    forall w: Row | Newest(s.written, w.key, w) ensures Drop(w) in result {
      SameNewest(s.files, s.written, out, tags, all, allTags, w.key);
      assert Tops(out, w.key, w);
      assert Drop(w) in KeyRows(result, w.key);
    }
  }

  /** In every reachable state a scan answers as if nothing had ever been compacted. */
  lemma CompactionInvisible(width: nat, steps: seq<Step>, run: seq<Store>, i: nat,
                            out: seq<Row>, tags: seq<FileId>, all: seq<Row>, allTags: seq<FileId>)
    requires Run(Overwrite, width, steps, run) && i < |run|
    requires Merges(run[i].files, out, tags) && Merges(run[i].written, all, allTags)
    ensures OneShot(Overwrite, false, out) == OneShot(Overwrite, false, all)
  {
    var s := run[i];
    RunFiles(Overwrite, width, steps, run, i);
    RunCurrent(width, steps, run, i);
    forall k ensures Answer(Overwrite, false, out, k) == Answer(Overwrite, false, all, k) {
      SameNewest(s.files, s.written, out, tags, all, allTags, k);
    }
    SameAnswers(Overwrite, false, out, all);
  }
}
