/** The files of one segment under writes and compactions. */
module Compaction {
  import opened Types
  import opened Rows
  import opened SortedRows
  import opened Readings

  type Files = map<FileId, seq<Row>>

  /** The live files, every write ever committed under its file id, and the ids given out. */
  datatype Store = Store(files: Files, written: Files, used: set<FileId>)

  datatype Step =
    | Write(f: FileId, rows: seq<Row>)
    | Compact(inputs: set<FileId>, output: FileId, merged: seq<Row>, tags: seq<FileId>)

  function Restrict(files: Files, ids: set<FileId>): Files { map f | f in files && f in ids :: files[f] }

  /** A write gives its file id to all its rows as their sequence; writes may commit in any order
      of their ids. A compaction may take any live files and any merge of them. One that fails
      changes no file. */
  ghost predicate Can(mode: UpdateMode, width: nat, s: Store, step: Step) {
    match step
    case Write(f, rows) =>
      f !in s.used && Sorted(rows) && forall r :: r in rows ==> r.builtin == Kept(f) && |r.values| == width
    case Compact(inputs, output, merged, tags) =>
      && inputs <= s.files.Keys && output !in s.used
      && Merges(Restrict(s.files, inputs), merged, tags)
      && OneShot(mode, true, merged).Ok?
  }

  function Replace(files: Files, inputs: set<FileId>, output: FileId, rows: seq<Row>): Files {
    (files - inputs)[output := rows]
  }

  function After(mode: UpdateMode, s: Store, step: Step): Store
    requires step.Compact? ==> OneShot(mode, true, step.merged).Ok?
  {
    match step
    case Write(f, rows) => Store(s.files[f := rows], s.written[f := rows], s.used + {f})
    case Compact(inputs, output, merged, _) =>
      Store(Replace(s.files, inputs, output, OneShot(mode, true, merged).value), s.written, s.used + {output})
  }

  ghost predicate Run(mode: UpdateMode, width: nat, steps: seq<Step>, run: seq<Store>) {
    && |run| == |steps| + 1
    && run[0] == Store(map[], map[], {})
    && forall i :: 0 <= i < |steps| ==>
         Can(mode, width, run[i], steps[i]) && run[i + 1] == After(mode, run[i], steps[i])
  }

  // ---------------------------------------------------------------------------------------
  // What every run keeps of its files
  // ---------------------------------------------------------------------------------------

  predicate RowOk(r: Row, used: set<FileId>, width: nat) {
    r.builtin.Kept? && Seq(r) in used && |r.values| == width
  }

  /** Files are sorted, no two of them hold one key at one sequence, and no sequence is fresh. */
  ghost predicate FilesOk(files: Files, used: set<FileId>, width: nat) {
    && files.Keys <= used
    && (forall f :: f in files ==> Sorted(files[f]))
    && NoTies(files)
    && (forall f, r :: f in files && r in files[f] ==> RowOk(r, used, width))
  }

  lemma FilesOkGrows(files: Files, used: set<FileId>, more: set<FileId>, width: nat)
    requires FilesOk(files, used, width) && used <= more
    ensures FilesOk(files, more, width)
  {
    forall f, r | f in files && r in files[f] ensures RowOk(r, more, width) {
      assert RowOk(r, used, width);
    }
  }

  lemma WriteKeepsFiles(files: Files, used: set<FileId>, width: nat, f: FileId, rows: seq<Row>)
    requires FilesOk(files, used, width) && f !in used && Sorted(rows)
    requires forall r :: r in rows ==> r.builtin == Kept(f) && |r.values| == width
    ensures FilesOk(files[f := rows], used + {f}, width)
  {
    forall g, r | g in files && r in files[g] ensures RowOk(r, used + {f}, width) && Seq(r) != f {
      assert RowOk(r, used, width);
    }
  }

  lemma RestrictKeepsFiles(files: Files, used: set<FileId>, width: nat, ids: set<FileId>)
    requires FilesOk(files, used, width)
    ensures FilesOk(Restrict(files, ids), used, width)
  {
  }

  /** A merge holds the rows of its files. */
  lemma MergedRows(files: Files, out: seq<Row>, tags: seq<FileId>)
    requires Merges(files, out, tags) && NoTies(files)
    ensures forall f, r :: f in files && r in files[f] ==> r in out
    ensures forall r :: r in out ==> exists f :: f in files && r in files[f]
  {
    InterleavesCollects(files, out, tags);
    forall f, r | f in files && r in files[f] ensures r in out {
      assert r in Cell(files[f], r.key, Seq(r));
      assert r in Cell(out, r.key, Seq(r));
    }
    forall r | r in out ensures exists f :: f in files && r in files[f] {
      assert r in Cell(out, r.key, Seq(r));
      var f :| f in files && Cell(files[f], r.key, Seq(r)) != [];
      assert r in Cell(files[f], r.key, Seq(r));
    }
  }

  /** A compacted row has the builtin columns of one of the rows it comes from; in overwrite
      mode it is one of them. */
  lemma CompactedRow(mode: UpdateMode, merged: seq<Row>, r: Row) returns (m: Row)
    requires Sorted(merged) && OneShot(mode, true, merged).Ok? && r in OneShot(mode, true, merged).value
    ensures m in merged && m.key == r.key && m.builtin == r.builtin && |m.values| == |r.values|
    ensures mode.Overwrite? ==> r == m
  {
    OneShotMeaning(mode, true, merged);
    assert r in KeyRows(OneShot(mode, true, merged).value, r.key);
    var run := KeyRows(merged, r.key);
    assert run[0] in run && run[|run| - 1] in run;
    m := if mode.Overwrite? then run[|run| - 1] else run[0];
  }

  lemma CompactKeepsFiles(mode: UpdateMode, files: Files, used: set<FileId>, width: nat, inputs: set<FileId>,
                          output: FileId, merged: seq<Row>, tags: seq<FileId>)
    requires FilesOk(files, used, width) && output !in used
    requires Merges(Restrict(files, inputs), merged, tags) && OneShot(mode, true, merged).Ok?
    ensures FilesOk(Replace(files, inputs, output, OneShot(mode, true, merged).value), used + {output}, width)
  {
    var rows := OneShot(mode, true, merged).value;
    RestrictKeepsFiles(files, used, width, inputs);
    MergedRows(Restrict(files, inputs), merged, tags);
    OneShotMeaning(mode, true, merged);
    AscendingSorted(rows);
    forall r | r in rows
      ensures RowOk(r, used + {output}, width)
      ensures exists f, m :: f in files && f in inputs && m in files[f] && m.key == r.key && Seq(m) == Seq(r)
    {
      var m := CompactedRow(mode, merged, r);
      var f :| f in Restrict(files, inputs) && m in Restrict(files, inputs)[f];
      assert m in files[f] && RowOk(m, used, width);
    }
    FilesOkGrows(files, used, used + {output}, width);
  }

  lemma {:induction false} RunFiles(mode: UpdateMode, width: nat, steps: seq<Step>, run: seq<Store>, i: nat)
    requires Run(mode, width, steps, run) && i < |run|
    ensures FilesOk(run[i].files, run[i].used, width) && FilesOk(run[i].written, run[i].used, width)
  {
    if i > 0 {
      RunFiles(mode, width, steps, run, i - 1);
      var s, step := run[i - 1], steps[i - 1];
      assert Can(mode, width, s, step) && run[i] == After(mode, s, step);
      match step
      case Write(f, rows) =>
        WriteKeepsFiles(s.files, s.used, width, f, rows);
        WriteKeepsFiles(s.written, s.used, width, f, rows);
      case Compact(inputs, output, merged, tags) =>
        CompactKeepsFiles(mode, s.files, s.used, width, inputs, output, merged, tags);
        FilesOkGrows(s.written, s.used, s.used + {output}, width);
    }
  }
}
