/** When a whole run in append mode keeps the order of all bytes.

    Beside the live files of a state, the writes that are still to come decide the order. Seen
    together with them, a write changes nothing, and a compaction changes the order only if one of
    its inputs' rows comes before and another after a row of the rest.
 */
module AppendOrder {
  import opened Types
  import opened Rows
  import opened SortedRows
  import opened Readings
  import opened Compaction
  import opened CompactionAppend
  import opened AppendTheorems

  /** The writes of the steps from `i` on. */
  function Later(steps: seq<Step>, i: nat, j: nat): Files
    requires i <= j <= |steps|
    decreases j - i
  {
    if i == j then map[]
    else if steps[i].Write? then Later(steps, i + 1, j)[steps[i].f := steps[i].rows]
    else Later(steps, i + 1, j)
  }

  /** The live files of a state and the writes still to come. */
  function Coming(steps: seq<Step>, run: seq<Store>, i: nat, j: nat): Files
    requires i <= j <= |steps| && |run| == |steps| + 1
  {
    run[i].files + Later(steps, i, j)
  }

  function UsedBy(steps: seq<Step>, run: seq<Store>, i: nat, j: nat): set<FileId>
    requires i <= j <= |steps| && |run| == |steps| + 1
  {
    run[i].used + Later(steps, i, j).Keys
  }

  lemma StepAt(width: nat, steps: seq<Step>, run: seq<Store>, i: nat)
    requires Run(Append, width, steps, run) && i < |steps|
    ensures Can(Append, width, run[i], steps[i]) && run[i + 1] == After(Append, run[i], steps[i])
  {
  }

  ghost predicate Written(f: FileId, rows: seq<Row>, width: nat) {
    Sorted(rows) && forall r :: r in rows ==> r.builtin == Kept(f) && |r.values| == width
  }

  lemma {:induction false} LaterFresh(width: nat, steps: seq<Step>, run: seq<Store>, i: nat, j: nat)
    requires Run(Append, width, steps, run) && i <= j <= |steps|
    ensures Later(steps, i, j).Keys !! run[i].used
    ensures forall f :: f in Later(steps, i, j) ==> Written(f, Later(steps, i, j)[f], width)
    decreases j - i
  {
    if i < j {
      StepAt(width, steps, run, i);
      LaterFresh(width, steps, run, i + 1, j);
    }
  }

  /** Files and later writes do not tie. */
  lemma JoinedOk(files: Files, used: set<FileId>, later: Files, width: nat)
    requires FilesOk(files, used, width) && later.Keys !! used
    requires forall f :: f in later ==> Written(f, later[f], width)
    ensures FilesOk(files + later, used + later.Keys, width)
  {
    var all, more := files + later, used + later.Keys;
    forall f, r | f in all && r in all[f]
      ensures RowOk(r, more, width) && (f in later ==> Seq(r) == f) && (f !in later ==> Seq(r) in used)
    {
      if f in later {
        assert Written(f, later[f], width);
      } else {
        assert RowOk(r, used, width);
      }
    }
    forall f | f in all ensures Sorted(all[f]) {
      if f in later {
        assert Written(f, later[f], width);
      }
    }
  }

  lemma ComingOk(width: nat, steps: seq<Step>, run: seq<Store>, i: nat, j: nat)
    requires Run(Append, width, steps, run) && i <= j <= |steps|
    ensures FilesOk(Coming(steps, run, i, j), UsedBy(steps, run, i, j), width)
  {
    RunFiles(Append, width, steps, run, i);
    LaterFresh(width, steps, run, i, j);
    JoinedOk(run[i].files, run[i].used, Later(steps, i, j), width);
  }

  /** Everything ever written is what has been written and what is to come. */
  lemma {:induction false} WrittenIsComing(width: nat, steps: seq<Step>, run: seq<Store>, i: nat, j: nat)
    requires Run(Append, width, steps, run) && i <= j <= |steps|
    ensures run[j].written == run[i].written + Later(steps, i, j)
    decreases j - i
  {
    if i < j {
      StepAt(width, steps, run, i);
      WrittenIsComing(width, steps, run, i + 1, j);
      LaterFresh(width, steps, run, i + 1, j);
    } else {
      assert run[i].written + map[] == run[i].written;
    }
  }

  // ---------------------------------------------------------------------------------------
  // One step
  // ---------------------------------------------------------------------------------------

  /** The inputs hold a row of the key of `r` before it, and one after it. */
  ghost predicate Enclosed(files: Files, inputs: set<FileId>, r: Row) {
    && (exists f, a :: f in files && f in inputs && a in files[f] && a.key == r.key && Seq(a) < Seq(r))
    && (exists f, b :: f in files && f in inputs && b in files[f] && b.key == r.key && Seq(r) < Seq(b))
  }

  ghost predicate NoneEnclosed(files: Files, inputs: set<FileId>) {
    forall g, r :: g in files && g !in inputs && r in files[g] ==> !Enclosed(files, inputs, r)
  }

  lemma InputRow(files: Files, inputs: set<FileId>, merged: seq<Row>, tags: seq<FileId>, r: Row) returns (f: FileId)
    requires Merges(Restrict(files, inputs), merged, tags) && r in merged
    ensures f in files && f in inputs && r in files[f]
  {
    InterleavesMembers(Restrict(files, inputs), merged, tags, r);
    f :| f in Restrict(files, inputs) && r in Restrict(files, inputs)[f];
  }

  lemma NotStraddled(c: Round, mergedTags: seq<FileId>, beforeTags: seq<FileId>, k: Key)
    requires Merges(Restrict(c.files, c.inputs), c.merged, mergedTags) && Merges(c.files, c.before, beforeTags)
    requires NoneEnclosed(c.files, c.inputs) && c.Moved(k) != []
    ensures !Straddles(KeyRows(c.before, k), c.Moved(k))
  {
    var moved := c.Moved(k);
    var a, b := moved[0], Last(moved);
    assert a in moved && b in moved;
    var f := InputRow(c.files, c.inputs, c.merged, mergedTags, a);
    var g := InputRow(c.files, c.inputs, c.merged, mergedTags, b);
    forall r | r in KeyRows(c.before, k) && Seq(r) !in Seqs(moved) ensures !(Seq(a) < Seq(r) < Seq(b)) {
      InterleavesMembers(c.files, c.before, beforeTags, r);
      var h :| h in c.files && r in c.files[h];
      if h in c.inputs {
        InputIsMoved(c, mergedTags, h, r, k);
      } else {
        assert !Enclosed(c.files, c.inputs, r);
      }
    }
  }

  lemma InputIsMoved(c: Round, tags: seq<FileId>, h: FileId, r: Row, k: Key)
    requires Merges(Restrict(c.files, c.inputs), c.merged, tags)
    requires h in c.files && h in c.inputs && r in c.files[h] && r.key == k
    ensures Seq(r) in Seqs(c.Moved(k))
  {
    assert h in Restrict(c.files, c.inputs) && r in Restrict(c.files, c.inputs)[h];
    InterleavesMembers(Restrict(c.files, c.inputs), c.merged, tags, r);
    assert r in c.Moved(k);
  }

  /** A compaction that encloses no other row. */
  lemma CompactionKeepsOrder(files: Files, used: set<FileId>, width: nat, inputs: set<FileId>, output: FileId,
                             merged: seq<Row>, mergedTags: seq<FileId>, before: seq<Row>, beforeTags: seq<FileId>,
                             after: seq<Row>, afterTags: seq<FileId>)
    requires FilesOk(files, used, width) && output !in used && OneShot(Append, true, merged).Ok?
    requires Merges(Restrict(files, inputs), merged, mergedTags) && Merges(files, before, beforeTags)
    requires Merges(Replace(files, inputs, output, OneShot(Append, true, merged).value), after, afterTags)
    requires NoneEnclosed(files, inputs)
    ensures OneShot(Append, false, after) == OneShot(Append, false, before)
  {
    var c := Round(files, inputs, output, merged, before, after);
    assert Merges(Replace(c.files, c.inputs, c.output, c.Rows()), c.after, afterTags);
    assert c.Valid(used, width);
    forall k ensures c.Moved(k) == [] || !Straddles(KeyRows(c.before, k), c.Moved(k)) {
      if c.Moved(k) != [] {
        NotStraddled(c, mergedTags, beforeTags, k);
      }
    }
    AppendPreserved(c, used, width);
  }

  /** A write was coming, and a compaction replaces its inputs. */
  lemma ComingNext(width: nat, steps: seq<Step>, run: seq<Store>, i: nat, j: nat)
    requires Run(Append, width, steps, run) && i < j <= |steps|
    ensures steps[i].Write? ==> Coming(steps, run, i + 1, j) == Coming(steps, run, i, j)
    ensures steps[i].Compact? ==>
              && OneShot(Append, true, steps[i].merged).Ok?
              && Merges(Restrict(Coming(steps, run, i, j), steps[i].inputs), steps[i].merged, steps[i].tags)
              && steps[i].output !in UsedBy(steps, run, i, j)
              && Coming(steps, run, i + 1, j) ==
                 Replace(Coming(steps, run, i, j), steps[i].inputs, steps[i].output, OneShot(Append, true, steps[i].merged).value)
  {
    StepAt(width, steps, run, i);
    LaterFresh(width, steps, run, i, j);
    LaterFresh(width, steps, run, i + 1, j);
    RunFiles(Append, width, steps, run, i);
    var later := Later(steps, i + 1, j);
    match steps[i]
    case Write(f, rows) => WriteComes(run[i].files, later, f, rows);
    case Compact(inputs, output, merged, tags) =>
      ReplaceComes(run[i].files, later, inputs, output, OneShot(Append, true, merged).value);
  }

  lemma WriteComes(files: Files, later: Files, f: FileId, rows: seq<Row>)
    requires f !in later
    ensures files[f := rows] + later == files + later[f := rows]
  {
  }

  lemma ReplaceComes(files: Files, later: Files, inputs: set<FileId>, output: FileId, rows: seq<Row>)
    requires files.Keys !! later.Keys && inputs <= files.Keys && output !in later
    ensures Replace(files, inputs, output, rows) + later == Replace(files + later, inputs, output, rows)
    ensures Restrict(files + later, inputs) == Restrict(files, inputs)
  {
  }

  // ---------------------------------------------------------------------------------------
  // Every run
  // ---------------------------------------------------------------------------------------

  /** No compaction encloses a row that is live beside its inputs or written later. */
  ghost predicate Ordered(steps: seq<Step>, run: seq<Store>, j: nat)
    requires j <= |steps| && |run| == |steps| + 1
  {
    forall i :: 0 <= i < j && steps[i].Compact? ==> NoneEnclosed(Coming(steps, run, i, j), steps[i].inputs)
  }

  lemma StepKeepsOrder(width: nat, steps: seq<Step>, run: seq<Store>, i: nat, j: nat,
                       before: seq<Row>, beforeTags: seq<FileId>, after: seq<Row>, afterTags: seq<FileId>)
    requires Run(Append, width, steps, run) && i < j <= |steps| && Ordered(steps, run, j)
    requires Merges(Coming(steps, run, i, j), before, beforeTags) && Merges(Coming(steps, run, i + 1, j), after, afterTags)
    ensures OneShot(Append, false, before) == OneShot(Append, false, after)
  {
    ComingOk(width, steps, run, i, j);
    ComingNext(width, steps, run, i, j);
    match steps[i]
    case Write(_, _) => MergeUnique(Coming(steps, run, i, j), before, beforeTags, after, afterTags);
    case Compact(inputs, output, merged, tags) =>
      CompactionKeepsOrder(Coming(steps, run, i, j), UsedBy(steps, run, i, j), width, inputs, output, merged, tags,
                           before, beforeTags, after, afterTags);
  }

  lemma {:induction false} RunKeepsOrder(width: nat, steps: seq<Step>, run: seq<Store>, i: nat, j: nat,
                                         before: seq<Row>, beforeTags: seq<FileId>, out: seq<Row>, tags: seq<FileId>)
    requires Run(Append, width, steps, run) && i <= j <= |steps| && Ordered(steps, run, j)
    requires Merges(Coming(steps, run, i, j), before, beforeTags) && Merges(run[j].files, out, tags)
    ensures OneShot(Append, false, before) == OneShot(Append, false, out)
    decreases j - i
  {
    ComingOk(width, steps, run, i, j);
    if i == j {
      assert Coming(steps, run, i, j) == run[j].files;
      MergeUnique(run[j].files, before, beforeTags, out, tags);
    } else {
      ComingOk(width, steps, run, i + 1, j);
      var after, afterTags := MergeExists(Coming(steps, run, i + 1, j));
      StepKeepsOrder(width, steps, run, i, j, before, beforeTags, after, afterTags);
      RunKeepsOrder(width, steps, run, i + 1, j, after, afterTags, out, tags);
    }
  }

  /** If no compaction of a run encloses a row that is live beside its inputs or written later, the
      merge of the live files answers as the merge of everything ever written, order and errors
      included. */
  lemma OrderConserved(width: nat, steps: seq<Step>, run: seq<Store>, j: nat,
                       out: seq<Row>, tags: seq<FileId>, all: seq<Row>, allTags: seq<FileId>)
    requires Run(Append, width, steps, run) && j <= |steps| && Ordered(steps, run, j)
    requires Merges(run[j].files, out, tags) && Merges(run[j].written, all, allTags)
    ensures OneShot(Append, false, out) == OneShot(Append, false, all)
  {
    WrittenIsComing(width, steps, run, 0, j);
    assert Coming(steps, run, 0, j) == run[j].written;
    RunKeepsOrder(width, steps, run, 0, j, all, allTags, out, tags);
  }
}
