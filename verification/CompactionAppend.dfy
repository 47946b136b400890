/** In append mode a compaction moves the bytes of its inputs together and loses none. */
module CompactionAppend {
  import opened Types
  import opened Rows
  import opened SortedRows
  import opened Readings
  import opened Compaction

  /** One compaction, the merge of the live files before it and the merge after it. */
  datatype Round = Round(files: Files, inputs: set<FileId>, output: FileId, merged: seq<Row>, before: seq<Row>, after: seq<Row>) {

    function Rows(): seq<Row>
      requires OneShot(Append, true, merged).Ok?
    {
      OneShot(Append, true, merged).value
    }

    ghost predicate Valid(used: set<FileId>, width: nat) {
      && FilesOk(files, used, width) && output !in used && OneShot(Append, true, merged).Ok?
      && (exists tags :: Merges(Restrict(files, inputs), merged, tags))
      && (exists tags :: Merges(files, before, tags))
      && (exists tags :: Merges(Replace(files, inputs, output, Rows()), after, tags))
    }

    /** The rows that the compaction merges under `k`. */
    function Moved(k: Key): seq<Row> { KeyRows(merged, k) }
  }

  function Seqs(rows: seq<Row>): set<nat> { set r | r in rows :: Seq(r) }

  // ---------------------------------------------------------------------------------------
  // Cells
  // ---------------------------------------------------------------------------------------

  function BySeq(p: nat -> bool): Row -> bool { (r: Row) => p(Seq(r)) }

  lemma FilteredCell(p: nat -> bool, rows: seq<Row>, k: Key, s: nat)
    ensures Cell(Filter(BySeq(p), rows), k, s) == if p(s) then Cell(rows, k, s) else []
  {
    var q := (r: Row) => r.key == k && Seq(r) == s;
    FilterTwice(q, BySeq(p), rows);
    if p(s) {
      FilterSame((r: Row) => q(r) && BySeq(p)(r), q, rows);
    } else {
      FilterNone((r: Row) => q(r) && BySeq(p)(r), rows);
    }
  }

  lemma KeyRowsCell(rows: seq<Row>, k: Key, l: Key, s: nat)
    ensures Cell(KeyRows(rows, k), l, s) == if l == k then Cell(rows, k, s) else []
  {
    var p, q := (r: Row) => r.key == l && Seq(r) == s, (r: Row) => r.key == k;
    FilterTwice(p, q, rows);
    if l == k {
      FilterSame((r: Row) => p(r) && q(r), p, rows);
    } else {
      FilterNone((r: Row) => p(r) && q(r), rows);
    }
  }

  lemma OneCell(r: Row, k: Key, s: nat)
    ensures Cell([r], k, s) == if r.key == k && Seq(r) == s then [r] else []
  {
    var p := (q: Row) => q.key == k && Seq(q) == s;
    if p(r) {
      FilterAll(p, [r]);
    } else {
      FilterNone(p, [r]);
    }
  }

  lemma CellMember(rows: seq<Row>, k: Key, s: nat)
    ensures Cell(rows, k, s) != [] <==> exists r :: r in rows && r.key == k && Seq(r) == s
  {
    if Cell(rows, k, s) != [] {
      assert Cell(rows, k, s)[0] in Cell(rows, k, s);
    }
    if r :| r in rows && r.key == k && Seq(r) == s {
      assert r in Cell(rows, k, s);
    }
  }

  lemma InMoved(c: Round, k: Key, s: nat)
    ensures s in Seqs(c.Moved(k)) <==> Cell(c.merged, k, s) != []
  {
    CellMember(c.merged, k, s);
  }

  ghost predicate Collected(c: Round)
    requires OneShot(Append, true, c.merged).Ok?
  {
    && NoTies(c.files) && c.output !in c.files
    && Collects(Restrict(c.files, c.inputs), c.merged)
    && Collects(c.files, c.before)
    && Collects(Replace(c.files, c.inputs, c.output, c.Rows()), c.after)
  }

  lemma RoundCollects(c: Round, used: set<FileId>, width: nat)
    requires c.Valid(used, width)
    ensures Collected(c)
    ensures Sorted(c.merged) && Sorted(c.before) && Sorted(c.after)
  {
    var mergedTags :| Merges(Restrict(c.files, c.inputs), c.merged, mergedTags);
    var beforeTags :| Merges(c.files, c.before, beforeTags);
    var afterTags :| Merges(Replace(c.files, c.inputs, c.output, c.Rows()), c.after, afterTags);
    RestrictKeepsFiles(c.files, used, width, c.inputs);
    CompactKeepsFiles(Append, c.files, used, width, c.inputs, c.output, c.merged, mergedTags);
    InterleavesCollects(Restrict(c.files, c.inputs), c.merged, mergedTags);
    InterleavesCollects(c.files, c.before, beforeTags);
    InterleavesCollects(Replace(c.files, c.inputs, c.output, c.Rows()), c.after, afterTags);
  }

  /** The rows that move are those the merge before has at their sequences. */
  lemma MovedCell(c: Round, k: Key, s: nat)
    requires OneShot(Append, true, c.merged).Ok? && Collected(c)
    ensures Cell(c.merged, k, s) == if s in Seqs(c.Moved(k)) then Cell(c.before, k, s) else []
  {
    InMoved(c, k, s);
    if Cell(c.merged, k, s) != [] {
      var taken := Restrict(c.files, c.inputs);
      var f :| f in taken && Cell(taken[f], k, s) != [];
      assert f in c.files && Cell(c.files[f], k, s) == Cell(taken[f], k, s);
    }
  }

  /** The compacted file holds one row of a key whose rows moved, at the least of their sequences. */
  lemma CompactedCell(c: Round, k: Key, s: nat)
    requires OneShot(Append, true, c.merged).Ok? && Sorted(c.merged)
    ensures var moved := c.Moved(k);
            && (moved == [] ==> Cell(c.Rows(), k, s) == [])
            && (moved != [] ==> MergeRun(Append, moved).Ok?)
            && (moved != [] ==> Cell(c.Rows(), k, s) == if s == Seq(moved[0]) then [MergeRun(Append, moved).value] else [])
  {
    var moved := c.Moved(k);
    OneShotMeaning(Append, true, c.merged);
    assert KeyRows(c.Rows(), k) == Given(Append, true, c.merged, k);
    KeyRowsCell(c.Rows(), k, k, s);
    if moved != [] {
      assert Answer(Append, true, c.merged, k).Some? && Answer(Append, true, c.merged, k).value.Ok?;
      assert moved[0] in moved;
      OneCell(MergeRun(Append, moved).value, k, s);
    }
  }

  /** What the merge after has: the compacted row, none of the rows that moved, all others. */
  lemma AfterCell(c: Round, k: Key, s: nat)
    requires OneShot(Append, true, c.merged).Ok? && Sorted(c.merged) && Collected(c)
    ensures c.Moved(k) != [] ==> MergeRun(Append, c.Moved(k)).Ok?
    ensures Cell(c.after, k, s) ==
            if c.Moved(k) != [] && s == Seq(c.Moved(k)[0]) then [MergeRun(Append, c.Moved(k)).value]
            else if s in Seqs(c.Moved(k)) then []
            else Cell(c.before, k, s)
  {
    var live := Replace(c.files, c.inputs, c.output, c.Rows());
    CompactedCell(c, k, s);
    InMoved(c, k, s);
    assert forall g :: g in c.files && g !in c.inputs ==> g in live && live[g] == c.files[g];
    if Cell(c.Rows(), k, s) != [] {
      assert c.output in live && Cell(live[c.output], k, s) != [];
    } else if Cell(c.after, k, s) != [] {
      var g :| g in live && Cell(live[g], k, s) != [];
      assert g in c.files && g !in c.inputs && Cell(c.files[g], k, s) != [];
      NotMoved(c, g, k, s);
    } else if Cell(c.before, k, s) != [] {
      var f :| f in c.files && Cell(c.files[f], k, s) != [];
      assert f in Restrict(c.files, c.inputs) && Cell(Restrict(c.files, c.inputs)[f], k, s) != [];
    }
  }

  lemma NotMoved(c: Round, g: FileId, k: Key, s: nat)
    requires OneShot(Append, true, c.merged).Ok? && Collected(c)
    requires g in c.files && g !in c.inputs && Cell(c.files[g], k, s) != []
    ensures s !in Seqs(c.Moved(k))
  {
    InMoved(c, k, s);
    CellMember(c.files[g], k, s);
    if Cell(c.merged, k, s) != [] {
      var taken := Restrict(c.files, c.inputs);
      var f :| f in taken && Cell(taken[f], k, s) != [];
      CellMember(taken[f], k, s);
      assert false;
    }
  }

  // ---------------------------------------------------------------------------------------
  // The order of the chunks of a key
  // ---------------------------------------------------------------------------------------

  function Below(rows: seq<Row>, moved: seq<Row>): seq<Row>
    requires moved != []
  {
    Filter(BySeq(s => s !in Seqs(moved) && s < Seq(moved[0])), rows)
  }

  function Above(rows: seq<Row>, moved: seq<Row>): seq<Row>
    requires moved != []
  {
    Filter(BySeq(s => s !in Seqs(moved) && s > Seq(moved[0])), rows)
  }

  /** The rows of a key with those of the compaction brought together where the first of them is. */
  function Together(rows: seq<Row>, moved: seq<Row>): seq<Row>
    requires moved != []
  {
    Below(rows, moved) + moved + Above(rows, moved)
  }

  /** Some row that does not move lies between rows that do. */
  ghost predicate Straddles(rows: seq<Row>, moved: seq<Row>)
    requires moved != []
  {
    exists r :: r in rows && Seq(r) !in Seqs(moved) && Seq(moved[0]) < Seq(r) < Seq(Last(moved))
  }

  /** Rows of one key, in order of their sequences. */
  ghost predicate InOrder(rows: seq<Row>, k: Key) {
    (forall r :: r in rows ==> r.key == k) && forall i, j :: 0 <= i < j < |rows| ==> Seq(rows[i]) <= Seq(rows[j])
  }

  lemma InOrderSorted(rows: seq<Row>, k: Key)
    requires forall r :: r in rows ==> r.key == k
    ensures InOrder(rows, k) <==> Sorted(rows)
  {
    LessTotal(k, k);
    forall i, j | 0 <= i < j < |rows| ensures AtMost(rows[i], rows[j]) <==> Seq(rows[i]) <= Seq(rows[j]) {
      assert rows[i] in rows && rows[j] in rows;
    }
  }

  lemma KeyRowsInOrder(rows: seq<Row>, k: Key)
    requires Sorted(rows)
    ensures InOrder(KeyRows(rows, k), k)
  {
    FilterSorted((r: Row) => r.key == k, rows);
    InOrderSorted(KeyRows(rows, k), k);
  }

  lemma FilterInOrder(p: Row -> bool, rows: seq<Row>, k: Key)
    requires InOrder(rows, k)
    ensures InOrder(Filter(p, rows), k)
  {
    InOrderSorted(rows, k);
    FilterSorted(p, rows);
    InOrderSorted(Filter(p, rows), k);
  }

  lemma ConcatInOrder(a: seq<Row>, b: seq<Row>, k: Key)
    requires InOrder(a, k) && InOrder(b, k)
    requires forall x, y :: x in a && y in b ==> Seq(x) <= Seq(y)
    ensures InOrder(a + b, k)
  {
  }

  /** Rows of one key in order are determined by their cells. */
  lemma InOrderDetermined(xs: seq<Row>, ys: seq<Row>, k: Key)
    requires InOrder(xs, k) && InOrder(ys, k)
    requires forall s :: Cell(xs, k, s) == Cell(ys, k, s)
    ensures xs == ys
  {
    InOrderSorted(xs, k);
    InOrderSorted(ys, k);
    forall l, s ensures Cell(xs, l, s) == Cell(ys, l, s) {
      if l != k {
        FilterNone((r: Row) => r.key == l && Seq(r) == s, xs);
        FilterNone((r: Row) => r.key == l && Seq(r) == s, ys);
      }
    }
    SortedDetermined(xs, ys);
  }

  lemma ConcatCell(a: seq<Row>, b: seq<Row>, c: seq<Row>, k: Key, s: nat)
    ensures Cell(a + b + c, k, s) == Cell(a, k, s) + Cell(b, k, s) + Cell(c, k, s)
  {
    var p := (r: Row) => r.key == k && Seq(r) == s;
    FilterConcat(p, a + b, c);
    FilterConcat(p, a, b);
  }

  /** The cells of rows of which some are replaced by `middle`. */
  lemma AroundCell(rows: seq<Row>, moved: seq<Row>, middle: seq<Row>, k: Key, s: nat)
    requires moved != [] && forall r :: r in middle ==> Seq(r) in Seqs(moved)
    ensures Cell(Below(rows, moved) + middle + Above(rows, moved), k, s)
         == Cell(if s in Seqs(moved) then middle else rows, k, s)
  {
    CellMember(middle, k, s);
    assert moved[0] in moved;
    ConcatCell(Below(rows, moved), middle, Above(rows, moved), k, s);
    FilteredCell(t => t !in Seqs(moved) && t < Seq(moved[0]), rows, k, s);
    FilteredCell(t => t !in Seqs(moved) && t > Seq(moved[0]), rows, k, s);
  }

  lemma AroundInOrder(rows: seq<Row>, moved: seq<Row>, middle: seq<Row>, k: Key)
    requires moved != [] && InOrder(rows, k) && InOrder(middle, k)
    requires forall r :: r in middle ==> Seq(moved[0]) <= Seq(r)
    requires forall r, q :: r in middle && q in rows && Seq(q) !in Seqs(moved) && Seq(moved[0]) < Seq(q) ==> Seq(r) <= Seq(q)
    ensures InOrder(Below(rows, moved) + middle + Above(rows, moved), k)
  {
    FilterInOrder(BySeq(s => s !in Seqs(moved) && s < Seq(moved[0])), rows, k);
    FilterInOrder(BySeq(s => s !in Seqs(moved) && s > Seq(moved[0])), rows, k);
    ConcatInOrder(Below(rows, moved), middle, k);
    ConcatInOrder(Below(rows, moved) + middle, Above(rows, moved), k);
  }

  lemma Rearranged(rows: seq<Row>, after: seq<Row>, moved: seq<Row>, one: Row, k: Key)
    requires InOrder(rows, k) && InOrder(after, k) && moved != [] && one.key == k && Seq(one) == Seq(moved[0])
    requires forall s :: Cell(after, k, s) ==
               if s == Seq(one) then [one] else if s in Seqs(moved) then [] else Cell(rows, k, s)
    ensures after == Below(rows, moved) + [one] + Above(rows, moved)
  {
    assert moved[0] in moved;
    AroundInOrder(rows, moved, [one], k);
    forall s ensures Cell(after, k, s) == Cell(Below(rows, moved) + [one] + Above(rows, moved), k, s) {
      AroundCell(rows, moved, [one], k, s);
      OneCell(one, k, s);
    }
    InOrderDetermined(after, Below(rows, moved) + [one] + Above(rows, moved), k);
  }

  /** The cells of a key after a compaction. */
  lemma AfterKeyCells(c: Round, k: Key)
    requires OneShot(Append, true, c.merged).Ok? && Sorted(c.merged) && Collected(c)
    ensures c.Moved(k) == [] ==> forall s :: Cell(KeyRows(c.after, k), k, s) == Cell(KeyRows(c.before, k), k, s)
    ensures c.Moved(k) != [] ==> MergeRun(Append, c.Moved(k)).Ok?
    ensures c.Moved(k) != [] ==>
              forall s :: Cell(KeyRows(c.after, k), k, s) ==
                          if s == Seq(c.Moved(k)[0]) then [MergeRun(Append, c.Moved(k)).value]
                          else if s in Seqs(c.Moved(k)) then [] else Cell(KeyRows(c.before, k), k, s)
  {
    AfterCell(c, k, 0);
    forall s ensures Cell(KeyRows(c.after, k), k, s) == Cell(c.after, k, s) { KeyRowsCell(c.after, k, k, s); }
    forall s ensures Cell(KeyRows(c.before, k), k, s) == Cell(c.before, k, s) { KeyRowsCell(c.before, k, k, s); }
    forall s
      ensures Cell(c.after, k, s) ==
              if c.Moved(k) != [] && s == Seq(c.Moved(k)[0]) then [MergeRun(Append, c.Moved(k)).value]
              else if s in Seqs(c.Moved(k)) then []
              else Cell(c.before, k, s)
    {
      AfterCell(c, k, s);
    }
  }

  /** The rows of a key after a compaction: those that moved have become one row, where the
      first of them was. */
  lemma AfterRows(c: Round, used: set<FileId>, width: nat, k: Key)
    requires c.Valid(used, width)
    ensures c.Moved(k) == [] ==> KeyRows(c.after, k) == KeyRows(c.before, k)
    ensures c.Moved(k) != [] ==> MergeRun(Append, c.Moved(k)).Ok?
    ensures c.Moved(k) != [] ==>
              KeyRows(c.after, k) == Below(KeyRows(c.before, k), c.Moved(k)) + [MergeRun(Append, c.Moved(k)).value]
                                     + Above(KeyRows(c.before, k), c.Moved(k))
  {
    RoundCollects(c, used, width);
    KeyRowsInOrder(c.before, k);
    KeyRowsInOrder(c.after, k);
    AfterKeyCells(c, k);
    if c.Moved(k) == [] {
      InOrderDetermined(KeyRows(c.after, k), KeyRows(c.before, k), k);
    } else {
      assert c.Moved(k)[0] in c.Moved(k);
      Rearranged(KeyRows(c.before, k), KeyRows(c.after, k), c.Moved(k), MergeRun(Append, c.Moved(k)).value, k);
    }
  }
}
