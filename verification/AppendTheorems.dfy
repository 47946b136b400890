/** What a scan in append mode answers after a compaction, and after any run. */
module AppendTheorems {
  import opened Types
  import opened Rows
  import opened SortedRows
  import opened Readings
  import opened Compaction
  import opened CompactionAppend

  // ---------------------------------------------------------------------------------------
  // Chunks
  // ---------------------------------------------------------------------------------------

  /** The rows that move are the rows of the merge before at their sequences. */
  lemma MovedRows(c: Round, used: set<FileId>, width: nat, k: Key)
    requires c.Valid(used, width)
    ensures c.Moved(k) == Filter(BySeq(s => s in Seqs(c.Moved(k))), KeyRows(c.before, k))
    ensures InOrder(c.Moved(k), k) && InOrder(KeyRows(c.before, k), k)
  {
    RoundCollects(c, used, width);
    var p := s => s in Seqs(c.Moved(k));
    KeyRowsInOrder(c.merged, k);
    KeyRowsInOrder(c.before, k);
    FilterInOrder(BySeq(p), KeyRows(c.before, k), k);
    forall s ensures Cell(c.Moved(k), k, s) == Cell(Filter(BySeq(p), KeyRows(c.before, k)), k, s) {
      MovedCell(c, k, s);
      KeyRowsCell(c.merged, k, k, s);
      KeyRowsCell(c.before, k, k, s);
      FilteredCell(p, KeyRows(c.before, k), k, s);
    }
    InOrderDetermined(c.Moved(k), Filter(BySeq(p), KeyRows(c.before, k)), k);
  }

  lemma {:induction false} FilterThreeWays(p: Row -> bool, q: Row -> bool, t: Row -> bool, rows: seq<Row>)
    requires forall r :: (if p(r) then 1 else 0) + (if q(r) then 1 else 0) + (if t(r) then 1 else 0) == 1
    ensures multiset(Filter(p, rows)) + multiset(Filter(q, rows)) + multiset(Filter(t, rows)) == multiset(rows)
    decreases |rows|
  {
    if rows != [] {
      var n := |rows| - 1;
      FilterThreeWays(p, q, t, rows[..n]);
      assert rows == rows[..n] + [rows[n]];
      assert multiset(rows) == multiset(rows[..n]) + multiset{rows[n]};
      FilterCount(p, rows);
      FilterCount(q, rows);
      FilterCount(t, rows);
    }
  }

  lemma FilterCount(p: Row -> bool, rows: seq<Row>)
    requires rows != []
    ensures var n := |rows| - 1;
            multiset(Filter(p, rows)) == multiset(Filter(p, rows[..n])) + if p(rows[n]) then multiset{rows[n]} else multiset{}
  {
  }

  /** Bringing the rows together is a permutation. */
  lemma TogetherPermutes(rows: seq<Row>, moved: seq<Row>)
    requires moved != [] && moved == Filter(BySeq(s => s in Seqs(moved)), rows)
    ensures multiset(Together(rows, moved)) == multiset(rows)
  {
    assert moved[0] in moved;
    FilterThreeWays(BySeq(s => s !in Seqs(moved) && s < Seq(moved[0])), BySeq(s => s in Seqs(moved)),
                    BySeq(s => s !in Seqs(moved) && s > Seq(moved[0])), rows);
  }

  lemma MovedBounds(moved: seq<Row>, k: Key)
    requires moved != [] && InOrder(moved, k)
    ensures forall r :: r in moved ==> Seq(moved[0]) <= Seq(r) <= Seq(Last(moved))
  {
    forall r | r in moved ensures Seq(moved[0]) <= Seq(r) <= Seq(Last(moved)) {
      var i :| 0 <= i < |moved| && moved[i] == r;
    }
  }

  /** It changes the order exactly when some other row lies between those that move. */
  lemma TogetherSame(rows: seq<Row>, moved: seq<Row>, k: Key)
    requires moved != [] && moved == Filter(BySeq(s => s in Seqs(moved)), rows)
    requires InOrder(rows, k) && InOrder(moved, k)
    ensures Together(rows, moved) == rows <==> !Straddles(rows, moved)
  {
    MovedBounds(moved, k);
    if Straddles(rows, moved) {
      var r :| r in rows && Seq(r) !in Seqs(moved) && Seq(moved[0]) < Seq(r) < Seq(Last(moved));
      StraddlerMoves(rows, moved, r);
    } else {
      AroundInOrder(rows, moved, moved, k);
      forall s ensures Cell(Together(rows, moved), k, s) == Cell(rows, k, s) {
        AroundCell(rows, moved, moved, k, s);
        FilteredCell(t => t in Seqs(moved), rows, k, s);
      }
      InOrderDetermined(Together(rows, moved), rows, k);
    }
  }

  lemma StraddlerMoves(rows: seq<Row>, moved: seq<Row>, r: Row)
    requires moved != [] && r in rows && Seq(r) !in Seqs(moved) && Seq(moved[0]) < Seq(r) < Seq(Last(moved))
    ensures exists i, j :: 0 <= i < j < |Together(rows, moved)| && Seq(Together(rows, moved)[i]) > Seq(Together(rows, moved)[j])
  {
    var above := Above(rows, moved);
    assert r in above;
    var a :| 0 <= a < |above| && above[a] == r;
    var i := |Below(rows, moved)| + |moved| - 1;
    assert Together(rows, moved)[i] == Last(moved) && Together(rows, moved)[i + 1 + a] == r;
  }

  // ---------------------------------------------------------------------------------------
  // Columns
  // ---------------------------------------------------------------------------------------

  lemma {:induction false} ColumnConcat(a: seq<Row>, b: seq<Row>, c: nat)
    ensures Column(a + b, c) == Column(a, c) + Column(b, c)
    decreases |b|
  {
    if b == [] {
      assert a + b == a;
    } else {
      var n := |b| - 1;
      var all := a + b;
      assert all[..|all| - 1] == a + b[..n] && all[|all| - 1] == b[n];
      ColumnConcat(a, b[..n], c);
      BytesAssociate(Column(a, c), Column(b[..n], c), ValueAt(b[n], c));
    }
  }

  lemma BytesAssociate(x: Bytes, y: Bytes, z: Bytes)
    ensures (x + y) + z == x + (y + z)
  {
  }

  lemma ColumnOne(r: Row, c: nat)
    ensures Column([r], c) == ValueAt(r, c)
  {
    assert [r][..0] == [];
  }

  /** One row with the columns of `middle` can stand for it. */
  lemma ColumnAround(below: seq<Row>, middle: seq<Row>, above: seq<Row>, one: Row, c: nat)
    requires ValueAt(one, c) == Column(middle, c)
    ensures Column(below + [one] + above, c) == Column(below + middle + above, c)
  {
    ColumnConcat(below + [one], above, c);
    ColumnConcat(below, [one], c);
    ColumnOne(one, c);
    ColumnConcat(below + middle, above, c);
    ColumnConcat(below, middle, c);
  }

  /** All rows of a round have `width` values. */
  lemma RoundWidth(c: Round, used: set<FileId>, width: nat)
    requires c.Valid(used, width)
    ensures forall r :: r in c.before || r in c.merged || r in c.after ==> |r.values| == width
  {
    var mergedTags :| Merges(Restrict(c.files, c.inputs), c.merged, mergedTags);
    var beforeTags :| Merges(c.files, c.before, beforeTags);
    var afterTags :| Merges(Replace(c.files, c.inputs, c.output, c.Rows()), c.after, afterTags);
    RestrictKeepsFiles(c.files, used, width, c.inputs);
    CompactKeepsFiles(Append, c.files, used, width, c.inputs, c.output, c.merged, mergedTags);
    MergedWidth(Restrict(c.files, c.inputs), used, width, c.merged, mergedTags);
    MergedWidth(c.files, used, width, c.before, beforeTags);
    MergedWidth(Replace(c.files, c.inputs, c.output, c.Rows()), used + {c.output}, width, c.after, afterTags);
  }

  lemma MergedWidth(files: Files, used: set<FileId>, width: nat, out: seq<Row>, tags: seq<FileId>)
    requires FilesOk(files, used, width) && Merges(files, out, tags)
    ensures forall r :: r in out ==> |r.values| == width
  {
    MergedRows(files, out, tags);
    forall r | r in out ensures |r.values| == width {
      var f :| f in files && r in files[f];
      assert RowOk(r, used, width);
    }
  }

  /** The rows whose columns, end to end, are those after the compaction. */
  function Chunks(c: Round, k: Key): seq<Row> {
    if c.Moved(k) == [] then KeyRows(c.before, k) else Together(KeyRows(c.before, k), c.Moved(k))
  }

  /** For any inputs a compaction permutes the chunks of every key: its inputs' chunks come
      together where the first of them was, and no chunk is lost or doubled. The order is
      changed exactly when another row's sequence lies between those of the inputs. */
  lemma CompactionPermutes(c: Round, used: set<FileId>, width: nat, k: Key)
    requires c.Valid(used, width)
    ensures forall i | 0 <= i < width :: Column(KeyRows(c.after, k), i) == Column(Chunks(c, k), i)
    ensures multiset(Chunks(c, k)) == multiset(KeyRows(c.before, k))
    ensures Chunks(c, k) == KeyRows(c.before, k) <==>
            c.Moved(k) == [] || !Straddles(KeyRows(c.before, k), c.Moved(k))
  {
    var rows, moved := KeyRows(c.before, k), c.Moved(k);
    ColumnsAfter(c, used, width, k);
    if moved != [] {
      MovedRows(c, used, width, k);
      TogetherPermutes(rows, moved);
      TogetherSame(rows, moved, k);
    }
  }

  lemma ColumnsAfter(c: Round, used: set<FileId>, width: nat, k: Key)
    requires c.Valid(used, width)
    ensures forall i | 0 <= i < width :: Column(KeyRows(c.after, k), i) == Column(Chunks(c, k), i)
  {
    AfterRows(c, used, width, k);
    var rows, moved := KeyRows(c.before, k), c.Moved(k);
    if moved != [] {
      RoundWidth(c, used, width);
      assert moved[0] in moved;
      forall i | 0 <= i < width ensures Column(KeyRows(c.after, k), i) == Column(Together(rows, moved), i) {
        ColumnAround(Below(rows, moved), moved, Above(rows, moved), MergeRun(Append, moved).value, i);
      }
    }
  }

  // ---------------------------------------------------------------------------------------
  // Scans
  // ---------------------------------------------------------------------------------------

  lemma SameEmptyColumn(xs: seq<Row>, ys: seq<Row>, c: nat)
    requires multiset(xs) == multiset(ys)
    ensures Column(xs, c) == [] <==> Column(ys, c) == []
  {
    ColumnEmpty(xs, c);
    ColumnEmpty(ys, c);
    forall r ensures r in xs <==> r in ys {
      assert r in multiset(xs) <==> r in multiset(ys);
    }
  }

  lemma SameLength(xs: seq<Row>, ys: seq<Row>)
    requires multiset(xs) == multiset(ys)
    ensures |xs| == |ys|
  {
    assert |multiset(xs)| == |xs| && |multiset(ys)| == |ys|;
  }

  lemma SameMergeable(rows: seq<Row>, moved: seq<Row>, after: seq<Row>, one: Row, width: nat)
    requires moved != [] && after == Below(rows, moved) + [one] + Above(rows, moved)
    requires multiset(Together(rows, moved)) == multiset(rows)
    requires forall r :: r in rows || r in moved || r in after ==> |r.values| == width
    requires forall i | 0 <= i < width :: Column(after, i) == Column(Together(rows, moved), i)
    requires Mergeable(Append, moved)
    ensures rows != [] && (Mergeable(Append, after) <==> Mergeable(Append, rows))
  {
    var together := Together(rows, moved);
    SameLength(together, rows);
    assert moved[0] in moved && rows[0] in rows && after[0] in after;
    forall i | 0 <= i < width ensures Column(after, i) == [] <==> Column(rows, i) == [] {
      SameEmptyColumn(together, rows, i);
    }
    if |after| == 1 {
      assert together == moved;
      forall i | 0 <= i < width ensures |moved| > 1 ==> Column(rows, i) != [] {
        assert Column(after, i) == Column(moved, i);
      }
    }
  }

  /** Whether the merge of a key fails is not changed by a compaction. */
  lemma RoundMergeable(c: Round, used: set<FileId>, width: nat, k: Key)
    requires c.Valid(used, width)
    ensures KeyRows(c.after, k) == [] <==> KeyRows(c.before, k) == []
    ensures KeyRows(c.after, k) != [] ==> (Mergeable(Append, KeyRows(c.after, k)) <==> Mergeable(Append, KeyRows(c.before, k)))
  {
    AfterRows(c, used, width, k);
    var moved := c.Moved(k);
    if moved != [] {
      CompactionPermutes(c, used, width, k);
      RoundWidth(c, used, width);
      SameMergeable(KeyRows(c.before, k), moved, KeyRows(c.after, k), MergeRun(Append, moved).value, width);
    }
  }

  function Columns(rows: seq<Row>, width: nat): seq<Bytes> {
    seq(width, i requires 0 <= i < width => Column(rows, i))
  }

  function AnswerOf(rows: seq<Row>, columns: seq<Bytes>, k: Key): Option<Result<Row, MergeError>> {
    if rows == [] then None
    else if Mergeable(Append, rows) then Some(Ok(Row(k, columns, Dropped)))
    else Some(Err(ColumnLengths))
  }

  lemma AnswerIs(rows: seq<Row>, width: nat, k: Key)
    requires forall r :: r in rows ==> |r.values| == width
    ensures Answer(Append, false, rows, k) == AnswerOf(KeyRows(rows, k), Columns(KeyRows(rows, k), width), k)
  {
    var run := KeyRows(rows, k);
    if run != [] {
      assert run[0] in run;
      if Mergeable(Append, run) {
        assert MergeRun(Append, run).value.values == Columns(run, width);
      }
    }
  }

  /** The answer for a key after a compaction: none or an error if it was that before, else the
      chunks, end to end. */
  lemma AnswerAfter(c: Round, used: set<FileId>, width: nat, k: Key)
    requires c.Valid(used, width)
    ensures Answer(Append, false, c.after, k) ==
            var before := Answer(Append, false, c.before, k);
            if before.None? || before.value.Err? then before
            else Some(Ok(before.value.value.(values := Columns(Chunks(c, k), width))))
  {
    RoundMergeable(c, used, width, k);
    RoundAnswers(c, used, width, k);
  }

  lemma RoundAnswers(c: Round, used: set<FileId>, width: nat, k: Key)
    requires c.Valid(used, width)
    ensures Answer(Append, false, c.before, k) == AnswerOf(KeyRows(c.before, k), Columns(KeyRows(c.before, k), width), k)
    ensures Answer(Append, false, c.after, k) == AnswerOf(KeyRows(c.after, k), Columns(Chunks(c, k), width), k)
  {
    ColumnsAfter(c, used, width, k);
    assert Columns(Chunks(c, k), width) == Columns(KeyRows(c.after, k), width);
    RoundWidth(c, used, width);
    AnswerIs(c.before, width, k);
    AnswerIs(c.after, width, k);
  }

  /** If no other row lies between the inputs' rows of a key, its answer is not changed. */
  lemma AnswerSame(c: Round, used: set<FileId>, width: nat, k: Key)
    requires c.Valid(used, width)
    requires c.Moved(k) == [] || !Straddles(KeyRows(c.before, k), c.Moved(k))
    ensures Answer(Append, false, c.after, k) == Answer(Append, false, c.before, k)
  {
    RoundMergeable(c, used, width, k);
    RoundAnswers(c, used, width, k);
    CompactionPermutes(c, used, width, k);
  }

  /** If that is so for every key, a scan answers the same, errors included. */
  lemma AppendPreserved(c: Round, used: set<FileId>, width: nat)
    requires c.Valid(used, width)
    requires forall k :: c.Moved(k) == [] || !Straddles(KeyRows(c.before, k), c.Moved(k))
    ensures OneShot(Append, false, c.after) == OneShot(Append, false, c.before)
  {
    forall k ensures Answer(Append, false, c.after, k) == Answer(Append, false, c.before, k) {
      AnswerSame(c, used, width, k);
    }
    SameAnswers(Append, false, c.after, c.before);
  }

  /** For any inputs, a scan fails after a compaction exactly when it failed before. */
  lemma FailurePreserved(c: Round, used: set<FileId>, width: nat)
    requires c.Valid(used, width) && Sorted(c.before) && Sorted(c.after)
    ensures OneShot(Append, false, c.after).Err? <==> OneShot(Append, false, c.before).Err?
  {
    OneShotMeaning(Append, false, c.after);
    OneShotMeaning(Append, false, c.before);
    forall k
      ensures (Answer(Append, false, c.after, k).Some? && Answer(Append, false, c.after, k).value.Err?)
         <==> (Answer(Append, false, c.before, k).Some? && Answer(Append, false, c.before, k).value.Err?)
    {
      AnswerAfter(c, used, width, k);
    }
  }

  /** What a scan gave for a key, with other values. */
  function Revalued(rows: seq<Row>, values: seq<Bytes>): seq<Row> {
    if rows == [] then [] else [rows[0].(values := values)]
  }

  lemma GivenAfter(c: Round, used: set<FileId>, width: nat, k: Key)
    requires c.Valid(used, width)
    ensures Given(Append, false, c.after, k) == Revalued(Given(Append, false, c.before, k), Columns(Chunks(c, k), width))
  {
    AnswerAfter(c, used, width, k);
  }

  /** For any inputs, a scan fails after a compaction exactly when it failed before; else each
      key has a row exactly when it had one, holding its chunks end to end. */
  lemma AppendPermuted(c: Round, used: set<FileId>, width: nat)
    requires c.Valid(used, width)
    ensures OneShot(Append, false, c.after).Err? <==> OneShot(Append, false, c.before).Err?
    ensures OneShot(Append, false, c.after).Ok? && OneShot(Append, false, c.before).Ok? ==>
              forall k :: KeyRows(OneShot(Append, false, c.after).value, k)
                       == Revalued(KeyRows(OneShot(Append, false, c.before).value, k), Columns(Chunks(c, k), width))
  {
    RoundSorted(c, used, width);
    FailurePreserved(c, used, width);
    if OneShot(Append, false, c.after).Ok? && OneShot(Append, false, c.before).Ok? {
      OneShotMeaning(Append, false, c.after);
      OneShotMeaning(Append, false, c.before);
      forall k
        ensures KeyRows(OneShot(Append, false, c.after).value, k)
             == Revalued(KeyRows(OneShot(Append, false, c.before).value, k), Columns(Chunks(c, k), width))
      {
        GivenAfter(c, used, width, k);
      }
    }
  }

  lemma RoundSorted(c: Round, used: set<FileId>, width: nat)
    requires c.Valid(used, width)
    ensures Sorted(c.before) && Sorted(c.after)
  {
  }
}
