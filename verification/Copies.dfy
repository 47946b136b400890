/** What a scan answers when the manifest's list holds some files more than once. */
module Copies {
  import opened Types
  import opened Rows
  import opened SortedRows
  import opened Readings
  import opened Compaction
  import opened CompactionOverwrite
  import opened AppendTheorems
  import opened AppendRuns
  import opened Pools

  /** `listed` holds a copy of a file at each of its places; `of` says of which. */
  ghost predicate Lists(listed: Files, files: Files, of: map<FileId, FileId>) {
    && of.Keys == listed.Keys
    && forall p :: p in listed ==> of[p] in files && listed[p] == files[of[p]]
  }

  ghost function PlacesOf(of: map<FileId, FileId>, f: FileId): set<FileId> { set p | p in of && of[p] == f }

  /** How many copies of a file are listed. */
  ghost function CopiesOf(of: map<FileId, FileId>, f: FileId): nat { |PlacesOf(of, f)| }

  // ---------------------------------------------------------------------------------------
  // Rows
  // ---------------------------------------------------------------------------------------

  /** `w`, added up `c` times. */
  function AddUp(c: nat, w: nat): nat { if c == 0 then 0 else AddUp(c - 1, w) + w }

  lemma {:induction false} AddUpIsProduct(c: nat, w: nat)
    ensures AddUp(c, w) == c * w
  {
    if c > 0 {
      AddUpIsProduct(c - 1, w);
      assert (c - 1) * w + w == c * w;
    }
  }

  ghost function PlacesBelow(of: map<FileId, FileId>, f: FileId, n: nat): set<FileId> { set p | p in of && of[p] == f && p < n }

  lemma PlacesNext(of: map<FileId, FileId>, f: FileId, n: nat)
    ensures PlacesBelow(of, f, 0) == {}
    ensures PlacesBelow(of, f, n + 1) == PlacesBelow(of, f, n) + if n in of && of[n] == f then {n} else {}
    ensures n !in PlacesBelow(of, f, n)
  {
  }

  /** A weight that only the copies of one file have is counted once for each of them. */
  lemma {:induction false} PoolCopies(weights: map<FileId, nat>, of: map<FileId, FileId>, f: FileId, w: nat, n: nat)
    requires weights.Keys == of.Keys && forall p :: p in of ==> weights[p] == if of[p] == f then w else 0
    ensures Pool(weights, n) == AddUp(|PlacesBelow(of, f, n)|, w)
  {
    PlacesNext(of, f, 0);
    if n > 0 {
      PoolCopies(weights, of, f, w, n - 1);
      PlacesNext(of, f, n - 1);
    }
  }

  /** Every row is read as often as its file has copies. */
  lemma RowsCounted(files: Files, listed: Files, of: map<FileId, FileId>, both: seq<Row>, tags: seq<FileId>, f: FileId, r: Row)
    requires NoTies(files) && Lists(listed, files, of) && Merges(listed, both, tags) && f in files && r in files[f]
    ensures multiset(both)[r] == AddUp(CopiesOf(of, f), multiset(files[f])[r])
  {
    var n := Bound(listed.Keys);
    MergeOccurrences(listed, both, tags, r, n);
    forall p | p in of ensures Occurrences(listed, r)[p] == if of[p] == f then multiset(files[f])[r] else 0 {
      OnlyIn(files, f, of[p], r);
    }
    PoolCopies(Occurrences(listed, r), of, f, multiset(files[f])[r], n);
    assert PlacesBelow(of, f, n) == PlacesOf(of, f);
  }

  lemma OnlyIn(files: Files, f: FileId, g: FileId, r: Row)
    requires NoTies(files) && f in files && g in files && r in files[f]
    ensures f != g ==> multiset(files[g])[r] == 0
  {
    if f != g {
      assert r !in files[g];
    }
  }

  /** Without copies every row is read once. */
  lemma RowsOnce(files: Files, out: seq<Row>, tags: seq<FileId>, f: FileId, r: Row)
    requires NoTies(files) && Merges(files, out, tags) && f in files && r in files[f]
    ensures multiset(out)[r] == multiset(files[f])[r]
  {
    var of := map g | g in files :: g;
    RowsCounted(files, files, of, out, tags, f, r);
    assert PlacesOf(of, f) == {f};
    assert AddUp(1, multiset(files[f])[r]) == AddUp(0, multiset(files[f])[r]) + multiset(files[f])[r];
  }

  lemma ListedRows(files: Files, listed: Files, of: map<FileId, FileId>, both: seq<Row>, tags: seq<FileId>)
    requires Lists(listed, files, of) && Merges(listed, both, tags)
    ensures forall r :: r in both ==> exists f :: f in files && r in files[f]
  {
    forall r | r in both ensures exists f :: f in files && r in files[f] {
      InterleavesMembers(listed, both, tags, r);
      var p :| p in listed && r in listed[p];
      assert r in files[of[p]];
    }
  }

  /** `rows`, `c` times. */
  function Times(rows: seq<Row>, c: nat): seq<Row> { if c == 0 then [] else Times(rows, c - 1) + rows }

  lemma {:induction false} TimesCount(rows: seq<Row>, c: nat, r: Row)
    ensures multiset(Times(rows, c))[r] == AddUp(c, multiset(rows)[r])
  {
    if c > 0 {
      TimesCount(rows, c - 1, r);
      ConcatCount(Times(rows, c - 1), rows, r);
    }
  }

  /** All files that hold `k` have `c` copies. */
  ghost predicate CopiesOfKey(files: Files, of: map<FileId, FileId>, k: Key, c: nat) {
    forall f, r :: f in files && r in files[f] && r.key == k ==> CopiesOf(of, f) == c
  }

  lemma KeyRowsTimes(files: Files, out: seq<Row>, tags: seq<FileId>, listed: Files, of: map<FileId, FileId>,
                     both: seq<Row>, bothTags: seq<FileId>, k: Key, c: nat)
    requires NoTies(files) && Merges(files, out, tags) && Lists(listed, files, of) && Merges(listed, both, bothTags)
    requires CopiesOfKey(files, of, k, c)
    ensures multiset(KeyRows(both, k)) == multiset(Times(KeyRows(out, k), c))
  {
    forall r ensures multiset(KeyRows(both, k))[r] == multiset(Times(KeyRows(out, k), c))[r] {
      TimesCount(KeyRows(out, k), c, r);
      KeyRowsCount(out, k, r);
      KeyRowsCount(both, k, r);
      if r.key == k {
        RowTimes(files, out, tags, listed, of, both, bothTags, c, r);
      } else {
        AddUpIsProduct(c, 0);
      }
    }
    SameCounts(KeyRows(both, k), Times(KeyRows(out, k), c));
  }

  lemma RowTimes(files: Files, out: seq<Row>, tags: seq<FileId>, listed: Files, of: map<FileId, FileId>,
                 both: seq<Row>, bothTags: seq<FileId>, c: nat, r: Row)
    requires NoTies(files) && Merges(files, out, tags) && Lists(listed, files, of) && Merges(listed, both, bothTags)
    requires CopiesOfKey(files, of, r.key, c)
    ensures multiset(both)[r] == AddUp(c, multiset(out)[r])
  {
    if f :| f in files && r in files[f] {
      RowsCounted(files, listed, of, both, bothTags, f, r);
      RowsOnce(files, out, tags, f, r);
    } else {
      InterleavesMembers(files, out, tags, r);
      ListedRows(files, listed, of, both, bothTags);
      assert r !in out && r !in both;
      assert multiset(out)[r] == 0 && multiset(both)[r] == 0;
      AddUpIsProduct(c, 0);
    }
  }

  // ---------------------------------------------------------------------------------------
  // Append mode
  // ---------------------------------------------------------------------------------------

  lemma {:induction false} TimesBytes(rows: seq<Row>, c: nat, i: nat, b: u8)
    ensures multiset(Column(Times(rows, c), i))[b] == AddUp(c, multiset(Column(rows, i))[b])
  {
    if c > 0 {
      TimesBytes(rows, c - 1, i, b);
      BytesGrow(rows, c, i, b);
    }
  }

  lemma BytesGrow(rows: seq<Row>, c: nat, i: nat, b: u8)
    requires c > 0
    ensures multiset(Column(Times(rows, c), i))[b] == multiset(Column(Times(rows, c - 1), i))[b] + multiset(Column(rows, i))[b]
  {
    ColumnConcat(Times(rows, c - 1), rows, i);
    BytesCount(Column(Times(rows, c - 1), i), Column(rows, i), b);
  }

  lemma BytesCount(x: Bytes, y: Bytes, b: u8)
    ensures multiset(x + y)[b] == multiset(x)[b] + multiset(y)[b]
  {
  }

  /** In append mode every byte of a key is read as often as the files that hold the key have copies. */
  lemma AppendMultiplies(files: Files, out: seq<Row>, tags: seq<FileId>, listed: Files, of: map<FileId, FileId>,
                         both: seq<Row>, bothTags: seq<FileId>, k: Key, c: nat, i: nat, b: u8)
    requires NoTies(files) && Merges(files, out, tags) && Lists(listed, files, of) && Merges(listed, both, bothTags)
    requires CopiesOfKey(files, of, k, c)
    ensures multiset(Column(KeyRows(both, k), i))[b] == c * multiset(Column(KeyRows(out, k), i))[b]
  {
    KeyRowsTimes(files, out, tags, listed, of, both, bothTags, k, c);
    SameBytes(KeyRows(both, k), Times(KeyRows(out, k), c), i);
    TimesBytes(KeyRows(out, k), c, i, b);
    AddUpIsProduct(c, multiset(Column(KeyRows(out, k), i))[b]);
  }

  /** Read as a product: as often as its file has copies. */
  lemma RowsMultiply(files: Files, listed: Files, of: map<FileId, FileId>, both: seq<Row>, tags: seq<FileId>, f: FileId, r: Row)
    requires NoTies(files) && Lists(listed, files, of) && Merges(listed, both, tags) && f in files && r in files[f]
    ensures multiset(both)[r] == CopiesOf(of, f) * multiset(files[f])[r]
  {
    RowsCounted(files, listed, of, both, tags, f, r);
    AddUpIsProduct(CopiesOf(of, f), multiset(files[f])[r]);
  }

  function Repeat(bytes: Bytes, c: nat): Bytes { if c == 0 then [] else Repeat(bytes, c - 1) + bytes }

  lemma OnlyRow(rows: seq<Row>, r: Row, c: nat)
    requires multiset(rows) == multiset(Times([r], c))
    ensures rows == Times([r], c) && |rows| == c
  {
    SameLength(rows, Times([r], c));
    AllSame(r, c);
    forall q | q in rows ensures q == r {
      assert q in multiset(rows);
      assert q in multiset(Times([r], c));
      assert q in Times([r], c);
    }
    forall i | 0 <= i < c ensures rows[i] == Times([r], c)[i] {
      assert rows[i] in rows && Times([r], c)[i] in Times([r], c);
    }
  }

  lemma {:induction false} AllSame(r: Row, c: nat)
    ensures |Times([r], c)| == c && forall q :: q in Times([r], c) ==> q == r
  {
    if c > 0 {
      AllSame(r, c - 1);
    }
  }

  lemma {:induction false} RepeatColumn(r: Row, c: nat, i: nat)
    ensures Column(Times([r], c), i) == Repeat(ValueAt(r, i), c)
    ensures c > 0 ==> (Repeat(ValueAt(r, i), c) == [] <==> ValueAt(r, i) == [])
    ensures c == 0 ==> Repeat(ValueAt(r, i), c) == []
  {
    if c > 0 {
      RepeatColumn(r, c - 1, i);
      ColumnConcat(Times([r], c - 1), [r], i);
      ColumnOne(r, i);
      assert Repeat(ValueAt(r, i), c) == Repeat(ValueAt(r, i), c - 1) + ValueAt(r, i);
      EmptyConcat(Repeat(ValueAt(r, i), c - 1), ValueAt(r, i));
    }
  }

  lemma EmptyConcat(x: Bytes, y: Bytes)
    ensures x + y == [] <==> x == [] && y == []
  {
  }

  /** A key with one row, in a file with `c` copies, gets every value `c` times; from two copies on
      the merge fails if a value has no byte. */
  lemma OneRowRepeats(files: Files, out: seq<Row>, tags: seq<FileId>, listed: Files, of: map<FileId, FileId>,
                      both: seq<Row>, bothTags: seq<FileId>, r: Row, c: nat)
    requires NoTies(files) && Merges(files, out, tags) && Lists(listed, files, of) && Merges(listed, both, bothTags)
    requires KeyRows(out, r.key) == [r] && CopiesOfKey(files, of, r.key, c) && c > 0
    ensures var answer := Answer(Append, false, both, r.key);
            && answer.Some?
            && (answer.value.Ok? <==> c == 1 || forall i | 0 <= i < |r.values| :: r.values[i] != [])
            && (answer.value.Ok? ==> |answer.value.value.values| == |r.values|)
            && (answer.value.Ok? ==> forall i | 0 <= i < |r.values| :: answer.value.value.values[i] == Repeat(r.values[i], c))
  {
    KeyRowsTimes(files, out, tags, listed, of, both, bothTags, r.key, c);
    OnlyRow(KeyRows(both, r.key), r, c);
    AllSame(r, c);
    assert Times([r], c)[0] in Times([r], c);
    forall i: nat
      ensures Column(Times([r], c), i) == Repeat(ValueAt(r, i), c) && (Repeat(ValueAt(r, i), c) == [] <==> ValueAt(r, i) == [])
    {
      RepeatColumn(r, c, i);
    }
    RepeatedAnswer(Times([r], c), r, c);
  }

  lemma RepeatedAnswer(rows: seq<Row>, r: Row, c: nat)
    requires |rows| == c && c > 0 && rows[0] == r
    requires forall i: nat :: Column(rows, i) == Repeat(ValueAt(r, i), c)
    requires forall i: nat :: Repeat(ValueAt(r, i), c) == [] <==> ValueAt(r, i) == []
    ensures var merged := MergeRun(Append, rows);
            && (merged.Ok? <==> c == 1 || forall i | 0 <= i < |r.values| :: r.values[i] != [])
            && (merged.Ok? ==> |merged.value.values| == |r.values|)
            && (merged.Ok? ==> forall i | 0 <= i < |r.values| :: merged.value.values[i] == Repeat(r.values[i], c))
  {
    forall i | 0 <= i < |r.values| ensures Column(rows, i) == Repeat(r.values[i], c) && (Column(rows, i) == [] <==> r.values[i] == []) {
      assert ValueAt(r, i) == r.values[i];
    }
  }

  // ---------------------------------------------------------------------------------------
  // Overwrite mode
  // ---------------------------------------------------------------------------------------

  /** The last row of a key in a merge is its last row in some file. */
  lemma LastFromFile(files: Files, out: seq<Row>, tags: seq<FileId>, k: Key) returns (f: FileId)
    requires Interleaves(files, out, tags) && KeyRows(out, k) != []
    ensures f in files && Tops(files[f], k, Last(KeyRows(out, k)))
  {
    var p := (r: Row) => r.key == k;
    var kept := InterleavesFilter(p, files, out, tags);
    f := kept[|kept| - 1];
  }

  /** Every file is listed. */
  ghost predicate ListsAll(files: Files, of: map<FileId, FileId>) { forall f :: f in files ==> f in of.Values }

  lemma SameMembers(files: Files, out: seq<Row>, tags: seq<FileId>, listed: Files, of: map<FileId, FileId>,
                    both: seq<Row>, bothTags: seq<FileId>, r: Row)
    requires Merges(files, out, tags) && Lists(listed, files, of) && ListsAll(files, of) && Merges(listed, both, bothTags)
    ensures r in both <==> r in out
  {
    InterleavesMembers(files, out, tags, r);
    InterleavesMembers(listed, both, bothTags, r);
    if r in out {
      var f :| f in files && r in files[f];
      var p :| p in of && of[p] == f;
      assert p in listed && r in listed[p];
    }
    if r in both {
      var p :| p in listed && r in listed[p];
      assert of[p] in files && r in files[of[p]];
    }
  }

  lemma SameTop(files: Files, out: seq<Row>, tags: seq<FileId>, listed: Files, of: map<FileId, FileId>,
                both: seq<Row>, bothTags: seq<FileId>, k: Key)
    requires NoTies(files) && Merges(files, out, tags) && Lists(listed, files, of) && ListsAll(files, of)
    requires Merges(listed, both, bothTags)
    ensures Answer(Overwrite, false, both, k) == Answer(Overwrite, false, out, k)
  {
    forall r ensures r in both <==> r in out {
      SameMembers(files, out, tags, listed, of, both, bothTags, r);
    }
    assert forall r :: r in KeyRows(both, k) <==> r in KeyRows(out, k);
    if KeyRows(out, k) != [] {
      assert KeyRows(out, k)[0] in KeyRows(both, k);
      var x, y := Last(KeyRows(out, k)), Last(KeyRows(both, k));
      TopsMember(out, k, x);
      TopsMember(both, k, y);
      TopsGreatest(out, k, x);
      TopsGreatest(both, k, y);
      var f := LastFromFile(files, out, tags, k);
      var p := LastFromFile(listed, both, bothTags, k);
      TopsMember(files[f], k, x);
      TopsMember(files[of[p]], k, y);
      assert f == of[p];
    } else {
      forall r | r in both ensures r.key != k {
        assert r.key == k ==> r in KeyRows(out, k);
      }
      FilterNone((r: Row) => r.key == k, both);
    }
  }

  /** In overwrite mode any number of copies answers as one. */
  lemma OverwriteUnchanged(files: Files, out: seq<Row>, tags: seq<FileId>, listed: Files, of: map<FileId, FileId>,
                           both: seq<Row>, bothTags: seq<FileId>)
    requires NoTies(files) && Merges(files, out, tags) && Lists(listed, files, of) && ListsAll(files, of)
    requires Merges(listed, both, bothTags)
    ensures OneShot(Overwrite, false, both) == OneShot(Overwrite, false, out)
  {
    forall k ensures Answer(Overwrite, false, both, k) == Answer(Overwrite, false, out, k) {
      SameTop(files, out, tags, listed, of, both, bothTags, k);
    }
    SameAnswers(Overwrite, false, both, out);
  }
}
