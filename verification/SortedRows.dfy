/** The order of rows, and what merging sorted files gives. */
module SortedRows {
  import opened Types
  import opened Runs
  import opened Rows

  // ---------------------------------------------------------------------------------------
  // Order
  // ---------------------------------------------------------------------------------------

  /** Primary keys compare column by column. */
  predicate Less(a: Key, b: Key) {
    if b == [] then false
    else if a == [] then true
    else if a[0] != b[0] then a[0] < b[0]
    else Less(a[1..], b[1..])
  }

  /** The first column in which two keys differ decides; a key that has ended comes first. */
  ghost predicate Decides(a: Key, b: Key, i: nat) {
    i <= |a| && i < |b| && a[..i] == b[..i] && (i < |a| ==> a[i] < b[i])
  }

  lemma DecidesLater(a: Key, b: Key, i: nat)
    requires i > 0
    ensures Decides(a, b, i) ==> a != [] && b != [] && a[0] == b[0]
  {
    if Decides(a, b, i) {
      assert a[..i][0] == b[..i][0];
    }
  }

  lemma {:induction false} LessExactly(a: Key, b: Key)
    ensures Less(a, b) <==> exists i: nat :: Decides(a, b, i)
  {
    if a == [] || b == [] || a[0] != b[0] {
      assert Less(a, b) ==> Decides(a, b, 0);
      forall i: nat | i > 0 ensures !Decides(a, b, i) {
        DecidesLater(a, b, i);
      }
    } else {
      LessExactly(a[1..], b[1..]);
      if i: nat :| Decides(a[1..], b[1..], i) {
        assert a[..i + 1] == [a[0]] + a[1..][..i] && b[..i + 1] == [b[0]] + b[1..][..i];
        assert Decides(a, b, i + 1);
      }
      if i: nat :| Decides(a, b, i) {
        assert i > 0;
        assert a[1..][..i - 1] == a[..i][1..] && b[1..][..i - 1] == b[..i][1..];
        assert Decides(a[1..], b[1..], i - 1);
      }
    }
  }

  lemma {:induction false} LessTotal(a: Key, b: Key)
    ensures a == b || Less(a, b) || Less(b, a)
    ensures !(Less(a, b) && Less(b, a)) && !Less(a, a)
  {
    if a != [] && b != [] && a[0] == b[0] {
      LessTotal(a[1..], b[1..]);
      assert a == [a[0]] + a[1..] && b == [b[0]] + b[1..];
    }
    if a != [] {
      LessTotal(a[1..], a[1..]);
    }
  }

  lemma {:induction false} LessTransitive(a: Key, b: Key, c: Key)
    requires Less(a, b) && Less(b, c)
    ensures Less(a, c)
  {
    if a != [] && a[0] == b[0] && b[0] == c[0] {
      LessTransitive(a[1..], b[1..], c[1..]);
    }
  }

  function Seq(r: Row): nat { if r.builtin.Kept? then r.builtin.seq_ else 0 }

  /** At most, by primary key and then by sequence. */
  predicate AtMost(a: Row, b: Row) { Less(a.key, b.key) || (a.key == b.key && Seq(a) <= Seq(b)) }

  ghost predicate Sorted(rows: seq<Row>) {
    forall i, j :: 0 <= i < j < |rows| ==> AtMost(rows[i], rows[j])
  }

  lemma AtMostTransitive(a: Row, b: Row, c: Row)
    requires AtMost(a, b) && AtMost(b, c)
    ensures AtMost(a, c)
  {
    if Less(a.key, b.key) && Less(b.key, c.key) {
      LessTransitive(a.key, b.key, c.key);
    }
  }

  lemma AtMostAntisymmetric(a: Row, b: Row)
    requires AtMost(a, b) && AtMost(b, a)
    ensures a.key == b.key && Seq(a) == Seq(b)
  {
    LessTotal(a.key, b.key);
  }

  // ---------------------------------------------------------------------------------------
  // Filters
  // ---------------------------------------------------------------------------------------

  function Filter(p: Row -> bool, rows: seq<Row>): (kept: seq<Row>)
    ensures forall r :: r in kept <==> r in rows && p(r)
    decreases |rows|
  {
    if rows == [] then []
    else
      var n := |rows| - 1;
      var kept := Filter(p, rows[..n]);
      assert rows == rows[..n] + [rows[n]];
      if p(rows[n]) then kept + [rows[n]] else kept
  }

  lemma {:induction false} FilterConcat(p: Row -> bool, a: seq<Row>, b: seq<Row>)
    ensures Filter(p, a + b) == Filter(p, a) + Filter(p, b)
    decreases |b|
  {
    if b == [] {
      assert a + b == a;
    } else {
      var n := |b| - 1;
      FilterConcat(p, a, b[..n]);
      assert (a + b)[..|a + b| - 1] == a + b[..n] && (a + b)[|a + b| - 1] == b[n];
      var tail := if p(b[n]) then [b[n]] else [];
      assert Filter(p, a + b) == Filter(p, a + b[..n]) + tail && Filter(p, b) == Filter(p, b[..n]) + tail;
    }
  }

  lemma {:induction false} FilterAll(p: Row -> bool, rows: seq<Row>)
    requires forall r :: r in rows ==> p(r)
    ensures Filter(p, rows) == rows
    decreases |rows|
  {
    if rows != [] {
      var n := |rows| - 1;
      assert rows == rows[..n] + [rows[n]];
      FilterAll(p, rows[..n]);
    }
  }

  lemma {:induction false} FilterNone(p: Row -> bool, rows: seq<Row>)
    requires forall r :: r in rows ==> !p(r)
    ensures Filter(p, rows) == []
    decreases |rows|
  {
    if rows != [] {
      var n := |rows| - 1;
      assert rows == rows[..n] + [rows[n]];
      FilterNone(p, rows[..n]);
    }
  }

  lemma {:induction false} FilterTwice(p: Row -> bool, q: Row -> bool, rows: seq<Row>)
    ensures Filter(p, Filter(q, rows)) == Filter(r => p(r) && q(r), rows)
    decreases |rows|
  {
    if rows != [] {
      var n := |rows| - 1;
      FilterTwice(p, q, rows[..n]);
      FilterConcat(p, Filter(q, rows[..n]), [rows[n]]);
      assert Filter(p, [rows[n]]) == if p(rows[n]) then [rows[n]] else [] by {
        assert [rows[n]][..0] == [];
      }
    }
  }

  lemma {:induction false} FilterSame(p: Row -> bool, q: Row -> bool, rows: seq<Row>)
    requires forall r :: r in rows ==> p(r) == q(r)
    ensures Filter(p, rows) == Filter(q, rows)
    decreases |rows|
  {
    if rows != [] {
      var n := |rows| - 1;
      assert rows == rows[..n] + [rows[n]];
      FilterSame(p, q, rows[..n]);
    }
  }

  lemma {:induction false} FilterSorted(p: Row -> bool, rows: seq<Row>)
    requires Sorted(rows)
    ensures Sorted(Filter(p, rows))
    decreases |rows|
  {
    if rows != [] {
      var n := |rows| - 1;
      FilterSorted(p, rows[..n]);
      assert forall r :: r in rows[..n] ==> AtMost(r, rows[n]);
    }
  }

  function KeyRows(rows: seq<Row>, k: Key): seq<Row> { Filter((r: Row) => r.key == k, rows) }

  /** The rows of one key that one write gave. */
  function Cell(rows: seq<Row>, k: Key, s: nat): seq<Row> { Filter((r: Row) => r.key == k && Seq(r) == s, rows) }

  lemma SameRows(xs: seq<Row>, ys: seq<Row>)
    requires forall k, s :: Cell(xs, k, s) == Cell(ys, k, s)
    ensures forall r :: r in xs <==> r in ys
    ensures xs == [] <==> ys == []
  {
    forall r ensures r in xs <==> r in ys {
      assert r in Cell(xs, r.key, Seq(r)) <==> r in Cell(ys, r.key, Seq(r));
    }
    assert xs != [] ==> xs[0] in ys;
    assert ys != [] ==> ys[0] in xs;
  }

  lemma WithoutLast(xs: seq<Row>, ys: seq<Row>, k: Key, s: nat)
    requires xs != [] && ys != [] && xs[|xs| - 1] == ys[|ys| - 1]
    requires Cell(xs, k, s) == Cell(ys, k, s)
    ensures Cell(xs[..|xs| - 1], k, s) == Cell(ys[..|ys| - 1], k, s)
  {
    var x := xs[|xs| - 1];
    if x.key == k && Seq(x) == s {
      assert Cell(xs[..|xs| - 1], k, s) == Cell(xs, k, s)[..|Cell(xs, k, s)| - 1];
      assert Cell(ys[..|ys| - 1], k, s) == Cell(ys, k, s)[..|Cell(ys, k, s)| - 1];
    }
  }

  /** The greatest cell decides the last row. */
  lemma SameLastRow(xs: seq<Row>, ys: seq<Row>)
    requires Sorted(xs) && Sorted(ys) && xs != [] && ys != []
    requires forall k, s :: Cell(xs, k, s) == Cell(ys, k, s)
    ensures xs[|xs| - 1] == ys[|ys| - 1]
  {
    SameRows(xs, ys);
    var m, n := |xs| - 1, |ys| - 1;
    var x, y := xs[m], ys[n];
    assert x in ys && y in xs;
    assert AtMost(x, y) && AtMost(y, x);
    AtMostAntisymmetric(x, y);
    LastOfCell(xs);
    LastOfCell(ys);
  }

  lemma LastOfCell(xs: seq<Row>)
    requires xs != []
    ensures var x := xs[|xs| - 1];
            var cell := Cell(xs, x.key, Seq(x));
            cell != [] && cell[|cell| - 1] == x
  {
  }

  /** Sorted rows are determined by their cells. */
  lemma {:induction false} SortedDetermined(xs: seq<Row>, ys: seq<Row>)
    requires Sorted(xs) && Sorted(ys)
    requires forall k, s :: Cell(xs, k, s) == Cell(ys, k, s)
    ensures xs == ys
    decreases |xs| + |ys|
  {
    SameRows(xs, ys);
    if xs != [] {
      var m, n := |xs| - 1, |ys| - 1;
      SameLastRow(xs, ys);
      forall l, t ensures Cell(xs[..m], l, t) == Cell(ys[..n], l, t) {
        WithoutLast(xs, ys, l, t);
      }
      SortedDetermined(xs[..m], ys[..n]);
      assert xs == xs[..m] + [xs[m]] && ys == ys[..n] + [ys[n]];
    }
  }

  // ---------------------------------------------------------------------------------------
  // Merging files
  // ---------------------------------------------------------------------------------------

  /** `out` interleaves the files, `tags` telling which file each row comes from: the
      sort-preserving merge, whatever it does with rows that compare equal. */
  ghost predicate Interleaves(files: map<FileId, seq<Row>>, out: seq<Row>, tags: seq<FileId>)
    decreases |out|
  {
    if out == [] then tags == [] && forall f :: f in files ==> files[f] == []
    else
      var n := |out| - 1;
      && |tags| == n + 1 && tags[n] in files
      && var file := files[tags[n]];
         && file != [] && file[|file| - 1] == out[n]
         && Interleaves(files[tags[n] := file[..|file| - 1]], out[..n], tags[..n])
  }

  /** No two files hold rows of one key and one sequence. */
  ghost predicate NoTies(files: map<FileId, seq<Row>>) {
    forall f, g, r, q :: f in files && g in files && f != g && r in files[f] && q in files[g] && r.key == q.key
      ==> Seq(r) != Seq(q)
  }

  /** Every file filtered. */
  function FilterFiles(p: Row -> bool, files: map<FileId, seq<Row>>): (kept: map<FileId, seq<Row>>)
    ensures kept.Keys == files.Keys
    ensures forall f :: f in files ==> kept[f] == Filter(p, files[f])
  {
    map f | f in files :: Filter(p, files[f])
  }

  /** Filtering the files and filtering their interleaving. */
  lemma {:induction false} InterleavesFilter(p: Row -> bool, files: map<FileId, seq<Row>>, out: seq<Row>, tags: seq<FileId>)
    returns (kept: seq<FileId>)
    requires Interleaves(files, out, tags)
    ensures Interleaves(FilterFiles(p, files), Filter(p, out), kept)
    decreases |out|
  {
    if out == [] {
      kept := [];
    } else {
      var n := |out| - 1;
      var tag, file := tags[n], files[tags[n]];
      var m := |file| - 1;
      var before := InterleavesFilter(p, files[tag := file[..m]], out[..n], tags[..n]);
      FilterUpdate(p, files, tag, file[..m]);
      if p(out[n]) {
        FilterLast(p, file);
        FilterLast(p, out);
        kept := before + [tag];
        InterleavesAppend(FilterFiles(p, files), tag, Filter(p, out[..n]), before, out[n]);
      } else {
        kept := before;
        assert FilterFiles(p, files)[tag := Filter(p, file[..m])] == FilterFiles(p, files);
      }
    }
  }

  lemma InterleavesAppend(files: map<FileId, seq<Row>>, tag: FileId, out: seq<Row>, tags: seq<FileId>, r: Row)
    requires tag in files && files[tag] != [] && files[tag][|files[tag]| - 1] == r
    requires Interleaves(files[tag := files[tag][..|files[tag]| - 1]], out, tags)
    ensures Interleaves(files, out + [r], tags + [tag])
  {
    InterleavesLengths(files[tag := files[tag][..|files[tag]| - 1]], out, tags);
    assert (out + [r])[..|out|] == out && (tags + [tag])[..|out|] == tags;
  }

  lemma InterleavesLengths(files: map<FileId, seq<Row>>, out: seq<Row>, tags: seq<FileId>)
    requires Interleaves(files, out, tags)
    ensures |tags| == |out|
  {
  }

  lemma FilterLast(p: Row -> bool, rows: seq<Row>)
    requires rows != [] && p(rows[|rows| - 1])
    ensures var kept := Filter(p, rows);
            kept != [] && kept[|kept| - 1] == rows[|rows| - 1] && kept[..|kept| - 1] == Filter(p, rows[..|rows| - 1])
  {
  }

  lemma FilterUpdate(p: Row -> bool, files: map<FileId, seq<Row>>, f: FileId, rows: seq<Row>)
    ensures FilterFiles(p, files[f := rows]) == FilterFiles(p, files)[f := Filter(p, rows)]
  {
  }

  /** If only one file has rows, its rows are the interleaving. */
  lemma {:induction false} InterleavesOne(files: map<FileId, seq<Row>>, out: seq<Row>, tags: seq<FileId>, f: FileId)
    requires Interleaves(files, out, tags) && f in files
    requires forall g :: g in files && g != f ==> files[g] == []
    ensures out == files[f]
    decreases |out|
  {
    if out != [] {
      var n := |out| - 1;
      assert tags[n] == f;
      var file := files[f];
      InterleavesOne(files[f := file[..|file| - 1]], out[..n], tags[..n], f);
      assert out == out[..n] + [out[n]] && file == file[..|file| - 1] + [out[n]];
    }
  }

  lemma {:induction false} InterleavesNone(files: map<FileId, seq<Row>>, out: seq<Row>, tags: seq<FileId>)
    requires Interleaves(files, out, tags)
    requires forall g :: g in files ==> files[g] == []
    ensures out == []
  {
  }

  /** An interleaving has the rows of its files. */
  lemma {:induction false} InterleavesMembers(files: map<FileId, seq<Row>>, out: seq<Row>, tags: seq<FileId>, r: Row)
    requires Interleaves(files, out, tags)
    ensures r in out <==> exists f :: f in files && r in files[f]
    decreases |out|
  {
    if out != [] {
      var n := |out| - 1;
      var t, file := tags[n], files[tags[n]];
      var rest := file[..|file| - 1];
      InterleavesMembers(files[t := rest], out[..n], tags[..n], r);
      assert out == out[..n] + [out[n]] && file == rest + [out[n]];
      if f :| f in files && r in files[f] {
        assert f != t || r in rest ==> f in files[t := rest] && r in files[t := rest][f];
      }
      if r == out[n] {
        assert t in files && r in files[t];
      } else if r in out {
        var f :| f in files[t := rest] && r in files[t := rest][f];
        assert f in files && r in files[f];
      }
    }
  }

  /** The cell of an interleaving is the cell of the file that has it. */
  ghost predicate Collects(files: map<FileId, seq<Row>>, out: seq<Row>) {
    && (forall f, k, s :: f in files && Cell(files[f], k, s) != [] ==> Cell(out, k, s) == Cell(files[f], k, s))
    && (forall k, s :: Cell(out, k, s) != [] ==> exists f :: f in files && Cell(files[f], k, s) != [])
  }

  lemma InterleavesCollects(files: map<FileId, seq<Row>>, out: seq<Row>, tags: seq<FileId>)
    requires Interleaves(files, out, tags) && NoTies(files)
    ensures Collects(files, out)
  {
    forall k, s
      ensures forall f :: f in files && Cell(files[f], k, s) != [] ==> Cell(out, k, s) == Cell(files[f], k, s)
      ensures Cell(out, k, s) != [] ==> exists f :: f in files && Cell(files[f], k, s) != []
    {
      var p := (r: Row) => r.key == k && Seq(r) == s;
      var kept := InterleavesFilter(p, files, out, tags);
      var cells := FilterFiles(p, files);
      forall f | f in files && Cell(files[f], k, s) != [] ensures Cell(out, k, s) == Cell(files[f], k, s) {
        var r := Cell(files[f], k, s)[0];
        assert r in Cell(files[f], k, s);
        forall g | g in cells && g != f ensures cells[g] == [] {
          assert forall q :: q in files[g] ==> !p(q);
          FilterNone(p, files[g]);
        }
        InterleavesOne(cells, Filter(p, out), kept, f);
      }
      if forall f :: f in files ==> Cell(files[f], k, s) == [] {
        assert forall f :: f in cells ==> cells[f] == Cell(files[f], k, s);
        InterleavesNone(cells, Filter(p, out), kept);
      }
    }
  }

  lemma CellOfKeyRows(rows: seq<Row>, k: Key, s: nat)
    ensures Cell(rows, k, s) == Filter((r: Row) => Seq(r) == s, KeyRows(rows, k))
  {
    var p, q := (r: Row) => Seq(r) == s, (r: Row) => r.key == k;
    FilterTwice(p, q, rows);
    FilterSame((r: Row) => p(r) && q(r), (r: Row) => r.key == k && Seq(r) == s, rows);
  }

  /** Sorted rows are determined by the rows of each key. */
  lemma KeysDetermine(xs: seq<Row>, ys: seq<Row>)
    requires Sorted(xs) && Sorted(ys)
    requires forall k :: KeyRows(xs, k) == KeyRows(ys, k)
    ensures xs == ys
  {
    forall k, s ensures Cell(xs, k, s) == Cell(ys, k, s) {
      CellOfKeyRows(xs, k, s);
      CellOfKeyRows(ys, k, s);
      assert KeyRows(xs, k) == KeyRows(ys, k);
    }
    SortedDetermined(xs, ys);
  }

  /** Without ties there is one sorted merge. */
  lemma MergeUnique(files: map<FileId, seq<Row>>, a: seq<Row>, aTags: seq<FileId>, b: seq<Row>, bTags: seq<FileId>)
    requires NoTies(files) && Sorted(a) && Sorted(b)
    requires Interleaves(files, a, aTags) && Interleaves(files, b, bTags)
    ensures a == b
  {
    InterleavesCollects(files, a, aTags);
    InterleavesCollects(files, b, bTags);
    forall k, s ensures Cell(a, k, s) == Cell(b, k, s) {
      CollectedCell(files, a, b, k, s);
    }
    SortedDetermined(a, b);
  }

  lemma CollectedCell(files: map<FileId, seq<Row>>, a: seq<Row>, b: seq<Row>, k: Key, s: nat)
    requires Collects(files, a) && Collects(files, b)
    ensures Cell(a, k, s) == Cell(b, k, s)
  {
    if Cell(a, k, s) != [] || Cell(b, k, s) != [] {
      var f :| f in files && Cell(files[f], k, s) != [];
    }
  }

  /** The merge of files that are sorted: some sorted interleaving, for any choice at ties. */
  ghost predicate Merges(files: map<FileId, seq<Row>>, out: seq<Row>, tags: seq<FileId>) {
    Sorted(out) && Interleaves(files, out, tags)
  }

  /** A row that is not below the rows of its file can be merged in. */
  lemma {:induction false} InsertRow(files: map<FileId, seq<Row>>, out: seq<Row>, tags: seq<FileId>, f: FileId, r: Row)
    returns (more: seq<Row>, moreTags: seq<FileId>)
    requires Merges(files, out, tags) && f in files
    requires forall q :: q in files[f] ==> AtMost(q, r)
    ensures Merges(files[f := files[f] + [r]], more, moreTags)
    ensures forall q :: q in more ==> q in out || q == r
    decreases |out|
  {
    var n := |out| - 1;
    var grown := files[f := files[f] + [r]];
    if out == [] || AtMost(out[n], r) {
      more, moreTags := out + [r], tags + [f];
      assert grown[f := files[f]] == files;
      InterleavesAppend(grown, f, out, tags, r);
      AppendSorted(out, r);
    } else {
      var x, tag := out[n], tags[n];
      var file := files[tag];
      assert file[|file| - 1] in file && tag != f;
      var less, lessTags := InsertRow(files[tag := file[..|file| - 1]], out[..n], tags[..n], f, r);
      more, moreTags := less + [x], lessTags + [tag];
      assert files[tag := file[..|file| - 1]][f := files[f] + [r]] == grown[tag := file[..|file| - 1]];
      InterleavesAppend(grown, tag, less, lessTags, x);
      LessTotal(x.key, r.key);
      forall q | q in less ensures AtMost(q, x) {
        assert q in out[..n] ==> exists i :: 0 <= i < n && out[i] == q;
      }
      AppendSorted(less, x);
    }
  }

  lemma AppendSorted(rows: seq<Row>, r: Row)
    requires Sorted(rows) && (rows != [] ==> AtMost(rows[|rows| - 1], r))
    ensures Sorted(rows + [r])
  {
    forall i | 0 <= i < |rows| ensures AtMost(rows[i], r) {
      if i < |rows| - 1 {
        AtMostTransitive(rows[i], rows[|rows| - 1], r);
      }
    }
  }

  /** Sorted files have a merge. */
  lemma {:induction false} MergeExistsBelow(files: map<FileId, seq<Row>>, n: nat) returns (out: seq<Row>, tags: seq<FileId>)
    requires forall f :: f in files ==> Sorted(files[f])
    requires forall f :: f in files && f >= n ==> files[f] == []
    ensures Merges(files, out, tags)
    decreases n, if n > 0 && n - 1 in files then |files[n - 1]| else 0
  {
    if n == 0 {
      out, tags := [], [];
    } else if n - 1 in files && files[n - 1] != [] {
      var file := files[n - 1];
      var m := |file| - 1;
      out, tags := MergeExistsBelow(files[n - 1 := file[..m]], n);
      assert file == file[..m] + [file[m]];
      assert files[n - 1 := file[..m]][n - 1 := file[..m] + [file[m]]] == files;
      out, tags := InsertRow(files[n - 1 := file[..m]], out, tags, n - 1, file[m]);
    } else {
      out, tags := MergeExistsBelow(files, n - 1);
    }
  }

  lemma {:induction false} Bound(ids: set<FileId>) returns (n: nat)
    ensures forall f :: f in ids ==> f < n
  {
    if ids == {} {
      n := 0;
    } else {
      var f :| f in ids;
      var m := Bound(ids - {f});
      n := if f < m then m else f + 1;
      assert forall g :: g in ids ==> g == f || g in ids - {f};
    }
  }

  lemma MergeExists(files: map<FileId, seq<Row>>) returns (out: seq<Row>, tags: seq<FileId>)
    requires forall f :: f in files ==> Sorted(files[f])
    ensures Merges(files, out, tags)
  {
    var n := Bound(files.Keys);
    out, tags := MergeExistsBelow(files, n);
  }
}
