/** The segment of a file, as scans and the picker see it. */
module SegmentKeys {
  import opened Types
  import opened Sst
  import opened Segments
  import opened Picker
  import opened Scan

  /** The key of a file that lies in one segment is the segment of all its timestamps. */
  lemma SegmentOfTimes(f: FileInfo, duration: int, t: int)
    requires duration > 0 && OneSegment(f.meta.range, duration) && f.meta.range.Contains(t)
    ensures SegmentOf(duration)(f) == Segment(t, duration)
  {
    CheckMeansOneSegment(f.meta.range, duration);
    assert f.meta.range.Contains(f.meta.range.start);
  }

  lemma FoundTogether(files: seq<SstFile>, duration: int, f: SstFile, g: SstFile)
    requires duration > 0 && f in files && g in files
    ensures (exists s :: f in InSegment(files, duration, s) && g in InSegment(files, duration, s)) <==>
            TruncateBy(f.meta.range.start, duration) == TruncateBy(g.meta.range.start, duration)
  {
    var key := TruncateBy(f.meta.range.start, duration);
    InSegmentMember(files, duration, key, f);
    InSegmentMember(files, duration, key, g);
    if s :| f in InSegment(files, duration, s) && g in InSegment(files, duration, s) {
      InSegmentMember(files, duration, s, f);
      InSegmentMember(files, duration, s, g);
    }
  }

  /** Files that lie in one segment each have one key exactly when the picker finds them in one segment,
      and exactly when any two timestamps of theirs are of one segment. */
  lemma PickerAgrees(files: seq<SstFile>, duration: int, f: SstFile, g: SstFile, t: int, u: int)
    requires duration > 0 && f in files && g in files
    requires OneSegment(f.meta.range, duration) && OneSegment(g.meta.range, duration)
    requires f.meta.range.Contains(t) && g.meta.range.Contains(u)
    ensures SegmentOf(duration)(Info(f)) == SegmentOf(duration)(Info(g)) <==>
            exists s :: f in InSegment(files, duration, s) && g in InSegment(files, duration, s)
    ensures SegmentOf(duration)(Info(f)) == SegmentOf(duration)(Info(g)) <==> Segment(t, duration) == Segment(u, duration)
  {
    var a, b := f.meta.range.start, g.meta.range.start;
    SegmentOfTimes(Info(f), duration, a);
    SegmentOfTimes(Info(g), duration, b);
    SegmentOfTimes(Info(f), duration, t);
    SegmentOfTimes(Info(g), duration, u);
    KeysAgree(a, b, duration);
    FoundTogether(files, duration, f, g);
  }
}
