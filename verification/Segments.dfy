/** The segments of files, over writes and compactions. */
module Segments {
  import opened Types

  /** The smallest range that holds all of `ranges`. */
  ghost predicate Spans(ranges: seq<TimeRange>, range: TimeRange) {
    && (forall i :: 0 <= i < |ranges| ==> range.start <= ranges[i].start && ranges[i].end <= range.end)
    && (exists i :: 0 <= i < |ranges| && range.start == ranges[i].start)
    && (exists i :: 0 <= i < |ranges| && range.end == ranges[i].end)
  }

  /** The range of a compaction output. */
  method OutputRange(ranges: seq<TimeRange>) returns (range: TimeRange)
    requires ranges != []
    ensures Spans(ranges, range)
  {
    range := ranges[0];
    for i := 1 to |ranges|
      invariant Spans(ranges[..i], range)
    {
      ghost var done, more := ranges[..i], ranges[..i + 1];
      ghost var s :| 0 <= s < i && range.start == done[s].start;
      ghost var e :| 0 <= e < i && range.end == done[e].end;
      range := range.Merge(ranges[i]);
      assert forall j :: 0 <= j < i ==> more[j] == done[j];
      assert range.start == more[s].start || range.start == more[i].start;
      assert range.end == more[e].end || range.end == more[i].end;
    }
    assert ranges[..|ranges|] == ranges;
  }

  /** A file in one segment. */
  predicate OneSegment(range: TimeRange, duration: int)
    requires duration > 0
  {
    range.NonEmpty() && WithinSegment(range, duration)
  }

  /** The output of files that the picker found in one segment lies in that segment, under the
      picker's key and under the scan's. */
  lemma OutputInSegment(ranges: seq<TimeRange>, range: TimeRange, duration: int, i: nat)
    requires duration > 0 && Spans(ranges, range) && i < |ranges|
    requires forall j :: 0 <= j < |ranges| ==> OneSegment(ranges[j], duration)
    requires forall j :: 0 <= j < |ranges| ==> TruncateBy(ranges[j].start, duration) == TruncateBy(ranges[i].start, duration)
    ensures OneSegment(range, duration)
    ensures TruncateBy(range.start, duration) == TruncateBy(ranges[i].start, duration)
    ensures Segment(range.start, duration) == Segment(ranges[i].start, duration)
  {
    var s :| 0 <= s < |ranges| && range.start == ranges[s].start;
    var e :| 0 <= e < |ranges| && range.end == ranges[e].end;
    assert OneSegment(ranges[s], duration) && OneSegment(ranges[e], duration);
    assert TruncateBy(ranges[s].start, duration) == TruncateBy(ranges[i].start, duration);
    assert TruncateBy(ranges[e].start, duration) == TruncateBy(ranges[i].start, duration);
    KeysAgree(ranges[s].start, ranges[i].start, duration);
    KeysAgree(ranges[e].start, ranges[i].start, duration);
  }

  predicate Covers(outer: TimeRange, inner: TimeRange) { outer.start <= inner.start && inner.end <= outer.end }

  /** A query that selects a range selects every range that covers it. */
  lemma CoverSelected(query: TimeRange, outer: TimeRange, inner: TimeRange)
    requires Covers(outer, inner) && inner.Overlaps(query)
    ensures outer.Overlaps(query)
  {
  }

  // ---------------------------------------------------------------------------------------
  // Every run
  // ---------------------------------------------------------------------------------------

  /** The ranges of the live files, those of the writes, and the live file that has the rows of
      a write, for each write whose rows have not expired. */
  datatype State = State(live: map<FileId, TimeRange>, written: map<FileId, TimeRange>, home: map<FileId, FileId>)

  datatype Step =
    | Write(f: FileId, range: TimeRange)
    | Compact(inputs: seq<FileId>, expireds: set<FileId>, output: FileId, range: TimeRange)

  function Ranges(live: map<FileId, TimeRange>, ids: seq<FileId>): seq<TimeRange>
    requires forall f :: f in ids ==> f in live
  {
    seq(|ids|, i requires 0 <= i < |ids| => live[ids[i]])
  }

  /** A checked write, or a compaction of files with one picker key. */
  ghost predicate Can(duration: int, s: State, step: Step)
    requires duration > 0
  {
    match step
    case Write(f, range) => f !in s.live && f !in s.written && OneSegment(range, duration)
    case Compact(inputs, expireds, output, range) =>
      && inputs != [] && (forall f :: f in inputs ==> f in s.live && f !in expireds) && output !in s.live
      && (forall f, g :: f in inputs && g in inputs ==>
            TruncateBy(s.live[f].start, duration) == TruncateBy(s.live[g].start, duration))
      && Spans(Ranges(s.live, inputs), range)
  }

  function After(s: State, step: Step): State {
    match step
    case Write(f, range) => State(s.live[f := range], s.written[f := range], s.home[f := f])
    case Compact(inputs, expireds, output, range) =>
      State((s.live - (set f | f in inputs) - expireds)[output := range], s.written,
            map f | f in s.home && s.home[f] !in expireds :: if s.home[f] in inputs then output else s.home[f])
  }

  ghost predicate Run(duration: int, steps: seq<Step>, run: seq<State>)
    requires duration > 0
  {
    && |run| == |steps| + 1 && run[0] == State(map[], map[], map[])
    && forall i :: 0 <= i < |steps| ==> Can(duration, run[i], steps[i]) && run[i + 1] == After(run[i], steps[i])
  }

  ghost predicate Inv(duration: int, s: State)
    requires duration > 0
  {
    && (forall f :: f in s.live ==> OneSegment(s.live[f], duration))
    && (forall f :: f in s.home ==> f in s.written && s.home[f] in s.live)
    && (forall f :: f in s.home ==> Homed(duration, s.live[s.home[f]], s.written[f]))
  }

  predicate Homed(duration: int, home: TimeRange, written: TimeRange)
    requires duration > 0
  {
    Covers(home, written) && Segment(home.start, duration) == Segment(written.start, duration)
  }

  lemma CompactKeepsInv(duration: int, s: State, inputs: seq<FileId>, expireds: set<FileId>, output: FileId, range: TimeRange)
    requires duration > 0 && Inv(duration, s) && Can(duration, s, Compact(inputs, expireds, output, range))
    ensures Inv(duration, After(s, Compact(inputs, expireds, output, range)))
  {
    var ranges := Ranges(s.live, inputs);
    forall i | 0 <= i < |ranges| ensures OneSegment(ranges[i], duration) && ranges[i] == s.live[inputs[i]] {
      assert inputs[i] in inputs;
    }
    forall i, j | 0 <= i < |ranges| && 0 <= j < |ranges|
      ensures TruncateBy(ranges[i].start, duration) == TruncateBy(ranges[j].start, duration)
    {
      assert inputs[i] in inputs && inputs[j] in inputs;
    }
    OutputInSegment(ranges, range, duration, 0);
    forall f | f in inputs
      ensures Covers(range, s.live[f]) && Segment(range.start, duration) == Segment(s.live[f].start, duration)
    {
      var i :| 0 <= i < |inputs| && inputs[i] == f;
      OutputInSegment(ranges, range, duration, i);
    }
  }

  lemma {:induction false} RunInv(duration: int, steps: seq<Step>, run: seq<State>, i: nat)
    requires duration > 0 && Run(duration, steps, run) && i < |run|
    ensures Inv(duration, run[i])
  {
    if i > 0 {
      RunInv(duration, steps, run, i - 1);
      assert Can(duration, run[i - 1], steps[i - 1]) && run[i - 1 + 1] == After(run[i - 1], steps[i - 1]);
      match steps[i - 1]
      case Write(f, range) =>
      case Compact(inputs, expireds, output, range) =>
        CompactKeepsInv(duration, run[i - 1], inputs, expireds, output, range);
    }
  }

  /** The live files are exactly those that have the rows of some write. */
  ghost predicate LiveAreHomes(s: State) {
    && (forall f :: f in s.home ==> s.home[f] in s.live)
    && (forall g :: g in s.live ==> exists f :: f in s.home && s.home[f] == g)
  }

  lemma CompactKeepsHomes(duration: int, s: State, inputs: seq<FileId>, expireds: set<FileId>, output: FileId, range: TimeRange)
    requires duration > 0 && LiveAreHomes(s) && Can(duration, s, Compact(inputs, expireds, output, range))
    ensures LiveAreHomes(After(s, Compact(inputs, expireds, output, range)))
  {
    var t := After(s, Compact(inputs, expireds, output, range));
    forall g | g in t.live ensures exists f :: f in t.home && t.home[f] == g {
      var from := if g == output then inputs[0] else g;
      assert inputs[0] in inputs;
      var f :| f in s.home && s.home[f] == from;
      assert f in t.home && t.home[f] == g;
    }
  }

  /** In every reachable state every live file has the rows of some write that have not expired, so no
      input of a compaction stays live, and every write that has not expired has one live file. */
  lemma {:induction false} NoFileLeftOver(duration: int, steps: seq<Step>, run: seq<State>, i: nat)
    requires duration > 0 && Run(duration, steps, run) && i < |run|
    ensures LiveAreHomes(run[i])
  {
    if i > 0 {
      RunInv(duration, steps, run, i - 1);
      NoFileLeftOver(duration, steps, run, i - 1);
      assert Can(duration, run[i - 1], steps[i - 1]) && run[i - 1 + 1] == After(run[i - 1], steps[i - 1]);
      match steps[i - 1]
      case Write(f, range) => WriteKeepsHomes(run[i - 1], f, range);
      case Compact(inputs, expireds, output, range) =>
        CompactKeepsHomes(duration, run[i - 1], inputs, expireds, output, range);
    }
  }

  lemma WriteKeepsHomes(s: State, f: FileId, range: TimeRange)
    requires LiveAreHomes(s) && f !in s.live && f !in s.written && f !in s.home
    ensures LiveAreHomes(After(s, Write(f, range)))
  {
    var t := After(s, Write(f, range));
    forall g | g in t.live ensures exists h :: h in t.home && t.home[h] == g {
      if g == f {
        assert t.home[f] == g;
      } else {
        var h :| h in s.home && s.home[h] == g;
        assert t.home[h] == g;
      }
    }
  }

  /** In every reachable state the whole range of every live file lies in one segment. */
  lemma FilesInOneSegment(duration: int, steps: seq<Step>, run: seq<State>, i: nat, f: FileId)
    requires duration > 0 && Run(duration, steps, run) && i < |run| && f in run[i].live
    ensures forall t, u :: run[i].live[f].Contains(t) && run[i].live[f].Contains(u) ==> Segment(t, duration) == Segment(u, duration)
  {
    RunInv(duration, steps, run, i);
    assert OneSegment(run[i].live[f], duration);
    CheckMeansOneSegment(run[i].live[f], duration);
  }

  /** Every write whose rows have not expired is held by a live file of its own segment, which
      every query that selects the write's range selects. */
  lemma WritesStaySelected(duration: int, steps: seq<Step>, run: seq<State>, i: nat, f: FileId, query: TimeRange)
    requires duration > 0 && Run(duration, steps, run) && i < |run| && f in run[i].home
    ensures f in run[i].written && run[i].home[f] in run[i].live
    ensures Segment(run[i].live[run[i].home[f]].start, duration) == Segment(run[i].written[f].start, duration)
    ensures run[i].written[f].Overlaps(query) ==> run[i].live[run[i].home[f]].Overlaps(query)
  {
    RunInv(duration, steps, run, i);
    assert Homed(duration, run[i].live[run[i].home[f]], run[i].written[f]);
    if run[i].written[f].Overlaps(query) {
      CoverSelected(query, run[i].live[run[i].home[f]], run[i].written[f]);
    }
  }
}
