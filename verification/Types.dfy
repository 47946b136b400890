/** Machine integers, timestamps, time ranges and segments. */
module Types {

  type u8 = x: int | 0 <= x < 0x100
  type u32 = x: int | 0 <= x < 0x1_0000_0000
  type u64 = x: int | 0 <= x < 0x1_0000_0000_0000_0000
  type i64 = x: int | -0x8000_0000_0000_0000 <= x < 0x8000_0000_0000_0000

  type Positive = n: int | n > 0 witness 1

  type FileId = nat
  type DeltaId = nat

  datatype Option<+T> = None | Some(value: T)

  datatype Result<+T, +E> = Ok(value: T) | Err(error: E)

  function Last<T>(xs: seq<T>): T
    requires xs != []
  {
    xs[|xs| - 1]
  }

  /** Division as Rust does it on signed integers: the quotient is cut toward zero. */
  function TruncDiv(a: int, b: int): int
    requires b > 0
  {
    if a >= 0 then a / b else -((-a) / b)
  }

  /** The segment number that the write check and the scan use. */
  function Segment(t: int, duration: int): int
    requires duration > 0
  {
    TruncDiv(t, duration)
  }

  /** The segment start that the picker uses. */
  function TruncateBy(t: int, duration: int): int
    requires duration > 0
  {
    TruncDiv(t, duration) * duration
  }

  /** A half-open range of timestamps. */
  datatype TimeRange = TimeRange(start: i64, end: i64) {

    predicate Overlaps(other: TimeRange) {
      start < other.end && other.start < end
    }

    /** The smallest range that holds both. */
    function Merge(other: TimeRange): TimeRange {
      TimeRange(if other.start < start then other.start else start, if other.end > end then other.end else end)
    }

    predicate NonEmpty() { start < end }

    predicate Contains(t: int) { start <= t < end }
  }

  /** The check that a write makes on its range. */
  predicate WithinSegment(range: TimeRange, duration: int)
    requires duration > 0
  {
    Segment(range.start, duration) == Segment(range.end - 1, duration)
  }

  lemma DivMonotone(a: int, b: int, d: int)
    requires d > 0 && a <= b
    ensures a / d <= b / d
  {
    assert b - a == d * (b / d - a / d) + (b % d - a % d);
    var q := b / d - a / d;
    assert q <= -1 ==> d * q <= -d;
  }

  lemma SegmentMonotone(a: int, b: int, duration: int)
    requires duration > 0 && a <= b
    ensures Segment(a, duration) <= Segment(b, duration)
  {
    if a >= 0 {
      DivMonotone(a, b, duration);
    } else if b < 0 {
      DivMonotone(-b, -a, duration);
    } else {
      DivMonotone(0, -a, duration);
      DivMonotone(0, b, duration);
    }
  }

  /** The write check on a non-empty range means that the whole range is in one segment, for
      timestamps on both sides of zero. */
  lemma CheckMeansOneSegment(range: TimeRange, duration: int)
    requires duration > 0 && range.NonEmpty()
    ensures WithinSegment(range, duration) <==>
            forall t, u :: range.Contains(t) && range.Contains(u) ==> Segment(t, duration) == Segment(u, duration)
  {
    if WithinSegment(range, duration) {
      forall t | range.Contains(t) ensures Segment(t, duration) == Segment(range.start, duration) {
        SegmentMonotone(range.start, t, duration);
        SegmentMonotone(t, range.end - 1, duration);
      }
    } else {
      assert range.Contains(range.start) && range.Contains(range.end - 1);
    }
  }

  lemma QuotientIs(a: nat, n: int, d: int)
    requires d > 0
    ensures a / d == n <==> n * d <= a < n * d + d
  {
    var q := a / d;
    assert a == d * q + a % d;
    assert d * (q - n) == d * q - n * d;
    SignOf(q - n, d);
  }

  lemma SignOf(k: int, d: int)
    requires d > 0
    ensures k > 0 ==> k * d >= d
    ensures k < 0 ==> k * d <= -d
    ensures k * d == d * k
  {
  }

  /** Segment 0 reaches from one duration below zero to one above it, both ends left out; every other
      segment has one duration, the positive ones from their start on, the negative ones up to their end. */
  lemma SegmentBounds(t: int, k: int, duration: int)
    requires duration > 0
    ensures Segment(t, duration) == k <==>
            if k > 0 then k * duration <= t < k * duration + duration
            else if k < 0 then k * duration - duration < t <= k * duration
            else -duration < t < duration
  {
    if t >= 0 {
      QuotientIs(t, k, duration);
    } else {
      QuotientIs(-t, -k, duration);
      assert (-k) * duration == -(k * duration);
    }
    SignOf(k, duration);
  }

  /** Two non-empty ranges overlap exactly when they share a timestamp. */
  lemma OverlapsMeansShares(a: TimeRange, b: TimeRange)
    requires a.NonEmpty() && b.NonEmpty()
    ensures a.Overlaps(b) <==> exists t :: a.Contains(t) && b.Contains(t)
  {
    if a.Overlaps(b) {
      var t := if a.start < b.start then b.start else a.start;
      assert a.Contains(t) && b.Contains(t);
    }
  }

  /** The picker's key and the scan's key put the same files together. */
  lemma KeysAgree(a: int, b: int, duration: int)
    requires duration > 0
    ensures TruncateBy(a, duration) == TruncateBy(b, duration) <==> Segment(a, duration) == Segment(b, duration)
  {
    var p, q := Segment(a, duration), Segment(b, duration);
    if p != q {
      assert (p - q) * duration != 0;
      assert p * duration - q * duration == (p - q) * duration;
    }
  }

  /** The picker's key is a multiple of the duration less than one duration away from the timestamp,
      and never farther from zero, so it cannot overflow. */
  lemma TruncateTowardZero(t: int, duration: int)
    requires duration > 0
    ensures t >= 0 ==> 0 <= TruncateBy(t, duration) <= t
    ensures t <= 0 ==> t <= TruncateBy(t, duration) <= 0
    ensures -duration < t - TruncateBy(t, duration) < duration && exists k :: TruncateBy(t, duration) == k * duration
  {
    var a := if t >= 0 then t else -t;
    assert a == duration * (a / duration) + a % duration;
    assert (a / duration) * duration == duration * (a / duration);
    assert a / duration >= 0;
    assert duration * (a / duration) >= 0;
    assert t < 0 ==> TruncateBy(t, duration) == -(duration * (a / duration));
  }
}
