/** What duration texts say, in days, hours, minutes, seconds and milliseconds. */
module DurationText {
  import opened Types
  import opened Duration

  /** A day is 24 hours, an hour 60 minutes, a minute 60 seconds, a second 1000 milliseconds. */
  function Millis(d: nat, h: nat, m: nat, s: nat, ms: nat): nat { (((d * 24 + h) * 60 + m) * 60 + s) * 1000 + ms }

  // ---------------------------------------------------------------------------------------
  // Numbers
  // ---------------------------------------------------------------------------------------

  function Pow10(n: nat): nat
    ensures Pow10(n) > 0
  {
    if n == 0 then 1 else 10 * Pow10(n - 1)
  }

  lemma DivideTwice(x: nat, p: nat)
    requires p > 0
    ensures x / 10 / p == x / (10 * p)
  {
    var q := x / 10;
    var m := q / p;
    QuotientIs(q, m, p);
    assert 10 * (m * p) == m * (10 * p);
    QuotientIs(x, m, 10 * p);
  }

  /** The character `i` places from the right is the digit of weight 10 to the power `i`, and a number
      other than zero does not start with a zero. */
  lemma {:induction false} DecimalAt(n: nat, i: nat)
    requires i < |Decimal(n)|
    ensures Decimal(n)[|Decimal(n)| - 1 - i] == Digit(n / Pow10(i) % 10)
    ensures n > 0 ==> Decimal(n)[0] != '0'
  {
    if n >= 10 {
      var more := Decimal(n / 10);
      DecimalAt(n / 10, if i > 0 then i - 1 else 0);
      assert Decimal(n) == more + [Digit(n % 10)];
      if i > 0 {
        DivideTwice(n, Pow10(i - 1));
      }
    } else {
      assert i == 0;
    }
  }

  // ---------------------------------------------------------------------------------------
  // Printing
  // ---------------------------------------------------------------------------------------

  /** A number with its unit, or nothing for zero. */
  function Piece(n: nat, name: string): string { if n == 0 then "" else Decimal(n) + name }

  /** `n` units and a rest smaller than one unit. */
  lemma ShownUnit(unit: Unit, n: nat, rest: nat)
    requires !unit.Milli? && rest < unit.Size()
    ensures Render(PartsFrom(Times(unit, n) + rest, unit)) == Piece(n, unit.Name()) + Render(PartsFrom(rest, unit.Next()))
  {
    var ms := Times(unit, n) + rest;
    DividesUp(unit, n, rest);
    PrintStep("", ms, unit);
    assert "" + Render(PartsFrom(ms, unit)) == Render(PartsFrom(ms, unit));
    if n > 0 {
      assert "" + (Decimal(n) + unit.Name()) == Piece(n, unit.Name());
    } else {
      assert ms == rest && Piece(0, unit.Name()) == "";
    }
  }

  lemma DividesUp(unit: Unit, n: nat, rest: nat)
    requires !unit.Milli? && rest < unit.Size()
    ensures Quotient(unit, Times(unit, n) + rest) == n && Remainder(unit, Times(unit, n) + rest) == rest
    ensures Times(unit, n) + rest >= unit.Size() <==> n > 0
  {
  }

  lemma ShownSeconds(s: nat, ms: nat)
    requires ms < 1000
    ensures Render(PartsFrom(Millis(0, 0, 0, s, ms), Second)) == Piece(s, "s") + Piece(ms, "ms")
  {
    ShownUnit(Second, s, ms);
    PrintLast(ms);
  }

  lemma ShownMinutes(m: nat, s: nat, ms: nat)
    requires s < 60 && ms < 1000
    ensures Render(PartsFrom(Millis(0, 0, m, s, ms), Minute)) == Piece(m, "m") + (Piece(s, "s") + Piece(ms, "ms"))
  {
    var rest := Millis(0, 0, 0, s, ms);
    assert Millis(0, 0, m, s, ms) == Times(Minute, m) + rest;
    ShownSeconds(s, ms);
    ShownUnit(Minute, m, rest);
  }

  lemma ShownHours(h: nat, m: nat, s: nat, ms: nat)
    requires m < 60 && s < 60 && ms < 1000
    ensures Render(PartsFrom(Millis(0, h, m, s, ms), Hour)) == Piece(h, "h") + (Piece(m, "m") + (Piece(s, "s") + Piece(ms, "ms")))
  {
    var rest := Millis(0, 0, m, s, ms);
    assert Millis(0, h, m, s, ms) == Times(Hour, h) + rest;
    ShownMinutes(m, s, ms);
    ShownUnit(Hour, h, rest);
  }

  /** A duration other than zero is printed as its days, hours, minutes, seconds and milliseconds,
      each below the size of the next and left out if it is zero. */
  lemma ShownAs(d: nat, h: nat, m: nat, s: nat, ms: nat)
    requires h < 24 && m < 60 && s < 60 && ms < 1000 && Millis(d, h, m, s, ms) > 0
    ensures Show(Millis(d, h, m, s, ms)) == Piece(d, "d") + (Piece(h, "h") + (Piece(m, "m") + (Piece(s, "s") + Piece(ms, "ms"))))
  {
    var rest := Millis(0, h, m, s, ms);
    assert Millis(d, h, m, s, ms) == Times(Day, d) + rest;
    ShownHours(h, m, s, ms);
    ShownUnit(Day, d, rest);
  }

  /** What is printed are the whole milliseconds, as long as 64 bits hold them. */
  lemma AsMillisExactly(d: Duration)
    requires d.nanos < 1_000_000_000 && d.secs * 1000 + 999 <= MAX_U64
    ensures AsMillis(d) * 1_000_000 <= d.secs * 1_000_000_000 + d.nanos < (AsMillis(d) + 1) * 1_000_000
  {
    assert d.nanos == d.nanos / 1_000_000 * 1_000_000 + d.nanos % 1_000_000;
  }

  /** Zero is printed as `0s`. */
  lemma ShownZero()
    ensures Show(0) == Decimal(0) + "s" && Decimal(0) == "0"
  {
  }

  // ---------------------------------------------------------------------------------------
  // Reading
  // ---------------------------------------------------------------------------------------

  /** The text of good parts below `last` that make `total`. */
  predicate Makes(parse: NumberParser, parts: seq<Part>, last: nat, text: string, total: nat) {
    GoodParts(parse, parts, last) && Render(parts) == text && Total(parse, parts) == total as real
  }

  lemma MakesMore(parse: NumberParser, n: nat, unit: Unit, last: nat, parts: seq<Part>, text: string, total: nat) returns (more: seq<Part>)
    requires ReadsDigits(parse) && n < EXACT && unit.Size() < last && Makes(parse, parts, unit.Size(), text, total)
    ensures Makes(parse, more, last, Decimal(n) + unit.Name() + text, Times(unit, n) + total)
  {
    more := [Part(Decimal(n), unit)] + parts;
    FirstPart(parse, n, unit, last, parts);
    RenderFirst(Part(Decimal(n), unit), parts);
  }

  /** A text of numbers of days, hours, minutes, seconds and milliseconds is read as what they make
      together, also when a number is as large as the next unit or larger. */
  lemma ReadAs(parse: NumberParser, d: nat, h: nat, m: nat, s: nat, ms: nat)
    requires ReadsDigits(parse) && d < EXACT && h < EXACT && m < EXACT && s < EXACT && ms < EXACT
    ensures Read(parse, Texts(d, h, m, s, ms)) == Ok(Millis(d, h, m, s, ms) as real)
  {
    var parts := LargeUnits(parse, d, h, m, s, ms);
    ReadMade(parse, parts, Texts(d, h, m, s, ms), Sum(d, h, m, s, ms));
    Sizes(d, h, m, s, ms);
  }

  function Texts(d: nat, h: nat, m: nat, s: nat, ms: nat): string {
    Decimal(d) + "d" + (Decimal(h) + "h" + (Decimal(m) + "m" + (Decimal(s) + "s" + (Decimal(ms) + "ms"))))
  }

  function Sum(d: nat, h: nat, m: nat, s: nat, ms: nat): nat {
    Times(Day, d) + (Times(Hour, h) + (Times(Minute, m) + (Times(Second, s) + ms)))
  }

  lemma ReadMade(parse: NumberParser, parts: seq<Part>, text: string, total: nat)
    requires parse("").None? && Makes(parse, parts, DAY + 1, text, total)
    ensures Read(parse, text) == Ok(total as real)
  {
    ReadComplete(parse, parts);
  }

  lemma LargeUnits(parse: NumberParser, d: nat, h: nat, m: nat, s: nat, ms: nat) returns (parts: seq<Part>)
    requires ReadsDigits(parse) && d < EXACT && h < EXACT && m < EXACT && s < EXACT && ms < EXACT
    ensures Makes(parse, parts, DAY + 1, Texts(d, h, m, s, ms), Sum(d, h, m, s, ms))
  {
    parts := SmallUnits(parse, s, ms);
    var text, total := Decimal(s) + "s" + (Decimal(ms) + "ms"), Times(Second, s) + ms;
    parts := MakesMore(parse, m, Minute, HOUR, parts, text, total);
    text, total := Decimal(m) + "m" + text, Times(Minute, m) + total;
    parts := MakesMore(parse, h, Hour, DAY, parts, text, total);
    text, total := Decimal(h) + "h" + text, Times(Hour, h) + total;
    parts := MakesMore(parse, d, Day, DAY + 1, parts, text, total);
  }

  lemma SmallUnits(parse: NumberParser, s: nat, ms: nat) returns (parts: seq<Part>)
    requires ReadsDigits(parse) && s < EXACT && ms < EXACT
    ensures Makes(parse, parts, MINUTE, Decimal(s) + "s" + (Decimal(ms) + "ms"), Times(Second, s) + ms)
  {
    parts := MakesMore(parse, ms, Milli, SECOND, [], "", 0);
    assert Decimal(ms) + "ms" + "" == Decimal(ms) + "ms";
    parts := MakesMore(parse, s, Second, MINUTE, parts, Decimal(ms) + "ms", ms);
  }

  lemma Sizes(d: nat, h: nat, m: nat, s: nat, ms: nat)
    ensures Sum(d, h, m, s, ms) == Millis(d, h, m, s, ms)
  {
  }

  /** The duration has the whole milliseconds of `x`, or as many as 64 bits hold. */
  predicate WholeMillisOf(r: Duration, x: real) {
    var ms := r.secs * 1000 + r.nanos / 1_000_000;
    && r.nanos < 1_000_000_000 && r.nanos % 1_000_000 == 0 && ms <= MAX_U64
    && ms as real <= x && (ms < MAX_U64 ==> x < (ms + 1) as real)
  }

  lemma OfMillisExactly(r: Duration, x: real)
    requires x >= 0.0
    ensures r == OfMillis(AsU64(x)) <==> WholeMillisOf(r, x)
  {
    var n := AsU64(x);
    if WholeMillisOf(r, x) {
      var ms := r.secs * 1000 + r.nanos / 1_000_000;
      FloorIs(x, ms);
      assert n == ms;
    }
  }

  lemma FloorIs(x: real, n: nat)
    requires x >= 0.0 && n as real <= x
    ensures n <= x.Floor && (x < (n + 1) as real ==> x.Floor == n)
  {
  }

  /** The text of good parts whose sum is not negative and has the whole milliseconds of `r`. */
  predicate Denotes(parse: NumberParser, parts: seq<Part>, s: string, r: Duration) {
    && GoodParts(parse, parts, DAY + 1) && Render(parts) == s
    && Total(parse, parts) >= 0.0 && WholeMillisOf(r, Total(parse, parts))
  }

  lemma ParsedSound(parse: NumberParser, s: string, r: Duration) returns (parts: seq<Part>)
    requires Parsed(parse, s) == Ok(r)
    ensures IsAscii(s) && Denotes(parse, parts, s, r)
  {
    parts := ReadSound(parse, s);
    OfMillisExactly(r, Read(parse, s).value);
  }

  lemma ParsedComplete(parse: NumberParser, parts: seq<Part>, s: string, r: Duration)
    requires parse("").None? && IsAscii(s) && Denotes(parse, parts, s, r)
    ensures Parsed(parse, s) == Ok(r)
  {
    ReadComplete(parse, parts);
    OfMillisExactly(r, Total(parse, parts));
  }

  /** A text is a duration exactly when it is ASCII and a sequence of numbers with strictly decreasing
      units whose sum is not negative; the duration then has the whole milliseconds of the sum. */
  lemma ParsedExactly(parse: NumberParser, s: string, r: Duration)
    requires parse("").None?
    ensures Parsed(parse, s) == Ok(r) <==> IsAscii(s) && exists parts :: Denotes(parse, parts, s, r)
  {
    if Parsed(parse, s) == Ok(r) {
      var parts := ParsedSound(parse, s, r);
    }
    if IsAscii(s) {
      forall parts | Denotes(parse, parts, s, r) ensures Parsed(parse, s) == Ok(r) {
        ParsedComplete(parse, parts, s, r);
      }
    }
  }

  /** The size of the last unit. */
  function LastSize(parts: seq<Part>, last: nat): nat { if parts == [] then last else parts[|parts| - 1].unit.Size() }

  /** The parts before `k` are good, and `k` is not because of its unit, or of its number. */
  predicate Misplaced(parse: NumberParser, parts: seq<Part>, last: nat, k: nat) {
    k < |parts| && GoodParts(parse, parts[..k], last) && parts[k].unit.Size() >= LastSize(parts[..k], last)
  }

  predicate Unreadable(parse: NumberParser, parts: seq<Part>, last: nat, k: nat) {
    && k < |parts| && GoodParts(parse, parts[..k], last) && parts[k].unit.Size() < LastSize(parts[..k], last)
    && parse(parts[k].text).None?
  }

  lemma FirstBad(parse: NumberParser, parts: seq<Part>, last: nat, k: nat)
    requires parts != [] && k > 0
    ensures Misplaced(parse, parts, last, k) <==>
            GoodPart(parse, parts[0]) && parts[0].unit.Size() < last && Misplaced(parse, parts[1..], parts[0].unit.Size(), k - 1)
    ensures Unreadable(parse, parts, last, k) <==>
            GoodPart(parse, parts[0]) && parts[0].unit.Size() < last && Unreadable(parse, parts[1..], parts[0].unit.Size(), k - 1)
  {
    if k < |parts| {
      var a, b := parts[..k], parts[1..][..k - 1];
      assert a[0] == parts[0] && a[1..] == b;
      assert LastSize(a, last) == LastSize(b, parts[0].unit.Size());
    }
  }

  lemma {:induction false} FoldErrors(parse: NumberParser, parts: seq<Part>, last: nat, dur: real)
    requires Plain(parts)
    ensures Fold(parse, parts, last, dur) == Err(BadOrder) <==> exists k: nat :: Misplaced(parse, parts, last, k)
    ensures Fold(parse, parts, last, dur) == Err(BadFormat) <==> exists k: nat :: Unreadable(parse, parts, last, k)
    decreases |parts|
  {
    if parts != [] {
      var rest, size := parts[1..], parts[0].unit.Size();
      FoldErrors(parse, rest, size, dur + Value(parse, parts[0]));
      assert parts[..0] == [];
      forall k: nat | k > 0 {
        FirstBad(parse, parts, last, k);
      }
      if parts[0].unit.Size() >= last {
        assert Misplaced(parse, parts, last, 0);
      } else if parse(parts[0].text).None? {
        assert Unreadable(parse, parts, last, 0);
      } else {
        forall k: nat | Misplaced(parse, rest, size, k) ensures Misplaced(parse, parts, last, k + 1) {
          FirstBad(parse, parts, last, k + 1);
        }
        forall k: nat | Unreadable(parse, rest, size, k) ensures Unreadable(parse, parts, last, k + 1) {
          FirstBad(parse, parts, last, k + 1);
        }
      }
    }
  }

  const ABOVE_DAY: nat := DAY + 1

  /** Which error a text gives: the first bad part decides, by its unit before its number; text after
      the last unit is bad too. */
  lemma ReadErrors(parse: NumberParser, s: string)
    ensures var tokens := Tokenize("", s);
            && Render(tokens.parts) + tokens.left == s
            && (Read(parse, s) == Err(BadOrder) <==> exists k: nat :: Misplaced(parse, tokens.parts, ABOVE_DAY, k))
            && (Read(parse, s) == Err(BadFormat) <==>
                  || (exists k: nat :: Unreadable(parse, tokens.parts, ABOVE_DAY, k))
                  || (GoodParts(parse, tokens.parts, ABOVE_DAY) && tokens.left != ""))
  {
    var tokens := Tokenize("", s);
    TokenizeSound("", s);
    assert "" + s == s;
    FoldErrors(parse, tokens.parts, ABOVE_DAY, 0.0);
    FoldExactly(parse, tokens.parts, ABOVE_DAY, 0.0);
  }

  // ---------------------------------------------------------------------------------------
  // Blanks
  // ---------------------------------------------------------------------------------------

  predicate Blank(s: string) { forall i :: 0 <= i < |s| ==> IsSpace(s[i]) }

  lemma {:induction false} TrimStartExactly(s: string) returns (a: string)
    ensures s == a + TrimStart(s) && Blank(a) && (TrimStart(s) != "" ==> !IsSpace(TrimStart(s)[0]))
  {
    a := "";
    if s != [] && IsSpace(s[0]) {
      var b := TrimStartExactly(s[1..]);
      a := [s[0]] + b;
    }
  }

  lemma {:induction false} TrimEndExactly(s: string) returns (b: string)
    ensures s == TrimEnd(s) + b && Blank(b) && (TrimEnd(s) != "" ==> TrimEnd(s)[0] == s[0] && !IsSpace(Last(TrimEnd(s))))
    decreases |s|
  {
    b := "";
    if s != [] && IsSpace(s[|s| - 1]) {
      var a := TrimEndExactly(s[..|s| - 1]);
      b := a + [s[|s| - 1]];
    }
  }

  /** Only blanks go, and all of them at both ends. */
  lemma TrimExactly(s: string) returns (a: string, b: string)
    ensures s == a + Trim(s) + b && Blank(a) && Blank(b)
    ensures Trim(s) != "" ==> !IsSpace(Trim(s)[0]) && !IsSpace(Last(Trim(s)))
  {
    a := TrimStartExactly(s);
    b := TrimEndExactly(TrimStart(s));
    assert a + (Trim(s) + b) == a + Trim(s) + b;
  }
}
