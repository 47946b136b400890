/** Durations as text. */
module Duration {
  import opened Types

  const SECOND: nat := 1000
  const MINUTE: nat := 60_000
  const HOUR: nat := 3_600_000
  const DAY: nat := 86_400_000

  /** A duration: whole seconds, and nanoseconds below one second. */
  datatype Duration = Duration(secs: u64, nanos: u32)

  datatype ParseError = NotAscii | BadFormat | BadOrder | Negative

  /** The library's reading of a number, which skips blanks around it: none, or a finite number. */
  type NumberParser = string -> Option<real>

  // ---------------------------------------------------------------------------------------
  // Text
  // ---------------------------------------------------------------------------------------

  predicate IsSpace(c: char) {
    var n := c as int;
    || 9 <= n <= 13 || n == 0x20 || n == 0x85 || n == 0xA0 || n == 0x1680 || 0x2000 <= n <= 0x200A
    || n == 0x2028 || n == 0x2029 || n == 0x202F || n == 0x205F || n == 0x3000
  }

  function TrimStart(s: string): string {
    if s != [] && IsSpace(s[0]) then TrimStart(s[1..]) else s
  }

  function TrimEnd(s: string): string
    decreases |s|
  {
    if s != [] && IsSpace(s[|s| - 1]) then TrimEnd(s[..|s| - 1]) else s
  }

  function Trim(s: string): string { TrimEnd(TrimStart(s)) }

  predicate IsLetter(c: char) { c == 'd' || c == 'h' || c == 'm' || c == 's' }

  predicate HasLetter(s: string) { exists i :: 0 <= i < |s| && IsLetter(s[i]) }

  // ---------------------------------------------------------------------------------------
  // What a duration text is
  // ---------------------------------------------------------------------------------------

  datatype Unit = Day | Hour | Minute | Second | Milli {

    function Size(): nat {
      match this
      case Day => DAY
      case Hour => HOUR
      case Minute => MINUTE
      case Second => SECOND
      case Milli => 1
    }

    function Name(): string {
      match this
      case Day => "d"
      case Hour => "h"
      case Minute => "m"
      case Second => "s"
      case Milli => "ms"
    }

    /** The next smaller unit. */
    function Next(): Unit
      requires !Milli?
    {
      match this
      case Day => Hour
      case Hour => Minute
      case Minute => Second
      case Second => Milli
    }
  }

  /** A number of units, in milliseconds. */
  function Scale(unit: Unit, x: real): real {
    match unit
    case Day => x * 86_400_000.0
    case Hour => x * 3_600_000.0
    case Minute => x * 60_000.0
    case Second => x * 1000.0
    case Milli => x
  }

  /** `n` units, in milliseconds. */
  function Times(unit: Unit, n: nat): nat {
    match unit
    case Day => n * DAY
    case Hour => n * HOUR
    case Minute => n * MINUTE
    case Second => n * SECOND
    case Milli => n
  }

  /** How many whole units there are in `ms`. */
  function Quotient(unit: Unit, ms: nat): nat {
    match unit
    case Day => ms / DAY
    case Hour => ms / HOUR
    case Minute => ms / MINUTE
    case Second => ms / SECOND
    case Milli => ms
  }

  /** What is left of `ms` after the whole units. */
  function Remainder(unit: Unit, ms: nat): nat {
    match unit
    case Day => ms % DAY
    case Hour => ms % HOUR
    case Minute => ms % MINUTE
    case Second => ms % SECOND
    case Milli => 0
  }

  lemma ScaleIsTimes(unit: Unit, n: nat)
    ensures Scale(unit, n as real) == Times(unit, n) as real
  {
  }

  lemma QuotientRemainder(unit: Unit, ms: nat)
    ensures ms == Times(unit, Quotient(unit, ms)) + Remainder(unit, ms)
    ensures Quotient(unit, ms) <= ms && Remainder(unit, ms) <= ms
    ensures ms < unit.Size() ==> Quotient(unit, ms) == 0 && Remainder(unit, ms) == ms
    ensures ms >= unit.Size() ==> Quotient(unit, ms) > 0
  {
  }

  /** A number and its unit. */
  datatype Part = Part(text: string, unit: Unit)

  function Render(parts: seq<Part>): string {
    if parts == [] then "" else parts[0].text + parts[0].unit.Name() + Render(parts[1..])
  }

  /** The number can be read and has no unit letter in it. */
  predicate GoodPart(parse: NumberParser, part: Part) {
    parse(part.text).Some? && !HasLetter(part.text)
  }

  /** Good parts, in strictly decreasing units below `last`. */
  predicate GoodParts(parse: NumberParser, parts: seq<Part>, last: nat) {
    parts == [] ||
    (GoodPart(parse, parts[0]) && parts[0].unit.Size() < last && GoodParts(parse, parts[1..], parts[0].unit.Size()))
  }

  function Value(parse: NumberParser, part: Part): real {
    if parse(part.text).Some? then Scale(part.unit, parse(part.text).value) else 0.0
  }

  function Total(parse: NumberParser, parts: seq<Part>): real {
    if parts == [] then 0.0 else Value(parse, parts[0]) + Total(parse, parts[1..])
  }

  // ---------------------------------------------------------------------------------------
  // Parsing
  // ---------------------------------------------------------------------------------------

  /** The unit whose name starts a text; the longer name first. */
  function UnitAt(s: string): (unit: Option<Unit>)
    ensures unit.Some? ==> |unit.value.Name()| <= |s|
  {
    if s == "" then None
    else if s[0] == 'd' then Some(Day)
    else if s[0] == 'h' then Some(Hour)
    else if s[0] == 's' then Some(Second)
    else if s[0] == 'm' then if |s| > 1 && s[1] == 's' then Some(Milli) else Some(Minute)
    else None
  }

  /** The parts of a text, and what is left after the last unit. */
  datatype Tokens = Tokens(parts: seq<Part>, left: string)

  /** Reads from the left; `text` is what has been read since the last unit. */
  function Tokenize(text: string, s: string): Tokens
    decreases |s|
  {
    if s == "" then Tokens([], text)
    else
      match UnitAt(s)
      case None => Tokenize(text + [s[0]], s[1..])
      case Some(unit) =>
        var more := Tokenize("", s[|unit.Name()|..]);
        Tokens([Part(text, unit)] + more.parts, more.left)
  }

  /** Adds up the parts; the first bad one is the result. */
  function Fold(parse: NumberParser, parts: seq<Part>, last: nat, dur: real): Result<real, ParseError> {
    if parts == [] then Ok(dur)
    else if parts[0].unit.Size() >= last then Err(BadOrder)
    else if parse(parts[0].text).None? then Err(BadFormat)
    else Fold(parse, parts[1..], parts[0].unit.Size(), dur + Value(parse, parts[0]))
  }

  /** What reading `left` gives after units below `last` have added up to `dur`. */
  function Continue(parse: NumberParser, left: string, last: nat, dur: real): Result<real, ParseError> {
    var tokens := Tokenize("", left);
    var sum := Fold(parse, tokens.parts, last, dur);
    if sum.Ok? && tokens.left != "" then Err(BadFormat) else sum
  }

  function Read(parse: NumberParser, s: string): Result<real, ParseError> { Continue(parse, s, DAY + 1, 0.0) }

  const MAX_U64: nat := 0xFFFF_FFFF_FFFF_FFFF

  /** A float as an unsigned integer: truncated, and cut at the greatest one. */
  function AsU64(x: real): u64
    requires x >= 0.0
  {
    if x.Floor > MAX_U64 then MAX_U64 else x.Floor
  }

  function OfMillis(ms: u64): Duration { Duration(ms / SECOND, ms % SECOND * 1_000_000) }

  predicate IsAscii(s: string) { forall i :: 0 <= i < |s| ==> s[i] as int < 128 }

  /** The position of the first unit letter. */
  method Position(s: string) returns (i: nat)
    ensures i <= |s| && !HasLetter(s[..i]) && (i < |s| ==> IsLetter(s[i]))
  {
    i := 0;
    while i < |s| && !IsLetter(s[i])
      invariant i <= |s| && !HasLetter(s[..i])
    {
      i := i + 1;
    }
  }

  method FromStr(parse: NumberParser, text: string) returns (r: Result<Duration, ParseError>)
    ensures r == Parsed(parse, Trim(text))
  {
    var s := Trim(text);
    if !IsAscii(s) {
      return Err(NotAscii);
    }
    var left, dur, last: nat := s, 0.0, DAY + 1;
    var i: nat := Position(left);
    while i < |left|
      invariant i <= |left| && !HasLetter(left[..i]) && (i < |left| ==> IsLetter(left[i]))
      invariant Read(parse, s) == Continue(parse, left, last, dur)
      decreases |left|
    {
      var first, second := left[..i], left[i..];
      var unit := UnitAt(second).value;
      ContinueStep(parse, first, second, last, dur);
      assert first + second == left;
      left := second[|unit.Name()|..];
      if unit.Size() >= last {
        return Err(BadOrder);
      }
      var number := parse(first);
      if number.None? {
        return Err(BadFormat);
      }
      dur := dur + Scale(unit, number.value);
      last := unit.Size();
      i := Position(left);
    }
    assert left[..i] == left;
    ContinueEnd(parse, left, last, dur);
    if left != [] {
      return Err(BadFormat);
    }
    if dur < 0.0 {
      return Err(Negative);
    }
    var ms := AsU64(dur);
    r := Ok(Duration(ms / SECOND, ms % SECOND * 1_000_000));
  }

  /** What a trimmed text means. */
  function Parsed(parse: NumberParser, s: string): Result<Duration, ParseError> {
    if !IsAscii(s) then Err(NotAscii)
    else
      match Read(parse, s)
      case Err(e) => Err(e)
      case Ok(dur) => if dur < 0.0 then Err(Negative) else Ok(OfMillis(AsU64(dur)))
  }

  lemma LetterIsUnit(s: string)
    ensures UnitAt(s).Some? <==> s != "" && IsLetter(s[0])
  {
  }

  /** Letters are the only characters that end a number. */
  lemma {:induction false} TokenizeSkip(text: string, first: string, second: string)
    requires !HasLetter(first)
    ensures Tokenize(text, first + second) == Tokenize(text + first, second)
    decreases |first|
  {
    if first == "" {
      assert first + second == second && text + first == text;
    } else {
      var s := first + second;
      assert !IsLetter(first[0]) && s[0] == first[0] && s[1..] == first[1..] + second;
      LetterIsUnit(s);
      TokenizeSkip(text + [first[0]], first[1..], second);
      assert text + [first[0]] + first[1..] == text + first;
    }
  }

  lemma TokenizePart(first: string, second: string)
    requires !HasLetter(first) && UnitAt(second).Some?
    ensures var tokens, unit := Tokenize("", first + second), UnitAt(second).value;
            var more := Tokenize("", second[|unit.Name()|..]);
            tokens.parts == [Part(first, unit)] + more.parts && tokens.left == more.left
            && tokens.parts[1..] == more.parts
  {
    TokenizeSkip("", first, second);
    assert "" + first == first;
  }

  lemma TokenizeRest(left: string)
    requires !HasLetter(left)
    ensures Tokenize("", left) == Tokens([], left)
  {
    TokenizeSkip("", left, "");
    assert left + "" == left && "" + left == left;
  }

  lemma ContinueStep(parse: NumberParser, first: string, second: string, last: nat, dur: real)
    requires !HasLetter(first) && UnitAt(second).Some?
    ensures var unit := UnitAt(second).value;
            Continue(parse, first + second, last, dur) ==
            if unit.Size() >= last then Err(BadOrder)
            else if parse(first).None? then Err(BadFormat)
            else Continue(parse, second[|unit.Name()|..], unit.Size(), dur + Scale(unit, parse(first).value))
  {
    TokenizePart(first, second);
  }

  lemma ContinueEnd(parse: NumberParser, left: string, last: nat, dur: real)
    requires !HasLetter(left)
    ensures Continue(parse, left, last, dur) == if left == "" then Ok(dur) else Err(BadFormat)
  {
    TokenizeRest(left);
  }

  lemma UnitIs(unit: Unit, rest: string)
    requires rest != [] ==> !IsLetter(rest[0])
    ensures UnitAt(unit.Name() + rest) == Some(unit) && (unit.Name() + rest)[|unit.Name()|..] == rest
  {
  }

  /** No part has a unit letter in its text. */
  predicate Plain(parts: seq<Part>) {
    forall i :: 0 <= i < |parts| ==> !HasLetter(parts[i].text)
  }

  /** Every part has text. */
  predicate Filled(parts: seq<Part>) {
    forall i :: 0 <= i < |parts| ==> parts[i].text != ""
  }

  /** A text is its parts and what is left. */
  lemma {:induction false} TokenizeSound(text: string, s: string)
    requires !HasLetter(text)
    ensures Plain(Tokenize(text, s).parts)
    ensures Render(Tokenize(text, s).parts) + Tokenize(text, s).left == text + s
    decreases |s|
  {
    LetterIsUnit(s);
    if s != "" {
      if UnitAt(s).None? {
        TokenizeSound(text + [s[0]], s[1..]);
        assert text + [s[0]] + s[1..] == text + s;
      } else {
        var rest := s[|UnitAt(s).value.Name()|..];
        TokenizeSound("", rest);
        SoundPart(text, s, Tokenize("", rest));
      }
    }
  }

  lemma SoundPart(text: string, s: string, more: Tokens)
    requires UnitAt(s).Some? && !HasLetter(text) && Plain(more.parts)
    requires Render(more.parts) + more.left == "" + s[|UnitAt(s).value.Name()|..]
    ensures Plain([Part(text, UnitAt(s).value)] + more.parts)
    ensures Render([Part(text, UnitAt(s).value)] + more.parts) + more.left == text + s
  {
    var unit := UnitAt(s).value;
    RenderFirst(Part(text, unit), more.parts);
    assert s == unit.Name() + s[|unit.Name()|..];
    Reassociate(text, unit.Name(), Render(more.parts), more.left);
  }

  lemma Reassociate(a: string, b: string, c: string, d: string)
    ensures a + b + c + d == a + (b + (c + d))
  {
  }

  lemma RenderFirst(part: Part, more: seq<Part>)
    ensures Render([part] + more) == part.text + part.unit.Name() + Render(more)
  {
    assert ([part] + more)[1..] == more;
  }

  /** The text of parts that have text is read back as those parts. */
  lemma {:induction false} TokenizeComplete(parts: seq<Part>)
    requires Plain(parts) && Filled(parts)
    ensures Tokenize("", Render(parts)) == Tokens(parts, "")
    decreases |parts|
  {
    if parts != [] {
      var part, rest := parts[0], parts[1..];
      RestStart(rest);
      UnitIs(part.unit, Render(rest));
      TokenizePart(part.text, part.unit.Name() + Render(rest));
      assert part.text + (part.unit.Name() + Render(rest)) == Render(parts);
      TokenizeComplete(rest);
      assert parts == [part] + rest;
    }
  }

  /** What follows a part does not start with a letter. */
  lemma RestStart(parts: seq<Part>)
    requires Plain(parts) && Filled(parts)
    ensures Render(parts) != [] ==> !IsLetter(Render(parts)[0])
  {
    if parts != [] {
      assert Render(parts)[0] == parts[0].text[0] && !HasLetter(parts[0].text);
    }
  }

  /** Parts add up exactly when they are good and in strictly decreasing units. */
  lemma {:induction false} FoldExactly(parse: NumberParser, parts: seq<Part>, last: nat, dur: real)
    requires Plain(parts)
    ensures Fold(parse, parts, last, dur).Ok? <==> GoodParts(parse, parts, last)
    ensures Fold(parse, parts, last, dur).Ok? ==> Fold(parse, parts, last, dur).value == dur + Total(parse, parts)
    decreases |parts|
  {
    if parts != [] {
      FoldExactly(parse, parts[1..], parts[0].unit.Size(), dur + Value(parse, parts[0]));
    }
  }

  lemma {:induction false} GoodIsPlain(parse: NumberParser, parts: seq<Part>, last: nat)
    requires parse("").None? && GoodParts(parse, parts, last)
    ensures Plain(parts) && Filled(parts)
    decreases |parts|
  {
    if parts != [] {
      GoodIsPlain(parse, parts[1..], parts[0].unit.Size());
    }
  }

  lemma ReadSound(parse: NumberParser, s: string) returns (parts: seq<Part>)
    requires Read(parse, s).Ok?
    ensures GoodParts(parse, parts, DAY + 1) && Render(parts) == s && Total(parse, parts) == Read(parse, s).value
  {
    parts := Tokenize("", s).parts;
    TokenizeSound("", s);
    FoldExactly(parse, parts, DAY + 1, 0.0);
    assert Render(parts) + "" == Render(parts) && "" + s == s;
  }

  lemma ReadComplete(parse: NumberParser, parts: seq<Part>)
    requires parse("").None? && GoodParts(parse, parts, DAY + 1)
    ensures Read(parse, Render(parts)) == Ok(Total(parse, parts))
  {
    GoodIsPlain(parse, parts, DAY + 1);
    TokenizeComplete(parts);
    FoldExactly(parse, parts, DAY + 1, 0.0);
  }

  /** Good parts are in strictly decreasing units. */
  lemma {:induction false} UnitsDecrease(parse: NumberParser, parts: seq<Part>, last: nat)
    requires GoodParts(parse, parts, last)
    ensures forall i, j :: 0 <= i < j < |parts| ==> parts[i].unit.Size() > parts[j].unit.Size()
    ensures forall i :: 0 <= i < |parts| ==> parts[i].unit.Size() < last
    decreases |parts|
  {
    if parts != [] {
      var rest := parts[1..];
      UnitsDecrease(parse, rest, parts[0].unit.Size());
      assert forall i :: 0 < i < |parts| ==> parts[i] == rest[i - 1];
    }
  }

  /** A text can be read exactly when it is a sequence of numbers with units in strictly
      decreasing order, and is then read as the sum. */
  lemma ReadExactly(parse: NumberParser, s: string, total: real)
    requires parse("").None?
    ensures Read(parse, s) == Ok(total) <==>
            exists parts :: GoodParts(parse, parts, DAY + 1) && Render(parts) == s && Total(parse, parts) == total
  {
    if Read(parse, s).Ok? {
      var parts := ReadSound(parse, s);
    }
    forall parts | GoodParts(parse, parts, DAY + 1) ensures Read(parse, Render(parts)) == Ok(Total(parse, parts)) {
      ReadComplete(parse, parts);
    }
  }

  // ---------------------------------------------------------------------------------------
  // Printing
  // ---------------------------------------------------------------------------------------

  function Digit(d: nat): char
    requires d < 10
  {
    ('0' as int + d) as char
  }

  function Decimal(n: nat): string {
    if n < 10 then [Digit(n)] else Decimal(n / 10) + [Digit(n % 10)]
  }

  function AsMillis(d: Duration): u64 { (d.secs * SECOND + d.nanos / 1_000_000) % 0x1_0000_0000_0000_0000 }

  /** The parts of `ms` in `unit` and smaller units, leaving out those that are zero. */
  function PartsFrom(ms: nat, unit: Unit): seq<Part>
    decreases unit.Size(), ms
  {
    if unit.Milli? then
      if ms > 0 then [Part(Decimal(ms), Milli)] else []
    else if ms >= unit.Size() then
      [Part(Decimal(Quotient(unit, ms)), unit)] + PartsFrom(Remainder(unit, ms), unit.Next())
    else
      PartsFrom(ms, unit.Next())
  }

  function Show(ms: nat): string {
    if ms == 0 then "0s" else Render(PartsFrom(ms, Day))
  }

  /** Printing one unit leaves the smaller ones; a unit that is zero is not printed. */
  lemma PrintStep(s: string, ms: nat, unit: Unit)
    requires !unit.Milli?
    ensures s + Render(PartsFrom(ms, unit)) ==
            if ms >= unit.Size() then
              s + (Decimal(Quotient(unit, ms)) + unit.Name()) + Render(PartsFrom(Remainder(unit, ms), unit.Next()))
            else s + Render(PartsFrom(ms, unit.Next()))
  {
    if ms >= unit.Size() {
      var text, more := Decimal(Quotient(unit, ms)), PartsFrom(Remainder(unit, ms), unit.Next());
      RenderFirst(Part(text, unit), more);
      Associate(s, text + unit.Name(), Render(more));
    }
  }

  lemma Associate(a: string, b: string, c: string)
    ensures a + b + c == a + (b + c)
  {
  }

  lemma PrintLast(ms: nat)
    ensures Render(PartsFrom(ms, Milli)) == if ms > 0 then Decimal(ms) + "ms" else ""
  {
    if ms > 0 {
      var parts := PartsFrom(ms, Milli);
      assert parts == [Part(Decimal(ms), Milli)] && parts[1..] == [];
    }
  }

  /** Prints the whole units in `dur`, if there are any. */
  method FmtUnit(s: string, dur: nat, unit: Unit, written: bool, ghost all: string)
    returns (t: string, left: nat, any: bool)
    requires !unit.Milli? && s + Render(PartsFrom(dur, unit)) == all
    ensures t + Render(PartsFrom(left, unit.Next())) == all
    ensures any == (written || dur >= unit.Size())
    ensures dur < unit.Size() ==> t == s && left == dur
  {
    t, left, any := s, dur, written;
    PrintStep(s, dur, unit);
    if dur >= unit.Size() {
      any := true;
      t := s + (Decimal(Quotient(unit, dur)) + unit.Name());
      left := Remainder(unit, dur);
    }
  }

  method Fmt(d: Duration) returns (s: string)
    ensures s == Show(AsMillis(d))
  {
    var dur: nat := AsMillis(d);
    var written := false;
    ghost var ms, all := dur, Render(PartsFrom(dur, Day));
    s := "";
    assert s + all == all;
    s, dur, written := FmtUnit(s, dur, Day, written, all);
    s, dur, written := FmtUnit(s, dur, Hour, written, all);
    s, dur, written := FmtUnit(s, dur, Minute, written, all);
    s, dur, written := FmtUnit(s, dur, Second, written, all);
    PrintLast(dur);
    if dur > 0 {
      written := true;
      s := s + (Decimal(dur) + "ms");
    } else {
      assert s + "" == s;
    }
    assert s == all;
    if !written {
      s := s + "0s";
    }
  }

  // ---------------------------------------------------------------------------------------
  // Round trip
  // ---------------------------------------------------------------------------------------

  const EXACT: nat := 0x20_0000_0000_0000

  /** The parser reads integers that a double holds exactly, and nothing where there is no text. */
  ghost predicate ReadsDigits(parse: NumberParser) {
    parse("").None? && forall n: nat | n < EXACT :: parse(Decimal(n)) == Some(n as real)
  }

  lemma {:induction false} DecimalPlain(n: nat)
    ensures Decimal(n) != "" && forall i :: 0 <= i < |Decimal(n)| ==> '0' <= Decimal(n)[i] <= '9'
  {
    if n >= 10 {
      DecimalPlain(n / 10);
    }
  }

  /** The printed parts are good and add up to what is printed. */
  lemma {:induction false} PartsAddUp(parse: NumberParser, ms: nat, unit: Unit, last: nat)
    requires ReadsDigits(parse) && ms < EXACT && unit.Size() < last
    ensures GoodParts(parse, PartsFrom(ms, unit), last)
    ensures Total(parse, PartsFrom(ms, unit)) == ms as real
    decreases unit.Size()
  {
    QuotientRemainder(unit, ms);
    if unit.Milli? {
      if ms > 0 {
        FirstPart(parse, ms, unit, last, []);
      }
    } else if ms >= unit.Size() {
      PartsAddUp(parse, Remainder(unit, ms), unit.Next(), unit.Size());
      FirstPart(parse, Quotient(unit, ms), unit, last, PartsFrom(Remainder(unit, ms), unit.Next()));
    } else {
      PartsAddUp(parse, ms, unit.Next(), last);
    }
  }

  lemma FirstPart(parse: NumberParser, n: nat, unit: Unit, last: nat, more: seq<Part>)
    requires ReadsDigits(parse) && n < EXACT && unit.Size() < last && GoodParts(parse, more, unit.Size())
    ensures GoodParts(parse, [Part(Decimal(n), unit)] + more, last)
    ensures Total(parse, [Part(Decimal(n), unit)] + more) == Times(unit, n) as real + Total(parse, more)
  {
    var part := Part(Decimal(n), unit);
    assert ([part] + more)[1..] == more;
    DecimalPlain(n);
    ScaleIsTimes(unit, n);
  }

  /** Every partial sum of the printed parts is an integer not above what is printed, so below
      2^53 the sums are exact in doubles too. */
  lemma {:induction false} PartialSums(parse: NumberParser, ms: nat, unit: Unit, k: nat) returns (n: nat)
    requires ReadsDigits(parse) && ms < EXACT && k <= |PartsFrom(ms, unit)|
    ensures n <= ms && Total(parse, PartsFrom(ms, unit)[..k]) == n as real
    decreases unit.Size()
  {
    QuotientRemainder(unit, ms);
    var parts := PartsFrom(ms, unit);
    if k == 0 {
      n := 0;
    } else if unit.Milli? {
      n := ms;
      assert parts[..k] == parts;
      PartsAddUp(parse, ms, unit, 2);
    } else if ms >= unit.Size() {
      var more := PartsFrom(Remainder(unit, ms), unit.Next());
      var m := PartialSums(parse, Remainder(unit, ms), unit.Next(), k - 1);
      n := Times(unit, Quotient(unit, ms)) + m;
      assert parts[..k] == [parts[0]] + more[..k - 1];
      FirstTotal(parse, Quotient(unit, ms), unit, more[..k - 1]);
    } else {
      n := PartialSums(parse, ms, unit.Next(), k);
    }
  }

  lemma FirstTotal(parse: NumberParser, n: nat, unit: Unit, more: seq<Part>)
    requires ReadsDigits(parse) && n < EXACT
    ensures Total(parse, [Part(Decimal(n), unit)] + more) == Times(unit, n) as real + Total(parse, more)
  {
    assert ([Part(Decimal(n), unit)] + more)[1..] == more;
    ScaleIsTimes(unit, n);
  }

  /** What is printed is read as the same number of milliseconds. */
  lemma ReadShown(parse: NumberParser, ms: nat)
    requires ReadsDigits(parse) && ms < EXACT
    ensures Read(parse, Show(ms)) == Ok(ms as real)
  {
    if ms == 0 {
      FirstPart(parse, 0, Second, DAY + 1, []);
      var parts := [Part(Decimal(0), Second)] + [];
      assert parts[1..] == [] && Decimal(0) == "0";
      assert Render(parts) == "0s";
      ReadComplete(parse, parts);
    } else {
      PartsAddUp(parse, ms, Day, DAY + 1);
      ReadComplete(parse, PartsFrom(ms, Day));
    }
  }

  /** Digits and unit letters only. */
  predicate Simple(s: string) { forall i :: 0 <= i < |s| ==> '0' <= s[i] <= '9' || IsLetter(s[i]) }

  lemma {:induction false} ShownSimple(ms: nat, unit: Unit)
    ensures Simple(Render(PartsFrom(ms, unit)))
    decreases unit.Size()
  {
    if unit.Milli? {
      PrintLast(ms);
      DecimalPlain(ms);
    } else if ms >= unit.Size() {
      ShownSimple(Remainder(unit, ms), unit.Next());
      DecimalPlain(Quotient(unit, ms));
      RenderFirst(Part(Decimal(Quotient(unit, ms)), unit), PartsFrom(Remainder(unit, ms), unit.Next()));
      SimpleConcat(Decimal(Quotient(unit, ms)), unit.Name());
      SimpleConcat(Decimal(Quotient(unit, ms)) + unit.Name(), Render(PartsFrom(Remainder(unit, ms), unit.Next())));
    } else {
      ShownSimple(ms, unit.Next());
    }
  }

  lemma SimpleConcat(a: string, b: string)
    requires Simple(a) && Simple(b)
    ensures Simple(a + b)
  {
  }

  lemma SimpleTrims(s: string)
    requires Simple(s)
    ensures Trim(s) == s && IsAscii(s)
  {
  }

  /** Parsing the printed form of a duration of whole milliseconds below 2^53 gives it back. */
  lemma RoundTrip(parse: NumberParser, d: Duration)
    requires ReadsDigits(parse)
    requires d.nanos < 1_000_000_000 && d.nanos % 1_000_000 == 0
    requires d.secs * SECOND + d.nanos / 1_000_000 < EXACT
    ensures Parsed(parse, Trim(Show(AsMillis(d)))) == Ok(d)
  {
    var ms := AsMillis(d);
    ShownSimple(ms, Day);
    SimpleTrims(Show(ms));
    WholeMillis(d);
    ReadShown(parse, ms);
    ExactMillis(ms);
  }

  lemma WholeMillis(d: Duration)
    requires d.nanos < 1_000_000_000 && d.nanos % 1_000_000 == 0
    requires d.secs * SECOND + d.nanos / 1_000_000 < EXACT
    ensures AsMillis(d) < EXACT && OfMillis(AsMillis(d)) == d
  {
    assert d.nanos == d.nanos / 1_000_000 * 1_000_000;
  }

  lemma ExactMillis(ms: nat)
    requires ms < EXACT
    ensures ms as real >= 0.0 && AsU64(ms as real) == ms
  {
    FloorOf(ms);
  }

  lemma FloorOf(n: nat)
    ensures (n as real).Floor == n
  {
  }

  // ---------------------------------------------------------------------------------------
  // A parser that reads digits
  // ---------------------------------------------------------------------------------------

  function ReadInteger(s: string): Option<int>
    decreases |s|
  {
    if s == "" then None
    else
      var n, c := |s| - 1, s[|s| - 1];
      if !('0' <= c <= '9') then None
      else
        var d := c as int - '0' as int;
        if n == 0 then Some(d)
        else if ReadInteger(s[..n]).None? then None
        else Some(10 * ReadInteger(s[..n]).value + d)
  }

  function DigitsOnly(s: string): Option<real> {
    if ReadInteger(s).Some? then Some(ReadInteger(s).value as real) else None
  }

  lemma {:induction false} ReadIntegerReads(n: nat)
    ensures ReadInteger(Decimal(n)) == Some(n)
  {
    var s := Decimal(n);
    if n >= 10 {
      ReadIntegerReads(n / 10);
      assert s[..|s| - 1] == Decimal(n / 10);
    }
  }

  /** The round trip does not assume too much: a parser of plain digits reads digits. */
  lemma SomeParserReadsDigits()
    ensures ReadsDigits(DigitsOnly)
  {
    forall n: nat | n < EXACT ensures DigitsOnly(Decimal(n)) == Some(n as real) {
      ReadIntegerReads(n);
    }
  }
}
