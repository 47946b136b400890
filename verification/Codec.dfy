/** The little-endian byte layout of integers. */
module LittleEndian {
  import opened Types

  function Pow256(n: nat): nat
    ensures Pow256(n) > 0
  {
    if n == 0 then 1 else 256 * Pow256(n - 1)
  }

  /** The `n` lowest bytes of `x`, least significant first. */
  function LeBytes(x: nat, n: nat): (bs: seq<u8>)
    ensures |bs| == n
    decreases n, x
  {
    if n == 0 then [] else [x % 256] + LeBytes(x / 256, n - 1)
  }

  function LeNat(bs: seq<u8>): (x: nat)
    ensures x < Pow256(|bs|)
  {
    if bs == [] then 0 else bs[0] + 256 * LeNat(bs[1..])
  }

  lemma {:induction false} NatOfBytes(x: nat, n: nat)
    requires x < Pow256(n)
    ensures LeNat(LeBytes(x, n)) == x
    decreases n
  {
    if n > 0 {
      NatOfBytes(x / 256, n - 1);
      assert LeBytes(x, n)[1..] == LeBytes(x / 256, n - 1);
    }
  }

  lemma {:induction false} BytesOfNat(bs: seq<u8>)
    ensures LeBytes(LeNat(bs), |bs|) == bs
  {
    if bs != [] {
      BytesOfNat(bs[1..]);
      var rest := LeNat(bs[1..]);
      assert (bs[0] + 256 * rest) % 256 == bs[0] && (bs[0] + 256 * rest) / 256 == rest;
      assert bs == [bs[0]] + bs[1..];
    }
  }

  /** Byte `i` is the digit of weight 256 to the power `i`. */
  lemma {:induction false} LeBytesAt(x: nat, n: nat, i: nat)
    requires i < n
    ensures LeBytes(x, n)[i] == x / Pow256(i) % 256
    decreases n
  {
    if i > 0 {
      LeBytesAt(x / 256, n - 1, i - 1);
      DivideTwice(x, Pow256(i - 1));
    }
  }

  lemma DivideTwice(x: nat, p: nat)
    requires p > 0
    ensures x / 256 / p == x / (256 * p)
  {
    var q := x / 256;
    var m := q / p;
    QuotientIs(q, m, p);
    assert 256 * (m * p) == m * (256 * p);
    QuotientIs(x, m, 256 * p);
  }

  /** The bytes of a field that stands at `at`. */
  ghost predicate FieldAt(bs: seq<u8>, at: nat, x: nat, n: nat) {
    at + n <= |bs| && forall i :: 0 <= i < n ==> bs[at + i] == x / Pow256(i) % 256
  }

  lemma FieldStands(before: seq<u8>, x: nat, n: nat, after: seq<u8>)
    ensures FieldAt(before + LeBytes(x, n) + after, |before|, x, n)
  {
    forall i | 0 <= i < n ensures (before + LeBytes(x, n) + after)[|before| + i] == x / Pow256(i) % 256 {
      LeBytesAt(x, n, i);
    }
  }

  lemma Widths()
    ensures Pow256(1) == 0x100
    ensures Pow256(4) == 0x1_0000_0000
    ensures Pow256(8) == 0x1_0000_0000_0000_0000
  {
    assert Pow256(2) == 0x1_0000 && Pow256(3) == 0x100_0000;
    assert Pow256(5) == 0x100_0000_0000 && Pow256(6) == 0x1_0000_0000_0000 && Pow256(7) == 0x100_0000_0000_0000;
  }

  /** Two's complement. */
  function Unsigned(x: i64): u64 { if x < 0 then x + 0x1_0000_0000_0000_0000 else x }

  function Signed(x: u64): i64 {
    if x >= 0x8000_0000_0000_0000 then x - 0x1_0000_0000_0000_0000 else x
  }

  /** The two differ by a multiple of the word. */
  lemma TwosComplement(x: i64)
    ensures (Unsigned(x) - x) % 0x1_0000_0000_0000_0000 == 0
    ensures x >= 0 <==> Unsigned(x) < 0x8000_0000_0000_0000
    ensures Signed(Unsigned(x)) == x
  {
  }

  /** A reader over a byte string, like `std::io::Cursor` with `ReadBytesExt`. */
  class Cursor {
    const data: seq<u8>
    var pos: nat

    ghost predicate Valid()
      reads this
    {
      pos <= |data|
    }

    constructor (data: seq<u8>)
      ensures Valid() && this.data == data && pos == 0
    {
      this.data := data;
      this.pos := 0;
    }

    /** `None` is an unexpected end of file. */
    method ReadUnsigned(n: nat) returns (r: Option<nat>)
      requires Valid()
      modifies this
      ensures Valid()
      ensures r.Some? <==> old(pos) + n <= |data|
      ensures r.Some? ==> pos == old(pos) + n && r.value == LeNat(data[old(pos)..pos]) && r.value < Pow256(n)
    {
      if pos + n > |data| {
        return None;
      }
      r := Some(LeNat(data[pos..pos + n]));
      pos := pos + n;
    }
  }
}

/** The snapshot object: a header and one fixed-size record per live file. */
module Codec {
  import opened Types
  import opened LittleEndian
  import opened Sst

  const MAGIC: u32 := 0xCAFE_1234
  const VERSION: u8 := 1
  const HEADER_LENGTH: nat := 14
  const RECORD_LENGTH: nat := 32

  datatype Header = Header(magic: u32, version: u8, flag: u8, length: u64)

  datatype Record = Record(id: u64, range: TimeRange, size: u32, numRows: u32)

  datatype Contents = Contents(header: Header, records: seq<Record>)

  datatype Error = ReadHeader | InvalidMagic | InvalidLength | ReadRecord

  const NewHeader: Header := Header(MAGIC, VERSION, 0, 0)

  const Empty: Contents := Contents(NewHeader, [])

  // ---------------------------------------------------------------------------------------
  // The byte layout
  // ---------------------------------------------------------------------------------------

  function EncodeHeader(h: Header): (bs: seq<u8>)
    ensures |bs| == HEADER_LENGTH
  {
    LeBytes(h.magic, 4) + LeBytes(h.version, 1) + LeBytes(h.flag, 1) + LeBytes(h.length, 8)
  }

  function EncodeRecord(r: Record): (bs: seq<u8>)
    ensures |bs| == RECORD_LENGTH
  {
    LeBytes(r.id, 8) + LeBytes(Unsigned(r.range.start), 8) + LeBytes(Unsigned(r.range.end), 8)
    + LeBytes(r.size, 4) + LeBytes(r.numRows, 4)
  }

  function EncodeRecords(rs: seq<Record>): (bs: seq<u8>)
    ensures |bs| == RECORD_LENGTH * |rs|
  {
    if rs == [] then [] else EncodeRecord(rs[0]) + EncodeRecords(rs[1..])
  }

  function Encode(s: Contents): seq<u8> { EncodeHeader(s.header) + EncodeRecords(s.records) }

  /** Header and records agree, and there is a record to store. */
  predicate WellFormed(s: Contents) {
    && s.header.magic == MAGIC
    && s.header.length == RECORD_LENGTH * |s.records|
    && s.records != []
  }

  /** The fields of a header stand at 0, 4, 5 and 6, least significant byte first. */
  lemma HeaderLayout(h: Header)
    ensures var bs := EncodeHeader(h);
            FieldAt(bs, 0, h.magic, 4) && FieldAt(bs, 4, h.version, 1) && FieldAt(bs, 5, h.flag, 1) && FieldAt(bs, 6, h.length, 8)
  {
    var bs, a, b, c, d := EncodeHeader(h), LeBytes(h.magic, 4), LeBytes(h.version, 1), LeBytes(h.flag, 1), LeBytes(h.length, 8);
    FieldStands([], h.magic, 4, b + c + d);
    FieldStands(a, h.version, 1, c + d);
    FieldStands(a + b, h.flag, 1, d);
    FieldStands(a + b + c, h.length, 8, []);
    assert bs == [] + a + (b + c + d) && bs == a + b + (c + d) && bs == (a + b) + c + d && bs == (a + b + c) + d + [];
  }

  /** The fields of a record stand at 0, 8, 16, 24 and 28; timestamps are in two's complement. */
  lemma RecordLayout(r: Record)
    ensures var bs := EncodeRecord(r);
            && FieldAt(bs, 0, r.id, 8) && FieldAt(bs, 8, Unsigned(r.range.start), 8) && FieldAt(bs, 16, Unsigned(r.range.end), 8)
            && FieldAt(bs, 24, r.size, 4) && FieldAt(bs, 28, r.numRows, 4)
  {
    var bs, a, b, c := EncodeRecord(r), LeBytes(r.id, 8), LeBytes(Unsigned(r.range.start), 8), LeBytes(Unsigned(r.range.end), 8);
    var d, e := LeBytes(r.size, 4), LeBytes(r.numRows, 4);
    FieldStands([], r.id, 8, b + c + d + e);
    FieldStands(a, Unsigned(r.range.start), 8, c + d + e);
    FieldStands(a + b, Unsigned(r.range.end), 8, d + e);
    FieldStands(a + b + c, r.size, 4, e);
    FieldStands(a + b + c + d, r.numRows, 4, []);
    assert bs == [] + a + (b + c + d + e) && bs == a + b + (c + d + e);
    assert bs == (a + b) + c + (d + e) && bs == (a + b + c) + d + e && bs == (a + b + c + d) + e + [];
  }

  /** A new header: the magic number, version 1, no flag, no records. */
  lemma NewHeaderBytes()
    ensures EncodeHeader(NewHeader) == [0x34, 0x12, 0xFE, 0xCA, 1, 0, 0, 0, 0, 0, 0, 0, 0, 0]
  {
    HeaderLayout(NewHeader);
    assert Pow256(1) == 0x100 && Pow256(2) == 0x1_0000 && Pow256(3) == 0x100_0000;
  }

  /** Behind the header the records stand in order, each at a multiple of its length. */
  lemma {:induction false} RecordStands(rs: seq<Record>, k: nat)
    requires k < |rs|
    ensures EncodeRecords(rs)[RECORD_LENGTH * k..RECORD_LENGTH * k + RECORD_LENGTH] == EncodeRecord(rs[k])
  {
    var head, tail := EncodeRecord(rs[0]), EncodeRecords(rs[1..]);
    if k > 0 {
      RecordStands(rs[1..], k - 1);
      var at := RECORD_LENGTH * (k - 1);
      assert (head + tail)[RECORD_LENGTH + at..RECORD_LENGTH + at + RECORD_LENGTH] == tail[at..at + RECORD_LENGTH];
    }
  }

  lemma SnapshotLayout(s: Contents, k: nat)
    requires k < |s.records|
    ensures var bs, at := Encode(s), HEADER_LENGTH + RECORD_LENGTH * k;
            && |bs| == HEADER_LENGTH + RECORD_LENGTH * |s.records|
            && bs[..HEADER_LENGTH] == EncodeHeader(s.header) && bs[at..at + RECORD_LENGTH] == EncodeRecord(s.records[k])
  {
    var head, tail := EncodeHeader(s.header), EncodeRecords(s.records);
    RecordStands(s.records, k);
    var at := RECORD_LENGTH * k;
    assert (head + tail)[HEADER_LENGTH + at..HEADER_LENGTH + at + RECORD_LENGTH] == tail[at..at + RECORD_LENGTH];
  }

  // ---------------------------------------------------------------------------------------
  // The layout read back
  // ---------------------------------------------------------------------------------------

  function HeaderOf(bs: seq<u8>): Header
    requires |bs| >= HEADER_LENGTH
  {
    Widths();
    Header(LeNat(bs[0..4]), LeNat(bs[4..5]), LeNat(bs[5..6]), LeNat(bs[6..14]))
  }

  function RecordOf(bs: seq<u8>): Record
    requires |bs| == RECORD_LENGTH
  {
    Widths();
    Record(LeNat(bs[0..8]), TimeRange(Signed(LeNat(bs[8..16])), Signed(LeNat(bs[16..24]))),
           LeNat(bs[24..28]), LeNat(bs[28..32]))
  }

  lemma Suffix(a: seq<u8>, b: seq<u8>)
    ensures (a + b)[|a|..|a| + |b|] == b
  {
  }

  lemma HeaderRoundTrip(h: Header)
    ensures HeaderOf(EncodeHeader(h)) == h
  {
    Widths();
    var bs := EncodeHeader(h);
    NatOfBytes(h.magic, 4);
    NatOfBytes(h.version, 1);
    NatOfBytes(h.flag, 1);
    NatOfBytes(h.length, 8);
    assert bs[0..4] == LeBytes(h.magic, 4);
    assert bs[4..5] == LeBytes(h.version, 1);
    assert bs[5..6] == LeBytes(h.flag, 1);
    Suffix(LeBytes(h.magic, 4) + LeBytes(h.version, 1) + LeBytes(h.flag, 1), LeBytes(h.length, 8));
    assert bs[6..14] == LeBytes(h.length, 8);
  }

  lemma HeaderBytes(bs: seq<u8>)
    requires |bs| == HEADER_LENGTH
    ensures EncodeHeader(HeaderOf(bs)) == bs
  {
    BytesOfNat(bs[0..4]);
    BytesOfNat(bs[4..5]);
    BytesOfNat(bs[5..6]);
    BytesOfNat(bs[6..14]);
    assert bs == bs[0..4] + bs[4..5] + bs[5..6] + bs[6..14];
  }

  lemma HeaderPrefix(head: seq<u8>, tail: seq<u8>)
    requires |head| == HEADER_LENGTH
    ensures HeaderOf(head + tail) == HeaderOf(head)
  {
    var bs := head + tail;
    assert bs[0..4] == head[0..4] && bs[4..5] == head[4..5] && bs[5..6] == head[5..6] && bs[6..14] == head[6..14];
  }

  lemma RecordRoundTrip(r: Record)
    ensures RecordOf(EncodeRecord(r)) == r
  {
    Widths();
    var bs := EncodeRecord(r);
    NatOfBytes(r.id, 8);
    NatOfBytes(Unsigned(r.range.start), 8);
    NatOfBytes(Unsigned(r.range.end), 8);
    NatOfBytes(r.size, 4);
    NatOfBytes(r.numRows, 4);
    assert bs[0..8] == LeBytes(r.id, 8);
    assert bs[8..16] == LeBytes(Unsigned(r.range.start), 8);
    assert bs[16..24] == LeBytes(Unsigned(r.range.end), 8);
    assert bs[24..28] == LeBytes(r.size, 4);
    Suffix(LeBytes(r.id, 8) + LeBytes(Unsigned(r.range.start), 8) + LeBytes(Unsigned(r.range.end), 8) + LeBytes(r.size, 4),
           LeBytes(r.numRows, 4));
    assert bs[28..32] == LeBytes(r.numRows, 4);
  }

  lemma RecordFields(bs: seq<u8>)
    requires |bs| == RECORD_LENGTH
    ensures bs == bs[0..8] + bs[8..16] + bs[16..24] + bs[24..28] + bs[28..32]
  {
  }

  lemma RecordBytes(bs: seq<u8>)
    requires |bs| == RECORD_LENGTH
    ensures EncodeRecord(RecordOf(bs)) == bs
  {
    Widths();
    BytesOfNat(bs[0..8]);
    BytesOfNat(bs[8..16]);
    BytesOfNat(bs[16..24]);
    BytesOfNat(bs[24..28]);
    BytesOfNat(bs[28..32]);
    assert Unsigned(Signed(LeNat(bs[8..16]))) == LeNat(bs[8..16]);
    assert Unsigned(Signed(LeNat(bs[16..24]))) == LeNat(bs[16..24]);
    RecordFields(bs);
  }

  // ---------------------------------------------------------------------------------------
  // Decoding
  // ---------------------------------------------------------------------------------------

  /** The byte strings that decode to records. */
  predicate Accepts(bs: seq<u8>) {
    && |bs| >= HEADER_LENGTH
    && var h := HeaderOf(bs);
       && h.magic == MAGIC
       && h.length > 0 && h.length % RECORD_LENGTH == 0 && h.length + HEADER_LENGTH == |bs|
  }

  method ReadHeader(cursor: Cursor) returns (r: Result<Header, Error>)
    requires cursor.Valid() && cursor.pos == 0
    modifies cursor
    ensures cursor.Valid()
    ensures r.Ok? <==> |cursor.data| >= HEADER_LENGTH && HeaderOf(cursor.data).magic == MAGIC
    ensures r.Ok? ==> r.value == HeaderOf(cursor.data) && cursor.pos == HEADER_LENGTH
    ensures r.Err? ==> r.error == if |cursor.data| >= 4 && LeNat(cursor.data[0..4]) != MAGIC then InvalidMagic else Error.ReadHeader
  {
    Widths();
    var magic := cursor.ReadUnsigned(4);
    if magic.None? { return Err(Error.ReadHeader); }
    if magic.value != MAGIC { return Err(InvalidMagic); }
    var version := cursor.ReadUnsigned(1);
    if version.None? { return Err(Error.ReadHeader); }
    var flag := cursor.ReadUnsigned(1);
    if flag.None? { return Err(Error.ReadHeader); }
    var length := cursor.ReadUnsigned(8);
    if length.None? { return Err(Error.ReadHeader); }
    r := Ok(Header(magic.value, version.value, flag.value, length.value));
  }

  method ReadRecord(cursor: Cursor) returns (r: Result<Record, Error>)
    requires cursor.Valid()
    modifies cursor
    ensures cursor.Valid()
    ensures r.Ok? <==> old(cursor.pos) + RECORD_LENGTH <= |cursor.data|
    ensures r.Ok? ==> cursor.pos == old(cursor.pos) + RECORD_LENGTH
    ensures r.Ok? ==> r.value == RecordOf(cursor.data[old(cursor.pos)..cursor.pos])
  {
    Widths();
    ghost var start := cursor.pos;
    var id := cursor.ReadUnsigned(8);
    if id.None? { return Err(Error.ReadRecord); }
    var from := cursor.ReadUnsigned(8);
    if from.None? { return Err(Error.ReadRecord); }
    var to := cursor.ReadUnsigned(8);
    if to.None? { return Err(Error.ReadRecord); }
    var size := cursor.ReadUnsigned(4);
    if size.None? { return Err(Error.ReadRecord); }
    var numRows := cursor.ReadUnsigned(4);
    if numRows.None? { return Err(Error.ReadRecord); }
    r := Ok(Record(id.value, TimeRange(Signed(from.value), Signed(to.value)), size.value, numRows.value));
    SliceOfSlice(cursor.data, start, cursor.pos, 0, 8);
    SliceOfSlice(cursor.data, start, cursor.pos, 8, 16);
    SliceOfSlice(cursor.data, start, cursor.pos, 16, 24);
    SliceOfSlice(cursor.data, start, cursor.pos, 24, 28);
    SliceOfSlice(cursor.data, start, cursor.pos, 28, 32);
  }

  lemma SliceOfSlice(data: seq<u8>, start: nat, end: nat, a: nat, b: nat)
    requires a <= b && start + b <= end <= |data|
    ensures data[start..end][a..b] == data[start + a..start + b]
  {
    var x, y := data[start..end][a..b], data[start + a..start + b];
    forall i | 0 <= i < b - a ensures x[i] == y[i] {
      assert x[i] == data[start..end][a + i];
    }
  }

  lemma {:induction false} EncodeRecordsAppend(rs: seq<Record>, r: Record)
    ensures EncodeRecords(rs + [r]) == EncodeRecords(rs) + EncodeRecord(r)
  {
    if rs == [] {
      assert rs + [r] == [r];
      assert EncodeRecords([r][1..]) == [];
    } else {
      EncodeRecordsAppend(rs[1..], r);
      assert (rs + [r])[1..] == rs[1..] + [r];
    }
  }

  /** Reads records to the end; it never runs short when whole records are left. */
  method ReadRecords(cursor: Cursor, ghost count: nat) returns (records: seq<Record>)
    requires cursor.Valid() && |cursor.data| == cursor.pos + RECORD_LENGTH * count
    modifies cursor
    ensures |records| == count && EncodeRecords(records) == cursor.data[old(cursor.pos)..]
  {
    var bs := cursor.data;
    ghost var from := cursor.pos;
    records := [];
    while cursor.pos < |bs|
      invariant cursor.Valid() && cursor.data == bs
      invariant |records| <= count && cursor.pos == from + RECORD_LENGTH * |records|
      invariant EncodeRecords(records) == bs[from..cursor.pos]
      decreases |bs| - cursor.pos
    {
      ghost var start := cursor.pos;
      var record := ReadRecord(cursor);
      RecordBytes(bs[start..cursor.pos]);
      EncodeRecordsAppend(records, record.value);
      ExtendSlice(bs, from, start, cursor.pos);
      records := records + [record.value];
    }
    assert bs[from..cursor.pos] == bs[from..];
  }

  lemma ExtendSlice(bs: seq<u8>, a: nat, b: nat, c: nat)
    requires a <= b <= c <= |bs|
    ensures bs[a..c] == bs[a..b] + bs[b..c]
  {
  }

  /** Decoding never sees a sum that overflows 64 bits, never runs short inside the record loop,
      and accepts exactly the encodings of well-formed contents. */
  method TryFrom(bs: seq<u8>) returns (r: Result<Contents, Error>)
    ensures bs == [] ==> r == Ok(Empty)
    ensures bs != [] ==> (r.Ok? <==> Accepts(bs))
    ensures bs != [] && r.Ok? ==> WellFormed(r.value) && Encode(r.value) == bs
    ensures r.Err? ==> r.error == if |bs| >= 4 && LeNat(bs[0..4]) != MAGIC then InvalidMagic
                                  else if |bs| < HEADER_LENGTH then Error.ReadHeader
                                  else InvalidLength
  {
    if bs == [] {
      return Ok(Empty);
    }
    var cursor := new Cursor(bs);
    var header := ReadHeader(cursor);
    if header.Err? {
      return Err(header.error);
    }
    var length := header.value.length;
    if !(length > 0 && length % RECORD_LENGTH == 0) {
      return Err(InvalidLength);
    }
    assert length + HEADER_LENGTH < 0x1_0000_0000_0000_0000;
    if length + HEADER_LENGTH != |bs| {
      return Err(InvalidLength);
    }
    var records := ReadRecords(cursor, length / RECORD_LENGTH);
    HeaderBytes(bs[..HEADER_LENGTH]);
    HeaderPrefix(bs[..HEADER_LENGTH], bs[HEADER_LENGTH..]);
    assert bs == bs[..HEADER_LENGTH] + bs[HEADER_LENGTH..];
    r := Ok(Contents(header.value, records));
  }

  lemma {:induction false} EncodeRecordsInjective(a: seq<Record>, b: seq<Record>)
    requires EncodeRecords(a) == EncodeRecords(b)
    ensures a == b
  {
    assert |EncodeRecords(a)| == RECORD_LENGTH * |a| && |EncodeRecords(b)| == RECORD_LENGTH * |b|;
    if a != [] {
      var x, y := EncodeRecords(a), EncodeRecords(b);
      assert x[..RECORD_LENGTH] == EncodeRecord(a[0]) && y[..RECORD_LENGTH] == EncodeRecord(b[0]);
      assert x[RECORD_LENGTH..] == EncodeRecords(a[1..]) && y[RECORD_LENGTH..] == EncodeRecords(b[1..]);
      RecordRoundTrip(a[0]);
      RecordRoundTrip(b[0]);
      EncodeRecordsInjective(a[1..], b[1..]);
      assert a == [a[0]] + a[1..] && b == [b[0]] + b[1..];
    }
  }

  /** Different contents have different encodings. */
  lemma EncodeInjective(s: Contents, t: Contents)
    requires Encode(s) == Encode(t)
    ensures s == t
  {
    var bs := Encode(s);
    assert bs[..HEADER_LENGTH] == EncodeHeader(s.header) && bs[..HEADER_LENGTH] == EncodeHeader(t.header);
    assert bs[HEADER_LENGTH..] == EncodeRecords(s.records) && bs[HEADER_LENGTH..] == EncodeRecords(t.records);
    HeaderRoundTrip(s.header);
    HeaderRoundTrip(t.header);
    EncodeRecordsInjective(s.records, t.records);
  }

  /** The encoding of well-formed contents is accepted. */
  lemma EncodingAccepted(s: Contents)
    requires WellFormed(s)
    ensures Accepts(Encode(s))
  {
    HeaderRoundTrip(s.header);
    HeaderPrefix(EncodeHeader(s.header), EncodeRecords(s.records));
  }

  /** Contents survive a round trip through the object store; an empty record section does not. */
  method StoreAndLoad(s: Contents) returns (r: Result<Contents, Error>)
    requires s.header.magic == MAGIC && s.header.length == RECORD_LENGTH * |s.records|
    ensures s.records != [] ==> r == Ok(s)
    ensures s.records == [] ==> r == Err(InvalidLength)
  {
    var bs := Encode(s);
    if s.records != [] {
      EncodingAccepted(s);
    } else {
      HeaderRoundTrip(s.header);
      assert bs == EncodeHeader(s.header);
      assert HeaderOf(bs) == s.header;
    }
    r := TryFrom(bs);
    if r.Ok? {
      EncodeInjective(r.value, s);
    }
  }
}
