/**
 * The gzip container (src/Gzip.cpp) around raw deflate data.  Deflate, inflate and CRC-32 are
 * parameters.  The header skipper of `Decompress` is proved to accept exactly the byte strings with
 * the member layout of section 2.3 of RFC 1952, and to let four of that section's demands pass
 * unchecked; which accepted strings do meet them is stated exactly.
 */
module Gzip {
  import opened Wrappers

  type Byte = bv8
  type Bytes = seq<Byte>

  /** The compression library: deflate may fail to allocate, inflate may meet corrupt data. */
  datatype Codec = Codec(
    deflate: Bytes -> Option<Bytes>,
    inflate: Bytes -> Option<Bytes>,
    crc32: Bytes -> bv32)

  /** The library undoes its own compression of `data`. */
  predicate Lossless(codec: Codec, data: Bytes) {
    codec.deflate(data).Some? ==> codec.inflate(codec.deflate(data).value) == Some(data)
  }

  const HEADER_SIZE: nat := 10
  const TRAILER_SIZE: nat := 8

  const FHCRC: Byte := 0x02
  const FEXTRA: Byte := 0x04
  const FNAME: Byte := 0x08
  const FCOMMENT: Byte := 0x10

  // ----- little-endian words -----

  function LowByte(v: bv32): Byte {
    (v & 0xFF) as bv8
  }

  function SecondByte(v: bv32): Byte {
    ((v >> 8) & 0xFF) as bv8
  }

  function ThirdByte(v: bv32): Byte {
    ((v >> 16) & 0xFF) as bv8
  }

  function HighByte(v: bv32): Byte {
    ((v >> 24) & 0xFF) as bv8
  }

  function LE32(v: bv32): (r: Bytes)
    ensures |r| == 4
  {
    [LowByte(v), SecondByte(v), ThirdByte(v), HighByte(v)]
  }

  function Joined(a: Byte, b: Byte, c: Byte, d: Byte): bv32 {
    (a as bv32) | ((b as bv32) << 8) | ((c as bv32) << 16) | ((d as bv32) << 24)
  }

  function ReadLE32(p: Bytes): bv32
    requires |p| >= 4
  {
    Joined(p[0], p[1], p[2], p[3])
  }

  lemma JoinedBytes(v: bv32)
    ensures Joined(LowByte(v), SecondByte(v), ThirdByte(v), HighByte(v)) == v
  {
    assert ((v & 0xFF) as bv8) as bv32 == v & 0xFF;
    assert (((v >> 8) & 0xFF) as bv8) as bv32 == (v >> 8) & 0xFF;
    assert (((v >> 16) & 0xFF) as bv8) as bv32 == (v >> 16) & 0xFF;
    assert (((v >> 24) & 0xFF) as bv8) as bv32 == (v >> 24) & 0xFF;
  }

  lemma BytesOfJoined(a: Byte, b: Byte, c: Byte, d: Byte)
    ensures var v := Joined(a, b, c, d);
            LowByte(v) == a && SecondByte(v) == b && ThirdByte(v) == c && HighByte(v) == d
  {
  }

  lemma ReadUndoesPut(v: bv32)
    ensures ReadLE32(LE32(v)) == v
  {
    hide LowByte, SecondByte, ThirdByte, HighByte, Joined;
    JoinedBytes(v);
  }

  lemma PutUndoesRead(p: Bytes)
    requires |p| == 4
    ensures LE32(ReadLE32(p)) == p
  {
    hide LowByte, SecondByte, ThirdByte, HighByte, Joined;
    BytesOfJoined(p[0], p[1], p[2], p[3]);
  }

  // ----- members, as section 2.3 of RFC 1952 lays them out -----

  /** FEXTRA: a 16-bit length, low byte first, and that many bytes. */
  datatype Extra = Extra(lenLow: Byte, lenHigh: Byte, data: Bytes)

  datatype Member = Member(
    flags: Byte,
    other: Bytes,                   // MTIME, XFL and OS
    extra: Option<Extra>,
    name: Option<Bytes>,
    comment: Option<Bytes>,
    headerCrc: Option<Bytes>,
    payload: Bytes,
    crc: Bytes,                     // CRC32 and ISIZE, low byte first
    size: Bytes)

  predicate IsZeroFree(s: Bytes) {
    forall i :: 0 <= i < |s| ==> s[i] != 0
  }

  function XLen(low: Byte, high: Byte): nat {
    low as nat + 256 * (high as nat)
  }

  lemma XLenIs(low: Byte, high: Byte)
    ensures XLen(low, high) == low as nat + 256 * (high as nat)
  {
  }

  /** The flag byte announces exactly the optional fields that are present. */
  predicate IsMember(m: Member) {
    |m.other| == 6 && |m.crc| == 4 && |m.size| == 4 &&
    (m.extra.Some? <==> m.flags & 0x04 != 0) &&
    (m.name.Some? <==> m.flags & 0x08 != 0) &&
    (m.comment.Some? <==> m.flags & 0x10 != 0) &&
    (m.headerCrc.Some? <==> m.flags & 0x02 != 0) &&
    (m.extra.Some? ==> |m.extra.value.data| == m.extra.value.lenLow as nat + 256 * (m.extra.value.lenHigh as nat)) &&
    (m.name.Some? ==> IsZeroFree(m.name.value)) &&
    (m.comment.Some? ==> IsZeroFree(m.comment.value)) &&
    (m.headerCrc.Some? ==> |m.headerCrc.value| == 2)
  }

  function PrintExtra(e: Option<Extra>): Bytes {
    if e.Some? then [e.value.lenLow, e.value.lenHigh] + e.value.data else []
  }

  function PrintString(s: Option<Bytes>): Bytes {
    if s.Some? then s.value + [0] else []
  }

  function PrintHeaderCrc(h: Option<Bytes>): Bytes {
    if h.Some? then h.value else []
  }

  function PrintFixed(m: Member): Bytes {
    [0x1F, 0x8B, 0x08, m.flags] + m.other
  }

  function PrintHeader(m: Member): Bytes {
    PrintFixed(m) + (PrintExtra(m.extra) + (PrintString(m.name)
    + (PrintString(m.comment) + PrintHeaderCrc(m.headerCrc))))
  }

  function Print(m: Member): Bytes {
    PrintHeader(m) + m.payload + m.crc + m.size
  }

  // ----- the header skipper -----

  /** One past the first zero byte at or after `pos`, or past the end when there is none. */
  function SkipString(s: Bytes, pos: nat): (end: nat)
    ensures end > pos
    decreases |s| - pos
  {
    if pos < |s| && s[pos] != 0 then SkipString(s, pos + 1) else pos + 1
  }

  predicate Announces(s: Bytes, field: Byte)
    requires |s| >= HEADER_SIZE
  {
    s[3] & field != 0
  }

  function AfterExtra(s: Bytes): nat
    requires |s| >= HEADER_SIZE + 2
  {
    if Announces(s, FEXTRA) then HEADER_SIZE + 2 + XLen(s[10], s[11]) else HEADER_SIZE
  }

  function AfterString(s: Bytes, field: Byte, pos: nat): nat
    requires |s| >= HEADER_SIZE
  {
    if Announces(s, field) then SkipString(s, pos) else pos
  }

  function AfterHeaderCrc(s: Bytes, pos: nat): nat
    requires |s| >= HEADER_SIZE
  {
    if Announces(s, FHCRC) then pos + 2 else pos
  }

  /** Where the deflate payload starts; None when the bytes are rejected as a container. */
  function PayloadStart(s: Bytes): Option<nat> {
    if |s| < HEADER_SIZE + TRAILER_SIZE then None
    else if s[0] != 0x1F || s[1] != 0x8B || s[2] != 0x08 then None
    else
      var p1 := AfterExtra(s);
      var p2 := AfterString(s, FNAME, p1);
      var p3 := AfterString(s, FCOMMENT, p2);
      var p4 := AfterHeaderCrc(s, p3);
      if p4 + TRAILER_SIZE > |s| then None else Some(p4)
  }

  function Payload(s: Bytes): Bytes
    requires PayloadStart(s).Some?
  {
    s[PayloadStart(s).value..|s| - TRAILER_SIZE]
  }

  /** The CRC word of the trailer. */
  function StoredCrc(s: Bytes): bv32
    requires |s| >= TRAILER_SIZE
  {
    ReadLE32(s[|s| - 8..])
  }

  lemma {:induction false} SkipStringFinds(s: Bytes, pos: nat, text: Bytes)
    requires IsZeroFree(text)
    requires pos + |text| < |s| && s[pos..pos + |text|] == text && s[pos + |text|] == 0
    ensures SkipString(s, pos) == pos + |text| + 1
    decreases |text|
  {
    if text != [] {
      assert s[pos] == text[0];
      assert s[pos + 1..pos + 1 + |text[1..]|] == text[1..] by {
        assert s[pos + 1..pos + |text|] == s[pos..pos + |text|][1..];
      }
      SkipStringFinds(s, pos + 1, text[1..]);
    }
  }

  lemma {:induction false} SkipStringStops(s: Bytes, pos: nat)
    requires SkipString(s, pos) <= |s|
    ensures var end := SkipString(s, pos);
            s[end - 1] == 0 && IsZeroFree(s[pos..end - 1])
    decreases |s| - pos
  {
    if pos < |s| && s[pos] != 0 {
      SkipStringStops(s, pos + 1);
      var end := SkipString(s, pos);
      assert s[pos..end - 1] == [s[pos]] + s[pos + 1..end - 1];
    }
  }

  // ----- the skipper against the printer -----

  lemma PrintedString(s: Bytes, field: Byte, pos: nat, text: Option<Bytes>, rest: Bytes)
    requires |s| >= HEADER_SIZE && (text.Some? <==> Announces(s, field))
    requires text.Some? ==> IsZeroFree(text.value)
    requires pos <= |s| && s[pos..] == PrintString(text) + rest
    ensures AfterString(s, field, pos) == pos + |PrintString(text)|
    ensures s[pos + |PrintString(text)|..] == rest
  {
    var t := PrintString(text);
    assert |s[pos..]| == |t| + |rest|;
    assert s[pos + |t|..] == s[pos..][|t|..];
    if text.Some? {
      assert s[pos..pos + |text.value|] == s[pos..][..|text.value|];
      assert s[pos + |text.value|] == s[pos..][|text.value|];
      SkipStringFinds(s, pos, text.value);
    }
  }

  lemma DropAppended(a: Bytes, b: Bytes)
    ensures (a + b)[|a|..] == b && (a + b)[..|a|] == a
  {
  }

  lemma PrintedExtra(s: Bytes, extra: Option<Extra>, rest: Bytes)
    requires extra.Some? ==> |extra.value.data| == XLen(extra.value.lenLow, extra.value.lenHigh)
    requires |s| >= HEADER_SIZE + 2 && (extra.Some? <==> Announces(s, FEXTRA))
    requires s[HEADER_SIZE..] == PrintExtra(extra) + rest
    ensures AfterExtra(s) == HEADER_SIZE + |PrintExtra(extra)|
    ensures s[HEADER_SIZE + |PrintExtra(extra)|..] == rest
  {
    var e := PrintExtra(extra);
    DropAppended(e, rest);
    assert s[HEADER_SIZE + |e|..] == s[HEADER_SIZE..][|e|..];
    if extra.Some? {
      assert s[10] == s[HEADER_SIZE..][0] == e[0];
      assert s[11] == s[HEADER_SIZE..][1] == e[1];
    }
  }

  lemma PrintedFixed(m: Member, rest: Bytes)
    requires |m.other| == 6
    ensures var s := PrintFixed(m) + rest;
            s[0] == 0x1F && s[1] == 0x8B && s[2] == 0x08 && s[3] == m.flags && s[HEADER_SIZE..] == rest
  {
    DropAppended(PrintFixed(m), rest);
  }

  /** The two optional strings and the header CRC, from the end of the extra field on. */
  lemma PrintedStrings(s: Bytes, m: Member, p1: nat, r3: Bytes, r4: Bytes, tail: Bytes)
    requires |s| >= HEADER_SIZE && s[3] == m.flags && IsMember(m)
    requires p1 <= |s| && s[p1..] == PrintString(m.name) + r3
    requires r3 == PrintString(m.comment) + r4
    requires r4 == PrintHeaderCrc(m.headerCrc) + tail
    ensures AfterHeaderCrc(s, AfterString(s, FCOMMENT, AfterString(s, FNAME, p1))) == |s| - |tail|
  {
    PrintedString(s, FNAME, p1, m.name, r3);
    PrintedString(s, FCOMMENT, p1 + |PrintString(m.name)|, m.comment, r4);
  }

  lemma Reassociate(a: Bytes, b: Bytes, c: Bytes, d: Bytes, e: Bytes, t: Bytes)
    ensures (a + (b + (c + (d + e)))) + t == a + (b + (c + (d + (e + t))))
  {
    assert (d + e) + t == d + (e + t);
    assert (c + (d + e)) + t == c + ((d + e) + t);
    assert (b + (c + (d + e))) + t == b + ((c + (d + e)) + t);
  }

  lemma PrintedFields(m: Member, tail: Bytes)
    requires IsMember(m) && |tail| >= TRAILER_SIZE
    ensures PayloadStart(PrintHeader(m) + tail) == Some(|PrintHeader(m)|)
  {
    hide AfterExtra, AfterString, AfterHeaderCrc, PrintExtra, PrintString, PrintHeaderCrc, IsZeroFree, XLen;
    var r4 := PrintHeaderCrc(m.headerCrc) + tail;
    var r3 := PrintString(m.comment) + r4;
    var r2 := PrintString(m.name) + r3;
    var r1 := PrintExtra(m.extra) + r2;
    var s := PrintHeader(m) + tail;
    Reassociate(PrintFixed(m), PrintExtra(m.extra), PrintString(m.name), PrintString(m.comment),
                PrintHeaderCrc(m.headerCrc), tail);
    PrintedFixed(m, r1);
    if m.extra.Some? { XLenIs(m.extra.value.lenLow, m.extra.value.lenHigh); }
    PrintedExtra(s, m.extra, r2);
    PrintedStrings(s, m, HEADER_SIZE + |PrintExtra(m.extra)|, r3, r4, tail);
  }

  /** The parts of a string put together from a header, a payload, a CRC and a size. */
  lemma PartsOfWhole(h: Bytes, payload: Bytes, crc: Bytes, size: Bytes)
    requires |crc| == 4 && |size| == 4
    ensures var s := h + payload + crc + size;
            s == h + (payload + (crc + size)) && s[|h|..|s| - 8] == payload && s[|s| - 8..][..4] == crc
  {
    var s := h + payload + crc + size;
    assert s[|h|..|s| - 8] == payload;
    assert s[|s| - 8..] == crc + size;
  }

  lemma ReadsFirstFour(p: Bytes)
    requires |p| >= 4
    ensures ReadLE32(p) == ReadLE32(p[..4])
  {
  }

  /** The skipper finds exactly the payload and the stored CRC of every printed member. */
  lemma SkipperReadsPrintedMember(m: Member)
    requires IsMember(m)
    ensures PayloadStart(Print(m)) == Some(|PrintHeader(m)|)
    ensures Payload(Print(m)) == m.payload
    ensures StoredCrc(Print(m)) == ReadLE32(m.crc)
  {
    hide PrintHeader, PayloadStart, ReadLE32;
    PrintedFields(m, m.payload + (m.crc + m.size));
    PartsOfWhole(PrintHeader(m), m.payload, m.crc, m.size);
    ReadsFirstFour(Print(m)[|Print(m)| - 8..]);
  }

  // ----- and back: whatever is accepted is a printed member -----

  function ParseExtra(s: Bytes): Option<Extra>
    requires |s| >= HEADER_SIZE + 2
  {
    if Announces(s, FEXTRA) && AfterExtra(s) <= |s|
    then Some(Extra(s[10], s[11], s[12..AfterExtra(s)])) else None
  }

  function ParseString(s: Bytes, field: Byte, pos: nat): Option<Bytes>
    requires |s| >= HEADER_SIZE
  {
    if Announces(s, field) && SkipString(s, pos) <= |s| then Some(s[pos..SkipString(s, pos) - 1]) else None
  }

  /** The member an accepted container spells out. */
  function Parse(s: Bytes): Member
    requires PayloadStart(s).Some?
  {
    var p1 := AfterExtra(s);
    var p2 := AfterString(s, FNAME, p1);
    var p3 := AfterString(s, FCOMMENT, p2);
    var p4 := PayloadStart(s).value;
    Member(s[3], s[4..10], ParseExtra(s), ParseString(s, FNAME, p1), ParseString(s, FCOMMENT, p2),
           if Announces(s, FHCRC) then Some(s[p3..p4]) else None,
           Payload(s), s[|s| - 8..|s| - 4], s[|s| - 4..])
  }

  lemma ParsedString(s: Bytes, field: Byte, pos: nat)
    requires |s| >= HEADER_SIZE && AfterString(s, field, pos) <= |s|
    ensures var t := ParseString(s, field, pos);
            (t.Some? <==> Announces(s, field)) && (t.Some? ==> IsZeroFree(t.value)) &&
            s[pos..AfterString(s, field, pos)] == PrintString(t)
  {
    if Announces(s, field) { SkipStringStops(s, pos); }
  }

  lemma ParsedExtra(s: Bytes)
    requires |s| >= HEADER_SIZE + 2 && AfterExtra(s) <= |s|
    ensures var e := ParseExtra(s);
            (e.Some? <==> Announces(s, FEXTRA)) &&
            (e.Some? ==> |e.value.data| == XLen(e.value.lenLow, e.value.lenHigh)) &&
            s[HEADER_SIZE..AfterExtra(s)] == PrintExtra(e)
  {
    hide XLen;
    if Announces(s, FEXTRA) {
      assert s[HEADER_SIZE..AfterExtra(s)] == s[10..12] + s[12..AfterExtra(s)];
    }
  }

  lemma Split(s: Bytes, i: nat, j: nat)
    requires i <= j <= |s|
    ensures s[i..] == s[i..j] + s[j..]
  {
  }

  lemma ParsedFields(s: Bytes)
    requires PayloadStart(s).Some?
    ensures IsMember(Parse(s))
    ensures PrintHeader(Parse(s)) + s[PayloadStart(s).value..] == s
  {
    hide SkipString, PrintExtra, PrintString, XLen, IsZeroFree, ParseExtra, ParseString;
    var m := Parse(s);
    var p1 := AfterExtra(s);
    var p2 := AfterString(s, FNAME, p1);
    var p3 := AfterString(s, FCOMMENT, p2);
    var p4 := PayloadStart(s).value;
    ParsedExtra(s);
    ParsedString(s, FNAME, p1);
    ParsedString(s, FCOMMENT, p2);
    if m.extra.Some? { XLenIs(m.extra.value.lenLow, m.extra.value.lenHigh); }
    assert PrintFixed(m) == s[..10];
    assert s[p3..p4] == PrintHeaderCrc(m.headerCrc);
    Split(s, p3, p4);
    Split(s, p2, p3);
    Split(s, p1, p2);
    Split(s, 10, p1);
    assert s == s[..10] + s[10..];
    Reassociate(PrintFixed(m), PrintExtra(m.extra), PrintString(m.name), PrintString(m.comment),
                PrintHeaderCrc(m.headerCrc), s[p4..]);
  }

  lemma SplitTail(s: Bytes, p: nat)
    requires p + TRAILER_SIZE <= |s|
    ensures s[p..] == s[p..|s| - TRAILER_SIZE] + (s[|s| - 8..|s| - 4] + s[|s| - 4..])
  {
  }

  lemma Associate(a: Bytes, b: Bytes, c: Bytes, d: Bytes)
    ensures a + (b + (c + d)) == a + b + c + d
  {
    assert (a + b) + (c + d) == a + (b + (c + d));
    assert (a + b + c) + d == (a + b) + (c + d);
  }

  /** Whatever the skipper accepts is the printed form of the member it reads. */
  lemma AcceptedIsPrinted(s: Bytes)
    requires PayloadStart(s).Some?
    ensures IsMember(Parse(s)) && Print(Parse(s)) == s
  {
    ParsedFields(s);
    var m := Parse(s);
    SplitTail(s, PayloadStart(s).value);
    Associate(PrintHeader(m), m.payload, m.crc, m.size);
  }

  /** The bytes are accepted as a container if and only if they have the layout of some member. */
  lemma AcceptsExactlyMembers(s: Bytes)
    ensures PayloadStart(s).Some? <==> exists m :: IsMember(m) && Print(m) == s
  {
    if PayloadStart(s).Some? {
      AcceptedIsPrinted(s);
    }
    forall m | IsMember(m) && Print(m) == s
      ensures PayloadStart(s).Some?
    {
      SkipperReadsPrintedMember(m);
    }
  }

  // ----- Compress and Decompress -----

  /** What `Decompress` returns: the inflated payload, if its CRC is the stored one. */
  function Unpack(codec: Codec, s: Bytes): Option<Bytes> {
    if PayloadStart(s).None? then None
    else
      var data := codec.inflate(Payload(s));
      if data.Some? && codec.crc32(data.value) == StoredCrc(s) then data else None
  }

  /** The member `Compress` writes: no optional field, no time stamp, unknown system. */
  function PlainMember(codec: Codec, data: Bytes, payload: Bytes): Member {
    Member(0x00, [0, 0, 0, 0, 0, 0xFF], None, None, None, None, payload,
           LE32(codec.crc32(data)), LE32((|data| % 0x1_0000_0000) as bv32))
  }

  method PutLE32(s: Bytes, v: bv32) returns (r: Bytes)
    ensures r == s + LE32(v)
  {
    r := s;
    r := r + [LowByte(v)];
    r := r + [SecondByte(v)];
    r := r + [ThirdByte(v)];
    r := r + [HighByte(v)];
  }

  /** `before` is what the caller's output string held; it stays when compression fails. */
  method Compress(codec: Codec, data: Bytes, before: Bytes) returns (ok: bool, out: Bytes)
    ensures ok <==> codec.deflate(data).Some?
    ensures ok ==> out == Print(PlainMember(codec, data, codec.deflate(data).value))
    ensures !ok ==> out == before
  {
    hide PrintHeader, LE32;
    out := before;
    var deflated := codec.deflate(data);
    if deflated.None? { return false, out; }
    out := [];
    out := out + [0x1F, 0x8B, 0x08, 0x00, 0x00, 0x00, 0x00, 0x00, 0x00, 0xFF];
    out := out + deflated.value;
    out := PutLE32(out, codec.crc32(data));
    out := PutLE32(out, (|data| % 0x1_0000_0000) as bv32);
    ok := true;
    PlainHeader(codec, data, deflated.value);
  }

  lemma PlainHeader(codec: Codec, data: Bytes, payload: Bytes)
    ensures PrintHeader(PlainMember(codec, data, payload))
            == [0x1F, 0x8B, 0x08, 0x00, 0x00, 0x00, 0x00, 0x00, 0x00, 0xFF]
  {
  }

  /** The checks and skips before the payload, with every index proved to be inside the bytes. */
  method SkipHeader(s: Bytes) returns (start: Option<nat>)
    ensures start == PayloadStart(s)
  {
    hide SkipString, Announces, XLen;
    if |s| < HEADER_SIZE + TRAILER_SIZE { return None; }
    if s[0] != 0x1F || s[1] != 0x8B || s[2] != 0x08 { return None; }
    var pos := HEADER_SIZE;
    if Announces(s, FEXTRA) {
      if pos + 2 > |s| { return None; }
      var xlen := XLen(s[pos], s[pos + 1]);
      pos := pos + 2 + xlen;
    }
    if Announces(s, FNAME) {
      pos := SkipZeroTerminated(s, pos);
    }
    if Announces(s, FCOMMENT) {
      pos := SkipZeroTerminated(s, pos);
    }
    if Announces(s, FHCRC) { pos := pos + 2; }
    if pos + TRAILER_SIZE > |s| { return None; }
    return Some(pos);
  }

  /** On a CRC mismatch the output string has already been overwritten. */
  method Decompress(codec: Codec, s: Bytes, before: Bytes) returns (ok: bool, out: Bytes)
    ensures ok <==> Unpack(codec, s).Some?
    ensures ok ==> out == Unpack(codec, s).value
    ensures !ok ==> out == if PayloadStart(s).Some? && codec.inflate(Payload(s)).Some?
                           then codec.inflate(Payload(s)).value else before
  {
    hide PayloadStart, ReadLE32;
    out := before;
    var start := SkipHeader(s);
    if start.None? { return false, out; }
    StartIsInside(s);
    var inflated := codec.inflate(s[start.value..|s| - TRAILER_SIZE]);
    if inflated.None? { return false, out; }
    out := inflated.value;
    var expected := ReadLE32(s[|s| - 8..]);
    ok := expected == codec.crc32(out);
  }

  lemma StartIsInside(s: Bytes)
    requires PayloadStart(s).Some?
    ensures PayloadStart(s).value + TRAILER_SIZE <= |s|
  {
  }

  method SkipZeroTerminated(s: Bytes, start: nat) returns (pos: nat)
    ensures pos == SkipString(s, start)
  {
    pos := start;
    while pos < |s| && s[pos] != 0
      invariant SkipString(s, pos) == SkipString(s, start)
      decreases |s| - pos
    {
      pos := pos + 1;
    }
    pos := pos + 1;
  }

  /**
   * For every member, with any combination of optional fields, `Decompress` hands exactly the
   * deflate payload to inflate and answers with its output when the CRC agrees.
   */
  lemma UnpacksEveryMember(codec: Codec, m: Member)
    requires IsMember(m)
    ensures Unpack(codec, Print(m)) ==
            var data := codec.inflate(m.payload);
            if data.Some? && codec.crc32(data.value) == ReadLE32(m.crc) then data else None
  {
    SkipperReadsPrintedMember(m);
  }

  lemma Flattened(f: Bytes, e: Bytes, n: Bytes, c: Bytes, h: Bytes)
    ensures f + (e + (n + (c + h))) == f + e + n + c + h
  {
    assert e + (n + (c + h)) == e + n + c + h;
  }

  /**
   * The layout of section 2.3, byte for byte: the fixed part, the optional fields that the flags 0x04,
   * 0x08, 0x10 and 0x02 announce, in that order, then the payload, the CRC and the size, each word low
   * byte first.  Any such string is unpacked to what its payload inflates to, if that has its CRC.
   */
  lemma UnpacksLaidOutBytes(codec: Codec, flags: Byte, other: Bytes, lenLow: Byte, lenHigh: Byte, extra: Bytes,
                            name: Bytes, comment: Bytes, headerCrc: Bytes, payload: Bytes, crc: Bytes, size: Bytes)
    requires |other| == 6 && |headerCrc| == 2 && |crc| == 4 && |size| == 4
    requires |extra| == lenLow as nat + 256 * (lenHigh as nat)
    requires forall i :: 0 <= i < |name| ==> name[i] != 0
    requires forall i :: 0 <= i < |comment| ==> comment[i] != 0
    ensures var s := [0x1F, 0x8B, 0x08, flags] + other
                     + (if flags & 0x04 != 0 then [lenLow, lenHigh] + extra else [])
                     + (if flags & 0x08 != 0 then name + [0] else [])
                     + (if flags & 0x10 != 0 then comment + [0] else [])
                     + (if flags & 0x02 != 0 then headerCrc else [])
                     + payload + crc + size;
            var data := codec.inflate(payload);
            Unpack(codec, s) ==
            if data.Some? && codec.crc32(data.value) == (crc[0] as bv32) | ((crc[1] as bv32) << 8)
                                                        | ((crc[2] as bv32) << 16) | ((crc[3] as bv32) << 24)
            then data else None
  {
    hide Unpack;
    var m := Member(flags, other, if flags & 0x04 != 0 then Some(Extra(lenLow, lenHigh, extra)) else None,
                    if flags & 0x08 != 0 then Some(name) else None, if flags & 0x10 != 0 then Some(comment) else None,
                    if flags & 0x02 != 0 then Some(headerCrc) else None, payload, crc, size);
    Flattened(PrintFixed(m), PrintExtra(m.extra), PrintString(m.name), PrintString(m.comment),
              PrintHeaderCrc(m.headerCrc));
    UnpacksEveryMember(codec, m);
  }

  /** What the writer emits, byte for byte. */
  lemma PlainBytes(codec: Codec, data: Bytes, payload: Bytes)
    ensures var c, n := codec.crc32(data), (|data| % 0x1_0000_0000) as bv32;
            Print(PlainMember(codec, data, payload)) ==
            [0x1F, 0x8B, 0x08, 0, 0, 0, 0, 0, 0, 0xFF] + payload
            + [(c & 0xFF) as bv8, ((c >> 8) & 0xFF) as bv8, ((c >> 16) & 0xFF) as bv8, ((c >> 24) & 0xFF) as bv8]
            + [(n & 0xFF) as bv8, ((n >> 8) & 0xFF) as bv8, ((n >> 16) & 0xFF) as bv8, ((n >> 24) & 0xFF) as bv8]
  {
    var m := PlainMember(codec, data, payload);
    assert PrintHeader(m) == [0x1F, 0x8B, 0x08, 0, 0, 0, 0, 0, 0, 0xFF];
  }

  /** Decompress undoes Compress. */
  lemma UnpackUndoesCompress(codec: Codec, data: Bytes)
    requires codec.deflate(data).Some? && Lossless(codec, data)
    ensures Unpack(codec, Print(PlainMember(codec, data, codec.deflate(data).value))) == Some(data)
  {
    var m := PlainMember(codec, data, codec.deflate(data).value);
    assert IsMember(m);
    UnpacksEveryMember(codec, m);
    ReadUndoesPut(codec.crc32(data));
  }

  /** Only the payload and its CRC have a say: not the size, nor the reserved flags, nor any other field. */
  lemma OnlyPayloadAndCrcCount(codec: Codec, m: Member, n: Member)
    requires IsMember(m) && IsMember(n) && m.payload == n.payload && m.crc == n.crc
    ensures Unpack(codec, Print(m)) == Unpack(codec, Print(n))
  {
    hide IsMember, Print, Unpack;
    UnpacksEveryMember(codec, m);
    UnpacksEveryMember(codec, n);
  }

  // ----- what the standard asks beyond the layout -----

  /** Bits 5 to 7 of the flag byte, which must be zero. */
  const RESERVED: Byte := 0xE0

  /** The extra field is a series of subfields: two identifying bytes, a length, and that much data. */
  predicate AreSubfields(data: Bytes) {
    data == [] ||
    (|data| >= 4 && 4 + XLen(data[2], data[3]) <= |data| && AreSubfields(data[4 + XLen(data[2], data[3])..]))
  }

  datatype Subfield = Subfield(id1: Byte, id2: Byte, lenLow: Byte, lenHigh: Byte, data: Bytes)

  predicate IsSubfield(f: Subfield) {
    |f.data| == f.lenLow as nat + 256 * (f.lenHigh as nat)
  }

  function PrintSubfields(fields: seq<Subfield>): Bytes {
    if fields == [] then []
    else
      var f := fields[0];
      [f.id1, f.id2, f.lenLow, f.lenHigh] + f.data + PrintSubfields(fields[1..])
  }

  lemma {:induction false} PrintedAreSubfields(fields: seq<Subfield>)
    requires forall i :: 0 <= i < |fields| ==> IsSubfield(fields[i])
    ensures AreSubfields(PrintSubfields(fields))
  {
    if fields != [] {
      var f, rest := fields[0], PrintSubfields(fields[1..]);
      var data := PrintSubfields(fields);
      assert data == ([f.id1, f.id2, f.lenLow, f.lenHigh] + f.data) + rest;
      DropAppended([f.id1, f.id2, f.lenLow, f.lenHigh] + f.data, rest);
      PrintedAreSubfields(fields[1..]);
    }
  }

  lemma FirstSubfield(data: Bytes, n: nat)
    requires |data| >= 4 + n
    ensures data == [data[0], data[1], data[2], data[3]] + data[4..4 + n] + data[4 + n..]
  {
  }

  lemma {:induction false} SubfieldsArePrinted(data: Bytes) returns (fields: seq<Subfield>)
    requires AreSubfields(data)
    ensures (forall i :: 0 <= i < |fields| ==> IsSubfield(fields[i])) && PrintSubfields(fields) == data
  {
    hide XLen;
    if data == [] { return []; }
    XLenIs(data[2], data[3]);
    var n := XLen(data[2], data[3]);
    var rest := SubfieldsArePrinted(data[4 + n..]);
    fields := [Subfield(data[0], data[1], data[2], data[3], data[4..4 + n])] + rest;
    assert fields[1..] == rest;
    FirstSubfield(data, n);
  }

  /** Walking the data by the lengths found in it is the same as being printed from subfields. */
  lemma AreSubfieldsIff(data: Bytes)
    ensures AreSubfields(data) <==>
            exists fields :: (forall i :: 0 <= i < |fields| ==> IsSubfield(fields[i])) && PrintSubfields(fields) == data
  {
    if AreSubfields(data) {
      var fields := SubfieldsArePrinted(data);
    }
    forall fields | (forall i :: 0 <= i < |fields| ==> IsSubfield(fields[i])) && PrintSubfields(fields) == data
      ensures AreSubfields(data)
    {
      PrintedAreSubfields(fields);
    }
  }

  /** The size word of data of this length. */
  function SizeWord(data: Bytes): Bytes {
    LE32((|data| % 0x1_0000_0000) as bv32)
  }

  /** The header CRC of these header bytes: the low half of their CRC-32. */
  function HeaderWord(codec: Codec, header: Bytes): Bytes {
    LE32(codec.crc32(header))[..2]
  }

  /** The header up to and not including its own CRC. */
  function CheckedHeader(m: Member): Bytes {
    PrintFixed(m) + (PrintExtra(m.extra) + (PrintString(m.name) + PrintString(m.comment)))
  }

  lemma HeaderWordIs(codec: Codec, header: Bytes)
    ensures var h := codec.crc32(header);
            HeaderWord(codec, header) == [(h & 0xFF) as bv8, ((h >> 8) & 0xFF) as bv8]
  {
  }

  lemma ReservedIff(flags: Byte)
    ensures flags & RESERVED == 0 <==> flags < 0x20
  {
  }

  /** A member as the standard defines it, relative to the compression library. */
  predicate IsRfcMember(codec: Codec, m: Member) {
    IsMember(m) && m.flags < 0x20 &&
    (m.extra.Some? ==> AreSubfields(m.extra.value.data)) &&
    (m.headerCrc.Some? ==>
       var h := codec.crc32(CheckedHeader(m));
       m.headerCrc.value == [(h & 0xFF) as bv8, ((h >> 8) & 0xFF) as bv8]) &&
    codec.inflate(m.payload).Some? &&
    var data := codec.inflate(m.payload).value;
    m.crc == LE32(codec.crc32(data)) && m.size == SizeWord(data)
  }

  /** Every member of the standard is unpacked to its data. */
  lemma UnpacksEveryRfcMember(codec: Codec, m: Member)
    requires IsRfcMember(codec, m)
    ensures Unpack(codec, Print(m)) == codec.inflate(m.payload) && codec.inflate(m.payload).Some?
  {
    hide IsMember, Print, Unpack, AreSubfields, CheckedHeader, LE32, ReadLE32;
    UnpacksEveryMember(codec, m);
    ReadUndoesPut(codec.crc32(codec.inflate(m.payload).value));
  }

  /** What an accepted string has to meet besides, read off its bytes: none of it is checked. */
  predicate IsStrict(codec: Codec, s: Bytes, data: Bytes)
    requires PayloadStart(s).Some?
  {
    var p := PayloadStart(s).value;
    s[3] & RESERVED == 0 && s[|s| - 4..] == SizeWord(data) &&
    (Announces(s, FEXTRA) ==> AreSubfields(s[12..AfterExtra(s)])) &&
    (Announces(s, FHCRC) ==> s[p - 2..p] == HeaderWord(codec, s[..p - 2]))
  }

  lemma HeaderEnds(m: Member)
    ensures PrintHeader(m) == CheckedHeader(m) + PrintHeaderCrc(m.headerCrc)
  {
    var e, n, c, h := PrintExtra(m.extra), PrintString(m.name), PrintString(m.comment), PrintHeaderCrc(m.headerCrc);
    assert (n + c) + h == n + (c + h);
    assert (e + (n + c)) + h == e + ((n + c) + h);
    assert (PrintFixed(m) + (e + (n + c))) + h == PrintFixed(m) + ((e + (n + c)) + h);
  }

  /** Where the parts of a printed member are found in its bytes. */
  lemma PrintedParts(m: Member)
    requires IsMember(m)
    ensures var s, h := Print(m), |PrintHeader(m)|;
            PayloadStart(s) == Some(h) && s[3] == m.flags && s[|s| - 4..] == m.size &&
            (m.headerCrc.Some? ==> h >= 2 && s[h - 2..h] == m.headerCrc.value && s[..h - 2] == CheckedHeader(m))
  {
    hide PayloadStart, Payload, StoredCrc, PrintExtra, PrintString, IsZeroFree, XLen;
    var s, h := Print(m), PrintHeader(m);
    SkipperReadsPrintedMember(m);
    HeaderEnds(m);
    assert s == h + (m.payload + m.crc + m.size);
    assert s[..|h|] == h;
    if m.headerCrc.Some? {
      var c := CheckedHeader(m);
      assert h[..|c|] == c && h[|c|..] == m.headerCrc.value;
      assert s[|c|..|h|] == s[..|h|][|c|..] && s[..|c|] == s[..|h|][..|c|];
    }
  }

  lemma InnerSlice(s: Bytes, i: nat, e: Bytes, rest: Bytes)
    requires i <= |s| && s[i..] == e + rest && |e| >= 2
    ensures i + |e| <= |s| && s[i + 2..i + |e|] == e[2..]
  {
    assert |s[i..]| == |e| + |rest|;
    assert s[i + 2..i + |e|] == s[i..][2..|e|];
  }

  lemma TailOfPrint(m: Member)
    ensures Print(m) == PrintFixed(m) + (PrintExtra(m.extra) + (PrintString(m.name) + (PrintString(m.comment)
                        + (PrintHeaderCrc(m.headerCrc) + (m.payload + m.crc + m.size)))))
  {
    Reassociate(PrintFixed(m), PrintExtra(m.extra), PrintString(m.name), PrintString(m.comment),
                PrintHeaderCrc(m.headerCrc), m.payload + m.crc + m.size);
    assert PrintHeader(m) + (m.payload + m.crc + m.size) == PrintHeader(m) + m.payload + m.crc + m.size;
  }

  lemma ExtraIsAnnounced(m: Member)
    requires IsMember(m) && m.extra.Some?
    ensures |Print(m)| >= HEADER_SIZE + 2 && Announces(Print(m), FEXTRA)
    ensures |m.other| == 6 && |m.extra.value.data| == XLen(m.extra.value.lenLow, m.extra.value.lenHigh)
  {
    hide Print, PayloadStart, CheckedHeader;
    PrintedParts(m);
    TailOfPrint(m);
    XLenIs(m.extra.value.lenLow, m.extra.value.lenHigh);
  }

  lemma PrintedExtraData(m: Member)
    requires IsMember(m) && m.extra.Some?
    ensures |Print(m)| >= HEADER_SIZE + 2
    ensures AfterExtra(Print(m)) <= |Print(m)| && Print(m)[12..AfterExtra(Print(m))] == m.extra.value.data
  {
    hide Print, PrintString, PrintHeaderCrc, IsMember, AfterExtra, XLen, Announces;
    ExtraIsAnnounced(m);
    var s, e := Print(m), PrintExtra(m.extra);
    var rest := PrintString(m.name)
      + (PrintString(m.comment) + (PrintHeaderCrc(m.headerCrc) + (m.payload + m.crc + m.size)));
    TailOfPrint(m);
    PrintedFixed(m, e + rest);
    PrintedExtra(s, m.extra, rest);
    InnerSlice(s, HEADER_SIZE, e, rest);
    assert e[2..] == m.extra.value.data;
  }

  /** Exactly which of the strings that unpack are members of the standard. */
  lemma ConformsIff(codec: Codec, s: Bytes)
    requires Unpack(codec, s).Some?
    ensures (exists m :: IsRfcMember(codec, m) && Print(m) == s) <==> IsStrict(codec, s, Unpack(codec, s).value)
  {
    hide AreSubfields, LE32, ReadLE32;
    var data := Unpack(codec, s).value;
    if IsStrict(codec, s, data) {
      ParsedIsRfcMember(codec, s);
      AcceptedIsPrinted(s);
    }
    forall m | IsRfcMember(codec, m) && Print(m) == s
      ensures IsStrict(codec, s, data)
    {
      RfcMemberIsStrict(codec, m);
    }
  }

  lemma RfcMemberIsStrict(codec: Codec, m: Member)
    requires IsRfcMember(codec, m)
    ensures Unpack(codec, Print(m)).Some? && IsStrict(codec, Print(m), Unpack(codec, Print(m)).value)
  {
    hide Print, PrintHeader, CheckedHeader, AreSubfields, LE32, ReadLE32, PayloadStart, Unpack, AfterExtra, HeaderWord;
    UnpacksEveryRfcMember(codec, m);
    PrintedParts(m);
    ReservedIff(m.flags);
    HeaderWordIs(codec, CheckedHeader(m));
    if m.extra.Some? { PrintedExtraData(m); }
  }

  lemma ParsedIsRfcMember(codec: Codec, s: Bytes)
    requires Unpack(codec, s).Some? && IsStrict(codec, s, Unpack(codec, s).value)
    ensures IsRfcMember(codec, Parse(s))
  {
    hide Print, PrintHeader, CheckedHeader, AreSubfields, LE32, ReadLE32, SkipString, HeaderWord;
    var m := Parse(s);
    AcceptedIsPrinted(s);
    PrintedParts(m);
    ReservedIff(m.flags);
    HeaderWordIs(codec, CheckedHeader(m));
    SkipperReadsPrintedMember(m);
    PutUndoesRead(m.crc);
  }

  /** What `Compress` writes meets the standard in full. */
  lemma CompressConforms(codec: Codec, data: Bytes)
    requires codec.deflate(data).Some? && Lossless(codec, data)
    ensures IsRfcMember(codec, PlainMember(codec, data, codec.deflate(data).value))
  {
  }

  /** A reserved flag makes a string the standard rejects and `Decompress` unpacks all the same. */
  lemma ReservedFlagIsAccepted(codec: Codec, data: Bytes)
    requires codec.deflate(data).Some? && Lossless(codec, data)
    ensures var s := Print(PlainMember(codec, data, codec.deflate(data).value).(flags := 0x20));
            Unpack(codec, s) == Some(data) && !exists m :: IsRfcMember(codec, m) && Print(m) == s
  {
    hide Print, Unpack, LE32, ReadLE32, IsRfcMember;
    var plain := PlainMember(codec, data, codec.deflate(data).value);
    var odd := plain.(flags := 0x20);
    assert IsMember(plain) && IsMember(odd);
    UnpackUndoesCompress(codec, data);
    OnlyPayloadAndCrcCount(codec, plain, odd);
    PrintedParts(odd);
    ConformsIff(codec, Print(odd));
  }
}
