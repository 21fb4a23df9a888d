/** Protocol frames (src/protocol.cpp:128-251): a fixed header, a payload, and a checksum over both. */
module Frames {
  import opened Prelude
  import opened Bytes
  import opened Codec

  const HEADER_SIZE := 36
  const HEADER_FIELDS := 32
  const PROTOCOL_VERSION := 1
  const LAST_TYPE := 26

  datatype View = View(kind: nat, correlation: U64, epoch: U64, payload: seq<Byte>)

  predicate KnownType(kind: nat) { 1 <= kind <= LAST_TYPE }

  /** The header after the length field, up to the checksum. */
  function Prefix(v: View): seq<Byte> {
    Little(PROTOCOL_VERSION, 4) + Little(v.kind, 2) + Little(0, 2) + Little(v.correlation, 8) + Little(v.epoch, 8)
    + Little(Wrap32(|v.payload|), 4)
  }

  /** The low half of the hash of everything but the length and the checksum itself. */
  function Checksum(v: View): U32 {
    FnvContinue(Fnv(Prefix(v)), v.payload) % TWO_32
  }

  function Assemble(v: View): seq<Byte> {
    Little(Wrap32(HEADER_FIELDS + |v.payload|), 4) + Prefix(v) + Little(Checksum(v), 4) + v.payload
  }

  /** encode_frame. */
  function EncodeFrame(v: View): Option<seq<Byte>> {
    if |v.payload| + HEADER_SIZE > TWO_32 - 1 then None else Some(Assemble(v))
  }

  function ViewOf(frame: seq<Byte>): View
    requires |frame| >= HEADER_SIZE
  {
    View(NumberAt(frame, 8, 2), Wrap64(NumberAt(frame, 12, 8)), Wrap64(NumberAt(frame, 20, 8)), frame[HEADER_SIZE..])
  }

  /** decode_frame: the checks in the source's order; the sum with the length wraps at 32 bits. */
  function DecodeFrame(frame: seq<Byte>, maxFrame: U32): Option<View> {
    if |frame| < HEADER_SIZE then None
    else
      var length := NumberAt(frame, 0, 4);
      if length != |frame| - 4 then None
      else if Wrap32(length + 4) > maxFrame then None
      else if NumberAt(frame, 4, 4) != PROTOCOL_VERSION then None
      else if !KnownType(NumberAt(frame, 8, 2)) then None
      else if NumberAt(frame, 10, 2) != 0 then None
      else if NumberAt(frame, 28, 4) != Wrap32(length - HEADER_FIELDS) then None
      else if NumberAt(frame, 32, 4) != FnvContinue(Fnv(frame[4..32]), frame[36..]) % TWO_32 then None
      else Some(ViewOf(frame))
  }

  // ---------------------------------------------------------------- layout

  lemma PrefixLength(v: View)
    ensures |Prefix(v)| == 28 && |Assemble(v)| == HEADER_SIZE + |v.payload|
  {
    hide Little;
    LittleLength(PROTOCOL_VERSION, 4);
    LittleLength(v.kind, 2);
    LittleLength(0, 2);
    LittleLength(v.correlation, 8);
    LittleLength(v.epoch, 8);
    LittleLength(Wrap32(|v.payload|), 4);
    LittleLength(Wrap32(HEADER_FIELDS + |v.payload|), 4);
    LittleLength(Checksum(v), 4);
  }

  /** The parts of a frame. */
  lemma FrameParts(v: View)
    ensures var f := Assemble(v);
            && |f| == HEADER_SIZE + |v.payload|
            && f[0..4] == Little(Wrap32(HEADER_FIELDS + |v.payload|), 4) && f[4..32] == Prefix(v)
            && f[32..36] == Little(Checksum(v), 4) && f[36..] == v.payload
  {
    hide Little, Prefix, Checksum;
    PrefixLength(v);
    LittleLength(Wrap32(HEADER_FIELDS + |v.payload|), 4);
    LittleLength(Checksum(v), 4);
  }

  lemma PrefixParts(v: View)
    ensures var p := Prefix(v);
            && |p| == 28 && p[0..4] == Little(PROTOCOL_VERSION, 4) && p[4..6] == Little(v.kind, 2)
            && p[6..8] == Little(0, 2) && p[8..16] == Little(v.correlation, 8) && p[16..24] == Little(v.epoch, 8)
            && p[24..28] == Little(Wrap32(|v.payload|), 4)
  {
    hide Little;
    PrefixLength(v);
    LittleLength(PROTOCOL_VERSION, 4);
    LittleLength(v.kind, 2);
    LittleLength(0, 2);
    LittleLength(v.correlation, 8);
    LittleLength(v.epoch, 8);
    LittleLength(Wrap32(|v.payload|), 4);
  }

  /** A field of the header, by its place in the frame. */
  lemma FieldAt(frame: seq<Byte>, at: nat, width: nat)
    requires 4 <= at && at + width <= 32 <= |frame|
    ensures frame[4..32][at - 4..at - 4 + width] == frame[at..at + width]
  {
    var header := frame[4..32];
    var a, b := header[at - 4..at - 4 + width], frame[at..at + width];
    forall k | 0 <= k < width ensures a[k] == b[k] {
      assert header[at - 4 + k] == frame[at + k];
    }
  }

  /** The fields a reader sees in an assembled frame. */
  lemma AssembledFields(v: View)
    requires v.kind < 0x1_0000 && |v.payload| + HEADER_FIELDS < TWO_32
    ensures var f := Assemble(v);
            && |f| == HEADER_SIZE + |v.payload| && f[4..32] == Prefix(v) && f[36..] == v.payload
            && NumberAt(f, 0, 4) == HEADER_FIELDS + |v.payload| && NumberAt(f, 4, 4) == PROTOCOL_VERSION
            && NumberAt(f, 8, 2) == v.kind && NumberAt(f, 10, 2) == 0 && NumberAt(f, 12, 8) == v.correlation
            && NumberAt(f, 20, 8) == v.epoch && NumberAt(f, 28, 4) == |v.payload|
            && NumberAt(f, 32, 4) == Checksum(v)
  {
    hide Little, FromLittle, Prefix, Checksum, Pow256, Assemble;
    var f := Assemble(v);
    Pow256Values();
    FrameParts(v);
    PrefixParts(v);
    LittleRoundTrip(HEADER_FIELDS + |v.payload|, 4);
    LittleRoundTrip(PROTOCOL_VERSION, 4);
    LittleRoundTrip(v.kind, 2);
    LittleRoundTrip(0, 2);
    LittleRoundTrip(v.correlation, 8);
    LittleRoundTrip(v.epoch, 8);
    LittleRoundTrip(|v.payload|, 4);
    LittleRoundTrip(Checksum(v), 4);
    FieldAt(f, 4, 4);
    FieldAt(f, 8, 2);
    FieldAt(f, 10, 2);
    FieldAt(f, 12, 8);
    FieldAt(f, 20, 8);
    FieldAt(f, 28, 4);
  }

  // ---------------------------------------------------------------- decoding is exactly assembling

  /** A frame of a known type is decoded to its view if and only if its length, wrapped to 32 bits, is
      within the bound. */
  lemma AssembledDecodes(v: View, maxFrame: U32)
    requires KnownType(v.kind) && |v.payload| + HEADER_FIELDS < TWO_32
    ensures DecodeFrame(Assemble(v), maxFrame)
         == if Wrap32(|v.payload| + HEADER_SIZE) <= maxFrame then Some(v) else None
  {
    hide Little, FromLittle, Prefix, Assemble, FnvContinue, Fnv, NumberAt;
    AssembledFields(v);
  }

  /** Every accepted frame is the assembly of the view it is decoded to. */
  lemma DecodedIsAssembled(frame: seq<Byte>, maxFrame: U32)
    requires DecodeFrame(frame, maxFrame).Some?
    ensures var v := ViewOf(frame);
            DecodeFrame(frame, maxFrame) == Some(v) && Assemble(v) == frame && KnownType(v.kind)
            && |v.payload| + HEADER_FIELDS < TWO_32 && Wrap32(|frame|) <= maxFrame
  {
    hide FnvContinue, Fnv, Pow256, Little, FromLittle, Prefix;
    var v := ViewOf(frame);
    Pow256Values();
    FrameNumbers(frame);
    assert v.payload == frame[36..];
    PrefixRebuilt(frame, v);
    assert frame == frame[0..4] + frame[4..32] + frame[32..36] + frame[36..];
  }

  /** Numbers and bytes of the header determine each other. */
  lemma FrameNumbers(frame: seq<Byte>)
    requires |frame| >= HEADER_SIZE
    ensures forall at, width :: 0 <= at && 0 <= width && at + width <= |frame| ==>
              Little(NumberAt(frame, at, width), width) == frame[at..at + width]
              && NumberAt(frame, at, width) < Pow256(width)
  {
    hide Little, FromLittle, Pow256;
    forall at: nat, width: nat | at + width <= |frame|
      ensures Little(NumberAt(frame, at, width), width) == frame[at..at + width]
              && NumberAt(frame, at, width) < Pow256(width)
    {
      FromLittleRoundTrip(frame[at..at + width]);
    }
  }

  lemma PrefixRebuilt(frame: seq<Byte>, v: View)
    requires |frame| >= HEADER_SIZE && v == ViewOf(frame)
    requires NumberAt(frame, 4, 4) == PROTOCOL_VERSION && NumberAt(frame, 10, 2) == 0
    requires NumberAt(frame, 28, 4) == Wrap32(|v.payload|)
    ensures Prefix(v) == frame[4..32]
    ensures NumberAt(frame, 0, 4) < TWO_32
  {
    hide Little, FromLittle, Pow256;
    Pow256Values();
    FrameNumbers(frame);
    assert Little(NumberAt(frame, 4, 4), 4) == frame[4..4 + 4];
    assert Little(NumberAt(frame, 8, 2), 2) == frame[8..8 + 2];
    assert Little(NumberAt(frame, 10, 2), 2) == frame[10..10 + 2];
    assert Little(NumberAt(frame, 12, 8), 8) == frame[12..12 + 8];
    assert Little(NumberAt(frame, 20, 8), 8) == frame[20..20 + 8];
    assert Little(NumberAt(frame, 28, 4), 4) == frame[28..28 + 4];
    assert frame[4..32] == frame[4..8] + frame[8..10] + frame[10..12] + frame[12..20] + frame[20..28] + frame[28..32];
  }

  /** Decoding gives a view exactly when assembling that view gives the same bytes; with every frame that
      the sender may encode, the bound is the size of the frame. */
  lemma DecodingIsExact(frame: seq<Byte>, maxFrame: U32, v: View)
    ensures DecodeFrame(frame, maxFrame) == Some(v) <==>
              1 <= v.kind <= 26 && |v.payload| + 32 < TWO_32 && Assemble(v) == frame && Wrap32(|frame|) <= maxFrame
    ensures |frame| < TWO_32 ==>
              (DecodeFrame(frame, maxFrame) == Some(v) <==>
                 1 <= v.kind <= 26 && EncodeFrame(v) == Some(frame) && |frame| <= maxFrame)
  {
    hide Assemble, DecodeFrame;
    if DecodeFrame(frame, maxFrame).Some? {
      DecodedIsAssembled(frame, maxFrame);
    }
    if KnownType(v.kind) && |v.payload| + HEADER_FIELDS < TWO_32 && Assemble(v) == frame {
      AssembledDecodes(v, maxFrame);
    }
    if |v.payload| + HEADER_FIELDS < TWO_32 || EncodeFrame(v) == Some(frame) {
      PrefixLength(v);
    }
  }

  /** The length check wraps: a frame of 2^32 bytes or a few more, which no sender can encode, passes a
      bound far below its size. */
  lemma OversizeIsAccepted(v: View, maxFrame: U32)
    requires KnownType(v.kind) && TWO_32 - HEADER_SIZE <= |v.payload| < TWO_32 - HEADER_FIELDS
    requires |v.payload| + HEADER_SIZE - TWO_32 <= maxFrame
    ensures EncodeFrame(v) == None && |Assemble(v)| > maxFrame && DecodeFrame(Assemble(v), maxFrame) == Some(v)
  {
    hide Assemble, DecodeFrame;
    AssembledDecodes(v, maxFrame);
    PrefixLength(v);
  }

  // ---------------------------------------------------------------- corruption

  /** The checksum of the bytes a reader hashes. */
  function HashedPart(frame: seq<Byte>): seq<Byte>
    requires |frame| >= HEADER_SIZE
  {
    frame[4..32] + frame[36..]
  }

  lemma ChecksumOfParts(frame: seq<Byte>)
    requires |frame| >= HEADER_SIZE
    ensures FnvContinue(Fnv(frame[4..32]), frame[36..]) == Fnv(HashedPart(frame))
  {
    hide FnvContinue;
    FnvJoin(FNV_OFFSET, frame[4..32], frame[36..]);
  }

  /** A change in the hashed part changes the checksum a reader computes, and leaves the stored one. */
  lemma HashedChange(frame: seq<Byte>, i: nat, b: Byte)
    requires i < |frame| && |frame| >= HEADER_SIZE && b != frame[i] && (4 <= i < 32 || 36 <= i)
    ensures Fnv(HashedPart(frame[i := b])) % TWO_32 != Fnv(HashedPart(frame)) % TWO_32
    ensures NumberAt(frame[i := b], 32, 4) == NumberAt(frame, 32, 4)
  {
    hide FnvContinue, FromLittle;
    var part := HashedPart(frame);
    var k := if i < 32 then i - 4 else i - 36 + 28;
    assert part[k] == frame[i];
    assert HashedPart(frame[i := b]) == part[k := b];
    FnvDetectsChange(FNV_OFFSET, part, k, b);
    assert frame[i := b][32..36] == frame[32..36];
  }

  /** Every single-byte change to any encoded frame is rejected. */
  lemma FrameDetectsChange(v: View, maxFrame: U32, i: nat, b: Byte)
    requires v.kind < 0x1_0000 && EncodeFrame(v).Some? && i < |Assemble(v)| && b != Assemble(v)[i]
    ensures DecodeFrame(Assemble(v)[i := b], maxFrame) == None
  {
    hide FnvContinue, FromLittle, Fnv, Assemble, HashedPart;
    var f := Assemble(v);
    var g := f[i := b];
    AssembledFields(v);
    ChecksumOfParts(f);
    ChecksumOfParts(g);
    if i < 4 {
      NumbersApart(f, g, i, 0, 4);
    } else if 32 <= i < 36 {
      NumbersApart(f, g, i, 32, 4);
      assert g[4..32] == f[4..32] && g[36..] == f[36..];
    } else {
      HashedChange(f, i, b);
    }
  }

  // ---------------------------------------------------------------- the encoder and decoder as they run

  /** The four checksum bytes, patched in place. */
  method PatchChecksum(frame: array<Byte>, checksum: U32)
    requires frame.Length >= HEADER_SIZE
    modifies frame
    ensures frame[..] == old(frame[..32]) + Little(checksum, 4) + old(frame[36..])
  {
    hide Little;
    LittleWord(checksum);
    frame[32] := checksum % 0x100;
    frame[33] := checksum / 0x100 % 0x100;
    frame[34] := checksum / 0x1_0000 % 0x100;
    frame[35] := checksum / 0x100_0000 % 0x100;
    assert frame[..] == frame[..32] + frame[32..36] + frame[36..];
    assert frame[32..36] == [frame[32], frame[33], frame[34], frame[35]];
  }

  method JoinBytes(header: seq<Byte>, payload: seq<Byte>) returns (frame: array<Byte>)
    ensures fresh(frame) && frame[..] == header + payload
  {
    frame := new Byte[|header| + |payload|](
      i requires 0 <= i < |header| + |payload| => if i < |header| then header[i] else payload[i - |header|]);
  }

  /** encode_frame: the header is written with a zero checksum, the payload appended, and the checksum
      patched in. */
  method WriteFrame(v: View) returns (ok: bool, frame: array<Byte>)
    requires v.kind < 0x1_0000
    ensures ok == EncodeFrame(v).Some? && fresh(frame)
    ensures ok ==> EncodeFrame(v) == Some(frame[..])
  {
    hide Little, FnvContinue, Fnv, Prefix;
    if |v.payload| + HEADER_SIZE > TWO_32 - 1 {
      frame := new Byte[0];
      return false, frame;
    }
    var header := WriteHeader(v);
    HeaderParts(v, header);
    frame := JoinBytes(header, v.payload);
    assert frame[4..32] == frame[..][4..32] == header[4..32];
    var seed := HashBytes(FNV_OFFSET, frame[4..32]);
    FnvIs(Prefix(v));
    var hash := HashBytes(seed, v.payload);
    assert frame[..32] == frame[..][..32] == header[..32];
    assert frame[36..] == frame[..][36..] == v.payload;
    PatchChecksum(frame, hash % TWO_32);
    ok := true;
  }

  lemma HeaderParts(v: View, header: seq<Byte>)
    requires header == Little(Wrap32(HEADER_FIELDS + |v.payload|), 4) + Prefix(v) + Little(0, 4)
    ensures |header| == HEADER_SIZE && header[4..32] == Prefix(v)
    ensures header[..32] == Little(Wrap32(HEADER_FIELDS + |v.payload|), 4) + Prefix(v)
  {
    hide Little, Prefix;
    PrefixLength(v);
    LittleLength(Wrap32(HEADER_FIELDS + |v.payload|), 4);
    LittleLength(0, 4);
  }

  /** The header fields after the length, one after the other. */
  method ReadFields(reader: ByteReader) returns (fields: seq<nat>)
    requires reader.Valid() && reader.offset == 4 && |reader.bytes| >= HEADER_SIZE
    modifies reader
    ensures var f := reader.bytes;
            fields == [NumberAt(f, 4, 4), NumberAt(f, 8, 2), NumberAt(f, 10, 2), NumberAt(f, 12, 8),
                       NumberAt(f, 20, 8), NumberAt(f, 28, 4), NumberAt(f, 32, 4)]
  {
    hide ReadNumber, NumberAt;
    var f := reader.bytes;
    ReadAt(f, 4, 4);
    ReadAt(f, 8, 2);
    ReadAt(f, 10, 2);
    ReadAt(f, 12, 8);
    ReadAt(f, 20, 8);
    ReadAt(f, 28, 4);
    ReadAt(f, 32, 4);
    var _, version := reader.U32();
    var _, kind := reader.U16();
    var _, flags := reader.U16();
    var _, correlation := reader.U64();
    var _, epoch := reader.U64();
    var _, size := reader.U32();
    var _, checksum := reader.U32();
    fields := [version, kind, flags, correlation, epoch, size, checksum];
  }

  /** decode_frame. */
  method ReadFrame(frame: seq<Byte>, maxFrame: U32) returns (view: Option<View>)
    ensures view == DecodeFrame(frame, maxFrame)
  {
    hide ReadNumber, NumberAt, FnvContinue, Fnv;
    if |frame| < HEADER_SIZE { return None; }
    var reader := new ByteReader(frame);
    ReadAt(frame, 0, 4);
    assert frame[0..] == frame;
    var _, length := reader.U32();
    if length != |frame| - 4 || Wrap32(length + 4) > maxFrame { return None; }
    assert reader.offset == 4 by { SuffixLength(frame, reader.offset, 4); }
    var fields := ReadFields(reader);
    if fields[0] != PROTOCOL_VERSION || !KnownType(fields[1]) || fields[2] != 0 { return None; }
    if fields[5] != Wrap32(length - HEADER_FIELDS) { return None; }
    var seed := HashBytes(FNV_OFFSET, frame[4..32]);
    FnvIs(frame[4..32]);
    var hash := HashBytes(seed, frame[36..]);
    if fields[6] != hash % TWO_32 { return None; }
    return Some(View(fields[1], Wrap64(fields[3]), Wrap64(fields[4]), frame[HEADER_SIZE..]));
  }

  lemma SuffixLength(bytes: seq<Byte>, a: nat, b: nat)
    requires a <= |bytes| && b <= |bytes| && bytes[a..] == bytes[b..]
    ensures a == b
  {
    assert |bytes[a..]| == |bytes| - a;
  }

  method WriteHeader(v: View) returns (header: seq<Byte>)
    requires v.kind < 0x1_0000 && |v.payload| + HEADER_FIELDS < TWO_32
    ensures header == Little(Wrap32(HEADER_FIELDS + |v.payload|), 4) + Prefix(v) + Little(0, 4)
  {
    hide Little;
    var writer := new ByteWriter();
    writer.U32(HEADER_FIELDS + |v.payload|);
    writer.U32(PROTOCOL_VERSION);
    writer.U16(v.kind);
    writer.U16(0);
    writer.U64(v.correlation);
    writer.U64(v.epoch);
    writer.U32(|v.payload|);
    writer.U32(0);
    header := writer.buffer;
    Regroup(Little(Wrap32(HEADER_FIELDS + |v.payload|), 4), Little(PROTOCOL_VERSION, 4), Little(v.kind, 2),
            Little(0, 2), Little(v.correlation, 8), Little(v.epoch, 8), Little(Wrap32(|v.payload|), 4), Little(0, 4));
  }

  lemma Regroup(a: seq<Byte>, b: seq<Byte>, c: seq<Byte>, d: seq<Byte>, e: seq<Byte>, f: seq<Byte>, g: seq<Byte>,
                h: seq<Byte>)
    ensures [] + a + b + c + d + e + f + g + h == a + (b + c + d + e + f + g) + h
  {
    assert [] + a == a;
    assert a + b + c + d + e + f + g == a + (b + c + d + e + f + g) by {
      assert a + b + c == a + (b + c) && a + (b + c) + d == a + (b + c + d);
      assert a + (b + c + d) + e == a + (b + c + d + e) && a + (b + c + d + e) + f == a + (b + c + d + e + f);
    }
  }

  /** A word spelled out byte by byte. */
  lemma LittleWord(x: U32)
    ensures Little(x, 4) == [x % 0x100, x / 0x100 % 0x100, x / 0x1_0000 % 0x100, x / 0x100_0000 % 0x100]
  {
    assert x / 0x100 / 0x100 == x / 0x1_0000 && x / 0x1_0000 / 0x100 == x / 0x100_0000;
    assert Little(x, 4) == [x % 0x100] + Little(x / 0x100, 3);
    assert Little(x / 0x100, 3) == [x / 0x100 % 0x100] + Little(x / 0x1_0000, 2);
    assert Little(x / 0x1_0000, 2) == [x / 0x1_0000 % 0x100] + Little(x / 0x100_0000, 1);
    assert Little(x / 0x100_0000, 1) == [x / 0x100_0000 % 0x100];
  }
}
