/** The persistence container (src/persistence.cpp:18-194): magic, format version, length and checksum of
    the payload, then the payload of record lists. */
module Container {
  import opened Prelude
  import opened Bytes
  import opened Codec
  import opened RecordCodec

  const HEADER_SIZE := 28
  const FORMAT_VERSION := 1
  /** "LSCHED01" */
  const MAGIC: seq<Byte> := [0x4c, 0x53, 0x43, 0x48, 0x45, 0x44, 0x30, 0x31]
  /** "Lab Scheduler 1.0.0" */
  const BANNER: seq<Byte> :=
    [0x4c, 0x61, 0x62, 0x20, 0x53, 0x63, 0x68, 0x65, 0x64, 0x75, 0x6c, 0x65, 0x72, 0x20, 0x31, 0x2e, 0x30, 0x2e, 0x30]

  /** A durable state, record by record; `note` is what a decoder finds where the banner is written. */
  datatype Image = Image(
    epoch: U64,
    limits: Value,
    weights: Value,
    counter: U64,
    note: seq<Byte>,
    resources: seq<Value>,
    requests: seq<Value>,
    placements: seq<Value>,
    reservations: seq<Value>)

  function PayloadHead(m: Image, note: seq<Byte>): seq<Value> {
    [Num(FORMAT_VERSION), Num(m.epoch), m.limits, m.weights, Num(m.counter), Str(note)]
  }

  function PayloadTail(m: Image): seq<Value> {
    [Items(m.resources), Items(m.requests), Items(m.placements), Items(m.reservations)]
  }

  function PayloadRow(m: Image, note: seq<Byte>): Value {
    Row(PayloadHead(m, note) + PayloadTail(m))
  }

  /** The payload always carries the banner, whatever note the state came with. */
  function Payload(b: Bounds, m: Image): seq<Byte> {
    Encode(DurableFormat(b), PayloadRow(m, BANNER))
  }

  function Wrapped(body: seq<Byte>): seq<Byte> {
    MAGIC + Little(FORMAT_VERSION, 4) + Little(Wrap64(|body|), 8) + Little(Fnv(body), 8) + body
  }

  /** encode_durable_state. */
  function EncodeImage(b: Bounds, m: Image): seq<Byte> {
    Wrapped(Payload(b, m))
  }

  /** The checks on the container header; the payload if they pass. */
  function Unwrapped(b: Bounds, bytes: seq<Byte>): Option<seq<Byte>> {
    if |bytes| < HEADER_SIZE then None
    else if bytes[..8] != MAGIC then None
    else if NumberAt(bytes, 8, 4) != FORMAT_VERSION then None
    else
      var length := NumberAt(bytes, 12, 8);
      if length == 0 || length > b.maxPersistenceBytes then None
      else if length != |bytes| - HEADER_SIZE then None
      else if Fnv(bytes[HEADER_SIZE..]) != NumberAt(bytes, 20, 8) then None
      else Some(bytes[HEADER_SIZE..])
  }

  function ImageOfRow(v: Value): Option<Image> {
    var c := Columns(v);
    if |c| == 10 && NumbersAt(c, {0, 1, 4}) && c[5].Str?
       && c[6].Items? && c[7].Items? && c[8].Items? && c[9].Items? then
      Some(Image(c[1].n, c[2], c[3], c[4].n, c[5].s, c[6].vs, c[7].vs, c[8].vs, c[9].vs))
    else None
  }

  /** decode_durable_state: the payload must be one record of the durable format and nothing more. */
  function DecodeImage(naming: Naming, b: Bounds, bytes: seq<Byte>): Option<Image> {
    match Unwrapped(b, bytes)
    case None => None
    case Some(body) =>
      match Decode(naming, DurableFormat(b), body)
      case Failed => None
      case Parsed(v, rest) => if rest != [] then None else ImageOfRow(v)
  }

  // ---------------------------------------------------------------- layout

  lemma WrappedParts(body: seq<Byte>)
    ensures var w := Wrapped(body);
            && |w| == HEADER_SIZE + |body| && w[..8] == MAGIC && w[8..12] == Little(FORMAT_VERSION, 4)
            && w[12..20] == Little(Wrap64(|body|), 8) && w[20..28] == Little(Fnv(body), 8) && w[28..] == body
  {
    hide Little, Fnv;
    LittleLength(FORMAT_VERSION, 4);
    LittleLength(Wrap64(|body|), 8);
    LittleLength(Fnv(body), 8);
  }

  lemma WrappedFields(body: seq<Byte>)
    requires |body| < TWO_64
    ensures var w := Wrapped(body);
            && |w| == HEADER_SIZE + |body| && w[..8] == MAGIC && w[28..] == body
            && NumberAt(w, 8, 4) == FORMAT_VERSION && NumberAt(w, 12, 8) == |body| && NumberAt(w, 20, 8) == Fnv(body)
  {
    hide Little, FromLittle, Fnv, Pow256, Wrapped;
    Pow256Values();
    WrappedParts(body);
    LittleRoundTrip(FORMAT_VERSION, 4);
    LittleRoundTrip(|body|, 8);
    LittleRoundTrip(Fnv(body), 8);
  }

  /** Unwrapping is exactly undoing the wrapping, for payloads within the bound. */
  lemma UnwrapIsExact(b: Bounds, bytes: seq<Byte>, body: seq<Byte>)
    ensures Unwrapped(b, bytes) == Some(body) <==> bytes == Wrapped(body) && 0 < |body| <= b.maxPersistenceBytes
  {
    hide Little, FromLittle, Fnv, Pow256, Wrapped;
    if bytes == Wrapped(body) && 0 < |body| <= b.maxPersistenceBytes {
      WrappedFields(body);
    }
    if Unwrapped(b, bytes) == Some(body) {
      Pow256Values();
      FromLittleRoundTrip(bytes[8..12]);
      FromLittleRoundTrip(bytes[12..20]);
      FromLittleRoundTrip(bytes[20..28]);
      Rewrapped(bytes, body);
    }
  }

  lemma Rewrapped(bytes: seq<Byte>, body: seq<Byte>)
    requires |bytes| >= HEADER_SIZE && bytes[..8] == MAGIC && bytes[28..] == body && |body| < TWO_64
    requires bytes[8..12] == Little(FORMAT_VERSION, 4) && bytes[12..20] == Little(|body|, 8)
    requires bytes[20..28] == Little(Fnv(body), 8)
    ensures bytes == Wrapped(body)
  {
    hide Little, Fnv;
    assert bytes == bytes[..8] + bytes[8..12] + bytes[12..20] + bytes[20..28] + bytes[28..];
  }

  // ---------------------------------------------------------------- round trip

  /** The counts, lengths, enums and orders of an image are within bounds. */
  ghost predicate ImageFits(naming: Naming, b: Bounds, m: Image) {
    && Fits(naming, LIMITS, m.limits) && Fits(naming, WEIGHTS, m.weights) && |BANNER| <= b.maxString
    && Fits(naming, Listing(ResourceFormat(b), b.maxPersistenceRecords, Free), Items(m.resources))
    && Fits(naming, Listing(StoredRequestFormat(b), b.maxPersistenceRecords, Free), Items(m.requests))
    && Fits(naming, Listing(PlacementFormat(b), b.maxPersistenceRecords, Free), Items(m.placements))
    && Fits(naming, Listing(ReservationFormat(b), b.maxPersistenceRecords, Free), Items(m.reservations))
  }

  lemma PayloadFits(naming: Naming, b: Bounds, m: Image)
    ensures Fits(naming, DurableFormat(b), PayloadRow(m, BANNER)) <==> ImageFits(naming, b, m)
  {
    hide Fits, Row, Fields, DurableHeadFormat, DurableTailFormat, PayloadHead, PayloadTail, ColumnsFit, BANNER;
    HeadFits(naming, b, m, BANNER);
    TailFits(naming, b, m);
    ColumnsJoin(naming, DurableHeadFormat(b), PayloadHead(m, BANNER), DurableTailFormat(b), PayloadTail(m));
  }

  lemma HeadFits(naming: Naming, b: Bounds, m: Image, note: seq<Byte>)
    ensures |DurableHeadFormat(b)| == |PayloadHead(m, note)|
    ensures ColumnsFit(naming, DurableHeadFormat(b), PayloadHead(m, note)) <==>
              Fits(naming, LIMITS, m.limits) && Fits(naming, WEIGHTS, m.weights) && |note| <= b.maxString
  {
    hide Fits, LIMITS, WEIGHTS, Fields, Repeated;
    var fs, vs := DurableHeadFormat(b), PayloadHead(m, note);
    LeavesFit(naming);
    assert Fits(naming, fs[0], vs[0]) && Fits(naming, fs[1], vs[1]) && Fits(naming, fs[4], vs[4]);
    assert Fits(naming, fs[2], vs[2]) <==> Fits(naming, LIMITS, m.limits);
    assert Fits(naming, fs[3], vs[3]) <==> Fits(naming, WEIGHTS, m.weights);
    assert Fits(naming, fs[5], vs[5]) <==> |note| <= b.maxString;
  }

  lemma TailFits(naming: Naming, b: Bounds, m: Image)
    ensures |DurableTailFormat(b)| == |PayloadTail(m)|
    ensures ColumnsFit(naming, DurableTailFormat(b), PayloadTail(m)) <==>
              Fits(naming, Listing(ResourceFormat(b), b.maxPersistenceRecords, Free), Items(m.resources))
              && Fits(naming, Listing(StoredRequestFormat(b), b.maxPersistenceRecords, Free), Items(m.requests))
              && Fits(naming, Listing(PlacementFormat(b), b.maxPersistenceRecords, Free), Items(m.placements))
              && Fits(naming, Listing(ReservationFormat(b), b.maxPersistenceRecords, Free), Items(m.reservations))
  {
    hide Fits, ResourceFormat, StoredRequestFormat, PlacementFormat, ReservationFormat;
    var fs, vs := DurableTailFormat(b), PayloadTail(m);
    assert vs[0] == Items(m.resources) && vs[1] == Items(m.requests);
    assert vs[2] == Items(m.placements) && vs[3] == Items(m.reservations);
  }

  lemma PayloadRowBack(m: Image, note: seq<Byte>)
    ensures ImageOfRow(PayloadRow(m, note)) == Some(m.(note := note))
  {
    hide Row, Columns;
    RowColumns(PayloadHead(m, note) + PayloadTail(m));
  }

  /** Decoding what was encoded gives the durable state back, apart from the integrity note, which the
      encoder replaces by its own banner, exactly when the state is within bounds. */
  lemma ContainerRoundTrip(naming: Naming, b: Bounds, m: Image)
    ensures DecodeImage(naming, b, EncodeImage(b, m)) == Some(m.(note := BANNER))
            <==> ImageFits(naming, b, m) && |Payload(b, m)| <= b.maxPersistenceBytes
  {
    hide Wrapped, Unwrapped, Encode, Decode, DurableFormat, PayloadRow, ImageOfRow, ImageFits, Payload, BANNER;
    var body := Payload(b, m);
    PayloadNotEmpty(b, m);
    PayloadFits(naming, b, m);
    UnwrapIsExact(b, EncodeImage(b, m), body);
    if ImageFits(naming, b, m) && |body| <= b.maxPersistenceBytes {
      assert Decode(naming, DurableFormat(b), body) == Parsed(PayloadRow(m, BANNER), []) by {
        PayloadIs(b, m);
        ReadsBack(naming, DurableFormat(b), PayloadRow(m, BANNER), []);
        assert body + [] == body;
      }
      PayloadRowBack(m, BANNER);
    }
    if DecodeImage(naming, b, EncodeImage(b, m)) == Some(m.(note := BANNER)) {
      UnwrapsPayload(b, m);
      var v := Decode(naming, DurableFormat(b), body).value;
      ReadsExactly(naming, DurableFormat(b), body);
      RowOfImage(naming, b, v, m.(note := BANNER));
      SamePayloadRow(m, BANNER);
    }
  }

  lemma SamePayloadRow(m: Image, note: seq<Byte>)
    ensures PayloadRow(m.(note := note), note) == PayloadRow(m, note)
  {
  }

  lemma PayloadIs(b: Bounds, m: Image)
    ensures Payload(b, m) == Encode(DurableFormat(b), PayloadRow(m, BANNER))
  {
  }

  /** Only the payload itself can be unwrapped from what was wrapped. */
  lemma UnwrapsPayload(b: Bounds, m: Image)
    requires Unwrapped(b, EncodeImage(b, m)).Some?
    ensures Unwrapped(b, EncodeImage(b, m)) == Some(Payload(b, m)) && |Payload(b, m)| <= b.maxPersistenceBytes
  {
    hide Wrapped, Unwrapped, Payload;
    var body := Unwrapped(b, EncodeImage(b, m)).value;
    UnwrapIsExact(b, EncodeImage(b, m), body);
    WrappedParts(body);
    WrappedParts(Payload(b, m));
  }

  /** A row of the durable format is the row of the image it is read as. */
  lemma RowOfImage(naming: Naming, b: Bounds, v: Value, m: Image)
    requires Fits(naming, DurableFormat(b), v) && ImageOfRow(v) == Some(m)
    ensures v == PayloadRow(m, m.note)
  {
    hide Fits, Row, Fields, Columns, ImageOfRow, DurableTailFormat;
    var fs, c := DurableHeadFormat(b) + DurableTailFormat(b), Columns(v);
    FitsIsRow(naming, fs, v);
    RowFits(naming, fs, c);
    assert fs[0] == Word(1, 1) && Fits(naming, fs[0], c[0]);
    VersionField(naming, c[0]);
    ColumnsOfImage(v, m);
  }

  lemma VersionField(naming: Naming, v: Value)
    requires Fits(naming, Word(1, 1), v)
    ensures v == Num(FORMAT_VERSION)
  {
  }

  lemma ColumnsOfImage(v: Value, m: Image)
    requires ImageOfRow(v) == Some(m) && |Columns(v)| > 0 && Columns(v)[0] == Num(FORMAT_VERSION)
    ensures Columns(v) == PayloadHead(m, m.note) + PayloadTail(m)
  {
    hide Columns;
  }

  lemma {:induction false} FitsIsRow(naming: Naming, fs: seq<Format>, v: Value)
    requires Fits(naming, Fields(fs), v)
    ensures |Columns(v)| == |fs| && v == Row(Columns(v))
  {
    if fs != [] {
      FitsIsRow(naming, fs[1..], v.others);
      assert Columns(v)[1..] == Columns(v.others);
    }
  }

  /** The payload is never empty: it starts with its format version. */
  lemma PayloadNotEmpty(b: Bounds, m: Image)
    ensures |Payload(b, m)| >= 4
  {
    hide Little, Fields, Row;
    LittleLength(FORMAT_VERSION, 4);
    var fs, vs := DurableHeadFormat(b) + DurableTailFormat(b), PayloadHead(m, BANNER) + PayloadTail(m);
    FieldsHead(fs);
    RowHead(vs);
    assert fs[0] == Word(1, 1) && vs[0] == Num(FORMAT_VERSION);
    assert Encode(fs[0], vs[0]) == Little(FORMAT_VERSION, 4);
  }

  lemma FieldsHead(fs: seq<Format>)
    requires fs != []
    ensures Fields(fs) == Then(fs[0], Fields(fs[1..]))
  {
  }

  lemma RowHead(vs: seq<Value>)
    requires vs != []
    ensures Row(vs) == Cons(vs[0], Row(vs[1..]))
  {
  }

  // ---------------------------------------------------------------- corruption

  /** Every single-byte change to any encoded container is rejected. */
  lemma ContainerDetectsChange(naming: Naming, b: Bounds, m: Image, i: nat, x: Byte)
    requires |Payload(b, m)| < TWO_64 && i < |EncodeImage(b, m)| && x != EncodeImage(b, m)[i]
    ensures DecodeImage(naming, b, EncodeImage(b, m)[i := x]) == None
  {
    hide Wrapped, Encode, Decode, DurableFormat, PayloadRow, ImageOfRow, Payload, Unwrapped;
    WrappedDetectsChange(b, Payload(b, m), i, x);
  }

  lemma WrappedDetectsChange(b: Bounds, body: seq<Byte>, i: nat, x: Byte)
    requires |body| < TWO_64 && i < |Wrapped(body)| && x != Wrapped(body)[i]
    ensures Unwrapped(b, Wrapped(body)[i := x]) == None
  {
    hide FnvContinue, FromLittle, Wrapped;
    var w := Wrapped(body);
    var g := w[i := x];
    WrappedFields(body);
    if i < 8 {
      assert g[..8][i] != w[..8][i];
    } else if i < 28 {
      var at, width := if i < 12 then 8 else if i < 20 then 12 else 20, if i < 12 then 4 else 8;
      NumbersApart(w, g, i, at, width);
      assert g[28..] == w[28..];
    } else {
      assert g[28..] == body[i - 28 := x] && body[i - 28] == w[i];
      FnvDetectsChange(FNV_OFFSET, body, i - 28, x);
      assert g[20..28] == w[20..28];
    }
  }

  // ---------------------------------------------------------------- the encoder and decoder as they run

  /** encode_durable_state. */
  method WriteContainer(b: Bounds, m: Image) returns (bytes: seq<Byte>)
    ensures bytes == EncodeImage(b, m)
  {
    hide Encode, Little, FnvContinue, Fnv, DurableFormat, PayloadRow, MAGIC;
    var payload := new ByteWriter();
    payload.Write(DurableFormat(b), PayloadRow(m, BANNER));
    var body := payload.buffer;
    assert body == Payload(b, m);
    var header := new ByteWriter();
    header.U32(FORMAT_VERSION);
    header.U64(Wrap64(|body|));
    var hash := HashBytes(FNV_OFFSET, body);
    assert hash == Fnv(body) by { FnvIs(body); }
    header.U64(hash);
    bytes := MAGIC + header.buffer + body;
  }

  /** The header after the magic. */
  method ReadHeader(bytes: seq<Byte>) returns (format: nat, length: nat, checksum: nat)
    requires |bytes| >= HEADER_SIZE
    ensures format == NumberAt(bytes, 8, 4) && length == NumberAt(bytes, 12, 8) && checksum == NumberAt(bytes, 20, 8)
  {
    hide ReadNumber, NumberAt;
    var header := new ByteReader(bytes[8..]);
    assert bytes[8..][0..] == bytes[8..];
    ReadAt(bytes, 8, 4);
    ReadAt(bytes, 12, 8);
    ReadAt(bytes, 20, 8);
    var _, f := header.U32();
    var _, l := header.U64();
    var _, c := header.U64();
    format, length, checksum := f, l, c;
  }

  /** decode_durable_state. */
  method ReadContainer(naming: Naming, b: Bounds, bytes: seq<Byte>) returns (m: Option<Image>)
    ensures m == DecodeImage(naming, b, bytes)
  {
    hide Decode, FnvContinue, Fnv, NumberAt, DurableFormat, ImageOfRow, MAGIC;
    if |bytes| < HEADER_SIZE { return None; }
    if bytes[..8] != MAGIC { return None; }
    var format, length, checksum := ReadHeader(bytes);
    if format != FORMAT_VERSION { return None; }
    if length == 0 || length > b.maxPersistenceBytes || length != |bytes| - HEADER_SIZE { return None; }
    var body := bytes[HEADER_SIZE..];
    var hash := HashBytes(FNV_OFFSET, body);
    FnvIs(body);
    if hash != checksum { return None; }
    var reader := new ByteReader(body);
    assert body[0..] == body;
    var ok, v := reader.Read(naming, DurableFormat(b));
    if !ok { return None; }
    var ended := reader.AtEnd();
    if !ended { return None; }
    return ImageOfRow(v);
  }
}
