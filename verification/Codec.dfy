/** The byte codec: a writer that grows a buffer, a reader that advances an offset, and the record formats
    both follow (src/codec.cpp, src/record_codec.cpp:15-35, 279-342). A format says what a reader accepts;
    the reader consumes exactly what the writer wrote. */
module Codec {
  import opened Prelude
  import opened Bytes

  // ---------------------------------------------------------------- formats and values

  datatype Order = Free | Strict | Tagged

  /** The layout of one field or record. */
  datatype Format =
    | Enum(last: Byte)
    | Flag
    | Word(low: U32, high: U32)
    | Weight
    | Long
    | Text(longest: U32)
    | Listing(item: Format, most: U32, order: Order)
    | Optional(some: Format)
    | Then(head: Format, tail: Format)
    | End

  datatype Value =
    | Num(n: nat)
    | Str(s: seq<Byte>)
    | Items(vs: seq<Value>)
    | Nothing
    | Just(v: Value)
    | Cons(first: Value, others: Value)
    | Nil

  const MAX_WEIGHT := 1000

  /** A weight is stored as its 32-bit two's complement. */
  predicate WeightWord(n: nat) {
    n <= MAX_WEIGHT || TWO_32 - MAX_WEIGHT <= n < TWO_32
  }

  predicate Less(a: Value, b: Value) {
    (a.Num? && b.Num? && a.n < b.n) || (a.Str? && b.Str? && LexLess(a.s, b.s))
  }

  /** The source's hash of a capability name, kept abstract. */
  type Naming = seq<Byte> -> U64

  predicate CanonicalNameByte(b: Byte) {
    0x61 <= b <= 0x7a || 0x30 <= b <= 0x39 || b == 0x2e || b == 0x5f || b == 0x2d
  }

  /** A capability entry carries the identity its canonical name hashes to. */
  predicate TagOk(naming: Naming, v: Value) {
    && v.Cons? && v.first.Num? && v.others.Cons? && v.others.first.Str?
    && var name := v.others.first.s;
       v.first.n != 0 && 1 <= |name| <= 64 && (forall i :: 0 <= i < |name| ==> CanonicalNameByte(name[i]))
       && naming(name) == v.first.n
  }

  function TagId(v: Value): nat {
    if v.Cons? && v.first.Num? then v.first.n else 0
  }

  /** CapabilitySet keeps its entries in ascending order of identity. */
  function InsertTag(v: Value, tags: seq<Value>): seq<Value> {
    if tags == [] || TagId(v) < TagId(tags[0]) then [v] + tags else [tags[0]] + InsertTag(v, tags[1..])
  }

  predicate HasTag(id: nat, tags: seq<Value>) {
    exists i :: 0 <= i < |tags| && TagId(tags[i]) == id
  }

  /** May `v` join the entries read so far? */
  predicate Joins(naming: Naming, order: Order, acc: seq<Value>, v: Value) {
    match order
    case Free => true
    case Strict => acc == [] || Less(acc[|acc| - 1], v)
    case Tagged => TagOk(naming, v) && !HasTag(TagId(v), acc)
  }

  function Join(order: Order, acc: seq<Value>, v: Value): seq<Value> {
    if order.Tagged? then InsertTag(v, acc) else acc + [v]
  }

  // ---------------------------------------------------------------- what a format accepts

  predicate Orderly(naming: Naming, order: Order, vs: seq<Value>) {
    match order
    case Free => true
    case Strict => forall i :: 0 < i < |vs| ==> Less(vs[i - 1], vs[i])
    case Tagged =>
      (forall i :: 0 <= i < |vs| ==> TagOk(naming, vs[i]))
      && (forall i, j :: 0 <= i < j < |vs| ==> TagId(vs[i]) < TagId(vs[j]))
  }

  predicate Fits(naming: Naming, f: Format, v: Value)
    decreases f
  {
    match f
    case Enum(last) => v.Num? && v.n <= last
    case Flag => v.Num? && v.n <= 1
    case Word(low, high) => v.Num? && low <= v.n <= high
    case Weight => v.Num? && WeightWord(v.n)
    case Long => v.Num? && v.n < TWO_64
    case Text(longest) => v.Str? && |v.s| <= longest
    case Listing(item, most, order) =>
      v.Items? && |v.vs| <= most && (forall i :: 0 <= i < |v.vs| ==> Fits(naming, item, v.vs[i]))
      && Orderly(naming, order, v.vs)
    case Optional(some) => v.Nothing? || (v.Just? && Fits(naming, some, v.v))
    case Then(head, tail) => v.Cons? && Fits(naming, head, v.first) && Fits(naming, tail, v.others)
    case End => v.Nil?
  }

  function Encode(f: Format, v: Value): seq<Byte>
    decreases f, 0
  {
    match f
    case Enum(_) => if v.Num? then Little(v.n, 1) else []
    case Flag => if v.Num? then Little(v.n, 1) else []
    case Word(_, _) => if v.Num? then Little(v.n, 4) else []
    case Weight => if v.Num? then Little(v.n, 4) else []
    case Long => if v.Num? then Little(v.n, 8) else []
    case Text(_) => if v.Str? then Little(Wrap32(|v.s|), 4) + v.s else []
    case Listing(item, _, _) => if v.Items? then Little(Wrap32(|v.vs|), 4) + EncodeAll(item, v.vs) else []
    case Optional(some) => if v.Just? then Little(1, 1) + Encode(some, v.v) else Little(0, 1)
    case Then(head, tail) => if v.Cons? then Encode(head, v.first) + Encode(tail, v.others) else []
    case End => []
  }

  function EncodeAll(item: Format, vs: seq<Value>): seq<Byte>
    decreases item, 1, |vs|
  {
    if vs == [] then [] else EncodeAll(item, vs[..|vs| - 1]) + Encode(item, vs[|vs| - 1])
  }

  datatype Parse<+T> = Parsed(value: T, rest: seq<Byte>) | Failed

  function ReadNumber(width: nat, bytes: seq<Byte>): Parse<nat> {
    if |bytes| < width then Failed else Parsed(FromLittle(bytes[..width]), bytes[width..])
  }

  function ReadWithin(width: nat, accept: nat -> bool, bytes: seq<Byte>): Parse<Value> {
    match ReadNumber(width, bytes)
    case Parsed(n, rest) => if accept(n) then Parsed(Num(n), rest) else Failed
    case Failed => Failed
  }

  function Decode(naming: Naming, f: Format, bytes: seq<Byte>): Parse<Value>
    decreases f, 0
  {
    match f
    case Enum(last) => ReadWithin(1, n => n <= last, bytes)
    case Flag => ReadWithin(1, n => n <= 1, bytes)
    case Word(low, high) => ReadWithin(4, n => low <= n <= high, bytes)
    case Weight => ReadWithin(4, WeightWord, bytes)
    case Long => ReadWithin(8, n => true, bytes)
    case Text(longest) =>
      (match ReadNumber(4, bytes)
       case Failed => Failed
       case Parsed(n, rest) => if n > longest || n > |rest| then Failed else Parsed(Str(rest[..n]), rest[n..]))
    case Listing(item, most, order) =>
      (match ReadNumber(4, bytes)
       case Failed => Failed
       case Parsed(n, rest) =>
         if n > most then Failed
         else
           match DecodeMany(naming, item, order, n, [], rest)
           case Failed => Failed
           case Parsed(vs, rest') => Parsed(Items(vs), rest'))
    case Optional(some) =>
      (match ReadWithin(1, n => n <= 1, bytes)
       case Failed => Failed
       case Parsed(present, rest) =>
         if present == Num(0) then Parsed(Nothing, rest)
         else
           match Decode(naming, some, rest)
           case Failed => Failed
           case Parsed(v, rest') => Parsed(Just(v), rest'))
    case Then(head, tail) =>
      (match Decode(naming, head, bytes)
       case Failed => Failed
       case Parsed(first, rest) =>
         match Decode(naming, tail, rest)
         case Failed => Failed
         case Parsed(others, rest') => Parsed(Cons(first, others), rest'))
    case End => Parsed(Nil, bytes)
  }

  /** Reads `n` more entries after `acc`. */
  function DecodeMany(naming: Naming, item: Format, order: Order, n: nat, acc: seq<Value>, bytes: seq<Byte>)
    : Parse<seq<Value>>
    decreases item, 1, n
  {
    if n == 0 then Parsed(acc, bytes)
    else
      match Decode(naming, item, bytes)
      case Failed => Failed
      case Parsed(v, rest) =>
        if Joins(naming, order, acc, v) then DecodeMany(naming, item, order, n - 1, Join(order, acc, v), rest)
        else Failed
  }

  // ---------------------------------------------------------------- reading back what was written

  lemma ReadNumberBack(value: nat, width: nat, rest: seq<Byte>)
    requires value < Pow256(width)
    ensures ReadNumber(width, Little(value, width) + rest) == Parsed(value, rest)
  {
    LittleRoundTrip(value, width);
    assert (Little(value, width) + rest)[..width] == Little(value, width);
    assert (Little(value, width) + rest)[width..] == rest;
  }

  lemma InsertTagLast(v: Value, tags: seq<Value>)
    requires forall i :: 0 <= i < |tags| ==> TagId(tags[i]) < TagId(v)
    ensures InsertTag(v, tags) == tags + [v]
  {
    if tags != [] {
      InsertTagLast(v, tags[1..]);
      assert tags == [tags[0]] + tags[1..];
    }
  }

  /** An orderly list grows entry by entry. */
  lemma OrderlyJoins(naming: Naming, order: Order, vs: seq<Value>, k: nat)
    requires Orderly(naming, order, vs) && k < |vs|
    ensures Joins(naming, order, vs[..k], vs[k]) && Join(order, vs[..k], vs[k]) == vs[..k + 1]
  {
    assert vs[..k + 1] == vs[..k] + [vs[k]];
    if order.Tagged? {
      InsertTagLast(vs[k], vs[..k]);
    }
  }

  lemma EncodeAllSplit(item: Format, vs: seq<Value>, k: nat)
    requires k < |vs|
    ensures EncodeAll(item, vs[k..]) == Encode(item, vs[k]) + EncodeAll(item, vs[k + 1..])
    decreases |vs| - k
  {
    EncodeAllJoin(item, [vs[k]], vs[k + 1..]);
    assert vs[k..] == [vs[k]] + vs[k + 1..];
    assert [vs[k]][..0] == [];
    assert EncodeAll(item, [vs[k]]) == Encode(item, vs[k]);
  }

  lemma {:induction false} EncodeAllJoin(item: Format, a: seq<Value>, b: seq<Value>)
    ensures EncodeAll(item, a + b) == EncodeAll(item, a) + EncodeAll(item, b)
    decreases |b|
  {
    hide Encode;
    if b == [] {
      assert a + b == a;
    } else {
      var n := |b| - 1;
      EncodeAllJoin(item, a, b[..n]);
      assert (a + b)[..|a| + n] == a + b[..n];
    }
  }

  /** The reader consumes exactly what the writer wrote: a value that fits comes back, and the reader
      stands right after its bytes. */
  lemma {:induction false} ReadsBack(naming: Naming, f: Format, v: Value, rest: seq<Byte>)
    requires Fits(naming, f, v)
    ensures Decode(naming, f, Encode(f, v) + rest) == Parsed(v, rest)
    decreases f, 1
  {
    match f
    case Text(_) => TextReadsBack(naming, f, v, rest);
    case Listing(_, _, _) => ListingReadsBack(naming, f, v, rest);
    case Optional(_) => OptionalReadsBack(naming, f, v, rest);
    case Then(head, tail) =>
      assert Encode(f, v) + rest == Encode(head, v.first) + (Encode(tail, v.others) + rest);
      ReadsBack(naming, head, v.first, Encode(tail, v.others) + rest);
      ReadsBack(naming, tail, v.others, rest);
    case End =>
      assert Encode(f, v) + rest == rest;
    case _ => NumberReadsBack(naming, f, v, rest);
  }

  lemma NumberReadsBack(naming: Naming, f: Format, v: Value, rest: seq<Byte>)
    requires (f.Enum? || f.Flag? || f.Word? || f.Weight? || f.Long?) && Fits(naming, f, v)
    ensures Decode(naming, f, Encode(f, v) + rest) == Parsed(v, rest)
  {
    hide ReadNumber, Little;
    Pow256Values();
    ReadNumberBack(v.n, if f.Enum? || f.Flag? then 1 else if f.Long? then 8 else 4, rest);
  }

  lemma {:induction false} ListingReadsBack(naming: Naming, f: Format, v: Value, rest: seq<Byte>)
    requires f.Listing? && Fits(naming, f, v)
    ensures Decode(naming, f, Encode(f, v) + rest) == Parsed(v, rest)
    decreases f, 0
  {
    hide ReadNumber, Little, EncodeAll, DecodeMany;
    Pow256Values();
    var body := EncodeAll(f.item, v.vs);
    ReadNumberBack(|v.vs|, 4, body + rest);
    assert Encode(f, v) + rest == Little(|v.vs|, 4) + (body + rest);
    ListReadsBack(naming, f.item, f.order, v.vs, 0, rest);
    assert v.vs[0..] == v.vs && v.vs[..0] == [];
  }

  lemma TextReadsBack(naming: Naming, f: Format, v: Value, rest: seq<Byte>)
    requires f.Text? && Fits(naming, f, v)
    ensures Decode(naming, f, Encode(f, v) + rest) == Parsed(v, rest)
  {
    Pow256Values();
    ReadNumberBack(|v.s|, 4, v.s + rest);
    assert Encode(f, v) + rest == Little(|v.s|, 4) + (v.s + rest);
    assert (v.s + rest)[..|v.s|] == v.s && (v.s + rest)[|v.s|..] == rest;
  }

  lemma {:induction false} OptionalReadsBack(naming: Naming, f: Format, v: Value, rest: seq<Byte>)
    requires f.Optional? && Fits(naming, f, v)
    ensures Decode(naming, f, Encode(f, v) + rest) == Parsed(v, rest)
    decreases f, 0
  {
    hide ReadNumber, Little;
    Pow256Values();
    if v.Just? {
      ReadNumberBack(1, 1, Encode(f.some, v.v) + rest);
      assert Encode(f, v) + rest == Little(1, 1) + (Encode(f.some, v.v) + rest);
      ReadsBack(naming, f.some, v.v, rest);
    } else {
      ReadNumberBack(0, 1, rest);
    }
  }

  lemma {:induction false} ListReadsBack(
    naming: Naming, item: Format, order: Order, vs: seq<Value>, k: nat, rest: seq<Byte>)
    requires k <= |vs| && Orderly(naming, order, vs) && forall i :: 0 <= i < |vs| ==> Fits(naming, item, vs[i])
    ensures DecodeMany(naming, item, order, |vs| - k, vs[..k], EncodeAll(item, vs[k..]) + rest) == Parsed(vs, rest)
    decreases item, 2, |vs| - k
  {
    hide Encode, Decode;
    if k == |vs| {
      assert vs[k..] == [] && vs[..k] == vs && EncodeAll(item, vs[k..]) + rest == rest;
    } else {
      EncodeAllSplit(item, vs, k);
      var tail := EncodeAll(item, vs[k + 1..]) + rest;
      assert EncodeAll(item, vs[k..]) + rest == Encode(item, vs[k]) + tail;
      ReadsBack(naming, item, vs[k], tail);
      OrderlyJoins(naming, order, vs, k);
      ListReadsBack(naming, item, order, vs, k + 1, rest);
    }
  }

  // ---------------------------------------------------------------- only what was written is read

  /** A format without capability entries, whose listings are read in the order they were written. */
  predicate Plain(f: Format) {
    match f
    case Listing(item, _, order) => !order.Tagged? && Plain(item)
    case Optional(some) => Plain(some)
    case Then(head, tail) => Plain(head) && Plain(tail)
    case _ => true
  }

  lemma ReadNumberExact(width: nat, bytes: seq<Byte>)
    requires ReadNumber(width, bytes).Parsed?
    ensures var p := ReadNumber(width, bytes);
            p.value < Pow256(width) && bytes == Little(p.value, width) + p.rest
  {
    hide FromLittle, Little, Pow256;
    FromLittleRoundTrip(bytes[..width]);
  }

  lemma {:induction false} InsertTagOrderly(naming: Naming, v: Value, tags: seq<Value>)
    requires Orderly(naming, Tagged, tags) && TagOk(naming, v) && !HasTag(TagId(v), tags)
    ensures Orderly(naming, Tagged, InsertTag(v, tags)) && |InsertTag(v, tags)| == |tags| + 1
    ensures forall t :: t in InsertTag(v, tags) ==> t == v || t in tags
  {
    if tags != [] && !(TagId(v) < TagId(tags[0])) {
      var inner := InsertTag(v, tags[1..]);
      InsertTagOrderly(naming, v, tags[1..]);
      forall i | 0 <= i < |inner| ensures TagId(tags[0]) < TagId(inner[i]) {
        assert inner[i] in inner;
      }
    }
  }

  lemma JoinOrderly(naming: Naming, order: Order, acc: seq<Value>, v: Value)
    requires Orderly(naming, order, acc) && Joins(naming, order, acc, v)
    ensures Orderly(naming, order, Join(order, acc, v)) && |Join(order, acc, v)| == |acc| + 1
    ensures forall t :: t in Join(order, acc, v) ==> t == v || t in acc
  {
    if order.Tagged? {
      InsertTagOrderly(naming, v, acc);
    }
  }

  /** Whatever a reader accepts fits the format, and where no capability entries are sorted on the way in
      the bytes it consumed are exactly the ones the writer gives for the value. */
  lemma {:induction false} ReadsExactly(naming: Naming, f: Format, bytes: seq<Byte>)
    requires Decode(naming, f, bytes).Parsed?
    ensures var p := Decode(naming, f, bytes);
            Fits(naming, f, p.value) && (Plain(f) ==> bytes == Encode(f, p.value) + p.rest)
    decreases f, 1
  {
    hide ReadNumber, ReadWithin, Little, DecodeMany, EncodeAll;
    match f
    case Text(_) => TextReadsExactly(naming, f, bytes);
    case Listing(_, _, _) => ListingReadsExactly(naming, f, bytes);
    case Optional(_) => OptionalReadsExactly(naming, f, bytes);
    case Then(_, _) => PairReadsExactly(naming, f, bytes);
    case End =>
    case _ => NumberReadsExactly(naming, f, bytes);
  }

  lemma {:induction false} PairReadsExactly(naming: Naming, f: Format, bytes: seq<Byte>)
    requires f.Then? && Decode(naming, f, bytes).Parsed?
    ensures var p := Decode(naming, f, bytes);
            Fits(naming, f, p.value) && (Plain(f) ==> bytes == Encode(f, p.value) + p.rest)
    decreases f, 0
  {
    hide ReadNumber, ReadWithin, Little, DecodeMany, EncodeAll;
    var first := Decode(naming, f.head, bytes);
    var others := Decode(naming, f.tail, first.rest);
    ReadsExactly(naming, f.head, bytes);
    ReadsExactly(naming, f.tail, first.rest);
    assert Decode(naming, f, bytes) == Parsed(Cons(first.value, others.value), others.rest);
  }

  lemma NumberReadsExactly(naming: Naming, f: Format, bytes: seq<Byte>)
    requires f.Enum? || f.Flag? || f.Word? || f.Weight? || f.Long?
    requires Decode(naming, f, bytes).Parsed?
    ensures var p := Decode(naming, f, bytes); Fits(naming, f, p.value) && bytes == Encode(f, p.value) + p.rest
  {
    hide ReadNumber, Little;
    Pow256Values();
    ReadNumberExact(if f.Enum? || f.Flag? then 1 else if f.Long? then 8 else 4, bytes);
  }

  lemma TextReadsExactly(naming: Naming, f: Format, bytes: seq<Byte>)
    requires f.Text? && Decode(naming, f, bytes).Parsed?
    ensures var p := Decode(naming, f, bytes); Fits(naming, f, p.value) && bytes == Encode(f, p.value) + p.rest
  {
    hide ReadNumber, Little;
    ReadNumberExact(4, bytes);
    var n := ReadNumber(4, bytes);
    assert n.rest == n.rest[..n.value] + n.rest[n.value..];
  }

  lemma {:induction false} OptionalReadsExactly(naming: Naming, f: Format, bytes: seq<Byte>)
    requires f.Optional? && Decode(naming, f, bytes).Parsed?
    ensures var p := Decode(naming, f, bytes);
            Fits(naming, f, p.value) && (Plain(f) ==> bytes == Encode(f, p.value) + p.rest)
    decreases f, 0
  {
    hide ReadNumber, Little;
    ReadNumberExact(1, bytes);
    var n := ReadNumber(1, bytes);
    if n.value == 1 {
      ReadsExactly(naming, f.some, n.rest);
    }
  }

  lemma {:induction false} ListingReadsExactly(naming: Naming, f: Format, bytes: seq<Byte>)
    requires f.Listing? && Decode(naming, f, bytes).Parsed?
    ensures var p := Decode(naming, f, bytes);
            Fits(naming, f, p.value) && (Plain(f) ==> bytes == Encode(f, p.value) + p.rest)
    decreases f, 0
  {
    hide ReadNumber, Little, EncodeAll, DecodeMany;
    ReadNumberExact(4, bytes);
    var n := ReadNumber(4, bytes);
    ListReadsExactly(naming, f.item, f.order, n.value, [], n.rest);
    var vs := DecodeMany(naming, f.item, f.order, n.value, [], n.rest).value;
    assert vs[0..] == vs;
    forall i | 0 <= i < |vs| ensures Fits(naming, f.item, vs[i]) {
      assert vs[i] in vs;
    }
  }

  ghost predicate AllFit(naming: Naming, item: Format, vs: seq<Value>) {
    forall v :: v in vs ==> Fits(naming, item, v)
  }

  lemma {:induction false} ListReadsExactly(
    naming: Naming, item: Format, order: Order, n: nat, acc: seq<Value>, bytes: seq<Byte>)
    requires DecodeMany(naming, item, order, n, acc, bytes).Parsed?
    requires Orderly(naming, order, acc) && AllFit(naming, item, acc)
    ensures var p := DecodeMany(naming, item, order, n, acc, bytes);
            && |p.value| == |acc| + n && Orderly(naming, order, p.value) && AllFit(naming, item, p.value)
            && (!order.Tagged? ==> acc <= p.value)
            && (!order.Tagged? && Plain(item) ==> bytes == EncodeAll(item, p.value[|acc|..]) + p.rest)
    decreases item, 2, n
  {
    hide Encode, Decode, Fits, Orderly, Joins;
    var p := DecodeMany(naming, item, order, n, acc, bytes);
    if n == 0 {
      assert p.value[|acc|..] == [];
    } else {
      var v, rest := Decode(naming, item, bytes).value, Decode(naming, item, bytes).rest;
      ReadsExactly(naming, item, bytes);
      JoinOrderly(naming, order, acc, v);
      ListReadsExactly(naming, item, order, n - 1, Join(order, acc, v), rest);
      if !order.Tagged? {
        assert p.value[|acc|] == v;
        EncodeAllSplit(item, p.value, |acc|);
      }
    }
  }

  // ---------------------------------------------------------------- the writer and the reader

  class ByteWriter {
    var buffer: seq<Byte>

    constructor ()
      ensures buffer == []
    {
      buffer := [];
    }

    method U8(value: Byte)
      modifies this
      ensures buffer == old(buffer) + Little(value, 1)
    {
      buffer := buffer + [value];
    }

    method U16(value: nat)
      requires value < 0x1_0000
      modifies this
      ensures buffer == old(buffer) + Little(value, 2)
    {
      hide Little, Pow256;
      Pow256Values();
      LittleHalves(value % 0x100, value / 0x100, 1);
      U8(value % 0x100);
      U8(value / 0x100);
    }

    method U32(value: U32)
      modifies this
      ensures buffer == old(buffer) + Little(value, 4)
    {
      hide Little, Pow256;
      Pow256Values();
      LittleHalves(value % 0x1_0000, value / 0x1_0000, 2);
      U16(value % 0x1_0000);
      U16(value / 0x1_0000);
    }

    method U64(value: U64)
      modifies this
      ensures buffer == old(buffer) + Little(value, 8)
    {
      hide Little, Pow256;
      Pow256Values();
      LittleHalves(value % TWO_32, value / TWO_32, 4);
      U32(value % TWO_32);
      U32(value / TWO_32);
    }

    method Raw(bytes: seq<Byte>)
      modifies this
      ensures buffer == old(buffer) + bytes
    {
      buffer := buffer + bytes;
    }

    method Str(text: seq<Byte>)
      modifies this
      ensures buffer == old(buffer) + (Little(Wrap32(|text|), 4) + text)
    {
      U32(Wrap32(|text|));
      Raw(text);
    }

    /** Writes a value of a format, field after field. Numbers are cut to the width of their field; nothing
        is checked. */
    method Write(f: Format, v: Value)
      modifies this
      ensures buffer == old(buffer) + Encode(f, v)
      decreases f, 0
    {
      hide Little;
      match f {
        case Enum(_) => Number(v, 1);
        case Flag => Number(v, 1);
        case Word(_, _) => Number(v, 4);
        case Weight => Number(v, 4);
        case Long => Number(v, 8);
        case Text(_) => if v.Str? { Str(v.s); }
        case Listing(item, _, _) => if v.Items? { WriteAll(item, v.vs); }
        case Optional(some) =>
          if v.Just? {
            U8(1);
            Write(some, v.v);
          } else {
            U8(0);
          }
        case Then(head, tail) =>
          if v.Cons? {
            Write(head, v.first);
            Write(tail, v.others);
          }
        case End =>
      }
    }

    /** A count, and the entries in their order. */
    method WriteAll(item: Format, vs: seq<Value>)
      modifies this
      ensures buffer == old(buffer) + (Little(Wrap32(|vs|), 4) + EncodeAll(item, vs))
      decreases item, 1
    {
      hide Little, Encode;
      U32(Wrap32(|vs|));
      ghost var start := buffer;
      for i := 0 to |vs|
        invariant buffer == start + EncodeAll(item, vs[..i])
      {
        assert vs[..i + 1][..i] == vs[..i];
        Write(item, vs[i]);
      }
      assert vs[..|vs|] == vs;
    }

    method Number(v: Value, width: nat)
      requires width == 1 || width == 4 || width == 8
      modifies this
      ensures buffer == old(buffer) + if v.Num? then Little(v.n, width) else []
    {
      hide Little, Pow256;
      if v.Num? {
        Pow256Values();
        LittleCuts(v.n, width);
        if width == 1 {
          U8(v.n % 0x100);
        } else if width == 4 {
          U32(Wrap32(v.n));
        } else {
          U64(Wrap64(v.n));
        }
      }
    }
  }

  class ByteReader {
    const bytes: seq<Byte>
    var offset: nat

    constructor (bytes: seq<Byte>)
      ensures this.bytes == bytes && offset == 0 && Valid()
    {
      this.bytes := bytes;
      offset := 0;
    }

    ghost predicate Valid()
      reads this
    {
      offset <= |bytes|
    }

    /** What is left to read. */
    ghost function Rest(): seq<Byte>
      reads this
      requires Valid()
    {
      bytes[offset..]
    }

    method U8() returns (ok: bool, value: nat)
      requires Valid()
      modifies this
      ensures Valid() && ok == ReadNumber(1, old(Rest())).Parsed?
      ensures ok ==> ReadNumber(1, old(Rest())) == Parsed(value, Rest())
    {
      if |bytes| - offset < 1 {
        return false, 0;
      }
      ok, value := true, bytes[offset];
      OneByte(bytes[offset]);
      assert bytes[offset..][..1] == [bytes[offset]] && bytes[offset..][1..] == bytes[offset + 1..];
      offset := offset + 1;
    }

    method U16() returns (ok: bool, value: nat)
      requires Valid()
      modifies this
      ensures Valid() && ok == ReadNumber(2, old(Rest())).Parsed?
      ensures ok ==> ReadNumber(2, old(Rest())) == Parsed(value, Rest())
    {
      var low, high;
      ReadHalves(old(Rest()), 1);
      ok, low := U8();
      if !ok { return false, 0; }
      ok, high := U8();
      Pow256Values();
      value := low + 0x100 * high;
    }

    method U32() returns (ok: bool, value: nat)
      requires Valid()
      modifies this
      ensures Valid() && ok == ReadNumber(4, old(Rest())).Parsed?
      ensures ok ==> ReadNumber(4, old(Rest())) == Parsed(value, Rest())
    {
      var low, high;
      ReadHalves(old(Rest()), 2);
      ok, low := U16();
      if !ok { return false, 0; }
      ok, high := U16();
      Pow256Values();
      value := low + 0x1_0000 * high;
    }

    method U64() returns (ok: bool, value: nat)
      requires Valid()
      modifies this
      ensures Valid() && ok == ReadNumber(8, old(Rest())).Parsed?
      ensures ok ==> ReadNumber(8, old(Rest())) == Parsed(value, Rest())
    {
      var low, high;
      ReadHalves(old(Rest()), 4);
      ok, low := U32();
      if !ok { return false, 0; }
      ok, high := U32();
      Pow256Values();
      value := low + TWO_32 * high;
    }

    /** Reads a number and keeps it if it is accepted. */
    method Checked(width: nat, accept: nat -> bool) returns (ok: bool, v: Value)
      requires Valid() && (width == 1 || width == 4 || width == 8)
      modifies this
      ensures Valid() && ok == ReadWithin(width, accept, old(Rest())).Parsed?
      ensures ok ==> ReadWithin(width, accept, old(Rest())) == Parsed(v, Rest())
    {
      hide ReadNumber;
      var n;
      if width == 1 {
        ok, n := U8();
      } else if width == 4 {
        ok, n := U32();
      } else {
        ok, n := U64();
      }
      if !ok || !accept(n) { return false, Nothing; }
      v := Num(n);
    }

    method Text(longest: U32) returns (ok: bool, v: Value)
      requires Valid()
      modifies this
      ensures Valid() && forall naming: Naming ::
                ok == Decode(naming, Format.Text(longest), old(Rest())).Parsed?
      ensures ok ==> forall naming: Naming :: Decode(naming, Format.Text(longest), old(Rest())) == Parsed(v, Rest())
    {
      var n;
      ok, n := U32();
      if !ok || n > longest || n > |bytes| - offset { return false, Nothing; }
      v := Value.Str(bytes[offset..offset + n]);
      assert bytes[offset..][..n] == bytes[offset..offset + n];
      assert bytes[offset..][n..] == bytes[offset + n..];
      offset := offset + n;
    }

    /** Reads a value of a format: it succeeds exactly when `Decode` does, and stands where `Decode` ends. */
    method Read(naming: Naming, f: Format) returns (ok: bool, v: Value)
      requires Valid()
      modifies this
      ensures Valid() && ok == Decode(naming, f, old(Rest())).Parsed?
      ensures ok ==> Decode(naming, f, old(Rest())) == Parsed(v, Rest())
      decreases f, 1
    {
      hide ReadNumber, ReadWithin;
      match f {
        case Enum(last) => ok, v := Checked(1, n => n <= last);
        case Flag => ok, v := Checked(1, n => n <= 1);
        case Word(low, high) => ok, v := Checked(4, n => low <= n <= high);
        case Weight => ok, v := Checked(4, WeightWord);
        case Long => ok, v := Checked(8, n => true);
        case Text(longest) => ok, v := Text(longest);
        case Listing(_, _, _) => ok, v := ReadListing(naming, f);
        case Optional(some) =>
          var present;
          ok, present := Checked(1, n => n <= 1);
          if !ok { return false, Nothing; }
          if present == Num(0) { return true, Nothing; }
          ok, v := Read(naming, some);
          v := Just(v);
        case Then(head, tail) =>
          var first, others;
          ok, first := Read(naming, head);
          if !ok { return false, Nothing; }
          ok, others := Read(naming, tail);
          v := Cons(first, others);
        case End => return true, Nil;
      }
    }

    method ReadListing(naming: Naming, f: Format) returns (ok: bool, v: Value)
      requires Valid() && f.Listing?
      modifies this
      ensures Valid() && ok == Decode(naming, f, old(Rest())).Parsed?
      ensures ok ==> Decode(naming, f, old(Rest())) == Parsed(v, Rest())
      decreases f, 0
    {
      hide ReadNumber, Joins, Join;
      var n, item;
      ok, n := U32();
      if !ok || n > f.most { return false, Nothing; }
      var vs: seq<Value> := [];
      ghost var start := Rest();
      for i := 0 to n
        invariant Valid()
        invariant DecodeMany(naming, f.item, f.order, n, [], start)
               == DecodeMany(naming, f.item, f.order, n - i, vs, Rest())
      {
        ok, item := Read(naming, f.item);
        if !ok || !Joins(naming, f.order, vs, item) { return false, Nothing; }
        vs := Join(f.order, vs, item);
      }
      return true, Items(vs);
    }

    /** require_end. */
    method AtEnd() returns (ended: bool)
      requires Valid()
      ensures ended <==> Rest() == []
    {
      ended := offset == |bytes|;
    }
  }

  /** Reading at a place gives the number stored there. */
  lemma ReadAt(bytes: seq<Byte>, at: nat, width: nat)
    requires at + width <= |bytes|
    ensures ReadNumber(width, bytes[at..]) == Parsed(NumberAt(bytes, at, width), bytes[at + width..])
  {
    assert bytes[at..][..width] == bytes[at..at + width];
  }

  lemma OneByte(b: Byte)
    ensures FromLittle([b]) == b
  {
    assert [b][1..] == [];
  }

  /** A number is read as its low half and then its high half. */
  lemma ReadHalves(bytes: seq<Byte>, width: nat)
    ensures var low := ReadNumber(width, bytes);
            if low.Failed? || ReadNumber(width, low.rest).Failed? then ReadNumber(2 * width, bytes).Failed?
            else
              var high := ReadNumber(width, low.rest);
              ReadNumber(2 * width, bytes) == Parsed(low.value + Pow256(width) * high.value, high.rest)
  {
    if |bytes| >= 2 * width {
      FromLittleJoin(bytes[..width], bytes[width..][..width]);
      assert bytes[..2 * width] == bytes[..width] + bytes[width..][..width];
      assert bytes[width..][width..] == bytes[2 * width..];
    }
  }
}
