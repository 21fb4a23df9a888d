/** When the bytes of a record with capability entries are the ones the writer gives
    (src/record_codec.cpp:193-227): the reader sorts the entries, so exactly when they stand in ascending
    order. */
module TagOrder {
  import opened Prelude
  import opened Bytes
  import opened Codec
  import opened RecordCodec

  /** The same layout without the rule for capability entries: it reads them as they stand. */
  function Loosen(f: Format): Format {
    match f
    case Listing(item, most, order) => Listing(Loosen(item), most, if order.Tagged? then Free else order)
    case Optional(some) => Optional(Loosen(some))
    case Then(head, tail) => Then(Loosen(head), Loosen(tail))
    case _ => f
  }

  /** Entries whose order matters hold no capability entries. */
  predicate Shallow(f: Format) {
    match f
    case Listing(item, _, order) => if order.Free? then Shallow(item) else Plain(item)
    case Optional(some) => Shallow(some)
    case Then(head, tail) => Shallow(head) && Shallow(tail)
    case _ => true
  }

  /** Every capability entry in `v` carries the identity of its name. */
  ghost predicate TagsOk(naming: Naming, f: Format, v: Value)
    decreases f
  {
    match f
    case Listing(item, _, order) =>
      v.Items? ==>
        forall i :: 0 <= i < |v.vs| ==> TagsOk(naming, item, v.vs[i]) && (order.Tagged? ==> TagOk(naming, v.vs[i]))
    case Optional(some) => v.Just? ==> TagsOk(naming, some, v.v)
    case Then(head, tail) => v.Cons? ==> TagsOk(naming, head, v.first) && TagsOk(naming, tail, v.others)
    case _ => true
  }

  ghost predicate Ascend(vs: seq<Value>) {
    forall i, j :: 0 <= i < j < |vs| ==> TagId(vs[i]) < TagId(vs[j])
  }

  /** Every capability list in `v` is in ascending order of identity. */
  ghost predicate TagsAscend(f: Format, v: Value)
    decreases f
  {
    match f
    case Listing(item, _, order) =>
      v.Items? ==> (forall i :: 0 <= i < |v.vs| ==> TagsAscend(item, v.vs[i])) && (order.Tagged? ==> Ascend(v.vs))
    case Optional(some) => v.Just? ==> TagsAscend(some, v.v)
    case Then(head, tail) => v.Cons? ==> TagsAscend(head, v.first) && TagsAscend(tail, v.others)
    case _ => true
  }

  // ---------------------------------------------------------------- the loosened layout

  lemma {:induction false} LoosenPlain(f: Format)
    ensures Plain(Loosen(f)) && (Plain(f) ==> Loosen(f) == f && Shallow(f))
  {
    match f
    case Listing(item, _, _) => LoosenPlain(item);
    case Optional(some) => LoosenPlain(some);
    case Then(head, tail) => LoosenPlain(head); LoosenPlain(tail);
    case _ =>
  }

  lemma {:induction false} LoosenEncodes(f: Format, v: Value)
    ensures Encode(Loosen(f), v) == Encode(f, v)
    decreases f, 0
  {
    hide Little;
    match f
    case Listing(item, _, _) => if v.Items? { LoosenEncodesAll(item, v.vs); }
    case Optional(some) => if v.Just? { LoosenEncodes(some, v.v); }
    case Then(head, tail) => if v.Cons? { LoosenEncodes(head, v.first); LoosenEncodes(tail, v.others); }
    case _ =>
  }

  lemma {:induction false} LoosenEncodesAll(item: Format, vs: seq<Value>)
    ensures EncodeAll(Loosen(item), vs) == EncodeAll(item, vs)
    decreases item, 1, |vs|
  {
    hide Encode;
    if vs != [] {
      LoosenEncodes(item, vs[|vs| - 1]);
      LoosenEncodesAll(item, vs[..|vs| - 1]);
    }
  }

  /** A value fits if it fits the loosened layout and its capability lists are well-formed and ascending. */
  lemma {:induction false} LoosenFits(naming: Naming, f: Format, v: Value)
    ensures Fits(naming, f, v) <==> Fits(naming, Loosen(f), v) && TagsOk(naming, f, v) && TagsAscend(f, v)
    decreases f
  {
    hide TagOk, WeightWord, LexLess;
    match f
    case Listing(item, _, _) =>
      if v.Items? {
        forall i | 0 <= i < |v.vs|
          ensures Fits(naming, item, v.vs[i])
                  <==> Fits(naming, Loosen(item), v.vs[i]) && TagsOk(naming, item, v.vs[i]) && TagsAscend(item, v.vs[i])
        {
          LoosenFits(naming, item, v.vs[i]);
        }
      }
    case Optional(some) => if v.Just? { LoosenFits(naming, some, v.v); }
    case Then(head, tail) => if v.Cons? { LoosenFits(naming, head, v.first); LoosenFits(naming, tail, v.others); }
    case _ =>
  }

  // ---------------------------------------------------------------- reading the entries as they stand

  /** What a layout reads, the loosened one reads from the same bytes. */
  ghost predicate ReadsRaw(naming: Naming, f: Format, bytes: seq<Byte>) {
    Decode(naming, f, bytes).Parsed? ==>
      var raw := Decode(naming, Loosen(f), bytes);
      raw.Parsed? && raw.rest == Decode(naming, f, bytes).rest && TagsOk(naming, f, raw.value)
  }

  lemma {:induction false} LoosenReads(naming: Naming, f: Format, bytes: seq<Byte>)
    requires Shallow(f)
    ensures ReadsRaw(naming, f, bytes)
    decreases f, 1
  {
    hide ReadNumber, ReadWithin, DecodeMany;
    match f
    case Listing(_, _, _) => ListingReadsRaw(naming, f, bytes);
    case Optional(some) =>
      if ReadWithin(1, n => n <= 1, bytes).Parsed? {
        LoosenReads(naming, some, ReadWithin(1, n => n <= 1, bytes).rest);
      }
    case Then(head, tail) =>
      LoosenReads(naming, head, bytes);
      if Decode(naming, head, bytes).Parsed? {
        LoosenReads(naming, tail, Decode(naming, head, bytes).rest);
      }
    case _ =>
  }

  lemma {:induction false} ListingReadsRaw(naming: Naming, f: Format, bytes: seq<Byte>)
    requires f.Listing? && Shallow(f)
    ensures ReadsRaw(naming, f, bytes)
    decreases f, 0
  {
    hide ReadNumber, DecodeMany, TagOk;
    if ReadNumber(4, bytes).Parsed? {
      var n := ReadNumber(4, bytes);
      ManyReadRaw(naming, f.item, f.order, n.value, [], [], n.rest);
      ListedTagsOk(naming, f, DecodeMany(naming, Loosen(f.item), if f.order.Tagged? then Free else f.order, n.value, [],
                                         n.rest));
    }
  }

  ghost predicate ManyTagsOk(naming: Naming, item: Format, order: Order, vs: seq<Value>) {
    forall v :: v in vs ==> TagsOk(naming, item, v) && (order.Tagged? ==> TagOk(naming, v))
  }

  lemma ListedTagsOk(naming: Naming, f: Format, q: Parse<seq<Value>>)
    requires f.Listing?
    ensures q.Parsed? && ManyTagsOk(naming, f.item, f.order, q.value) ==> TagsOk(naming, f, Items(q.value))
  {
    hide TagOk;
    if q.Parsed? && ManyTagsOk(naming, f.item, f.order, q.value) {
      forall i | 0 <= i < |q.value|
        ensures TagsOk(naming, f.item, q.value[i]) && (f.order.Tagged? ==> TagOk(naming, q.value[i]))
      {
        assert q.value[i] in q.value;
      }
    }
  }

  /** Entry by entry: sorted or not, the same bytes are read. */
  lemma {:induction false} ManyReadRaw(
    naming: Naming, item: Format, order: Order, n: nat, acc: seq<Value>, raw: seq<Value>, bytes: seq<Byte>)
    requires if order.Free? then Shallow(item) else Plain(item)
    requires order.Strict? ==> acc == raw
    requires ManyTagsOk(naming, item, order, raw)
    ensures DecodeMany(naming, item, order, n, acc, bytes).Parsed? ==>
              var q := DecodeMany(naming, Loosen(item), if order.Tagged? then Free else order, n, raw, bytes);
              q.Parsed? && q.rest == DecodeMany(naming, item, order, n, acc, bytes).rest
              && ManyTagsOk(naming, item, order, q.value)
    decreases item, 2, n
  {
    hide Decode, Loosen, Plain, Shallow, TagsOk, TagOk;
    LoosenPlain(item);
    if n > 0 && Decode(naming, item, bytes).Parsed? {
      var v, rest := Decode(naming, item, bytes).value, Decode(naming, item, bytes).rest;
      LoosenReads(naming, item, bytes);
      var w := Decode(naming, Loosen(item), bytes).value;
      if Joins(naming, order, acc, v) {
        assert order.Free? || v == w;
        ManyReadRaw(naming, item, order, n - 1, Join(order, acc, v), raw + [w], rest);
      }
    }
  }

  // ---------------------------------------------------------------- canonical bytes

  /** Accepted bytes are the ones the writer gives for the value read if and only if every capability list
      in them stands in ascending order. */
  lemma CanonicalExactly(naming: Naming, f: Format, bytes: seq<Byte>)
    requires Shallow(f) && Decode(naming, f, bytes).Parsed?
    ensures var p := Decode(naming, f, bytes); var raw := Decode(naming, Loosen(f), bytes);
            && raw.Parsed? && raw.rest == p.rest && bytes == Encode(f, raw.value) + raw.rest
            && (bytes == Encode(f, p.value) + p.rest <==> TagsAscend(f, raw.value))
  {
    hide Decode, Encode, Fits, Shallow, TagsOk, TagsAscend;
    var p := Decode(naming, f, bytes);
    LoosenReads(naming, f, bytes);
    var raw := Decode(naming, Loosen(f), bytes);
    LoosenPlain(f);
    ReadsExactly(naming, Loosen(f), bytes);
    LoosenEncodes(f, raw.value);
    LoosenFits(naming, f, raw.value);
    if TagsAscend(f, raw.value) {
      ReadsBack(naming, f, raw.value, raw.rest);
    }
    if bytes == Encode(f, p.value) + p.rest {
      ReadsExactly(naming, f, bytes);
      LoosenFits(naming, f, p.value);
      LoosenEncodes(f, p.value);
      ReadsBack(naming, Loosen(f), p.value, p.rest);
    }
  }

  // ---------------------------------------------------------------- the persisted records

  lemma {:induction false} FieldsShallow(fs: seq<Format>)
    requires forall f :: f in fs ==> Shallow(f)
    ensures Shallow(Fields(fs))
  {
    if fs != [] {
      FieldsShallow(fs[1..]);
    }
  }

  lemma PartsShallow(b: Bounds)
    ensures Shallow(Capabilities(b)) && Shallow(TopologyFormat(b)) && Shallow(LocalityFormat(b))
    ensures Shallow(AcceleratorFormat(b)) && Shallow(ModelFormat(b)) && Shallow(SimulatorFormat(b))
    ensures Shallow(DatasetFormat(b)) && Shallow(EnvironmentFormat(b))
  {
    FieldsPlain([Long, Text(64)]);
    FieldsShallow([Long, Text(b.maxString)]);
    var domain := Fields([Long, Text(b.maxString)]);
    FieldsShallow([domain, domain, domain, domain, domain, Flag]);
    FieldsShallow([IdList(b.maxLocalDatasets), IdList(b.maxResidentModels), IdList(b.maxScenarios)]);
    FieldsShallow([Long, Text(b.maxString), Long, ANY_WORD, ANY_WORD, Long]);
    FieldsShallow([Long, Text(b.maxDigest), ANY_WORD, Flag, Flag, Capabilities(b)]);
    FieldsShallow([Long, Text(b.maxDigest), TextList(b.maxScenarios, b.maxString), ANY_WORD]);
    FieldsShallow([Long, Long, Text(b.maxDigest), Long]);
    FieldsShallow([Long, Text(b.maxDigest), Long, Long, Text(b.maxString)]);
  }

  lemma WeightsShallow()
    ensures Shallow(WEIGHTS)
  {
    FieldsShallow(Repeated(Weight, 12));
  }

  /** The layouts of resources and requests are of this kind. */
  lemma RecordsAreShallow(b: Bounds)
    ensures Shallow(ResourceFormat(b)) && Shallow(StoredRequestFormat(b))
  {
    hide Fields, Repeated;
    PartsShallow(b);
    WeightsShallow();
    FieldsShallow(ResourceFields(b));
    FieldsShallow(RequirementFields(b));
    FieldsShallow([ANY_WORD, ANY_WORD, SCOPE]);
    FieldsShallow(RequestFields(b));
    FieldsShallow([RequestFormat(b), Enum(5), Long, Long, ANY_WORD, Text(b.maxString)]);
  }
}
