/** The layouts of the persisted records, field by field (src/record_codec.cpp:37-1282), and the typed
    view of two of them. */
module RecordCodec {
  import opened Prelude
  import opened Records
  import opened Bytes
  import opened Codec

  /** The limits the readers check counts and lengths against. */
  datatype Bounds = Bounds(
    maxString: U32,
    maxDigest: U32,
    maxCapabilities: U32,
    maxAccelerators: U32,
    maxLocalDatasets: U32,
    maxResidentModels: U32,
    maxScenarios: U32,
    maxRequirements: U32,
    maxAllowlist: U32,
    maxDenylist: U32,
    maxPairs: U32,
    maxPersistenceRecords: U32,
    maxPersistenceBytes: U64)

  const ANY_WORD := Word(0, 0xffff_ffff)
  const CLASS := Enum(6)
  const HEALTH := Enum(3)
  const READINESS := Enum(3)
  const SCOPE := Enum(4)
  const SHARING := Enum(1)
  const MAX_REASSIGNMENTS := 16

  function Fields(fs: seq<Format>): Format {
    if fs == [] then End else Then(fs[0], Fields(fs[1..]))
  }

  function Repeated(f: Format, n: nat): seq<Format> {
    if n == 0 then [] else [f] + Repeated(f, n - 1)
  }

  /** The 34 words, the 64-bit size and the last word of the limits. */
  const LIMITS := Fields(Repeated(ANY_WORD, 34) + [Long, ANY_WORD])
  const WEIGHTS := Fields(Repeated(Weight, 12))

  function IdList(most: U32): Format { Listing(Long, most, Strict) }

  function TextList(most: U32, longest: U32): Format { Listing(Text(longest), most, Strict) }

  function Capabilities(b: Bounds): Format {
    Listing(Fields([Long, Text(64)]), b.maxCapabilities, Tagged)
  }

  function TopologyFormat(b: Bounds): Format {
    var domain := Fields([Long, Text(b.maxString)]);
    Fields([domain, domain, domain, domain, domain, Flag])
  }

  function LocalityFormat(b: Bounds): Format {
    Fields([IdList(b.maxLocalDatasets), IdList(b.maxResidentModels), IdList(b.maxScenarios)])
  }

  function AcceleratorFormat(b: Bounds): Format {
    Fields([Long, Text(b.maxString), Long, ANY_WORD, ANY_WORD, Long])
  }

  function ModelFormat(b: Bounds): Format {
    Fields([Long, Text(b.maxDigest), ANY_WORD, Flag, Flag, Capabilities(b)])
  }

  function SimulatorFormat(b: Bounds): Format {
    Fields([Long, Text(b.maxDigest), TextList(b.maxScenarios, b.maxString), ANY_WORD])
  }

  function DatasetFormat(b: Bounds): Format {
    Fields([Long, Long, Text(b.maxDigest), Long])
  }

  function EnvironmentFormat(b: Bounds): Format {
    Fields([Long, Text(b.maxDigest), Long, Long, Text(b.maxString)])
  }

  function ResourceFields(b: Bounds): seq<Format> {
    [Long, CLASS, Text(b.maxString), Long, Long, Enum(2), SHARING, Capabilities(b),
     ANY_WORD, Long, ANY_WORD, ANY_WORD, HEALTH, Text(b.maxString), READINESS,
     TopologyFormat(b), LocalityFormat(b), Listing(AcceleratorFormat(b), b.maxAccelerators, Free),
     Optional(ModelFormat(b)), Optional(SimulatorFormat(b)), Optional(DatasetFormat(b)),
     Optional(EnvironmentFormat(b)),
     Text(b.maxString), TextList(b.maxCapabilities, b.maxString), Enum(3),
     Long, Long, Long, Long, Long, Flag, Text(b.maxString), ANY_WORD]
  }

  function ResourceFormat(b: Bounds): Format { Fields(ResourceFields(b)) }

  function RequirementFields(b: Bounds): seq<Format> {
    [Text(b.maxString), CLASS, Capabilities(b), ANY_WORD, Long, Flag, Flag, HEALTH, ANY_WORD,
     Optional(Long), Optional(Long), Text(b.maxDigest), Flag,
     Optional(Long), Text(b.maxDigest), Text(b.maxString), Flag,
     Optional(Long), Optional(Long), Optional(Long), Text(b.maxDigest),
     Optional(Long), Optional(Long), Optional(Long), SCOPE,
     IdList(b.maxAllowlist), IdList(b.maxDenylist), ANY_WORD]
  }

  function RequirementFormat(b: Bounds): Format { Fields(RequirementFields(b)) }

  function RequestFields(b: Bounds): seq<Format> {
    var pair := Fields([ANY_WORD, ANY_WORD, SCOPE]);
    [Long, Long, Long, Long, Text(b.maxString), Text(b.maxString), Word(1000, 3000),
     Listing(RequirementFormat(b), b.maxRequirements, Free),
     Listing(pair, b.maxPairs, Free), Listing(pair, b.maxPairs, Free),
     Flag, Flag, Flag, Flag, Word(0, MAX_REASSIGNMENTS), WEIGHTS, Text(b.maxString), Text(b.maxString)]
  }

  function RequestFormat(b: Bounds): Format { Fields(RequestFields(b)) }

  function StoredRequestFormat(b: Bounds): Format {
    Fields([RequestFormat(b), Enum(5), Long, Long, ANY_WORD, Text(b.maxString)])
  }

  function SelectedFormat(b: Bounds): Format {
    Fields([Long, CLASS, Long, ANY_WORD, Flag, Text(b.maxString), Long, Long, Text(b.maxString)])
  }

  /** The identities and resources of a placement, then its reservation, state and texts. */
  function PlacementHeadFormat(b: Bounds): seq<Format> {
    [Long, Long, Long, Long, Long, Long, Long, Long, Listing(SelectedFormat(b), b.maxRequirements, Free)]
  }

  function PlacementTailFormat(b: Bounds): seq<Format> {
    [Long, Long, Long, Long, Enum(8), Word(0, MAX_REASSIGNMENTS), Flag, Text(b.maxString), Long, Text(b.maxString)]
  }

  function PlacementFormat(b: Bounds): Format {
    Fields(PlacementHeadFormat(b) + PlacementTailFormat(b))
  }

  const CLAIM := Fields([Long, ANY_WORD, Flag, Long])

  function ReservationFormat(b: Bounds): Format {
    Fields(
      [Long, Long, Long, Long, Long, Long, Long, Long, Listing(CLAIM, b.maxRequirements, Free),
       Enum(2), Long, Text(b.maxString)])
  }

  /** The payload of the persistence container: the scalars, then the four record lists. */
  function DurableHeadFormat(b: Bounds): seq<Format> {
    [Word(1, 1), Long, LIMITS, WEIGHTS, Long, Text(b.maxString)]
  }

  function DurableTailFormat(b: Bounds): seq<Format> {
    [Listing(ResourceFormat(b), b.maxPersistenceRecords, Free),
     Listing(StoredRequestFormat(b), b.maxPersistenceRecords, Free),
     Listing(PlacementFormat(b), b.maxPersistenceRecords, Free),
     Listing(ReservationFormat(b), b.maxPersistenceRecords, Free)]
  }

  function DurableFormat(b: Bounds): Format {
    Fields(DurableHeadFormat(b) + DurableTailFormat(b))
  }

  /** Placements and reservations hold no capability entries: their bytes are canonical. */
  lemma LedgerFormatsArePlain(b: Bounds)
    ensures Plain(PlacementFormat(b)) && Plain(ReservationFormat(b))
  {
    FieldsPlain([Long, CLASS, Long, ANY_WORD, Flag, Text(b.maxString), Long, Long, Text(b.maxString)]);
    FieldsPlain([Long, ANY_WORD, Flag, Long]);
    FieldsPlain(PlacementHeadFormat(b) + PlacementTailFormat(b));
    FieldsPlain(
      [Long, Long, Long, Long, Long, Long, Long, Long, Listing(CLAIM, b.maxRequirements, Free),
       Enum(2), Long, Text(b.maxString)]);
  }

  lemma {:induction false} FieldsPlain(fs: seq<Format>)
    requires forall f :: f in fs ==> Plain(f)
    ensures Plain(Fields(fs))
  {
    if fs != [] {
      FieldsPlain(fs[1..]);
    }
  }

  // ---------------------------------------------------------------- typed placements and reservations

  function Row(vs: seq<Value>): Value {
    if vs == [] then Nil else Cons(vs[0], Row(vs[1..]))
  }

  /** The column values of a record. */
  function Columns(v: Value): seq<Value> {
    if v.Cons? then [v.first] + Columns(v.others) else []
  }

  lemma {:induction false} RowColumns(vs: seq<Value>)
    ensures Columns(Row(vs)) == vs
  {
    if vs != [] {
      RowColumns(vs[1..]);
    }
  }

  lemma {:induction false} RowFits(naming: Naming, fs: seq<Format>, vs: seq<Value>)
    requires |fs| == |vs|
    ensures Fits(naming, Fields(fs), Row(vs)) <==> forall i :: 0 <= i < |fs| ==> Fits(naming, fs[i], vs[i])
  {
    if fs != [] {
      RowFits(naming, fs[1..], vs[1..]);
      assert fs == [fs[0]] + fs[1..] && vs == [vs[0]] + vs[1..];
    }
  }

  function Bit(b: bool): nat { if b then 1 else 0 }

  /** A reservation as it is stored, with the texts the engine model leaves out. */
  datatype StoredReservation = StoredReservation(reservation: Reservation, sequence: U64, detail: seq<Byte>)

  function StateCode(state: ReservationState): Byte {
    match state
    case Active => 0
    case Released => 1
    case Revoked => 2
  }

  function StateOf(code: nat): ReservationState {
    if code == 0 then Active else if code == 1 then Released else Revoked
  }

  function ClaimRow(c: Claim): Value {
    Row([Num(c.resource), Num(c.slots), Num(Bit(c.exclusive)), Num(c.generationAtAcquire)])
  }

  function ClaimOfRow(v: Value): Claim {
    var c := Columns(v);
    if |c| == 4 && (forall i :: 0 <= i < 4 ==> c[i].Num?) && c[0].n < TWO_64 && c[1].n < TWO_32 then
      Claim(c[0].n, c[1].n, c[2].n == 1, c[3].n)
    else Claim(0, 0, false, 0)
  }

  function ReservationRow(s: StoredReservation): Value {
    var rv := s.reservation;
    Row([Num(rv.id), Num(rv.lease), Num(rv.placement), Num(rv.placementGeneration), Num(rv.request),
         Num(rv.experiment), Num(rv.experimentGeneration), Num(rv.epoch),
         Items(seq(|rv.claims|, i requires 0 <= i < |rv.claims| => ClaimRow(rv.claims[i]))),
         Num(StateCode(rv.state)), Num(s.sequence), Str(s.detail)])
  }

  predicate NumbersAt(c: seq<Value>, at: set<nat>) {
    forall i :: i in at ==> i < |c| && c[i].Num? && c[i].n < TWO_64
  }

  function ReservationOfRow(v: Value): Option<StoredReservation> {
    var c := Columns(v);
    if |c| == 12 && NumbersAt(c, {0, 1, 2, 3, 4, 5, 6, 7, 9, 10}) && c[8].Items? && c[11].Str? then
      Some(StoredReservation(
             Reservation(c[0].n, c[1].n, c[2].n, c[3].n, c[4].n, c[5].n, c[6].n, c[7].n,
                         seq(|c[8].vs|, i requires 0 <= i < |c[8].vs| => ClaimOfRow(c[8].vs[i])), StateOf(c[9].n)),
             c[10].n, c[11].s))
    else None
  }

  /** What the writer's integer widths and the reader's bounds ask of a reservation. */
  ghost predicate ReservationInBounds(b: Bounds, s: StoredReservation) {
    var rv := s.reservation;
    && rv.placementGeneration < TWO_64 && rv.epoch < TWO_64
    && |rv.claims| <= b.maxRequirements && (forall c :: c in rv.claims ==> c.generationAtAcquire < TWO_64)
    && |s.detail| <= b.maxString
  }

  lemma ClaimRowBack(naming: Naming, c: Claim)
    ensures Fits(naming, CLAIM, ClaimRow(c)) <==> c.generationAtAcquire < TWO_64
    ensures ClaimOfRow(ClaimRow(c)) == c
  {
    var vs := [Num(c.resource), Num(c.slots), Num(Bit(c.exclusive)), Num(c.generationAtAcquire)];
    var fs := [Long, ANY_WORD, Flag, Long];
    RowColumns(vs);
    RowFits(naming, fs, vs);
    assert Fits(naming, fs[0], vs[0]) && Fits(naming, fs[1], vs[1]) && Fits(naming, fs[2], vs[2]);
    assert Fits(naming, fs[3], vs[3]) <==> c.generationAtAcquire < TWO_64;
  }

  lemma ReservationRowBack(s: StoredReservation)
    requires s.reservation.placementGeneration < TWO_64 && s.reservation.epoch < TWO_64
    ensures ReservationOfRow(ReservationRow(s)) == Some(s)
  {
    var rv := s.reservation;
    var rows := seq(|rv.claims|, i requires 0 <= i < |rv.claims| => ClaimRow(rv.claims[i]));
    RowColumns([Num(rv.id), Num(rv.lease), Num(rv.placement), Num(rv.placementGeneration), Num(rv.request),
                Num(rv.experiment), Num(rv.experimentGeneration), Num(rv.epoch), Items(rows),
                Num(StateCode(rv.state)), Num(s.sequence), Str(s.detail)]);
    forall i | 0 <= i < |rows| ensures ClaimOfRow(rows[i]) == rv.claims[i] {
      ClaimRowBack(_ => 0, rv.claims[i]);
    }
    assert seq(|rows|, i requires 0 <= i < |rows| => ClaimOfRow(rows[i])) == rv.claims;
  }

  /** What each kind of field accepts. */
  lemma LeavesFit(naming: Naming)
    ensures forall n: nat :: Fits(naming, Long, Num(n)) <==> n < TWO_64
    ensures forall last: Byte, n: nat :: Fits(naming, Enum(last), Num(n)) <==> n <= last
    ensures forall n: nat :: Fits(naming, Flag, Num(n)) <==> n <= 1
    ensures forall low: U32, high: U32, n: nat :: Fits(naming, Word(low, high), Num(n)) <==> low <= n <= high
    ensures forall longest: U32, s: seq<Byte> :: Fits(naming, Text(longest), Str(s)) <==> |s| <= longest
  {
  }

  lemma RowsFit(naming: Naming, item: Format, rows: seq<Value>, most: U32)
    ensures Fits(naming, Listing(item, most, Free), Items(rows))
            <==> |rows| <= most && forall i :: 0 <= i < |rows| ==> Fits(naming, item, rows[i])
  {
  }

  lemma ReservationRowFits(naming: Naming, b: Bounds, s: StoredReservation)
    ensures Fits(naming, ReservationFormat(b), ReservationRow(s)) <==> ReservationInBounds(b, s)
  {
    hide Fits, Row, Fields, ClaimRow;
    var rv := s.reservation;
    var rows := seq(|rv.claims|, i requires 0 <= i < |rv.claims| => ClaimRow(rv.claims[i]));
    var vs := [Num(rv.id), Num(rv.lease), Num(rv.placement), Num(rv.placementGeneration), Num(rv.request),
               Num(rv.experiment), Num(rv.experimentGeneration), Num(rv.epoch), Items(rows),
               Num(StateCode(rv.state)), Num(s.sequence), Str(s.detail)];
    var fs := [Long, Long, Long, Long, Long, Long, Long, Long, Listing(CLAIM, b.maxRequirements, Free),
               Enum(2), Long, Text(b.maxString)];
    RowFits(naming, fs, vs);
    LeavesFit(naming);
    RowsFit(naming, CLAIM, rows, b.maxRequirements);
    assert Fits(naming, fs[0], vs[0]) && Fits(naming, fs[1], vs[1]) && Fits(naming, fs[2], vs[2]);
    assert Fits(naming, fs[4], vs[4]) && Fits(naming, fs[5], vs[5]) && Fits(naming, fs[6], vs[6]);
    assert Fits(naming, fs[9], vs[9]) && Fits(naming, fs[10], vs[10]);
    assert Fits(naming, fs[3], vs[3]) <==> rv.placementGeneration < TWO_64;
    assert Fits(naming, fs[7], vs[7]) <==> rv.epoch < TWO_64;
    assert fs[8] == Listing(CLAIM, b.maxRequirements, Free) && vs[8] == Items(rows);
    assert Fits(naming, fs[11], vs[11]) <==> |s.detail| <= b.maxString;
    forall i | 0 <= i < |rows| ensures Fits(naming, CLAIM, rows[i]) <==> rv.claims[i].generationAtAcquire < TWO_64 {
      ClaimRowBack(naming, rv.claims[i]);
    }
  }

  /** A reservation within bounds is read back as it was written. */
  lemma ReservationRoundTrip(naming: Naming, b: Bounds, s: StoredReservation, rest: seq<Byte>)
    requires ReservationInBounds(b, s)
    ensures var p := Decode(naming, ReservationFormat(b), Encode(ReservationFormat(b), ReservationRow(s)) + rest);
            p.Parsed? && p.rest == rest && ReservationOfRow(p.value) == Some(s)
  {
    hide Fits, Encode, Decode, ReservationOfRow, ReservationRow;
    ReservationRowFits(naming, b, s);
    ReservationRowBack(s);
    ReadsBack(naming, ReservationFormat(b), ReservationRow(s), rest);
  }

  // ---------------------------------------------------------------- typed placements

  /** A placement as it is stored: resource names and detail texts beside the engine's record. */
  datatype StoredPlacement =
    StoredPlacement(placement: Placement, names: seq<seq<Byte>>, detail: seq<Byte>, sequence: U64,
                    completion: seq<Byte>)

  function ClassCode(c: ResourceClass): Byte {
    match c
    case Model => 0
    case Gpu => 1
    case Simulator => 2
    case Dataset => 3
    case PhysicalEnvironment => 4
    case VirtualEnvironment => 5
    case WorkerClass => 6
  }

  function ClassOf(code: nat): ResourceClass {
    if code == 0 then Model
    else if code == 1 then Gpu
    else if code == 2 then Simulator
    else if code == 3 then Dataset
    else if code == 4 then PhysicalEnvironment
    else if code == 5 then VirtualEnvironment
    else WorkerClass
  }

  function PhaseCode(state: PlacementState): Byte {
    match state
    case Reserved => 0
    case Assigned => 1
    case Running => 2
    case Completed => 3
    case Failed => 4
    case Cancelled => 5
    case Preempted => 6
    case ReassignmentRequired => 7
    case LostPlacement => 8
  }

  function PhaseOf(code: nat): PlacementState {
    if code == 0 then Reserved
    else if code == 1 then Assigned
    else if code == 2 then Running
    else if code == 3 then Completed
    else if code == 4 then PlacementState.Failed
    else if code == 5 then Cancelled
    else if code == 6 then Preempted
    else if code == 7 then ReassignmentRequired
    else LostPlacement
  }

  /** Text of the model as bytes; a character past 255 has no byte. */
  predicate Bytewise(text: string) {
    forall i :: 0 <= i < |text| ==> text[i] as int < 256
  }

  function BytesOf(text: string): seq<Byte> {
    seq(|text|, i requires 0 <= i < |text| => text[i] as int % 256)
  }

  function TextOf(bytes: seq<Byte>): string {
    seq(|bytes|, i requires 0 <= i < |bytes| => bytes[i] as char)
  }

  lemma TextBack(text: string)
    requires Bytewise(text)
    ensures TextOf(BytesOf(text)) == text
  {
  }

  function SelectedRow(x: Selected, name: seq<Byte>): Value {
    Row([Num(x.resource), Num(ClassCode(x.resourceClass)), Num(x.generation), Num(x.slots), Num(Bit(x.exclusive)),
         Str(BytesOf(x.requirementName)), Num(x.worker), Num(x.workerBoot), Str(name)])
  }

  function SelectedOfRow(v: Value): (Selected, seq<Byte>) {
    var c := Columns(v);
    if |c| == 9 && NumbersAt(c, {0, 1, 2, 3, 4, 6, 7}) && c[3].n < TWO_32 && c[5].Str? && c[8].Str? then
      (Selected(c[0].n, ClassOf(c[1].n), c[2].n, c[3].n, c[4].n == 1, TextOf(c[5].s), c[6].n, c[7].n), c[8].s)
    else (Selected(0, Model, 0, 0, false, "", 0, 0), [])
  }

  function SelectedRows(s: StoredPlacement): seq<Value>
    requires |s.names| == |s.placement.resources|
  {
    seq(|s.names|, i requires 0 <= i < |s.names| => SelectedRow(s.placement.resources[i], s.names[i]))
  }

  function PlacementHead(s: StoredPlacement): seq<Value>
    requires |s.names| == |s.placement.resources|
  {
    var p := s.placement;
    [Num(p.id), Num(p.generation), Num(p.request), Num(p.decision), Num(p.experiment), Num(p.experimentGeneration),
     Num(p.trial), Num(p.epoch), Items(SelectedRows(s))]
  }

  function PlacementTail(s: StoredPlacement): seq<Value> {
    var p := s.placement;
    [Num(p.reservation), Num(p.lease), Num(p.worker), Num(p.workerBoot), Num(PhaseCode(p.state)),
     Num(p.reassignmentCount), Num(Bit(p.completionRecorded)), Str(s.detail), Num(s.sequence), Str(s.completion)]
  }

  function PlacementRow(s: StoredPlacement): Value
    requires |s.names| == |s.placement.resources|
  {
    Row(PlacementHead(s) + PlacementTail(s))
  }

  function PlacementOfRow(v: Value): Option<StoredPlacement> {
    var c := Columns(v);
    if |c| == 19 && NumbersAt(c, {0, 1, 2, 3, 4, 5, 6, 7, 9, 10, 11, 12, 13, 14, 15, 17}) && c[8].Items?
       && c[16].Str? && c[18].Str? then
      var rows := seq(|c[8].vs|, i requires 0 <= i < |c[8].vs| => SelectedOfRow(c[8].vs[i]));
      Some(StoredPlacement(
             Placement(c[0].n, c[1].n, c[2].n, c[3].n, c[4].n, c[5].n, c[6].n, c[7].n,
                       seq(|rows|, i requires 0 <= i < |rows| => rows[i].0), c[9].n, c[10].n, c[11].n, c[12].n,
                       PhaseOf(c[13].n), c[14].n, c[15].n == 1),
             seq(|rows|, i requires 0 <= i < |rows| => rows[i].1), c[16].s, c[17].n, c[18].s))
    else None
  }

  ghost predicate SelectedInBounds(b: Bounds, x: Selected, name: seq<Byte>) {
    x.generation < TWO_64 && |x.requirementName| <= b.maxString && |name| <= b.maxString
  }

  /** What the writer's integer widths and the reader's bounds ask of a placement. */
  ghost predicate PlacementInBounds(b: Bounds, s: StoredPlacement) {
    var p := s.placement;
    && |s.names| == |p.resources| <= b.maxRequirements
    && (forall i :: 0 <= i < |s.names| ==> SelectedInBounds(b, p.resources[i], s.names[i]))
    && p.generation < TWO_64 && p.epoch < TWO_64 && p.reassignmentCount <= MAX_REASSIGNMENTS
    && |s.detail| <= b.maxString && |s.completion| <= b.maxString
  }

  lemma SelectedRowFits(naming: Naming, b: Bounds, x: Selected, name: seq<Byte>)
    ensures Fits(naming, SelectedFormat(b), SelectedRow(x, name)) <==> SelectedInBounds(b, x, name)
  {
    hide Fits, Row, Fields;
    var vs := [Num(x.resource), Num(ClassCode(x.resourceClass)), Num(x.generation), Num(x.slots),
               Num(Bit(x.exclusive)), Str(BytesOf(x.requirementName)), Num(x.worker), Num(x.workerBoot), Str(name)];
    var fs := [Long, CLASS, Long, ANY_WORD, Flag, Text(b.maxString), Long, Long, Text(b.maxString)];
    RowFits(naming, fs, vs);
    LeavesFit(naming);
    assert Fits(naming, fs[0], vs[0]) && Fits(naming, fs[1], vs[1]) && Fits(naming, fs[3], vs[3]);
    assert Fits(naming, fs[4], vs[4]) && Fits(naming, fs[6], vs[6]) && Fits(naming, fs[7], vs[7]);
    assert Fits(naming, fs[2], vs[2]) <==> x.generation < TWO_64;
    assert Fits(naming, fs[5], vs[5]) <==> |x.requirementName| <= b.maxString;
    assert Fits(naming, fs[8], vs[8]) <==> |name| <= b.maxString;
  }

  lemma SelectedRowBack(x: Selected, name: seq<Byte>)
    requires x.generation < TWO_64 && Bytewise(x.requirementName)
    ensures SelectedOfRow(SelectedRow(x, name)) == (x, name)
  {
    hide Row, Columns, BytesOf, TextOf;
    RowColumns([Num(x.resource), Num(ClassCode(x.resourceClass)), Num(x.generation), Num(x.slots),
                Num(Bit(x.exclusive)), Str(BytesOf(x.requirementName)), Num(x.worker), Num(x.workerBoot), Str(name)]);
    TextBack(x.requirementName);
  }

  lemma SelectedRowsFit(naming: Naming, b: Bounds, s: StoredPlacement)
    requires |s.names| == |s.placement.resources|
    ensures Fits(naming, Listing(SelectedFormat(b), b.maxRequirements, Free), Items(SelectedRows(s))) <==>
              |s.names| <= b.maxRequirements
              && forall i :: 0 <= i < |s.names| ==> SelectedInBounds(b, s.placement.resources[i], s.names[i])
  {
    hide Fits, SelectedRow, SelectedInBounds, SelectedFormat;
    RowsFit(naming, SelectedFormat(b), SelectedRows(s), b.maxRequirements);
    forall i | 0 <= i < |s.names|
      ensures Fits(naming, SelectedFormat(b), SelectedRows(s)[i])
              <==> SelectedInBounds(b, s.placement.resources[i], s.names[i])
    {
      SelectedRowFits(naming, b, s.placement.resources[i], s.names[i]);
    }
  }

  ghost predicate ColumnsFit(naming: Naming, fs: seq<Format>, vs: seq<Value>) {
    |fs| == |vs| && forall i :: 0 <= i < |fs| ==> Fits(naming, fs[i], vs[i])
  }

  lemma ColumnsJoin(naming: Naming, fs: seq<Format>, vs: seq<Value>, gs: seq<Format>, ws: seq<Value>)
    requires |fs| == |vs| && |gs| == |ws|
    ensures Fits(naming, Fields(fs + gs), Row(vs + ws))
            <==> ColumnsFit(naming, fs, vs) && ColumnsFit(naming, gs, ws)
  {
    hide Fits, Fields, Row;
    RowFits(naming, fs + gs, vs + ws);
    if forall i :: 0 <= i < |fs + gs| ==> Fits(naming, (fs + gs)[i], (vs + ws)[i]) {
      forall i | 0 <= i < |fs| ensures Fits(naming, fs[i], vs[i]) {
        assert (fs + gs)[i] == fs[i] && (vs + ws)[i] == vs[i];
      }
      forall i | 0 <= i < |gs| ensures Fits(naming, gs[i], ws[i]) {
        assert (fs + gs)[|fs| + i] == gs[i] && (vs + ws)[|fs| + i] == ws[i];
      }
    }
  }

  lemma PlacementHeadFits(naming: Naming, b: Bounds, s: StoredPlacement)
    requires |s.names| == |s.placement.resources|
    ensures ColumnsFit(naming, PlacementHeadFormat(b), PlacementHead(s)) <==>
              s.placement.generation < TWO_64 && s.placement.epoch < TWO_64 && |s.names| <= b.maxRequirements
              && forall i :: 0 <= i < |s.names| ==> SelectedInBounds(b, s.placement.resources[i], s.names[i])
  {
    hide Fits, SelectedRows, SelectedInBounds, SelectedFormat;
    var fs, vs := PlacementHeadFormat(b), PlacementHead(s);
    LeavesFit(naming);
    SelectedRowsFit(naming, b, s);
    assert Fits(naming, fs[1], vs[1]) <==> s.placement.generation < TWO_64;
    assert Fits(naming, fs[7], vs[7]) <==> s.placement.epoch < TWO_64;
    assert fs[8] == Listing(SelectedFormat(b), b.maxRequirements, Free) && vs[8] == Items(SelectedRows(s));
  }

  lemma PlacementTailFits(naming: Naming, b: Bounds, s: StoredPlacement)
    ensures ColumnsFit(naming, PlacementTailFormat(b), PlacementTail(s)) <==>
              s.placement.reassignmentCount <= MAX_REASSIGNMENTS
              && |s.detail| <= b.maxString && |s.completion| <= b.maxString
  {
    hide Fits;
    var fs, vs := PlacementTailFormat(b), PlacementTail(s);
    LeavesFit(naming);
    assert Fits(naming, fs[5], vs[5]) <==> s.placement.reassignmentCount <= MAX_REASSIGNMENTS;
    assert Fits(naming, fs[7], vs[7]) <==> |s.detail| <= b.maxString;
    assert Fits(naming, fs[9], vs[9]) <==> |s.completion| <= b.maxString;
  }

  lemma PlacementRowFits(naming: Naming, b: Bounds, s: StoredPlacement)
    requires |s.names| == |s.placement.resources|
    ensures Fits(naming, PlacementFormat(b), PlacementRow(s)) <==> PlacementInBounds(b, s)
  {
    hide Fits, Row, Fields, ColumnsFit, SelectedInBounds;
    ColumnsJoin(naming, PlacementHeadFormat(b), PlacementHead(s), PlacementTailFormat(b), PlacementTail(s));
    PlacementHeadFits(naming, b, s);
    PlacementTailFits(naming, b, s);
  }

  lemma PlacementRowBack(b: Bounds, s: StoredPlacement)
    requires PlacementInBounds(b, s)
    requires forall x :: x in s.placement.resources ==> Bytewise(x.requirementName)
    ensures PlacementOfRow(PlacementRow(s)) == Some(s)
  {
    hide Row, Columns, SelectedRow, SelectedOfRow;
    var p := s.placement;
    RowColumns(PlacementHead(s) + PlacementTail(s));
    var rows := SelectedRows(s);
    forall i | 0 <= i < |rows| ensures SelectedOfRow(rows[i]) == (p.resources[i], s.names[i]) {
      SelectedRowBack(p.resources[i], s.names[i]);
    }
    var back := seq(|rows|, i requires 0 <= i < |rows| => SelectedOfRow(rows[i]));
    assert seq(|back|, i requires 0 <= i < |back| => back[i].0) == p.resources;
    assert seq(|back|, i requires 0 <= i < |back| => back[i].1) == s.names;
  }

  /** A placement within bounds is read back as it was written. */
  lemma PlacementRoundTrip(naming: Naming, b: Bounds, s: StoredPlacement, rest: seq<Byte>)
    requires PlacementInBounds(b, s)
    requires forall x :: x in s.placement.resources ==> Bytewise(x.requirementName)
    ensures var p := Decode(naming, PlacementFormat(b), Encode(PlacementFormat(b), PlacementRow(s)) + rest);
            p.Parsed? && p.rest == rest && PlacementOfRow(p.value) == Some(s)
  {
    hide Fits, Encode, Decode, PlacementOfRow, PlacementRow;
    PlacementRowFits(naming, b, s);
    PlacementRowBack(b, s);
    ReadsBack(naming, PlacementFormat(b), PlacementRow(s), rest);
  }

  // ---------------------------------------------------------------- capability entries are not canonical

  /** Two capability entries written in descending order are accepted and sorted: the bytes read are not
      the ones the writer gives for the value. */
  lemma TagsAreReordered(naming: Naming, item: Format, most: U32, a: Value, b: Value, rest: seq<Byte>)
    requires Fits(naming, item, a) && Fits(naming, item, b) && most >= 2
    requires TagOk(naming, a) && TagOk(naming, b) && TagId(b) < TagId(a)
    ensures Decode(naming, Listing(item, most, Tagged), Encode(Listing(item, most, Free), Items([a, b])) + rest)
         == Parsed(Items([b, a]), rest)
  {
    hide Encode, Decode, Fits, ReadNumber, Little;
    Pow256Values();
    var body := Encode(item, a) + (Encode(item, b) + rest);
    EncodePair(item, most, a, b, rest);
    ReadNumberBack(2, 4, body);
    ReadsBack(naming, item, a, Encode(item, b) + rest);
    ReadsBack(naming, item, b, rest);
    ReadPair(naming, item, a, b, body, Encode(item, b) + rest, rest);
    DecodeListing(naming, item, most, body);
  }

  lemma EncodePair(item: Format, most: U32, a: Value, b: Value, rest: seq<Byte>)
    ensures Encode(Listing(item, most, Free), Items([a, b])) + rest
         == Little(2, 4) + (Encode(item, a) + (Encode(item, b) + rest))
  {
    hide Little;
    var ab := [a, b];
    assert ab[..1] == [a] && ab[..1][..0] == [];
    assert EncodeAll(item, ab) == EncodeAll(item, ab[..1]) + Encode(item, b);
    assert EncodeAll(item, [a]) == EncodeAll(item, []) + Encode(item, a) by { assert [a][..0] == []; }
  }

  lemma ReadPair(naming: Naming, item: Format, a: Value, b: Value, body: seq<Byte>, mid: seq<Byte>, rest: seq<Byte>)
    requires Decode(naming, item, body) == Parsed(a, mid) && Decode(naming, item, mid) == Parsed(b, rest)
    requires TagOk(naming, a) && TagOk(naming, b) && TagId(b) < TagId(a)
    ensures DecodeMany(naming, item, Tagged, 2, [], body) == Parsed([b, a], rest)
  {
    hide Decode, TagOk;
    assert InsertTag(a, []) == [a] && InsertTag(b, [a]) == [b, a];
    assert DecodeMany(naming, item, Tagged, 1, [a], mid) == DecodeMany(naming, item, Tagged, 0, [b, a], rest);
  }

  lemma DecodeListing(naming: Naming, item: Format, most: U32, body: seq<Byte>)
    requires most >= 2 && ReadNumber(4, Little(2, 4) + body) == Parsed(2, body)
    requires DecodeMany(naming, item, Tagged, 2, [], body).Parsed?
    ensures var p := DecodeMany(naming, item, Tagged, 2, [], body);
            Decode(naming, Listing(item, most, Tagged), Little(2, 4) + body) == Parsed(Items(p.value), p.rest)
  {
    hide ReadNumber, Little, DecodeMany;
  }
}
