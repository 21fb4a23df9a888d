/** From the engine to the bytes and back (src/persistence.cpp:18-194, src/record_codec.cpp:37-1282): the
    placements and reservations of every reachable state are within the reader's bounds, and what the
    container holds of an engine is read back as the engine had it, so that a restart from the bytes is a
    restart from the export. */
module Storage {
  import opened Prelude
  import opened Records
  import opened Transitions
  import opened Invariants
  import opened Durability
  import opened Recovery
  import opened Bytes
  import opened Codec
  import opened RecordCodec
  import opened InventoryCodec
  import opened Container
  import opened Exclusivity

  /** Epochs and generations still fit the 64 bits they are stored in. */
  ghost predicate Stamped(s: State) {
    && (forall id :: id in s.placements ==>
          s.placements[id].epoch < TWO_64
          && forall x :: x in s.placements[id].resources ==> x.generation < TWO_64)
    && (forall v :: v in s.reservations ==>
          s.reservations[v].epoch < TWO_64
          && forall c :: c in s.reservations[v].claims ==> c.generationAtAcquire < TWO_64)
  }

  /** The texts stored beside a placement of the engine. */
  ghost predicate Described(b: Bounds, p: Placement, names: seq<seq<Byte>>, detail: seq<Byte>, completion: seq<Byte>) {
    && |names| == |p.resources| && (forall i :: 0 <= i < |names| ==> |names[i]| <= b.maxString)
    && (forall x :: x in p.resources ==> Bytewise(x.requirementName) && |x.requirementName| <= b.maxString)
    && |detail| <= b.maxString && |completion| <= b.maxString
  }

  /** Every reachable placement is read back as it was written. */
  lemma ReachablePlacementSurvives(
    naming: Naming, limits: Limits, b: Bounds, s: State, id: U64, stored: StoredPlacement, rest: seq<Byte>)
    requires Inv(limits, s) && Stamped(s) && id in s.placements && limits.maxRequirements == b.maxRequirements
    requires stored.placement == s.placements[id]
    requires Described(b, stored.placement, stored.names, stored.detail, stored.completion)
    ensures PlacementInBounds(b, stored)
    ensures var p := Decode(naming, PlacementFormat(b), Encode(PlacementFormat(b), PlacementRow(stored)) + rest);
            p.Parsed? && p.rest == rest && PlacementOfRow(p.value) == Some(stored)
  {
    hide Inv, Decode, Encode, PlacementOfRow, PlacementRow, ValidRequest;
    PlacementBounds(limits, s, id);
    PlacementRoundTrip(naming, b, stored, rest);
  }

  lemma PlacementBounds(limits: Limits, s: State, id: U64)
    requires Inv(limits, s) && id in s.placements
    ensures var p := s.placements[id];
            |p.resources| <= limits.maxRequirements && p.generation == p.reassignmentCount + 1
            && p.reassignmentCount <= MAX_REASSIGNMENTS
  {
    hide Filed, Linked, Numbered, Balanced, Authority, Indexed;
    var p := s.placements[id];
    assert WellFounded(p, s.resources.Keys, s.requests);
    assert ValidRequest(s.requests[p.request].request, limits);
  }

  /** Every reachable reservation is read back as it was written. */
  lemma ReachableReservationSurvives(
    naming: Naming, limits: Limits, b: Bounds, s: State, v: U64, stored: StoredReservation, rest: seq<Byte>)
    requires Inv(limits, s) && Stamped(s) && v in s.reservations && limits.maxRequirements == b.maxRequirements
    requires stored.reservation == s.reservations[v] && |stored.detail| <= b.maxString
    ensures ReservationInBounds(b, stored)
    ensures var p := Decode(naming, ReservationFormat(b), Encode(ReservationFormat(b), ReservationRow(stored)) + rest);
            p.Parsed? && p.rest == rest && ReservationOfRow(p.value) == Some(stored)
  {
    hide Inv, Decode, Encode, ReservationOfRow, ReservationRow, Linked;
    InvLinks(limits, s);
    ReservationOwner(s, v);
    PlacementBounds(limits, s, s.reservations[v].placement);
    ReservationRoundTrip(naming, b, stored, rest);
  }

  lemma InvLinks(limits: Limits, s: State)
    requires Inv(limits, s)
    ensures Linked(s.placements, s.reservations)
  {
    hide Filed, Numbered, Linked, Grounded, Balanced, Authority, Indexed, Recorded;
  }

  /** The rows of placements and of reservations that the reader accepts. */
  ghost predicate PlacementRows(b: Bounds, rows: seq<Value>, ps: seq<StoredPlacement>) {
    |rows| == |ps|
    && forall i :: 0 <= i < |ps| ==>
         PlacementInBounds(b, ps[i]) && rows[i] == PlacementRow(ps[i])
         && forall x :: x in ps[i].placement.resources ==> Bytewise(x.requirementName)
  }

  ghost predicate ReservationRows(b: Bounds, rows: seq<Value>, rvs: seq<StoredReservation>) {
    |rows| == |rvs|
    && forall i :: 0 <= i < |rvs| ==> ReservationInBounds(b, rvs[i]) && rows[i] == ReservationRow(rvs[i])
  }

  /** A container that holds the rows of placements and reservations gives every one of them back. */
  lemma LedgerSurvivesContainer(
    naming: Naming, b: Bounds, m: Image, ps: seq<StoredPlacement>, rvs: seq<StoredReservation>)
    requires ImageFits(naming, b, m) && |Payload(b, m)| <= b.maxPersistenceBytes
    requires PlacementRows(b, m.placements, ps) && ReservationRows(b, m.reservations, rvs)
    ensures DecodeImage(naming, b, EncodeImage(b, m)) == Some(m.(note := BANNER))
    ensures forall i :: 0 <= i < |ps| ==> PlacementOfRow(m.placements[i]) == Some(ps[i])
    ensures forall i :: 0 <= i < |rvs| ==> ReservationOfRow(m.reservations[i]) == Some(rvs[i])
  {
    hide DecodeImage, EncodeImage, ImageFits, Payload, PlacementOfRow, PlacementRow, ReservationOfRow, ReservationRow;
    ContainerRoundTrip(naming, b, m);
    forall i | 0 <= i < |ps| ensures PlacementOfRow(m.placements[i]) == Some(ps[i]) {
      PlacementRowBack(b, ps[i]);
    }
    forall i | 0 <= i < |rvs| ensures ReservationOfRow(m.reservations[i]) == Some(rvs[i]) {
      ReservationRowBack(rvs[i]);
    }
  }

  // ---------------------------------------------------------------- the whole durable state

  /** A durable state as it is stored, record by record, with what travels beside the engine's records. */
  datatype StoredDurable = StoredDurable(
    epoch: U64,
    limits: Limits,
    limitNotes: seq<Value>,
    weights: Value,
    counter: U64,
    resources: seq<StoredResource>,
    requests: seq<PersistedRequest>,
    placements: seq<StoredPlacement>,
    reservations: seq<StoredReservation>)

  function Each<A, B>(xs: seq<A>, f: A -> B): seq<B> {
    seq(|xs|, i requires 0 <= i < |xs| => f(xs[i]))
  }

  /** What the engine knows of it. */
  function DurableOf(d: StoredDurable): Durable {
    Durable(Durability.FORMAT_VERSION, d.epoch, d.limits, d.counter,
            Each(d.resources, (r: StoredResource) => r.resource), Each(d.requests, (q: PersistedRequest) => q.stored),
            Each(d.placements, (p: StoredPlacement) => p.placement),
            Each(d.reservations, (rv: StoredReservation) => rv.reservation))
  }

  ghost predicate PlacementWritable(p: StoredPlacement) {
    |p.names| == |p.placement.resources| && forall x :: x in p.placement.resources ==> Bytewise(x.requirementName)
  }

  ghost predicate Writable(d: StoredDurable) {
    && |d.limitNotes| == 21
    && (forall i :: 0 <= i < |d.resources| ==> ResourceWritable(d.resources[i]))
    && (forall i :: 0 <= i < |d.requests| ==> RequestWritable(d.requests[i]))
    && (forall i :: 0 <= i < |d.placements| ==> PlacementWritable(d.placements[i]))
  }

  function ImageOf(d: StoredDurable): Image
    requires Writable(d)
  {
    Image(d.epoch, Row(LimitColumns(d.limits, d.limitNotes)), d.weights, d.counter, BANNER,
          seq(|d.resources|, i requires 0 <= i < |d.resources| => ResourceRow(d.resources[i])),
          seq(|d.requests|, i requires 0 <= i < |d.requests| => RequestRow(d.requests[i])),
          seq(|d.placements|, i requires 0 <= i < |d.placements| => PlacementRow(d.placements[i])),
          seq(|d.reservations|, i requires 0 <= i < |d.reservations| => ReservationRow(d.reservations[i])))
  }

  function StoredOf(m: Image): Option<StoredDurable> {
    if (forall v :: v in m.placements ==> PlacementOfRow(v).Some?)
       && (forall v :: v in m.reservations ==> ReservationOfRow(v).Some?) then
      Some(StoredDurable(
             m.epoch, LimitsOf(Columns(m.limits)), LimitNotes(Columns(m.limits)), m.weights, m.counter,
             Each(m.resources, ResourceOfRow), Each(m.requests, RequestOfRow),
             seq(|m.placements|, i requires 0 <= i < |m.placements| => PlacementOfRow(m.placements[i]).value),
             seq(|m.reservations|, i requires 0 <= i < |m.reservations| => ReservationOfRow(m.reservations[i]).value)))
    else None
  }

  function EncodeDurable(b: Bounds, d: StoredDurable): seq<Byte>
    requires Writable(d)
  {
    EncodeImage(b, ImageOf(d))
  }

  function DecodeDurable(naming: Naming, b: Bounds, bytes: seq<Byte>): Option<StoredDurable> {
    match DecodeImage(naming, b, bytes)
    case None => None
    case Some(m) => StoredOf(m)
  }

  /** Rows that fit are rows of placements and reservations within bounds. */
  lemma RowsInBounds(naming: Naming, b: Bounds, d: StoredDurable, m: Image)
    requires Writable(d) && m == ImageOf(d) && ImageFits(naming, b, m)
    ensures PlacementRows(b, m.placements, d.placements) && ReservationRows(b, m.reservations, d.reservations)
  {
    hide Fits, PlacementInBounds, ReservationInBounds, PlacementRow, ReservationRow, ResourceRow, RequestRow,
         ResourceWritable, RequestWritable, PlacementFormat, ReservationFormat, ResourceFormat, StoredRequestFormat,
         LIMITS, WEIGHTS, BANNER, LimitColumns;
    RowsFit(naming, PlacementFormat(b), m.placements, b.maxPersistenceRecords);
    RowsFit(naming, ReservationFormat(b), m.reservations, b.maxPersistenceRecords);
    forall i | 0 <= i < |d.placements| ensures PlacementInBounds(b, d.placements[i]) {
      PlacementRowFits(naming, b, d.placements[i]);
      assert Fits(naming, PlacementFormat(b), m.placements[i]);
    }
    forall i | 0 <= i < |d.reservations| ensures ReservationInBounds(b, d.reservations[i]) {
      ReservationRowFits(naming, b, d.reservations[i]);
      assert Fits(naming, ReservationFormat(b), m.reservations[i]);
    }
  }

  /** Every record of an image comes back. */
  lemma RecordsBack(d: StoredDurable, m: Image)
    requires Writable(d) && m == ImageOf(d)
    requires |m.placements| == |d.placements| && |m.reservations| == |d.reservations|
    requires forall i :: 0 <= i < |d.placements| ==> PlacementOfRow(m.placements[i]) == Some(d.placements[i])
    requires forall i :: 0 <= i < |d.reservations| ==> ReservationOfRow(m.reservations[i]) == Some(d.reservations[i])
    ensures StoredOf(m) == Some(d)
  {
    hide PlacementOfRow, ReservationOfRow, PlacementRow, ReservationRow, ResourceRow, RequestRow, ResourceOfRow,
         RequestOfRow, ResourceWritable, RequestWritable, BANNER, LimitColumns, LimitsOf, LimitNotes, Row, Columns;
    LimitsBack(d.limits, d.limitNotes);
    forall i | 0 <= i < |d.resources| ensures ResourceOfRow(m.resources[i]) == d.resources[i] {
      ResourceRowBack(d.resources[i]);
    }
    forall i | 0 <= i < |d.requests| ensures RequestOfRow(m.requests[i]) == d.requests[i] {
      RequestRowBack(d.requests[i]);
    }
    forall v | v in m.placements ensures PlacementOfRow(v).Some? {
      var i :| 0 <= i < |m.placements| && m.placements[i] == v;
    }
    forall v | v in m.reservations ensures ReservationOfRow(v).Some? {
      var i :| 0 <= i < |m.reservations| && m.reservations[i] == v;
    }
    assert Each(m.resources, ResourceOfRow) == d.resources && Each(m.requests, RequestOfRow) == d.requests;
    var read := StoredOf(m).value;
    assert read.placements == d.placements && read.reservations == d.reservations;
  }

  /** A durable state within the reader's bounds comes back from its bytes: the engine's records and all that
      travels beside them. */
  lemma DurableSurvives(naming: Naming, b: Bounds, d: StoredDurable)
    requires Writable(d) && ImageFits(naming, b, ImageOf(d)) && |Payload(b, ImageOf(d))| <= b.maxPersistenceBytes
    ensures DecodeDurable(naming, b, EncodeDurable(b, d)) == Some(d)
  {
    hide Writable, DecodeImage, EncodeImage, ImageFits, Payload, StoredOf, PlacementOfRow, PlacementRow,
         ReservationOfRow, ReservationRow, PlacementInBounds, ReservationInBounds;
    var m := ImageOf(d);
    RowsInBounds(naming, b, d, m);
    LedgerSurvivesContainer(naming, b, m, d.placements, d.reservations);
    NotedAlready(d);
    RecordsBack(d, m);
  }

  lemma NotedAlready(d: StoredDurable)
    requires Writable(d)
    ensures ImageOf(d).(note := BANNER) == ImageOf(d)
  {
  }

  /** A restart from the bytes is a restart from the export: it succeeds, one epoch later, with nothing in
      force that the previous incarnation granted. */
  lemma RestartFromBytes(naming: Naming, b: Bounds, limits: Limits, s: State, d: StoredDurable, blank: State)
    requires Inv(limits, s) && Storable(limits, s) && Vacant(blank) && blank.unitCurrent == map[]
    requires RoomAbove(blank, Export(limits, s)) && DurableOf(d) == Export(limits, s)
    requires Writable(d) && ImageFits(naming, b, ImageOf(d)) && |Payload(b, ImageOf(d))| <= b.maxPersistenceBytes
    ensures DecodeDurable(naming, b, EncodeDurable(b, d)) == Some(d)
    ensures var o := ImportState(blank, DurableOf(d));
            o == Done(Recovered(blank, Export(limits, s)), s.epoch + 1) && Inv(limits, o.state) && Quiescent(o.state)
  {
    hide Inv, Storable, Vacant, RoomAbove, Export, Writable, ImageFits, Payload, ImageOf, DecodeDurable, EncodeDurable,
         DurableOf, Quiescent, Recovered, ImportState;
    DurableSurvives(naming, b, d);
    RecoveryIsTotal(limits, s, blank);
  }

  /** A file with one changed byte starts nothing. */
  lemma ChangedFileIsRefused(naming: Naming, b: Bounds, d: StoredDurable, i: nat, x: Byte)
    requires Writable(d) && |Payload(b, ImageOf(d))| < TWO_64
    requires i < |EncodeDurable(b, d)| && x != EncodeDurable(b, d)[i]
    ensures DecodeDurable(naming, b, EncodeDurable(b, d)[i := x]) == None
  {
    hide EncodeImage, DecodeImage, Payload, ImageOf, Writable;
    ContainerDetectsChange(naming, b, ImageOf(d), i, x);
  }
}
