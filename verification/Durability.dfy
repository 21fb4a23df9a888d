/** The durable image of an engine, its validation and its recovery into a new engine
    (src/engine_state.cpp:477-498, src/durable.cpp:28-155, src/engine_recovery.cpp:24-153). */
module Durability {
  import opened Prelude
  import opened Records
  import opened Planning
  import opened Transitions
  import opened Ledger

  const FORMAT_VERSION := 1

  datatype Durable = Durable(
    version: nat,
    epoch: nat,
    limits: Limits,
    idCounter: U64,
    resources: seq<Resource>,
    requests: seq<StoredRequest>,
    placements: seq<Placement>,
    reservations: seq<Reservation>)

  // ---------------------------------------------------------------- what a sound image is

  function ResourceId(r: Resource): U64 { r.ad.id }
  function RequestId(q: StoredRequest): U64 { q.request.id }
  function PlacementId(p: Placement): U64 { p.id }
  function ReservationId(rv: Reservation): U64 { rv.id }

  function IdsOf<V(==)>(xs: seq<V>, id: V -> U64): set<U64> {
    set x | x in xs :: id(x)
  }

  /** Identities are present and pairwise distinct. */
  predicate Unique<V>(xs: seq<V>, id: V -> U64) {
    (forall i :: 0 <= i < |xs| ==> id(xs[i]) != 0)
    && (forall i, j :: 0 <= i < j < |xs| ==> id(xs[i]) != id(xs[j]))
  }

  /** What the active reservations of a list hold on one resource. */
  function ActiveTotal(rvs: seq<Reservation>, resource: U64): nat {
    if rvs == [] then 0 else ActiveTotal(rvs[..|rvs| - 1], resource) + Held(rvs[|rvs| - 1], resource)
  }

  predicate SoundPlacement(p: Placement, requests: set<U64>, resources: set<U64>) {
    && p.generation != 0 && p.request in requests && p.resources != []
    && forall x :: x in p.resources ==> x.resource in resources && x.generation != 0
  }

  predicate SoundReservation(rv: Reservation, placements: set<U64>, resources: set<U64>) {
    && rv.lease != 0 && rv.claims != [] && rv.placement in placements
    && forall c :: c in rv.claims ==> c.resource in resources && c.slots != 0
  }

  predicate WithinBounds(d: Durable) {
    && |d.resources| <= d.limits.maxPersistenceRecords && |d.requests| <= d.limits.maxPersistenceRecords
    && |d.placements| <= d.limits.maxPersistenceRecords && |d.reservations| <= d.limits.maxPersistenceRecords
  }

  /** The image refers to known records only, and its ledger is balanced within capacity. */
  predicate SoundDurable(d: Durable) {
    && d.version == FORMAT_VERSION && d.epoch != 0 && WithinBounds(d)
    && Unique(d.resources, ResourceId) && (forall r :: r in d.resources ==> ValidResource(r))
    && Unique(d.requests, RequestId) && (forall q :: q in d.requests ==> ValidRequest(q.request, d.limits))
    && Unique(d.placements, PlacementId)
    && (forall p :: p in d.placements ==>
          SoundPlacement(p, IdsOf(d.requests, RequestId), IdsOf(d.resources, ResourceId)))
    && Unique(d.reservations, ReservationId)
    && (forall rv :: rv in d.reservations ==>
          SoundReservation(rv, IdsOf(d.placements, PlacementId), IdsOf(d.resources, ResourceId)))
    && (forall r :: r in d.resources ==>
          r.reserved == ActiveTotal(d.reservations, r.ad.id) && r.reserved <= r.ad.slots)
  }

  // ---------------------------------------------------------------- export

  /** The values of a map in ascending order of identity. */
  function Values<V>(m: map<U64, V>): seq<V> {
    ValuesAt(m, SortedKeys(m.Keys))
  }

  function ValuesAt<V>(m: map<U64, V>, ids: seq<U64>): seq<V> {
    if ids == [] then []
    else
      var rest := ValuesAt(m, ids[..|ids| - 1]);
      if ids[|ids| - 1] in m then rest + [m[ids[|ids| - 1]]] else rest
  }

  function Export(limits: Limits, s: State): Durable {
    Durable(FORMAT_VERSION, s.epoch, limits, s.lastId,
            Values(s.resources), Values(s.requests), Values(s.placements), Values(s.reservations))
  }

  // ---------------------------------------------------------------- import

  function Restored(r: Resource, epoch: nat): Resource {
    var owned := r.ad.worker != 0;
    var lifecycle := if r.lifecycle.Retired? then Retired else if owned then Registered else Current;
    r.(reserved := 0, generation := r.generation + 1, lifecycle := lifecycle,
       authoritative := !owned && lifecycle.Current?, validatedEpoch := if owned then 0 else epoch)
  }

  function RestoredRequest(q: StoredRequest): StoredRequest {
    q.(state := if q.state.Placed? then Submitted else q.state, current := 0)
  }

  function RestoredPlacement(p: Placement): Placement {
    p.(state := if Live(p.state) then ReassignmentRequired else p.state)
  }

  function RestoredReservation(rv: Reservation): Reservation {
    rv.(state := if rv.state.Active? then Revoked else rv.state)
  }

  /** Emplacing restored records one after the other; the first record of an identity stays. */
  function Emplaced<V>(m: map<U64, V>, xs: seq<V>, id: V -> U64, restore: V -> V): map<U64, V> {
    if xs == [] then m
    else
      var before := Emplaced(m, xs[..|xs| - 1], id, restore);
      var x := xs[|xs| - 1];
      Emplace(before, id(x), restore(x))
  }

  /** Every worker named by a resource, with the incarnation of its first resource, not connected. */
  function RestoredWorkers(workers: map<U64, WorkerRecord>, rs: seq<Resource>): map<U64, WorkerRecord> {
    if rs == [] then workers
    else
      var before := RestoredWorkers(workers, rs[..|rs| - 1]);
      var ad := rs[|rs| - 1].ad;
      if ad.worker == 0 then before else Emplace(before, ad.worker, WorkerRecord(ad.boot, false))
  }

  /** The identities recovery looks at, record by record. */
  function ResourceMarks(workers: map<U64, WorkerRecord>, rs: seq<Resource>): seq<U64> {
    if rs == [] then []
    else
      var ad := rs[|rs| - 1].ad;
      ResourceMarks(workers, rs[..|rs| - 1]) + [ad.id]
      + if ad.worker == 0 || ad.worker in RestoredWorkers(workers, rs[..|rs| - 1]) then [] else [ad.worker, ad.boot]
  }

  function RequestMarks(qs: seq<StoredRequest>): seq<U64> {
    if qs == [] then []
    else
      var r := qs[|qs| - 1].request;
      RequestMarks(qs[..|qs| - 1]) + [r.id, r.experiment, r.experimentGeneration, r.trial]
  }

  function PlacementMarks(ps: seq<Placement>): seq<U64> {
    if ps == [] then []
    else
      var p := ps[|ps| - 1];
      PlacementMarks(ps[..|ps| - 1]) + [p.id, p.request, p.decision, p.reservation, p.lease]
  }

  function ReservationMarks(rvs: seq<Reservation>): seq<U64> {
    if rvs == [] then []
    else
      var rv := rvs[|rvs| - 1];
      ReservationMarks(rvs[..|rvs| - 1]) + [rv.id, rv.lease, rv.placement]
  }

  function Marks(workers: map<U64, WorkerRecord>, d: Durable): seq<U64> {
    [d.idCounter] + ResourceMarks(workers, d.resources) + RequestMarks(d.requests)
    + PlacementMarks(d.placements) + ReservationMarks(d.reservations)
  }

  /** The largest of a list of identities. */
  function Highest(xs: seq<U64>): U64 {
    if xs == [] then 0
    else
      var before := Highest(xs[..|xs| - 1]);
      if xs[|xs| - 1] > before then xs[|xs| - 1] else before
  }

  lemma {:induction false} HighestIsMaximum(xs: seq<U64>)
    ensures forall x :: x in xs ==> x <= Highest(xs)
    ensures xs != [] ==> Highest(xs) in xs || Highest(xs) == 0
  {
    if xs != [] {
      HighestIsMaximum(xs[..|xs| - 1]);
      assert xs == xs[..|xs| - 1] + [xs[|xs| - 1]];
    }
  }

  function Observe(counter: U64, value: U64): U64 { if value > counter then value else counter }

  predicate Vacant(s: State) {
    s.resources == map[] && s.requests == map[] && s.placements == map[] && s.reservations == map[]
  }

  /** The state recovery builds in a vacant engine. */
  function Recovered(s: State, d: Durable): State {
    var epoch := d.epoch + 1;
    s.(epoch := epoch,
       workers := RestoredWorkers(s.workers, d.resources),
       resources := Emplaced(map[], d.resources, ResourceId, (r: Resource) => Restored(r, epoch)),
       requests := Emplaced(map[], d.requests, RequestId, RestoredRequest),
       placements := Emplaced(map[], d.placements, PlacementId, RestoredPlacement),
       reservations := Emplaced(map[], d.reservations, ReservationId, RestoredReservation),
       lastId := Observe(s.lastId, Wrap64(Highest(Marks(s.workers, d)) + 1)))
  }

  function ImportState(s: State, d: Durable): Outcome<nat> {
    if !SoundDurable(d) then Refused(s, CorruptPersistence)
    else if !Vacant(s) then Refused(s, Busy)
    else Done(Recovered(s, d), d.epoch + 1)
  }
}
