/** What recovery makes of an engine, record by record (src/engine_recovery.cpp:36-153). */
module Reload {
  import opened Prelude
  import opened Records
  import opened Planning
  import opened Invariants
  import opened Durability
  import opened Recovery
  import opened Refusals

  /** A resource keeps its advertisement and its counters but one: it is free, one generation further, and
      retired as before, without authority until its worker publishes again, or current if nobody owns it. */
  ghost predicate ReloadedResource(before: Resource, after: Resource, epoch: nat) {
    && after == before.(reserved := 0, generation := before.generation + 1, lifecycle := after.lifecycle,
                        authoritative := after.authoritative, validatedEpoch := after.validatedEpoch)
    && (before.lifecycle == Retired ==> after.lifecycle == Retired && !after.authoritative)
    && (before.lifecycle != Retired && before.ad.worker != 0 ==> after.lifecycle == Registered && !after.authoritative)
    && (before.lifecycle != Retired && before.ad.worker == 0 ==> after.lifecycle == Current && after.authoritative)
    && after.validatedEpoch == if before.ad.worker != 0 then 0 else epoch
  }

  ghost predicate LeastOwned(s: State, worker: U64, id: U64) {
    id in s.resources && s.resources[id].ad.worker == worker
    && forall k :: k in s.resources && s.resources[k].ad.worker == worker ==> id <= k
  }

  ghost predicate Owns(s: State, worker: U64) {
    exists id :: id in s.resources && s.resources[id].ad.worker == worker
  }

  /** Every owner of a resource is known again, disconnected, as the incarnation its first resource names. */
  ghost predicate ReloadedWorkers(s: State, before: map<U64, WorkerRecord>, after: map<U64, WorkerRecord>) {
    && (forall w :: w in after <==>
          w in before || (w != 0 && Owns(s, w)))
    && (forall w :: w in before ==> after[w] == before[w])
    && (forall w, id :: w in after && w !in before && LeastOwned(s, w, id) ==>
          after[w] == WorkerRecord(s.resources[id].ad.boot, false))
  }

  /** Live placements wait for reassignment and what they held is revoked, placed requests are queued again, and
      every other record is history as it was. */
  ghost predicate Reloaded(s: State, blank: State, t: State) {
    && t.epoch == s.epoch + 1 && t.shuttingDown == blank.shuttingDown && t.tenantService == blank.tenantService
    && t.unitCurrent == blank.unitCurrent
    && t.placements.Keys == s.placements.Keys
    && (forall id :: id in s.placements ==>
          var p := s.placements[id];
          t.placements[id] == if p.state == Reserved || p.state == Assigned || p.state == Running
                              then p.(state := ReassignmentRequired) else p)
    && t.reservations.Keys == s.reservations.Keys
    && (forall v :: v in s.reservations ==>
          var rv := s.reservations[v];
          t.reservations[v] == if rv.state == Active then rv.(state := Revoked) else rv)
    && t.requests.Keys == s.requests.Keys
    && (forall q :: q in s.requests ==>
          var r := s.requests[q];
          t.requests[q] == if r.state == Placed then r.(state := Submitted, current := 0) else r.(current := 0))
    && t.resources.Keys == s.resources.Keys
    && (forall id :: id in s.resources ==> ReloadedResource(s.resources[id], t.resources[id], t.epoch))
    && ReloadedWorkers(s, blank.workers, t.workers)
  }

  ghost predicate Names(rs: seq<Resource>, worker: U64) {
    exists r :: r in rs && r.ad.worker == worker
  }

  ghost predicate FirstNamed(rs: seq<Resource>, worker: U64, i: nat) {
    i < |rs| && rs[i].ad.worker == worker && forall j :: 0 <= j < i ==> rs[j].ad.worker != worker
  }

  lemma {:induction false} WorkersNamed(workers: map<U64, WorkerRecord>, rs: seq<Resource>)
    ensures var after := RestoredWorkers(workers, rs);
            && (forall w :: w in after <==> w in workers || (w != 0 && Names(rs, w)))
            && (forall w :: w in workers ==> after[w] == workers[w])
            && (forall w, i: nat :: w in after && w !in workers && FirstNamed(rs, w, i) ==>
                  after[w] == WorkerRecord(rs[i].ad.boot, false))
  {
    if rs != [] {
      var n := |rs| - 1;
      WorkersNamed(workers, rs[..n]);
      var before, after := RestoredWorkers(workers, rs[..n]), RestoredWorkers(workers, rs);
      assert rs == rs[..n] + [rs[n]];
      forall w, i: nat | w in after && w !in workers && FirstNamed(rs, w, i)
        ensures after[w] == WorkerRecord(rs[i].ad.boot, false)
      {
        if i < n {
          assert FirstNamed(rs[..n], w, i);
          assert rs[..n][i] in rs[..n];
        }
      }
    }
  }

  lemma WorkersReloaded(s: State, before: map<U64, WorkerRecord>)
    ensures ReloadedWorkers(s, before, RestoredWorkers(before, Values(s.resources)))
  {
    hide RestoredWorkers, Values;
    var rs, ids := Values(s.resources), SortedKeys(s.resources.Keys);
    var after := RestoredWorkers(before, rs);
    WorkersNamed(before, rs);
    ValuesExact(s.resources);
    forall w ensures Names(rs, w) <==> Owns(s, w) {
      if r :| r in rs && r.ad.worker == w {
        var k :| k in s.resources && s.resources[k] == r;
      }
      if id :| id in s.resources && s.resources[id].ad.worker == w {
        assert s.resources[id] in rs;
      }
    }
    forall w, id | w in after && w !in before && LeastOwned(s, w, id)
      ensures after[w] == WorkerRecord(s.resources[id].ad.boot, false)
    {
      var i := LeastIsFirst(s, w, id);
    }
  }

  lemma LeastIsFirst(s: State, worker: U64, id: U64) returns (i: nat)
    requires LeastOwned(s, worker, id)
    ensures FirstNamed(Values(s.resources), worker, i) && Values(s.resources)[i] == s.resources[id]
  {
    hide Values;
    var ids := SortedKeys(s.resources.Keys);
    ValuesExact(s.resources);
    SortedKeysExact(s.resources.Keys, id);
    SortedKeysAscend(s.resources.Keys);
    i :| 0 <= i < |ids| && ids[i] == id;
    forall j | 0 <= j < i ensures Values(s.resources)[j].ad.worker != worker {
      assert ids[j] < ids[i];
    }
  }

  /** Importing the export of a consistent engine into a vacant one reloads every record. */
  lemma ImportReloads(limits: Limits, s: State, blank: State)
    requires Inv(limits, s) && Storable(limits, s) && Vacant(blank) && blank.unitCurrent == map[]
    requires RoomAbove(blank, Export(limits, s))
    ensures var o := ImportState(blank, Export(limits, s)); o.Done? && Reloaded(s, blank, o.state)
  {
    hide Inv, Marks, Highest, Values, Restored, RestoredRequest, RestoredPlacement, RestoredReservation, Quiescent,
         Storable, RoomAbove, SoundDurable, ReloadedWorkers, RestoredWorkers, ReloadedResource, Emplaced;
    RecoveryIsTotal(limits, s, blank);
    RecoveredReborn(limits, s, blank);
    WorkersReloaded(s, blank.workers);
    RecordsReload(s, Recovered(blank, Export(limits, s)));
  }

  lemma RecordsReload(s: State, t: State)
    requires Reborn(s, t)
    ensures forall id :: id in s.resources ==> ReloadedResource(s.resources[id], t.resources[id], t.epoch)
    ensures forall id :: id in s.placements ==>
              var p := s.placements[id];
              t.placements[id] == if p.state == Reserved || p.state == Assigned || p.state == Running
                                  then p.(state := ReassignmentRequired) else p
    ensures forall v :: v in s.reservations ==>
              var rv := s.reservations[v];
              t.reservations[v] == if rv.state == Active then rv.(state := Revoked) else rv
    ensures forall q :: q in s.requests ==>
              var r := s.requests[q];
              t.requests[q] == if r.state == Placed then r.(state := Submitted, current := 0) else r.(current := 0)
  {
  }

  // ---------------------------------------------------------------- identities

  /** The counter is above every identity the records name: their own, the ones they refer to, and the owners
      of resources with the incarnations they come back as. */
  ghost predicate Surpasses(s: State, blank: State, t: State) {
    && s.lastId < t.lastId
    && (forall id :: id in s.resources ==> id < t.lastId)
    && (forall w: U64, id: U64 :: w != 0 && w !in blank.workers && LeastOwned(s, w, id) ==>
          w < t.lastId && s.resources[id].ad.boot < t.lastId)
    && (forall q :: q in s.requests ==>
          var r := s.requests[q].request;
          q < t.lastId && r.experiment < t.lastId && r.experimentGeneration < t.lastId && r.trial < t.lastId)
    && (forall id :: id in s.placements ==>
          var p := s.placements[id];
          id < t.lastId && p.request < t.lastId && p.decision < t.lastId && p.reservation < t.lastId
          && p.lease < t.lastId)
    && (forall v :: v in s.reservations ==>
          var rv := s.reservations[v];
          v < t.lastId && rv.lease < t.lastId && rv.placement < t.lastId)
  }

  lemma {:induction false} ResourcesMarked(workers: map<U64, WorkerRecord>, rs: seq<Resource>)
    ensures forall r :: r in rs ==> r.ad.id in ResourceMarks(workers, rs)
    ensures forall w, i: nat :: w != 0 && w !in workers && FirstNamed(rs, w, i) ==>
              w in ResourceMarks(workers, rs) && rs[i].ad.boot in ResourceMarks(workers, rs)
  {
    if rs != [] {
      var n := |rs| - 1;
      ResourcesMarked(workers, rs[..n]);
      WorkersNamed(workers, rs[..n]);
      assert rs == rs[..n] + [rs[n]];
      forall w, i: nat | w != 0 && w !in workers && FirstNamed(rs, w, i)
        ensures w in ResourceMarks(workers, rs) && rs[i].ad.boot in ResourceMarks(workers, rs)
      {
        if i < n {
          assert FirstNamed(rs[..n], w, i);
        } else {
          assert !Names(rs[..n], w);
        }
      }
    }
  }

  lemma {:induction false} RequestsMarked(qs: seq<StoredRequest>)
    ensures forall q :: q in qs ==>
              var m, r := RequestMarks(qs), q.request;
              r.id in m && r.experiment in m && r.experimentGeneration in m && r.trial in m
  {
    if qs != [] {
      RequestsMarked(qs[..|qs| - 1]);
      assert qs == qs[..|qs| - 1] + [qs[|qs| - 1]];
    }
  }

  lemma {:induction false} PlacementsMarked(ps: seq<Placement>)
    ensures forall p :: p in ps ==>
              var m := PlacementMarks(ps);
              p.id in m && p.request in m && p.decision in m && p.reservation in m && p.lease in m
  {
    if ps != [] {
      PlacementsMarked(ps[..|ps| - 1]);
      assert ps == ps[..|ps| - 1] + [ps[|ps| - 1]];
    }
  }

  lemma {:induction false} ReservationsMarked(rvs: seq<Reservation>)
    ensures forall rv :: rv in rvs ==>
              var m := ReservationMarks(rvs); rv.id in m && rv.lease in m && rv.placement in m
  {
    if rvs != [] {
      ReservationsMarked(rvs[..|rvs| - 1]);
      assert rvs == rvs[..|rvs| - 1] + [rvs[|rvs| - 1]];
    }
  }

  lemma MarksCollect(workers: map<U64, WorkerRecord>, d: Durable, x: U64)
    ensures x in Marks(workers, d) <==>
              x == d.idCounter || x in ResourceMarks(workers, d.resources) || x in RequestMarks(d.requests)
              || x in PlacementMarks(d.placements) || x in ReservationMarks(d.reservations)
  {
    hide ResourceMarks, RequestMarks, PlacementMarks, ReservationMarks;
  }

  /** An import leaves the counter above all of them. */
  lemma ImportSurpasses(limits: Limits, s: State, blank: State)
    requires Inv(limits, s) && Storable(limits, s) && Vacant(blank) && blank.unitCurrent == map[]
    requires RoomAbove(blank, Export(limits, s))
    ensures var o := ImportState(blank, Export(limits, s)); o.Done? && Surpasses(s, blank, o.state)
  {
    hide Inv, Storable, RoomAbove, SoundDurable, Recovered, Quiescent, Values, FirstNamed, Highest,
         Marks, ResourceMarks, RequestMarks, PlacementMarks, ReservationMarks;
    var d := Export(limits, s);
    RecoveryIsTotal(limits, s, blank);
    InvFiled(limits, s);
    ValuesExact(s.resources);
    ValuesExact(s.requests);
    ValuesExact(s.placements);
    ValuesExact(s.reservations);
    ResourcesMarked(blank.workers, d.resources);
    RequestsMarked(d.requests);
    PlacementsMarked(d.placements);
    ReservationsMarked(d.reservations);
    forall x: U64
      ensures x in Marks(blank.workers, d) <==>
                x == d.idCounter || x in ResourceMarks(blank.workers, d.resources) || x in RequestMarks(d.requests)
                || x in PlacementMarks(d.placements) || x in ReservationMarks(d.reservations)
    {
      MarksCollect(blank.workers, d, x);
    }
    forall w: U64, id: U64 | w != 0 && w !in blank.workers && LeastOwned(s, w, id)
      ensures w in Marks(blank.workers, d) && id in s.resources && s.resources[id].ad.boot in Marks(blank.workers, d)
    {
      var i := LeastIsFirst(s, w, id);
    }
  }

  // ---------------------------------------------------------------- refused images

  ghost predicate Repeats<V>(xs: seq<V>, id: V -> U64) {
    || (exists i :: 0 <= i < |xs| && id(xs[i]) == 0)
    || (exists i, j :: 0 <= i < j < |xs| && id(xs[i]) == id(xs[j]))
  }

  ghost predicate Missing<V>(xs: seq<V>, id: V -> U64, wanted: U64) {
    forall i :: 0 <= i < |xs| ==> id(xs[i]) != wanted
  }

  ghost predicate BrokenResource(d: Durable, r: Resource) {
    || Defective(r.ad) || (r.lifecycle == Retired && r.reserved > 0)
    || Wrap32(r.ad.occupancy + r.reserved) > r.ad.slots || r.reserved > r.ad.slots
    || r.reserved != ActiveTotal(d.reservations, r.ad.id)
  }

  ghost predicate BrokenPlacement(d: Durable, p: Placement) {
    || p.generation == 0 || Missing(d.requests, RequestId, p.request) || |p.resources| == 0
    || exists i :: 0 <= i < |p.resources|
         && (Missing(d.resources, ResourceId, p.resources[i].resource) || p.resources[i].generation == 0)
  }

  ghost predicate BrokenReservation(d: Durable, rv: Reservation) {
    || rv.lease == 0 || |rv.claims| == 0 || Missing(d.placements, PlacementId, rv.placement)
    || exists i :: 0 <= i < |rv.claims|
         && (Missing(d.resources, ResourceId, rv.claims[i].resource) || rv.claims[i].slots == 0)
  }

  ghost predicate Oversized(d: Durable) {
    || |d.resources| > d.limits.maxPersistenceRecords || |d.requests| > d.limits.maxPersistenceRecords
    || |d.placements| > d.limits.maxPersistenceRecords || |d.reservations| > d.limits.maxPersistenceRecords
  }

  /** Everything that can be wrong with an image. */
  ghost predicate DefectiveImage(d: Durable) {
    || d.version != 1 || d.epoch == 0 || Oversized(d)
    || Repeats(d.resources, ResourceId) || Repeats(d.requests, RequestId)
    || Repeats(d.placements, PlacementId) || Repeats(d.reservations, ReservationId)
    || (exists i :: 0 <= i < |d.resources| && BrokenResource(d, d.resources[i]))
    || (exists i :: 0 <= i < |d.requests| && DefectiveRequest(d.requests[i].request, d.limits))
    || (exists i :: 0 <= i < |d.placements| && BrokenPlacement(d, d.placements[i]))
    || (exists i :: 0 <= i < |d.reservations| && BrokenReservation(d, d.reservations[i]))
  }

  /** An import is refused exactly for a defect, or because the engine holds records. */
  lemma ImportCodes(s: State, d: Durable)
    ensures ImportState(s, d).Refused? <==>
              DefectiveImage(d) || s.resources != map[] || s.requests != map[] || s.placements != map[]
              || s.reservations != map[]
    ensures ImportState(s, d).Refused? ==> ImportState(s, d).state == s
  {
    hide SoundDurable, DefectiveImage, Recovered;
    ImageDefects(d);
  }

  lemma ImageDefects(d: Durable)
    ensures SoundDurable(d) <==> !DefectiveImage(d)
  {
    hide ValidResource, ValidRequest, DefectiveRequest, SoundPlacement, SoundReservation, BrokenResource,
         BrokenPlacement, BrokenReservation, Unique, Repeats, ActiveTotal;
    ResourceDefects(d);
    RequestsDefects(d);
    PlacementDefects(d);
    ReservationDefects(d);
    NoRepeats(d.resources, ResourceId);
    NoRepeats(d.requests, RequestId);
    NoRepeats(d.placements, PlacementId);
    NoRepeats(d.reservations, ReservationId);
  }

  lemma NoRepeats<V>(xs: seq<V>, id: V -> U64)
    ensures Unique(xs, id) <==> !Repeats(xs, id)
  {
  }

  lemma ResourceDefects(d: Durable)
    ensures (forall r :: r in d.resources ==> ValidResource(r))
            && (forall r :: r in d.resources ==>
                  r.reserved == ActiveTotal(d.reservations, r.ad.id) && r.reserved <= r.ad.slots)
            <==> !exists i :: 0 <= i < |d.resources| && BrokenResource(d, d.resources[i])
  {
    hide ValidAdvertisement, Defective, ActiveTotal;
    forall r: Resource ensures ValidAdvertisement(r.ad) <==> !Defective(r.ad) { AdvertisementDefects(r.ad); }
    forall r: Resource
      ensures BrokenResource(d, r) <==>
                !(ValidResource(r) && r.reserved == ActiveTotal(d.reservations, r.ad.id) && r.reserved <= r.ad.slots)
    {
    }
  }

  lemma RequestsDefects(d: Durable)
    ensures (forall q :: q in d.requests ==> ValidRequest(q.request, d.limits))
            <==> !exists i :: 0 <= i < |d.requests| && DefectiveRequest(d.requests[i].request, d.limits)
  {
    hide ValidRequest, DefectiveRequest;
    forall r: Request ensures ValidRequest(r, d.limits) <==> !DefectiveRequest(r, d.limits) {
      RequestDefects(r, d.limits);
    }
  }

  lemma KnownId<V>(xs: seq<V>, id: V -> U64, wanted: U64)
    ensures wanted in IdsOf(xs, id) <==> !Missing(xs, id, wanted)
  {
    if !Missing(xs, id, wanted) {
      var i :| 0 <= i < |xs| && id(xs[i]) == wanted;
      assert xs[i] in xs;
    }
  }

  lemma PlacementDefects(d: Durable)
    ensures (forall p :: p in d.placements ==>
               SoundPlacement(p, IdsOf(d.requests, RequestId), IdsOf(d.resources, ResourceId)))
            <==> !exists i :: 0 <= i < |d.placements| && BrokenPlacement(d, d.placements[i])
  {
    hide IdsOf, BrokenPlacement, SoundPlacement;
    forall p: Placement
      ensures SoundPlacement(p, IdsOf(d.requests, RequestId), IdsOf(d.resources, ResourceId))
              <==> !BrokenPlacement(d, p)
    {
      OnePlacement(d, p);
    }
  }

  lemma OnePlacement(d: Durable, p: Placement)
    ensures SoundPlacement(p, IdsOf(d.requests, RequestId), IdsOf(d.resources, ResourceId)) <==> !BrokenPlacement(d, p)
  {
    hide IdsOf, Missing;
    KnownId(d.requests, RequestId, p.request);
    forall i | 0 <= i < |p.resources|
      ensures p.resources[i].resource in IdsOf(d.resources, ResourceId)
              <==> !Missing(d.resources, ResourceId, p.resources[i].resource)
    {
      KnownId(d.resources, ResourceId, p.resources[i].resource);
    }
  }

  lemma ReservationDefects(d: Durable)
    ensures (forall rv :: rv in d.reservations ==>
               SoundReservation(rv, IdsOf(d.placements, PlacementId), IdsOf(d.resources, ResourceId)))
            <==> !exists i :: 0 <= i < |d.reservations| && BrokenReservation(d, d.reservations[i])
  {
    hide IdsOf, BrokenReservation, SoundReservation;
    forall rv: Reservation
      ensures SoundReservation(rv, IdsOf(d.placements, PlacementId), IdsOf(d.resources, ResourceId))
              <==> !BrokenReservation(d, rv)
    {
      OneReservation(d, rv);
    }
  }

  lemma OneReservation(d: Durable, rv: Reservation)
    ensures SoundReservation(rv, IdsOf(d.placements, PlacementId), IdsOf(d.resources, ResourceId))
            <==> !BrokenReservation(d, rv)
  {
    hide IdsOf, Missing;
    KnownId(d.placements, PlacementId, rv.placement);
    forall i | 0 <= i < |rv.claims|
      ensures rv.claims[i].resource in IdsOf(d.resources, ResourceId)
              <==> !Missing(d.resources, ResourceId, rv.claims[i].resource)
    {
      KnownId(d.resources, ResourceId, rv.claims[i].resource);
    }
  }
}
