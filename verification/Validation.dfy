/** validate_durable_state as the source runs it (src/durable.cpp:28-155): one pass per record list,
    growing sets of identities already seen and a map of claimed slots. */
module Validation {
  import opened Prelude
  import opened Records
  import opened Ledger
  import opened Durability

  /** One more identity for a growing set: null and repeated identities are refused. */
  method InsertUnique(seen: set<U64>, id: U64) returns (checked: Status, grown: set<U64>)
    ensures checked == Ok <==> id != 0 && id !in seen
    ensures grown == seen + {id}
  {
    grown := seen + {id};
    if id == 0 { return Fail(CorruptPersistence), grown; }
    if id in seen { return Fail(DuplicateIdentity), grown; }
    return Ok, grown;
  }

  lemma UniqueGrows<V>(xs: seq<V>, k: nat, id: V -> U64)
    requires k < |xs|
    ensures Unique(xs[..k + 1], id) <==> Unique(xs[..k], id) && id(xs[k]) != 0 && id(xs[k]) !in IdsOf(xs[..k], id)
    ensures IdsOf(xs[..k + 1], id) == IdsOf(xs[..k], id) + {id(xs[k])}
  {
    assert xs[..k + 1] == xs[..k] + [xs[k]];
    if Unique(xs[..k + 1], id) {
      forall x | x in xs[..k] ensures id(x) != id(xs[k]) {
        var i :| 0 <= i < k && xs[..k][i] == x;
        assert xs[..k + 1][i] == x && xs[..k + 1][k] == xs[k];
      }
      forall i, j | 0 <= i < j < k ensures id(xs[..k][i]) != id(xs[..k][j]) {
        assert xs[..k + 1][i] == xs[..k][i] && xs[..k + 1][j] == xs[..k][j];
      }
    }
  }

  lemma {:induction false} UniquePrefix<V>(xs: seq<V>, k: nat, id: V -> U64)
    requires k <= |xs| && !Unique(xs[..k], id)
    ensures !Unique(xs, id)
  {
    if Unique(xs, id) {
      forall i | 0 <= i < k ensures id(xs[..k][i]) != 0 { assert xs[..k][i] == xs[i]; }
    }
  }

  /** The pass over the resources. */
  method CheckResources(rs: seq<Resource>) returns (checked: Status, ids: set<U64>)
    ensures checked == Ok <==> Unique(rs, ResourceId) && forall r :: r in rs ==> ValidResource(r)
    ensures checked == Ok ==> ids == IdsOf(rs, ResourceId)
  {
    hide ValidResource;
    ids := {};
    for k := 0 to |rs|
      invariant Unique(rs[..k], ResourceId) && ids == IdsOf(rs[..k], ResourceId)
      invariant forall i :: 0 <= i < k ==> ValidResource(rs[i])
    {
      UniqueGrows(rs, k, ResourceId);
      checked, ids := InsertUnique(ids, rs[k].ad.id);
      if checked != Ok {
        UniquePrefix(rs, k + 1, ResourceId);
        return;
      }
      if !ValidResource(rs[k]) {
        return Fail(InvalidArgument), ids;
      }
    }
    assert rs[..|rs|] == rs;
    checked := Ok;
  }

  /** The pass over the requests. */
  method CheckRequests(qs: seq<StoredRequest>, limits: Limits) returns (checked: Status, ids: set<U64>)
    ensures checked == Ok <==> Unique(qs, RequestId) && forall q :: q in qs ==> ValidRequest(q.request, limits)
    ensures checked == Ok ==> ids == IdsOf(qs, RequestId)
  {
    hide ValidRequest;
    ids := {};
    for k := 0 to |qs|
      invariant Unique(qs[..k], RequestId) && ids == IdsOf(qs[..k], RequestId)
      invariant forall i :: 0 <= i < k ==> ValidRequest(qs[i].request, limits)
    {
      UniqueGrows(qs, k, RequestId);
      checked, ids := InsertUnique(ids, qs[k].request.id);
      if checked != Ok {
        UniquePrefix(qs, k + 1, RequestId);
        return;
      }
      if !ValidRequest(qs[k].request, limits) {
        return Fail(InvalidArgument), ids;
      }
    }
    assert qs[..|qs|] == qs;
    checked := Ok;
  }

  method CheckPlacement(p: Placement, requests: set<U64>, resources: set<U64>) returns (checked: Status)
    ensures checked == Ok <==> SoundPlacement(p, requests, resources)
  {
    if p.generation == 0 || p.request !in requests || p.resources == [] {
      return Fail(CorruptPersistence);
    }
    for i := 0 to |p.resources|
      invariant forall j :: 0 <= j < i ==> p.resources[j].resource in resources && p.resources[j].generation != 0
    {
      if p.resources[i].resource !in resources || p.resources[i].generation == 0 {
        assert p.resources[i] in p.resources;
        return Fail(CorruptPersistence);
      }
    }
    return Ok;
  }

  /** The pass over the placements. */
  method CheckPlacements(ps: seq<Placement>, requests: set<U64>, resources: set<U64>)
    returns (checked: Status, ids: set<U64>)
    ensures checked == Ok <==> Unique(ps, PlacementId) && forall p :: p in ps ==> SoundPlacement(p, requests, resources)
    ensures checked == Ok ==> ids == IdsOf(ps, PlacementId)
  {
    hide SoundPlacement;
    ids := {};
    for k := 0 to |ps|
      invariant Unique(ps[..k], PlacementId) && ids == IdsOf(ps[..k], PlacementId)
      invariant forall i :: 0 <= i < k ==> SoundPlacement(ps[i], requests, resources)
    {
      UniqueGrows(ps, k, PlacementId);
      checked, ids := InsertUnique(ids, ps[k].id);
      if checked != Ok {
        UniquePrefix(ps, k + 1, PlacementId);
        return;
      }
      checked := CheckPlacement(ps[k], requests, resources);
      if checked != Ok {
        return;
      }
    }
    assert ps[..|ps|] == ps;
    checked := Ok;
  }

  // ---------------------------------------------------------------- reservations and their claims

  function TotalAt(claimed: map<U64, nat>, id: U64): nat {
    if id in claimed then claimed[id] else 0
  }

  /** The running totals stay within the capacities, which makes them exact at the end. */
  ghost predicate Tallied(claimed: map<U64, nat>, rvs: seq<Reservation>, capacity: map<U64, nat>) {
    forall id ::
      TotalAt(claimed, id) == ActiveTotal(rvs, id) && (id in capacity ==> TotalAt(claimed, id) <= capacity[id])
  }

  lemma {:induction false} ActiveTotalGrows(rvs: seq<Reservation>, k: nat, id: U64)
    requires k <= |rvs|
    ensures ActiveTotal(rvs[..k], id) <= ActiveTotal(rvs, id)
  {
    if k < |rvs| {
      var n := |rvs| - 1;
      ActiveTotalGrows(rvs[..n], k, id);
      assert rvs[..n][..k] == rvs[..k];
    } else {
      assert rvs[..k] == rvs;
    }
  }

  lemma {:induction false} ClaimSlotsGrow(claims: seq<Claim>, k: nat, id: U64)
    requires k <= |claims|
    ensures ClaimSlots(claims[..k], id) <= ClaimSlots(claims, id)
  {
    if k < |claims| {
      var n := |claims| - 1;
      ClaimSlotsGrow(claims[..n], k, id);
      assert claims[..n][..k] == claims[..k];
    } else {
      assert claims[..k] == claims;
    }
  }

  lemma ClaimSlotsNone(claims: seq<Claim>)
    ensures forall id :: ClaimSlots(claims[..0], id) == 0
  {
  }

  lemma ClaimSlotsNext(claims: seq<Claim>, i: nat)
    requires i < |claims|
    ensures forall id :: ClaimSlots(claims[..i + 1], id)
                      == ClaimSlots(claims[..i], id) + (if claims[i].resource == id then claims[i].slots else 0)
  {
    assert claims[..i + 1][..i] == claims[..i];
  }

  /** Claims of one reservation: known resources, at least one slot, and totals within capacity. */
  method CheckClaims(rv: Reservation, claimed: map<U64, nat>, capacity: map<U64, nat>)
    returns (checked: Status, grown: map<U64, nat>)
    requires forall id :: id in capacity ==> TotalAt(claimed, id) <= capacity[id]
    ensures checked == Ok <==>
            (forall c :: c in rv.claims ==> c.resource in capacity && c.slots != 0)
            && (forall id :: id in capacity ==> TotalAt(claimed, id) + Held(rv, id) <= capacity[id])
    ensures checked == Ok ==> forall id :: TotalAt(grown, id) == TotalAt(claimed, id) + Held(rv, id)
  {
    hide ClaimSlots;
    ClaimSlotsNone(rv.claims);
    grown := claimed;
    for i := 0 to |rv.claims|
      invariant forall j :: 0 <= j < i ==> rv.claims[j].resource in capacity && rv.claims[j].slots != 0
      invariant forall id :: TotalAt(grown, id) ==
                  TotalAt(claimed, id) + if rv.state.Active? then ClaimSlots(rv.claims[..i], id) else 0
      invariant forall id :: id in capacity ==> TotalAt(grown, id) <= capacity[id]
    {
      var c := rv.claims[i];
      assert c in rv.claims;
      if c.resource !in capacity || c.slots == 0 {
        return Fail(CorruptPersistence), grown;
      }
      if rv.state.Active? {
        var total := TotalAt(grown, c.resource) + c.slots;
        ClaimSlotsNext(rv.claims, i);
        grown := grown[c.resource := total];
        if total > capacity[c.resource] {
          ClaimSlotsGrow(rv.claims, i + 1, c.resource);
          return Fail(CorruptPersistence), grown;
        }
      }
    }
    assert rv.claims[..|rv.claims|] == rv.claims;
    checked := Ok;
  }

  ghost predicate WithinCapacity(rvs: seq<Reservation>, capacity: map<U64, nat>) {
    forall id :: id in capacity ==> ActiveTotal(rvs, id) <= capacity[id]
  }

  lemma OverCapacity(rvs: seq<Reservation>, k: nat, capacity: map<U64, nat>)
    requires k <= |rvs| && !WithinCapacity(rvs[..k], capacity)
    ensures !WithinCapacity(rvs, capacity)
  {
    var id :| id in capacity && ActiveTotal(rvs[..k], id) > capacity[id];
    ActiveTotalGrows(rvs, k, id);
  }

  lemma TallyOne(rvs: seq<Reservation>, k: nat, claimed: map<U64, nat>, capacity: map<U64, nat>)
    requires k < |rvs| && Tallied(claimed, rvs[..k], capacity)
    ensures forall id :: ActiveTotal(rvs[..k + 1], id) == TotalAt(claimed, id) + Held(rvs[k], id)
    ensures WithinCapacity(rvs[..k + 1], capacity) <==>
            forall id :: id in capacity ==> TotalAt(claimed, id) + Held(rvs[k], id) <= capacity[id]
  {
    hide Held;
    assert rvs[..k + 1][..k] == rvs[..k];
  }

  method CheckReservation(rv: Reservation, placements: set<U64>, claimed: map<U64, nat>, capacity: map<U64, nat>)
    returns (checked: Status, grown: map<U64, nat>)
    requires forall id :: id in capacity ==> TotalAt(claimed, id) <= capacity[id]
    ensures checked == Ok <==>
            SoundReservation(rv, placements, capacity.Keys)
            && (forall id :: id in capacity ==> TotalAt(claimed, id) + Held(rv, id) <= capacity[id])
    ensures checked == Ok ==> forall id :: TotalAt(grown, id) == TotalAt(claimed, id) + Held(rv, id)
  {
    if rv.lease == 0 || rv.claims == [] || rv.placement !in placements {
      return Fail(CorruptPersistence), claimed;
    }
    checked, grown := CheckClaims(rv, claimed, capacity);
  }

  /** The pass over the reservations. */
  method CheckReservations(rvs: seq<Reservation>, placements: set<U64>, capacity: map<U64, nat>)
    returns (checked: Status, claimed: map<U64, nat>)
    ensures checked == Ok <==>
            Unique(rvs, ReservationId)
            && (forall rv :: rv in rvs ==> SoundReservation(rv, placements, capacity.Keys))
            && WithinCapacity(rvs, capacity)
    ensures checked == Ok ==> Tallied(claimed, rvs, capacity)
  {
    hide SoundReservation, Held, WithinCapacity;
    var ids := {};
    claimed := map[];
    for k := 0 to |rvs|
      invariant Unique(rvs[..k], ReservationId) && ids == IdsOf(rvs[..k], ReservationId)
      invariant forall i :: 0 <= i < k ==> SoundReservation(rvs[i], placements, capacity.Keys)
      invariant Tallied(claimed, rvs[..k], capacity)
    {
      UniqueGrows(rvs, k, ReservationId);
      checked, ids := InsertUnique(ids, rvs[k].id);
      if checked != Ok {
        UniquePrefix(rvs, k + 1, ReservationId);
        return;
      }
      TallyOne(rvs, k, claimed, capacity);
      var grown;
      checked, grown := CheckReservation(rvs[k], placements, claimed, capacity);
      if checked != Ok {
        if SoundReservation(rvs[k], placements, capacity.Keys) {
          OverCapacity(rvs, k + 1, capacity);
        } else {
          assert rvs[k] in rvs;
        }
        return;
      }
      claimed := grown;
    }
    assert rvs[..|rvs|] == rvs;
    TalliedWithin(rvs, claimed, capacity);
    checked := Ok;
  }

  lemma TalliedWithin(rvs: seq<Reservation>, claimed: map<U64, nat>, capacity: map<U64, nat>)
    requires Tallied(claimed, rvs, capacity)
    ensures WithinCapacity(rvs, capacity)
  {
  }

  function Capacities(rs: seq<Resource>): map<U64, nat> {
    if rs == [] then map[]
    else
      var before := Capacities(rs[..|rs| - 1]);
      if rs[|rs| - 1].ad.id in before then before else before[rs[|rs| - 1].ad.id := rs[|rs| - 1].ad.slots]
  }

  lemma {:induction false} CapacitiesExact(rs: seq<Resource>)
    requires Unique(rs, ResourceId)
    ensures Capacities(rs).Keys == IdsOf(rs, ResourceId)
    ensures forall i :: 0 <= i < |rs| ==> rs[i].ad.id in Capacities(rs) && Capacities(rs)[rs[i].ad.id] == rs[i].ad.slots
  {
    if rs != [] {
      var n := |rs| - 1;
      UniqueGrows(rs, n, ResourceId);
      assert rs[..n + 1] == rs;
      CapacitiesExact(rs[..n]);
    }
  }

  /** The mirrored counters, resource by resource. */
  method CheckMirrors(rs: seq<Resource>, claimed: map<U64, nat>) returns (checked: Status)
    ensures checked == Ok <==> forall r :: r in rs ==> r.reserved == TotalAt(claimed, r.ad.id)
  {
    for k := 0 to |rs|
      invariant forall i :: 0 <= i < k ==> rs[i].reserved == TotalAt(claimed, rs[i].ad.id)
    {
      if rs[k].reserved != TotalAt(claimed, rs[k].ad.id) {
        assert rs[k] in rs;
        return Fail(CorruptPersistence);
      }
    }
    return Ok;
  }

  lemma MirrorsExact(d: Durable, claimed: map<U64, nat>, capacity: map<U64, nat>)
    requires Unique(d.resources, ResourceId) && capacity == Capacities(d.resources)
    requires Tallied(claimed, d.reservations, capacity)
    ensures (forall r :: r in d.resources ==> r.reserved == TotalAt(claimed, r.ad.id)) <==>
            (forall r :: r in d.resources ==>
               r.reserved == ActiveTotal(d.reservations, r.ad.id) && r.reserved <= r.ad.slots)
  {
    hide ActiveTotal, Capacities, Unique, IdsOf;
    CapacitiesExact(d.resources);
    forall r | r in d.resources
      ensures TotalAt(claimed, r.ad.id) == ActiveTotal(d.reservations, r.ad.id) <= r.ad.slots
    {
      var i :| 0 <= i < |d.resources| && d.resources[i] == r;
      assert capacity[d.resources[i].ad.id] == r.ad.slots;
    }
  }

  /** Sound ledgers are within capacity. */
  lemma SoundWithin(d: Durable)
    requires SoundDurable(d)
    ensures WithinCapacity(d.reservations, Capacities(d.resources))
  {
    hide ActiveTotal, Capacities, ValidResource, ValidRequest, SoundPlacement, SoundReservation, Unique;
    CapacitiesExact(d.resources);
    forall id | id in Capacities(d.resources) ensures ActiveTotal(d.reservations, id) <= Capacities(d.resources)[id] {
      var r :| r in d.resources && r.ad.id == id;
      var i :| 0 <= i < |d.resources| && d.resources[i] == r;
      assert Capacities(d.resources)[d.resources[i].ad.id] == r.ad.slots;
    }
  }

  /** The four passes together accept exactly the sound images. */
  method ValidateDurable(d: Durable) returns (checked: Status)
    ensures checked == Ok <==> SoundDurable(d)
  {
    hide ValidResource, ValidRequest, SoundPlacement, SoundReservation, Unique, ActiveTotal, Capacities, Tallied,
         WithinCapacity;
    if d.version != FORMAT_VERSION || d.epoch == 0 || !WithinBounds(d) {
      return Fail(CorruptPersistence);
    }
    var resources, requests, placements, claimed;
    checked, resources := CheckResources(d.resources);
    if checked != Ok { return; }
    checked, requests := CheckRequests(d.requests, d.limits);
    if checked != Ok { return; }
    checked, placements := CheckPlacements(d.placements, requests, resources);
    if checked != Ok { return; }
    var capacity := Capacities(d.resources);
    CapacitiesExact(d.resources);
    checked, claimed := CheckReservations(d.reservations, placements, capacity);
    if checked != Ok {
      if SoundDurable(d) {
        SoundWithin(d);
      }
      return;
    }
    MirrorsExact(d, claimed, capacity);
    checked := CheckMirrors(d.resources, claimed);
  }
}
