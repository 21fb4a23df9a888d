/** The invariants of the engine state (src/engine_accounting.cpp:78-279) and the steps that end
    placements. The predicates range over the maps they read, so an operation that leaves a map alone
    leaves its invariants alone. */
module Invariants {
  import opened Prelude
  import opened Records
  import opened Transitions
  import opened Ledger

  // ---------------------------------------------------------------- the invariants

  /** Every record is filed under its own non-null identity. */
  ghost predicate Filed(s: State) {
    && (forall id :: id in s.resources ==> id != 0 && s.resources[id].ad.id == id)
    && (forall id :: id in s.requests ==> id != 0 && s.requests[id].request.id == id)
    && (forall id :: id in s.placements ==> s.placements[id].id == id)
    && (forall id :: id in s.reservations ==> s.reservations[id].id == id)
  }

  /** The identity counter has passed every identity it issued. */
  ghost predicate Numbered(
    placements: map<U64, Placement>, reservations: map<U64, Reservation>, last: U64)
  {
    && (forall id :: id in placements ==>
          0 < id <= last && placements[id].decision <= last
          && placements[id].reservation <= last && placements[id].lease <= last)
    && (forall id :: id in reservations ==> 0 < id <= last && 0 < reservations[id].lease <= last)
  }

  ghost predicate Matches(xs: seq<Selected>, cs: seq<Claim>) {
    |xs| == |cs|
    && forall i :: 0 <= i < |xs| ==>
         xs[i].resource == cs[i].resource && xs[i].slots == cs[i].slots && xs[i].exclusive == cs[i].exclusive
  }

  /** A placement and its reservation name each other, agree on generation and resources, and are live
      and active together. */
  ghost predicate Bound(id: U64, p: Placement, rv: Reservation) {
    rv.placement == id && rv.placementGeneration == p.generation && Matches(p.resources, rv.claims)
    && (Live(p.state) <==> rv.state.Active?)
  }

  ghost predicate Linked(placements: map<U64, Placement>, reservations: map<U64, Reservation>) {
    && (forall id :: id in placements ==>
          placements[id].reservation in reservations
          && Bound(id, placements[id], reservations[placements[id].reservation]))
    && (forall v :: v in reservations ==>
          reservations[v].placement in placements && placements[reservations[v].placement].reservation == v)
  }

  /** A placement selects distinct registered resources, one per requirement and at least one slot each,
      for a recorded request of the same unit, and stays within that request's reassignment budget. */
  ghost predicate WellFounded(p: Placement, resources: set<U64>, requests: map<U64, StoredRequest>) {
    && p.resources != []
    && (forall i :: 0 <= i < |p.resources| ==>
          p.resources[i].resource in resources && p.resources[i].slots >= 1 && p.resources[i].generation >= 1)
    && (forall i, j :: 0 <= i < j < |p.resources| ==> p.resources[i].resource != p.resources[j].resource)
    && p.request in requests && |p.resources| == |requests[p.request].request.requirements|
    && UnitOf(p) == UnitOfRequest(requests[p.request].request)
    && p.generation == p.reassignmentCount + 1
    && p.reassignmentCount <= requests[p.request].request.maxReassignments
  }

  ghost predicate Grounded(
    placements: map<U64, Placement>, resources: set<U64>, requests: map<U64, StoredRequest>)
  {
    forall id :: id in placements ==> WellFounded(placements[id], resources, requests)
  }

  /** The mirrored counter equals the active claims, and capacity is never over-committed. */
  ghost predicate Balanced(resources: map<U64, Resource>, reservations: map<U64, Reservation>) {
    forall id :: id in resources ==>
      resources[id].reserved == Claimed(reservations, id)
      && resources[id].ad.occupancy + resources[id].reserved <= resources[id].ad.slots
  }

  ghost predicate Trusted(r: Resource) {
    && ValidAdvertisement(r.ad)
    && (r.authoritative <==> r.lifecycle.Current?)
    && (r.lifecycle.Retired? ==> r.reserved == 0)
    && r.generation >= 1 && r.healthGeneration >= 1 && r.capacityGeneration >= 1
  }

  ghost predicate Authority(resources: map<U64, Resource>) {
    forall id :: id in resources ==> Trusted(resources[id])
  }

  /** The unit index only points at live placements of that unit. */
  ghost predicate Indexed(units: map<UnitKey, U64>, placements: map<U64, Placement>) {
    forall key :: key in units ==>
      units[key] in placements && Live(placements[units[key]].state) && UnitOf(placements[units[key]]) == key
  }

  ghost predicate Recorded(limits: Limits, requests: map<U64, StoredRequest>, placements: map<U64, Placement>) {
    forall id :: id in requests ==>
      ValidRequest(requests[id].request, limits)
      && (requests[id].current != 0 ==>
            requests[id].current in placements && Live(placements[requests[id].current].state)
            && placements[requests[id].current].request == id)
  }

  ghost predicate Inv(limits: Limits, s: State) {
    && s.epoch >= 1
    && Filed(s)
    && Numbered(s.placements, s.reservations, s.lastId)
    && Linked(s.placements, s.reservations)
    && Grounded(s.placements, s.resources.Keys, s.requests)
    && Balanced(s.resources, s.reservations)
    && Authority(s.resources)
    && Indexed(s.unitCurrent, s.placements)
    && Recorded(limits, s.requests, s.placements)
  }

  const EMPTY_STATE := State(1, false, map[], map[], map[], map[], map[], map[], map[], 1)

  lemma EmptyInv(limits: Limits, s: State)
    requires s.epoch >= 1
    requires s.resources == map[] && s.requests == map[] && s.placements == map[] && s.reservations == map[]
             && s.unitCurrent == map[]
    ensures Inv(limits, s)
  {
  }

  // ---------------------------------------------------------------- ending one placement

  function Ended(placements: map<U64, Placement>, id: U64, target: PlacementState): map<U64, Placement>
    requires id in placements
  {
    placements[id := placements[id].(state := target)]
  }

  function Freed(reservations: map<U64, Reservation>, v: U64, target: PlacementState): map<U64, Reservation>
    requires v in reservations
  {
    reservations[v := reservations[v].(state := if Revokes(target) then Revoked else Released)]
  }

  /** What terminate_placement does to a live placement of a consistent state, field by field. */
  lemma TerminateShape(s: State, id: U64, target: PlacementState)
    requires Linked(s.placements, s.reservations) && id in s.placements && Live(s.placements[id].state)
    ensures var t := Terminate(s, id, target); var v := s.placements[id].reservation;
            && v in s.reservations
            && t.placements == Ended(s.placements, id, target)
            && t.reservations == Freed(s.reservations, v, target)
            && t.resources == ReleaseClaims(s.resources, s.reservations[v].claims)
            && t.requests == DetachRequest(s.requests, s.placements[id].request, id, target)
            && t.unitCurrent == DetachUnit(s.unitCurrent, UnitOf(s.placements[id]), id)
            && t.lastId == s.lastId && t.epoch == s.epoch
  {
    LiveReservation(s, id);
  }

  lemma LiveReservation(s: State, id: U64)
    requires Linked(s.placements, s.reservations) && id in s.placements && Live(s.placements[id].state)
    ensures s.placements[id].reservation in s.reservations && s.reservations[s.placements[id].reservation].state.Active?
  {
    assert Bound(id, s.placements[id], s.reservations[s.placements[id].reservation]);
  }

  lemma EndedLinked(placements: map<U64, Placement>, reservations: map<U64, Reservation>, id: U64,
                    target: PlacementState)
    requires Linked(placements, reservations) && id in placements && !Live(target)
    ensures Linked(Ended(placements, id, target), Freed(reservations, placements[id].reservation, target))
  {
    var v := placements[id].reservation;
    var ps, rs := Ended(placements, id, target), Freed(reservations, v, target);
    forall k | k in ps ensures ps[k].reservation in rs && Bound(k, ps[k], rs[ps[k].reservation]) {
      assert Bound(k, placements[k], reservations[placements[k].reservation]);
      if placements[k].reservation == v {
        assert Bound(id, placements[id], reservations[v]);
        assert k == id;
      }
    }
  }

  lemma ClaimedAfterFree(reservations: map<U64, Reservation>, v: U64, target: PlacementState, id: U64)
    requires v in reservations && reservations[v].state.Active?
    ensures Claimed(Freed(reservations, v, target), id) + ClaimSlots(reservations[v].claims, id)
         == Claimed(reservations, id)
  {
    ClaimedUpdate(reservations, v, Freed(reservations, v, target)[v], id);
  }

  /** Releasing an active reservation keeps the ledger balanced, and its clamp never acts. */
  lemma ReleaseBalanced(resources: map<U64, Resource>, reservations: map<U64, Reservation>, v: U64,
                        target: PlacementState)
    requires Balanced(resources, reservations) && v in reservations && reservations[v].state.Active?
    ensures var after := ReleaseClaims(resources, reservations[v].claims);
            Balanced(after, Freed(reservations, v, target)) && Relieved(resources, after)
            && forall id :: id in resources ==>
                 ClaimSlots(reservations[v].claims, id) <= resources[id].reserved
                 && after[id].reserved == resources[id].reserved - ClaimSlots(reservations[v].claims, id)
  {
    hide ClaimSlots, Claimed, ReleaseClaims;
    var claims := reservations[v].claims;
    forall id | id in resources ensures ClaimSlots(claims, id) <= resources[id].reserved {
      ClaimedAfterFree(reservations, v, target, id);
    }
    ReleaseExact(resources, claims);
    var after := ReleaseClaims(resources, claims);
    forall id | id in after
      ensures after[id].reserved == Claimed(Freed(reservations, v, target), id)
              && after[id].ad.occupancy + after[id].reserved <= after[id].ad.slots
    {
      ClaimedAfterFree(reservations, v, target, id);
    }
  }

  /** Records that differ only in their reserved counter, which did not grow. */
  ghost predicate Relieved(before: map<U64, Resource>, after: map<U64, Resource>) {
    after.Keys == before.Keys
    && forall id :: id in before ==>
         after[id].reserved <= before[id].reserved && after[id] == before[id].(reserved := after[id].reserved)
  }

  lemma RelievedAuthority(before: map<U64, Resource>, after: map<U64, Resource>)
    requires Authority(before) && Relieved(before, after)
    ensures Authority(after)
  {
    hide ValidAdvertisement;
    forall id | id in after ensures Trusted(after[id]) {
      assert Trusted(before[id]);
    }
  }

  /** Placements that differ only in state and completion mark. */
  ghost predicate Moved(before: map<U64, Placement>, after: map<U64, Placement>) {
    after.Keys == before.Keys
    && forall id :: id in before ==>
         after[id] == before[id].(state := after[id].state, completionRecorded := after[id].completionRecorded)
  }

  ghost predicate Refreed(before: map<U64, Reservation>, after: map<U64, Reservation>) {
    after.Keys == before.Keys && forall v :: v in before ==> after[v] == before[v].(state := after[v].state)
  }

  lemma MovedNumbered(ps: map<U64, Placement>, ps': map<U64, Placement>, rs: map<U64, Reservation>,
                      rs': map<U64, Reservation>, last: U64)
    requires Numbered(ps, rs, last) && Moved(ps, ps') && Refreed(rs, rs')
    ensures Numbered(ps', rs', last)
  {
  }

  lemma MovedGrounded(ps: map<U64, Placement>, ps': map<U64, Placement>, resources: set<U64>,
                      requests: map<U64, StoredRequest>, requests': map<U64, StoredRequest>)
    requires Grounded(ps, resources, requests) && Moved(ps, ps') && SameRequests(requests', requests)
    ensures Grounded(ps', resources, requests')
  {
    forall id | id in ps' ensures WellFounded(ps'[id], resources, requests') {
      assert WellFounded(ps[id], resources, requests);
    }
  }

  lemma MovedFiled(s: State, t: State)
    requires Filed(s) && Moved(s.placements, t.placements) && Refreed(s.reservations, t.reservations)
    requires SameRequests(t.requests, s.requests) && SameAdvertisements(t.resources, s.resources)
    ensures Filed(t)
  {
  }

  /** What an ending does to the two indexes. */
  ghost predicate Unindexed(s: State, t: State, id: U64) {
    && (forall key :: key in t.unitCurrent ==>
          key in s.unitCurrent && t.unitCurrent[key] == s.unitCurrent[key] && t.unitCurrent[key] != id)
    && SameRequests(t.requests, s.requests)
    && (forall q :: q in t.requests ==>
          t.requests[q].current != id && (t.requests[q].current == s.requests[q].current || t.requests[q].current == 0))
  }

  lemma DetachUnindexed(limits: Limits, s: State, t: State, id: U64, target: PlacementState)
    requires Indexed(s.unitCurrent, s.placements) && Recorded(limits, s.requests, s.placements)
    requires id in s.placements && id != 0 && s.placements[id].request in s.requests
    requires t.requests == DetachRequest(s.requests, s.placements[id].request, id, target)
    requires t.unitCurrent == DetachUnit(s.unitCurrent, UnitOf(s.placements[id]), id)
    ensures Unindexed(s, t, id)
  {
    hide ValidRequest;
  }

  lemma UnindexedIndexes(limits: Limits, s: State, t: State, id: U64, target: PlacementState)
    requires Indexed(s.unitCurrent, s.placements) && Recorded(limits, s.requests, s.placements)
    requires id in s.placements && t.placements == Ended(s.placements, id, target) && Unindexed(s, t, id)
    ensures Indexed(t.unitCurrent, t.placements) && Recorded(limits, t.requests, t.placements)
  {
    hide ValidRequest;
  }

  lemma EndedMoved(s: State, t: State, id: U64, target: PlacementState)
    requires id in s.placements && s.placements[id].reservation in s.reservations
    requires t.placements == Ended(s.placements, id, target)
    requires t.reservations == Freed(s.reservations, s.placements[id].reservation, target)
    ensures Refreed(s.reservations, t.reservations) && Moved(s.placements, t.placements)
  {
  }

  lemma PlacementFacts(limits: Limits, s: State, id: U64)
    requires Inv(limits, s) && id in s.placements
    ensures id != 0 && WellFounded(s.placements[id], s.resources.Keys, s.requests)
    ensures s.placements[id].reservation in s.reservations
            && Bound(id, s.placements[id], s.reservations[s.placements[id].reservation])
  {
    hide ValidRequest, ValidAdvertisement;
  }

  lemma TerminateInv(limits: Limits, s: State, id: U64, target: PlacementState)
    requires Inv(limits, s) && !Live(target)
    ensures Inv(limits, Terminate(s, id, target))
    ensures Relieved(s.resources, Terminate(s, id, target).resources)
    ensures Refreed(s.reservations, Terminate(s, id, target).reservations)
    ensures Moved(s.placements, Terminate(s, id, target).placements)
  {
    hide Filed, Numbered, Linked, Grounded, Balanced, Authority, Indexed, Recorded;
    var t := Terminate(s, id, target);
    if id in s.placements && Live(s.placements[id].state) {
      var v := s.placements[id].reservation;
      PlacementFacts(limits, s, id);
      TerminateShape(s, id, target);
      LiveReservation(s, id);
      ReleaseBalanced(s.resources, s.reservations, v, target);
      RelievedAuthority(s.resources, t.resources);
      DetachUnindexed(limits, s, t, id, target);
      UnindexedIndexes(limits, s, t, id, target);
      EndedMoved(s, t, id, target);
      EndedLinked(s.placements, s.reservations, id, target);
      MovedNumbered(s.placements, t.placements, s.reservations, t.reservations, s.lastId);
      MovedGrounded(s.placements, t.placements, s.resources.Keys, s.requests, t.requests);
      MovedFiled(s, t);
    }
  }
}
