/** Scheduling a request: the chosen placement meets every constraint in the pre-state, the commit
    cannot fail half-way, and the invariants survive (src/engine_scheduling.cpp:940-1312). */
module Commitment {
  import opened Prelude
  import opened Records
  import opened Eligibility
  import opened Ranking
  import opened Search
  import opened Planning
  import opened Transitions
  import opened Ledger
  import opened Invariants
  import Endings

  // ---------------------------------------------------------------- the chosen selection is sound

  /** Every selected resource meets every hard constraint of its requirement, and the selection is
      acceptable as a unit. */
  ghost predicate SoundSelection(s: State, request: Request, sel: Selection) {
    && Acceptable(s, request, sel)
    && forall i :: 0 <= i < |sel| ==>
         var r := s.resources[sel[i].id]; var q := request.requirements[i];
         Meets(request, q, r) && sel[i].slots == ClaimSize(request, q, r)
         && sel[i].exclusive == ClaimsExclusively(request, q, r)
  }

  lemma SoundDistinct(s: State, request: Request, sel: Selection)
    requires SoundSelection(s, request, sel)
    ensures forall i, j :: 0 <= i < j < |sel| ==> sel[i].id != sel[j].id
  {
    hide Meets;
  }

  lemma GenuineMeets(s: State, limits: Limits, request: Request, q: Requirement, c: Candidate)
    requires Plannable(s, request) && Genuine(s, limits, request, q, c) && limits.maxRejectionReasons >= 1
    ensures c.id in s.resources && Meets(request, q, s.resources[c.id])
    ensures c.slots == ClaimSize(request, q, s.resources[c.id])
            && c.exclusive == ClaimsExclusively(request, q, s.resources[c.id])
  {
    hide Meets, Reasons, Evaluate;
    EligibleExactly(request, q, s.resources[c.id], limits.maxRejectionReasons);
  }

  /** Placed decisions are sound and fail closed. */
  lemma HeadIsSound(s: State, limits: Limits, request: Request)
    requires Plannable(s, request) && limits.maxRejectionReasons >= 1
    ensures var found := Run(SearchSpace(s, limits, request)).ranked;
            found != [] ==> SoundSelection(s, request, Head(found).selection)
  {
    hide Genuine, Meets, Acceptable, Run, Head;
    var sp := SearchSpace(s, limits, request);
    HeadIsValid(sp);
    if Run(sp).ranked != [] {
      var sel := Head(Run(sp).ranked).selection;
      ChoiceListsGenuine(s, limits, request);
      var lists := ChoiceLists(s, limits, request);
      forall i | 0 <= i < |sel|
        ensures sel[i].id in s.resources && Meets(request, request.requirements[i], s.resources[sel[i].id])
        ensures sel[i].slots == ClaimSize(request, request.requirements[i], s.resources[sel[i].id])
        ensures sel[i].exclusive == ClaimsExclusively(request, request.requirements[i], s.resources[sel[i].id])
      {
        assert sel[i] in lists[i];
        GenuineMeets(s, limits, request, request.requirements[i], sel[i]);
      }
    }
  }

  ghost predicate TotalRoom(r: Resource, c: Candidate) {
    r.ad.occupancy + r.reserved + c.slots <= r.ad.slots
  }

  /** A claim that meets its requirement has room in a balanced ledger. */
  lemma MeetsRoom(request: Request, q: Requirement, r: Resource, c: Candidate)
    requires Meets(request, q, r) && c.slots == ClaimSize(request, q, r)
    requires r.ad.occupancy + r.reserved <= r.ad.slots && r.ad.slots >= 1 && q.minSlots >= 1
    ensures TotalRoom(r, c) && RoomAt(r, c) && c.slots >= 1 && !r.lifecycle.Retired? && !r.lifecycle.Lost?
  {
    hide Fits;
    assert TotalOccupancy(r) == r.ad.occupancy + r.reserved;
  }

  /** What the commit needs of a selection. */
  ghost predicate Committable(s: State, request: Request, sel: Selection) {
    && |sel| == |request.requirements| && |sel| >= 1 && Found(s, sel) && RoomFor(s.resources, sel)
    && forall i :: 0 <= i < |sel| ==>
         sel[i].slots >= 1 && TotalRoom(s.resources[sel[i].id], sel[i]) && !s.resources[sel[i].id].lifecycle.Retired?
  }

  lemma SoundIsCommittable(limits: Limits, s: State, request: Request, sel: Selection)
    requires Inv(limits, s) && ValidRequest(request, limits) && SoundSelection(s, request, sel)
    ensures Committable(s, request, sel)
  {
    hide Meets, Filed, Linked, Numbered, Grounded, Indexed, Recorded, Claimed;
    forall i | 0 <= i < |sel|
      ensures RoomAt(s.resources[sel[i].id], sel[i]) && TotalRoom(s.resources[sel[i].id], sel[i]) && sel[i].slots >= 1
      ensures !s.resources[sel[i].id].lifecycle.Retired?
    {
      assert Trusted(s.resources[sel[i].id]);
      assert ValidRequirement(request.requirements[i], limits);
      MeetsRoom(request, request.requirements[i], s.resources[sel[i].id], sel[i]);
    }
  }

  // ---------------------------------------------------------------- the committed state

  ghost predicate FreshIds(s: State) { s.lastId + 3 < TWO_64 }

  /** The state after a successful commit, field by field. */
  ghost predicate Committed(s: State, t: State, requestId: U64, p: Placement, rv: Reservation, sel: Selection)
    requires requestId in s.requests
  {
    && t == s.(placements := t.placements, reservations := t.reservations, resources := t.resources,
               unitCurrent := t.unitCurrent, requests := t.requests, tenantService := t.tenantService,
               lastId := t.lastId)
    && t.placements == s.placements[p.id := p]
    && t.reservations == s.reservations[rv.id := rv]
    && Added(s.resources, t.resources, sel)
    && t.unitCurrent == s.unitCurrent[UnitOf(p) := p.id]
    && t.requests.Keys == s.requests.Keys
    && (forall k :: k in s.requests && k != requestId ==> t.requests[k] == s.requests[k])
    && t.requests[requestId].request == s.requests[requestId].request && t.requests[requestId].current == p.id
    && p.id == s.lastId + 1 && p.reservation == rv.id == s.lastId + 2 && p.lease == rv.lease == s.lastId + 3
    && p.decision == s.lastId && t.lastId == s.lastId + 3
    && p.id !in s.placements && rv.id !in s.reservations
  }

  lemma CommitShape(limits: Limits, s: State, requestId: U64, generation: nat, count: nat, sel: Selection)
    requires Inv(limits, s) && requestId in s.requests && FreshIds(s)
    requires Committable(s, s.requests[requestId].request, sel)
    ensures var id: U64 := s.lastId + 1; var request := s.requests[requestId].request;
            var p := NewPlacement(s, id, request, generation, count, SelectedList(s, request, sel));
            var o := Commit(s, requestId, generation, count, sel);
            o == Done(o.state, PlacedAt(id))
            && Committed(s, o.state, requestId, p, NewReservation(s, p, ClaimList(s, sel)), sel)
  {
    hide Linked, Grounded, Balanced, Authority, Indexed, Recorded, RoomAt, TotalRoom, Acquire, Added, ClaimList,
         SelectedList;
    AcquireExact(s.resources, sel);
    NextIds(s.lastId);
  }

  lemma NextIds(last: U64)
    requires last + 3 < TWO_64
    ensures NextId(last) == last + 1 && NextId(last + 1) == last + 2 && NextId(last + 2) == last + 3
  {
  }

  lemma CommitLinked(ps: map<U64, Placement>, rs: map<U64, Reservation>, p: Placement, rv: Reservation)
    requires Linked(ps, rs) && p.id !in ps && p.reservation !in rs
    requires Bound(p.id, p, rv)
    ensures Linked(ps[p.id := p], rs[p.reservation := rv])
  {
  }

  lemma CommitBound(s: State, id: U64, request: Request, generation: nat, count: nat, sel: Selection)
    requires |sel| == |request.requirements| && Found(s, sel)
    ensures var p := NewPlacement(s, id, request, generation, count, SelectedList(s, request, sel));
            Bound(id, p, NewReservation(s, p, ClaimList(s, sel)))
  {
  }

  lemma CommitBalanced(s: State, after: map<U64, Resource>, v: U64, rv: Reservation, sel: Selection)
    requires Balanced(s.resources, s.reservations) && v !in s.reservations && Found(s, sel)
    requires rv.state.Active? && rv.claims == ClaimList(s, sel)
    requires Added(s.resources, after, sel)
    requires forall i :: 0 <= i < |sel| ==> TotalRoom(s.resources[sel[i].id], sel[i])
    requires forall i, j :: 0 <= i < j < |sel| ==> sel[i].id != sel[j].id
    ensures Balanced(after, s.reservations[v := rv])
  {
    hide Claimed, ClaimSlots, SelectionSlots, ClaimList;
    forall id | id in after
      ensures after[id].reserved == Claimed(s.reservations[v := rv], id)
              && after[id].ad.occupancy + after[id].reserved <= after[id].ad.slots
    {
      ClaimedInsert(s.reservations, v, rv, id);
      ClaimListSlots(s, sel, id);
      SelectionFits(s.resources, sel, id);
    }
  }

  lemma {:induction false} SelectionFits(resources: map<U64, Resource>, sel: Selection, id: U64)
    requires id in resources && resources[id].ad.occupancy + resources[id].reserved <= resources[id].ad.slots
    requires forall i :: 0 <= i < |sel| ==> sel[i].id in resources && TotalRoom(resources[sel[i].id], sel[i])
    requires forall i, j :: 0 <= i < j < |sel| ==> sel[i].id != sel[j].id
    ensures resources[id].ad.occupancy + resources[id].reserved + SelectionSlots(sel, id) <= resources[id].ad.slots
  {
    if sel != [] {
      var n := |sel| - 1;
      if sel[n].id == id {
        SelectionSlotsAbsent(sel[..n], id);
        assert TotalRoom(resources[sel[n].id], sel[n]);
      } else {
        SelectionFits(resources, sel[..n], id);
      }
    }
  }

  lemma AddedAuthority(before: map<U64, Resource>, after: map<U64, Resource>, sel: Selection)
    requires Authority(before) && Added(before, after, sel)
    requires forall i :: 0 <= i < |sel| ==> sel[i].id in before && !before[sel[i].id].lifecycle.Retired?
    ensures Authority(after)
  {
    hide ValidAdvertisement;
    forall id | id in after ensures Trusted(after[id]) {
      assert Trusted(before[id]);
      if before[id].lifecycle.Retired? {
        SelectionSlotsAbsent(sel, id);
      }
    }
  }

  lemma NewPlacementFounded(s: State, p: Placement, id: U64, request: Request, generation: nat, count: nat,
                            sel: Selection, requests: map<U64, StoredRequest>)
    requires Committable(s, request, sel) && Authority(s.resources)
    requires p == NewPlacement(s, id, request, generation, count, SelectedList(s, request, sel))
    requires request.id in requests && requests[request.id].request == request
    requires generation == count + 1 && count <= request.maxReassignments
    ensures WellFounded(p, s.resources.Keys, requests)
  {
    hide ValidAdvertisement;
    forall i | 0 <= i < |sel| ensures s.resources[sel[i].id].generation >= 1 {
      assert Trusted(s.resources[sel[i].id]);
    }
  }

  lemma CommitGrounded(ps: map<U64, Placement>, p: Placement, resources: set<U64>,
                       requests: map<U64, StoredRequest>, requests': map<U64, StoredRequest>)
    requires Grounded(ps, resources, requests) && SameRequests(requests', requests)
    requires WellFounded(p, resources, requests')
    ensures Grounded(ps[p.id := p], resources, requests')
  {
    var after := ps[p.id := p];
    forall id | id in after ensures WellFounded(after[id], resources, requests') {
      if id != p.id {
        assert WellFounded(ps[id], resources, requests);
      }
    }
  }

  lemma CommitIndexes(limits: Limits, s: State, t: State, requestId: U64, p: Placement)
    requires Indexed(s.unitCurrent, s.placements) && Recorded(limits, s.requests, s.placements)
    requires p.id !in s.placements && t.placements == s.placements[p.id := p] && Live(p.state)
    requires p.request == requestId && requestId in s.requests
    requires UnitOf(p) == UnitOfRequest(s.requests[requestId].request)
    requires t.unitCurrent == s.unitCurrent[UnitOf(p) := p.id]
    requires t.requests.Keys == s.requests.Keys
             && (forall k :: k in s.requests && k != requestId ==> t.requests[k] == s.requests[k])
    requires t.requests[requestId].request == s.requests[requestId].request && t.requests[requestId].current == p.id
    ensures Indexed(t.unitCurrent, t.placements) && Recorded(limits, t.requests, t.placements)
  {
    hide ValidRequest;
  }

  lemma CommitFiled(s: State, t: State, p: Placement, rv: Reservation)
    requires Filed(s) && Numbered(s.placements, s.reservations, s.lastId)
    requires t.placements == s.placements[p.id := p] && t.reservations == s.reservations[rv.id := rv]
    requires SameRequests(t.requests, s.requests) && SameAdvertisements(t.resources, s.resources)
    requires s.lastId < p.id <= t.lastId && p.decision <= t.lastId && s.lastId < p.reservation <= t.lastId
    requires 0 < p.lease <= t.lastId && rv.id == p.reservation && rv.lease == p.lease
    ensures Filed(t) && Numbered(t.placements, t.reservations, t.lastId)
  {
  }

  lemma CommittedSame(s: State, t: State, requestId: U64, p: Placement, rv: Reservation, sel: Selection)
    requires requestId in s.requests && Committed(s, t, requestId, p, rv, sel)
    ensures SameRequests(t.requests, s.requests) && SameAdvertisements(t.resources, s.resources)
    ensures t.resources.Keys == s.resources.Keys
  {
  }

  /** The invariants of a committed state, from its shape. */
  lemma CommittedInv(limits: Limits, s: State, t: State, requestId: U64, p: Placement, rv: Reservation, sel: Selection)
    requires Inv(limits, s) && requestId in s.requests && Committed(s, t, requestId, p, rv, sel)
    requires Committable(s, s.requests[requestId].request, sel)
    requires Bound(p.id, p, rv) && rv.state.Active? && rv.claims == ClaimList(s, sel)
    requires Live(p.state) && p.request == requestId && UnitOf(p) == UnitOfRequest(s.requests[requestId].request)
    requires WellFounded(p, t.resources.Keys, t.requests)
    ensures Inv(limits, t)
  {
    hide Filed, Linked, Grounded, Balanced, Authority, Indexed, Recorded, Numbered, WellFounded, Bound,
         SameRequests, SameAdvertisements, Added, ClaimList, TotalRoom, RoomAt;
    CommittedSame(s, t, requestId, p, rv, sel);
    CommitLinked(s.placements, s.reservations, p, rv);
    CommitBalanced(s, t.resources, rv.id, rv, sel);
    AddedAuthority(s.resources, t.resources, sel);
    CommitGrounded(s.placements, p, s.resources.Keys, s.requests, t.requests);
    CommitIndexes(limits, s, t, requestId, p);
    CommitFiled(s, t, p, rv);
  }

  lemma RequestKnown(limits: Limits, s: State, requestId: U64)
    requires Inv(limits, s) && requestId in s.requests
    ensures s.requests[requestId].request.id == requestId && Authority(s.resources)
  {
    hide ValidRequest, Linked, Grounded, Balanced, Authority, Indexed, Numbered;
  }

  /** Committing a sound selection succeeds as a whole and keeps every invariant. */
  lemma CommitInv(limits: Limits, s: State, requestId: U64, generation: nat, count: nat, sel: Selection)
    requires Inv(limits, s) && requestId in s.requests && FreshIds(s)
    requires Committable(s, s.requests[requestId].request, sel)
    requires generation == count + 1 && count <= s.requests[requestId].request.maxReassignments
    ensures Commit(s, requestId, generation, count, sel).Done?
    ensures Inv(limits, Commit(s, requestId, generation, count, sel).state)
  {
    hide Inv, Commit, RoomFor, TotalRoom, WellFounded, Bound, SelectedList, ClaimList, Added, Authority;
    var request := s.requests[requestId].request;
    var id: U64 := s.lastId + 1;
    var p := NewPlacement(s, id, request, generation, count, SelectedList(s, request, sel));
    var rv := NewReservation(s, p, ClaimList(s, sel));
    var t := Commit(s, requestId, generation, count, sel).state;
    RequestKnown(limits, s, requestId);
    CommitShape(limits, s, requestId, generation, count, sel);
    CommitBound(s, id, request, generation, count, sel);
    CommittedSame(s, t, requestId, p, rv, sel);
    NewPlacementFounded(s, p, id, request, generation, count, sel, t.requests);
    CommittedInv(limits, s, t, requestId, p, rv, sel);
  }

  // ---------------------------------------------------------------- scheduling one request

  lemma PlanReady(limits: Limits, s: State, requestId: U64)
    requires Inv(limits, s)
    ensures Reschedulable(s)
    ensures requestId in s.requests ==>
              Plannable(s, s.requests[requestId].request) && ValidRequest(s.requests[requestId].request, limits)
  {
    hide Filed, Linked, Grounded, Balanced, Indexed, Numbered;
    forall id | id in s.resources ensures s.resources[id].ad.slots >= 1 {
      assert Trusted(s.resources[id]);
    }
    forall id | id in s.requests ensures |s.requests[id].request.weights| == FACTORS {
      assert ValidRequest(s.requests[id].request, limits);
    }
  }

  lemma CountedInv(limits: Limits, s: State, last: U64)
    requires Inv(limits, s) && s.lastId <= last
    ensures Inv(limits, s.(lastId := last))
  {
    hide Linked, Grounded, Balanced, Indexed, Recorded, Authority;
  }

  lemma NoPlacementInv(limits: Limits, s: State, requestId: U64)
    requires Inv(limits, s) && requestId in s.requests
    ensures Inv(limits, NoPlacementFor(s, requestId))
  {
    hide Inv;
    var q := s.requests[requestId].(state := RequestState.NoPlacement, current := 0);
    Endings.RequestEdited(limits, s, requestId, q);
  }

  /** schedule_locked on a consistent state: it answers with a placement, with no placement, or with a
      refused bound, never with a failed commit, and it keeps every invariant. */
  lemma ScheduleInv(limits: Limits, s: State, requestId: U64, forced: nat, count: nat)
    requires Inv(limits, s) && requestId in s.requests && s.lastId + 4 < TWO_64 && limits.maxRejectionReasons >= 1
    requires (if forced == 0 then 1 else forced) == count + 1
    requires count <= s.requests[requestId].request.maxReassignments
    ensures Plannable(s, s.requests[requestId].request)
    ensures var o := Schedule(s, limits, requestId, forced, count);
            Inv(limits, o.state) && (o.Refused? ==> o.code == ResourceExhausted)
  {
    hide Inv, SoundSelection, Run, Head, SearchSpace, Commit, ValidRequest, ChoiceLists;
    var request := s.requests[requestId].request;
    PlanReady(limits, s, requestId);
    var t := s.(lastId := NextId(s.lastId));
    assert NextId(s.lastId) == s.lastId + 1;
    CountedInv(limits, s, s.lastId + 1);
    NoPlacementInv(limits, t, requestId);
    HeadIsSound(s, limits, request);
    var found := Run(SearchSpace(s, limits, request)).ranked;
    if found != [] {
      var sel := Head(found).selection;
      ScheduleCommits(limits, s, t, requestId, forced, count, sel);
    }
  }

  lemma ScheduleCommits(limits: Limits, s: State, t: State, requestId: U64, forced: nat, count: nat, sel: Selection)
    requires Inv(limits, t) && t == s.(lastId := t.lastId) && requestId in s.requests && FreshIds(t)
    requires ValidRequest(s.requests[requestId].request, limits)
    requires SoundSelection(s, s.requests[requestId].request, sel)
    requires (if forced == 0 then 1 else forced) == count + 1
    requires count <= s.requests[requestId].request.maxReassignments
    ensures |sel| == |s.requests[requestId].request.requirements| && Found(t, sel)
    ensures var o := Commit(t, requestId, if forced == 0 then 1 else forced, count, sel);
            o.Done? && Inv(limits, o.state)
  {
    hide Inv, Commit, Meets;
    assert SoundSelection(t, t.requests[requestId].request, sel) by {
      SoundTransfers(s, t, s.requests[requestId].request, sel);
    }
    SoundIsCommittable(limits, t, t.requests[requestId].request, sel);
    CommitInv(limits, t, requestId, if forced == 0 then 1 else forced, count, sel);
  }

  /** What decides, before the call, that scheduling a request places it: the logs have room and the
      search comes back with a ranking. */
  ghost predicate Places(limits: Limits, s: State, request: Request) {
    Plannable(s, request) && HasCapacity(s, limits) && RankingOf(s, limits, request) != []
  }

  lemma PlacesExactly(limits: Limits, s: State, requestId: U64, forced: nat, count: nat)
    requires Inv(limits, s) && requestId in s.requests && s.lastId + 4 < TWO_64 && limits.maxRejectionReasons >= 1
    requires (if forced == 0 then 1 else forced) == count + 1
    requires count <= s.requests[requestId].request.maxReassignments
    ensures Plannable(s, s.requests[requestId].request)
    ensures var o := Schedule(s, limits, requestId, forced, count);
            o.Done? && o.value.PlacedAt? <==> Places(limits, s, s.requests[requestId].request)
  {
    hide Inv, Run, Head, SearchSpace, Commit, ValidRequest, Plannable, HasCapacity, ChoiceLists, Schedule, RankingOf,
         SoundSelection, Committable, Found;
    var request := s.requests[requestId].request;
    PlanReady(limits, s, requestId);
    var t := s.(lastId := s.lastId + 1);
    assert NextId(s.lastId) == s.lastId + 1;
    CountedInv(limits, s, s.lastId + 1);
    ScheduleCases(limits, s, t, requestId, forced, count);
    SameCapacity(limits, s, t);
    if RankingOf(s, limits, request) != [] {
      var sel := Head(RankingOf(s, limits, request)).selection;
      RankingSound(s, limits, request);
      SoundTransfers(s, t, request, sel);
      SoundIsCommittable(limits, t, request, sel);
      CommitPlaces(limits, t, requestId, count + 1, count, sel);
    }
  }

  lemma SameCapacity(limits: Limits, s: State, t: State)
    requires t == s.(lastId := t.lastId)
    ensures HasCapacity(t, limits) <==> HasCapacity(s, limits)
  {
    assert LivePlacements(t) == LivePlacements(s) && ActiveReservations(t) == ActiveReservations(s);
  }

  lemma RankingSound(s: State, limits: Limits, request: Request)
    requires Plannable(s, request) && limits.maxRejectionReasons >= 1
    ensures var found := RankingOf(s, limits, request);
            found != [] ==> SoundSelection(s, request, Head(found).selection)
  {
    hide SoundSelection, Run, Head, SearchSpace, ChoiceLists;
    HeadIsSound(s, limits, request);
  }

  lemma CommitPlaces(limits: Limits, s: State, requestId: U64, generation: nat, count: nat, sel: Selection)
    requires Inv(limits, s) && requestId in s.requests && FreshIds(s)
    requires Committable(s, s.requests[requestId].request, sel)
    ensures |sel| == |s.requests[requestId].request.requirements| && Found(s, sel)
    ensures var o := Commit(s, requestId, generation, count, sel); o.Done? && o.value.PlacedAt?
  {
    hide Inv, RoomFor, TotalRoom, Commit;
    CommitShape(limits, s, requestId, generation, count, sel);
  }

  lemma SoundTransfers(s: State, t: State, request: Request, sel: Selection)
    requires t == s.(lastId := t.lastId) && SoundSelection(s, request, sel)
    ensures SoundSelection(t, request, sel)
  {
    hide Meets;
  }
}
