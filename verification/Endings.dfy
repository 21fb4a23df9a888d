/** Ending many placements at once: request cancellation and the loss of a worker incarnation
    (src/engine_lifecycle.cpp:340-372, src/engine_state.cpp:132-248, 521-547). */
module Endings {
  import opened Prelude
  import opened Records
  import opened Planning
  import opened Transitions
  import opened Ledger
  import opened Invariants

  // ---------------------------------------------------------------- the sweep over placements

  predicate Picked(p: Placement, pick: Placement -> bool) {
    Live(p.state) && pick(p)
  }

  /** The exact effect of a sweep on the placements. */
  ghost predicate Swept(before: map<U64, Placement>, after: map<U64, Placement>, ids: seq<U64>,
                        pick: Placement -> bool, target: PlacementState) {
    after.Keys == before.Keys
    && forall id :: id in before ==>
         after[id] == if id in ids && Picked(before[id], pick) then before[id].(state := target) else before[id]
  }

  /** Everything an ending leaves alone. */
  ghost predicate OnlyEnded(s: State, t: State) {
    && t == s.(placements := t.placements, resources := t.resources, reservations := t.reservations,
               requests := t.requests, unitCurrent := t.unitCurrent)
    && SameRequests(t.requests, s.requests) && Relieved(s.resources, t.resources)
    && Refreed(s.reservations, t.reservations) && Moved(s.placements, t.placements)
  }

  lemma OnlyEndedTransitive(s: State, t: State, u: State)
    requires OnlyEnded(s, t) && OnlyEnded(t, u)
    ensures OnlyEnded(s, u)
  {
  }

  lemma TerminateOnlyEnds(limits: Limits, s: State, id: U64, target: PlacementState)
    requires Inv(limits, s) && !Live(target)
    ensures Inv(limits, Terminate(s, id, target)) && OnlyEnded(s, Terminate(s, id, target))
  {
    hide Inv, Relieved, Refreed, Moved, SameRequests, SameAdvertisements, Terminate;
    TerminateInv(limits, s, id, target);
    TerminateFrame(s, id, target);
  }

  lemma TerminatePlacements(s: State, id: U64, target: PlacementState)
    requires id in s.placements && Live(s.placements[id].state)
    ensures Terminate(s, id, target).placements == Ended(s.placements, id, target)
  {
  }

  lemma {:induction false} SweepInv(
    limits: Limits, s: State, ids: seq<U64>, pick: Placement -> bool, target: PlacementState)
    requires Inv(limits, s) && !Live(target)
    ensures var t := TerminateWhere(s, ids, pick, target); Inv(limits, t) && OnlyEnded(s, t)
  {
    hide Inv, OnlyEnded, Terminate;
    if ids == [] {
      EndsNothing(s);
    } else {
      var n := |ids| - 1;
      SweepInv(limits, s, ids[..n], pick, target);
      var t := TerminateWhere(s, ids[..n], pick, target);
      TerminateOnlyEnds(limits, t, ids[n], target);
      OnlyEndedTransitive(s, t, Terminate(t, ids[n], target));
    }
  }

  lemma EndsNothing(s: State)
    ensures OnlyEnded(s, s)
  {
  }

  lemma SweptOne(before: map<U64, Placement>, mid: map<U64, Placement>, ids: seq<U64>, id: U64,
                 pick: Placement -> bool, target: PlacementState)
    requires !Live(target) && Swept(before, mid, ids, pick, target)
    ensures Swept(before, if id in mid && Picked(mid[id], pick) then Ended(mid, id, target) else mid,
                  ids + [id], pick, target)
  {
  }

  lemma {:induction false} SweepExact(s: State, ids: seq<U64>, pick: Placement -> bool, target: PlacementState)
    requires !Live(target)
    ensures Swept(s.placements, TerminateWhere(s, ids, pick, target).placements, ids, pick, target)
  {
    hide Terminate, Ended;
    if ids != [] {
      var n := |ids| - 1;
      SweepExact(s, ids[..n], pick, target);
      assert ids == ids[..n] + [ids[n]];
      var t := TerminateWhere(s, ids[..n], pick, target);
      SweptOne(s.placements, t.placements, ids[..n], ids[n], pick, target);
      if ids[n] in t.placements && Picked(t.placements[ids[n]], pick) {
        TerminatePlacements(t, ids[n], target);
      }
    }
  }

  /** The exact effect of a sweep on the reservations: those of the picked placements settle, once. */
  ghost predicate SweptReservations(s: State, after: map<U64, Reservation>, ids: seq<U64>, pick: Placement -> bool,
                                    target: PlacementState) {
    after.Keys == s.reservations.Keys
    && forall v :: v in s.reservations ==>
         after[v] == if Settled(s, s.reservations[v].placement, ids, pick)
                     then s.reservations[v].(state := if Revokes(target) then Revoked else Released)
                     else s.reservations[v]
  }

  predicate Settled(s: State, id: U64, ids: seq<U64>, pick: Placement -> bool) {
    id in ids && id in s.placements && Picked(s.placements[id], pick)
  }

  lemma {:induction false} SweepSettles(
    limits: Limits, s: State, ids: seq<U64>, pick: Placement -> bool, target: PlacementState)
    requires Inv(limits, s) && !Live(target)
    ensures SweptReservations(s, TerminateWhere(s, ids, pick, target).reservations, ids, pick, target)
  {
    hide Inv, Terminate, SweptReservations;
    if ids == [] {
      SettlesNothing(s, pick, target);
    } else {
      var n := |ids| - 1;
      var id := ids[n];
      var t := TerminateWhere(s, ids[..n], pick, target);
      SweepSettles(limits, s, ids[..n], pick, target);
      SweepInv(limits, s, ids[..n], pick, target);
      SweepExact(s, ids[..n], pick, target);
      InvLinkedOnly(limits, s);
      InvLinkedOnly(limits, t);
      assert ids == ids[..n] + [id];
      if id in t.placements && Picked(t.placements[id], pick) {
        TerminateShape(t, id, target);
        SettleOne(s, t, ids[..n], id, pick, target);
      } else {
        SettleNone(s, t, ids[..n], id, pick, target);
      }
    }
  }

  lemma InvLinkedOnly(limits: Limits, s: State)
    requires Inv(limits, s)
    ensures Linked(s.placements, s.reservations)
  {
    hide Filed, Numbered, Linked, Grounded, Balanced, Authority, Indexed, Recorded;
  }

  lemma SettlesNothing(s: State, pick: Placement -> bool, target: PlacementState)
    ensures SweptReservations(s, s.reservations, [], pick, target)
  {
  }

  /** A placement has exactly one reservation. */
  lemma OnlyReservation(ps: map<U64, Placement>, rs: map<U64, Reservation>, id: U64)
    requires Linked(ps, rs) && id in ps
    ensures ps[id].reservation in rs
    ensures forall v :: v in rs ==> (rs[v].placement == id <==> v == ps[id].reservation)
  {
    assert Bound(id, ps[id], rs[ps[id].reservation]);
  }

  lemma SettleOne(s: State, t: State, ids: seq<U64>, id: U64, pick: Placement -> bool, target: PlacementState)
    requires Linked(s.placements, s.reservations) && Swept(s.placements, t.placements, ids, pick, target)
    requires SweptReservations(s, t.reservations, ids, pick, target) && !Live(target)
    requires id in t.placements && Picked(t.placements[id], pick) && t.placements[id].reservation in t.reservations
    ensures SweptReservations(s, Freed(t.reservations, t.placements[id].reservation, target), ids + [id], pick, target)
  {
    hide Linked, SweptReservations, Freed;
    OnlyReservation(s.placements, s.reservations, id);
    assert t.placements[id] == s.placements[id] && !Settled(s, id, ids, pick);
    SettleMap(s, t.reservations, ids, id, s.placements[id].reservation, pick, target);
  }

  lemma SettleMap(s: State, rs: map<U64, Reservation>, ids: seq<U64>, id: U64, v: U64, pick: Placement -> bool,
                  target: PlacementState)
    requires SweptReservations(s, rs, ids, pick, target) && v in rs
    requires forall w :: w in s.reservations ==> (s.reservations[w].placement == id <==> w == v)
    requires id in s.placements && Picked(s.placements[id], pick) && !Settled(s, id, ids, pick)
    ensures SweptReservations(s, Freed(rs, v, target), ids + [id], pick, target)
  {
    hide Picked;
  }

  lemma SettleNone(s: State, t: State, ids: seq<U64>, id: U64, pick: Placement -> bool, target: PlacementState)
    requires Swept(s.placements, t.placements, ids, pick, target) && !Live(target)
    requires SweptReservations(s, t.reservations, ids, pick, target)
    requires id !in t.placements || !Picked(t.placements[id], pick)
    ensures SweptReservations(s, t.reservations, ids + [id], pick, target)
  {
  }

  /** A sweep that picks nothing changes nothing. */
  lemma {:induction false} SweepNothing(s: State, ids: seq<U64>, pick: Placement -> bool, target: PlacementState)
    requires forall id :: id in s.placements ==> !Picked(s.placements[id], pick)
    ensures TerminateWhere(s, ids, pick, target) == s
  {
    hide Terminate;
    if ids != [] {
      var n := |ids| - 1;
      SweepNothing(s, ids[..n], pick, target);
      if ids[n] in s.placements {
        assert !Picked(s.placements[ids[n]], pick);
      }
    }
  }

  /** Over all placements nothing the sweep picks stays live. */
  lemma SweepComplete(s: State, pick: Placement -> bool, target: PlacementState)
    requires !Live(target)
    ensures var t := TerminateWhere(s, SortedKeys(s.placements.Keys), pick, target);
            t.placements.Keys == s.placements.Keys
            && forall id :: id in t.placements && Live(t.placements[id].state) ==>
                 t.placements[id] == s.placements[id] && !pick(s.placements[id])
  {
    hide TerminateWhere;
    var ids := SortedKeys(s.placements.Keys);
    SweepExact(s, ids, pick, target);
    var t := TerminateWhere(s, ids, pick, target);
    forall id | id in t.placements && Live(t.placements[id].state)
      ensures t.placements[id] == s.placements[id] && !pick(s.placements[id])
    {
      SortedKeysExact(s.placements.Keys, id);
    }
  }

  // ---------------------------------------------------------------- resources nobody holds

  /** A resource no live placement selects has no reserved slots. */
  lemma UnselectedIsFree(limits: Limits, s: State, id: U64)
    requires Inv(limits, s) && id in s.resources
    requires forall k :: k in s.placements && Live(s.placements[k].state) ==> !Selects(s.placements[k], id)
    ensures s.resources[id].reserved == 0
  {
    hide Recorded, Indexed, Authority, Grounded, Numbered, Filed;
    var f := HeldBy(s.reservations, id);
    forall v | v in s.reservations.Keys ensures f(v) == 0 {
      var rv := s.reservations[v];
      if rv.state.Active? {
        var p := s.placements[rv.placement];
        assert Bound(rv.placement, p, s.reservations[p.reservation]);
        assert !Selects(p, id);
        MatchedClaims(p.resources, rv.claims, id);
        ClaimSlotsAbsent(rv.claims, id);
      }
    }
    SumZero(s.reservations.Keys, f);
  }

  predicate Selects(p: Placement, resource: U64) {
    exists i :: 0 <= i < |p.resources| && p.resources[i].resource == resource
  }

  lemma MatchedClaims(xs: seq<Selected>, cs: seq<Claim>, id: U64)
    requires Matches(xs, cs) && forall i :: 0 <= i < |xs| ==> xs[i].resource != id
    ensures forall c :: c in cs ==> c.resource != id
  {
  }

  // ---------------------------------------------------------------- losing an incarnation

  lemma InvalidatedTrusted(r: Resource, worker: U64, boot: U64)
    requires Trusted(r) && OwnedBy(r, worker, boot)
    ensures Trusted(Invalidated(r))
  {
  }

  lemma InvalidateKeeps(resources: map<U64, Resource>, reservations: map<U64, Reservation>, worker: U64, boot: U64)
    requires Authority(resources) && Balanced(resources, reservations)
    ensures var after := InvalidateResources(resources, worker, boot);
            after.Keys == resources.Keys && Authority(after) && Balanced(after, reservations)
            && forall id :: id in resources ==> after[id].ad.id == resources[id].ad.id
  {
    hide Trusted, Claimed;
    var after := InvalidateResources(resources, worker, boot);
    forall id | id in after ensures Trusted(after[id]) {
      assert Trusted(resources[id]);
      if OwnedBy(resources[id], worker, boot) {
        InvalidatedTrusted(resources[id], worker, boot);
      }
    }
  }

  lemma InvalidateResourcesInv(limits: Limits, s: State, worker: U64, boot: U64)
    requires Inv(limits, s)
    ensures Inv(limits, s.(resources := InvalidateResources(s.resources, worker, boot)))
  {
    hide Authority, Balanced, Linked, Recorded, Indexed, Numbered, Grounded, InvalidateResources;
    InvalidateKeeps(s.resources, s.reservations, worker, boot);
  }

  /** The state right after the resources lost their authority. */
  function Disowned(s: State, worker: U64, boot: U64): State {
    s.(resources := InvalidateResources(s.resources, worker, boot))
  }

  lemma DisownedInv(limits: Limits, s: State, worker: U64, boot: U64)
    requires Inv(limits, s)
    ensures Inv(limits, Disowned(s, worker, boot))
  {
    hide Inv;
    InvalidateResourcesInv(limits, s, worker, boot);
  }

  function LossSweep(s: State, worker: U64, boot: U64): State {
    TerminateWhere(Disowned(s, worker, boot), SortedKeys(s.placements.Keys),
                   TouchedBy(worker, boot, AffectedResources(s, worker, boot)), ReassignmentRequired)
  }

  lemma InvalidateIsSweep(s: State, worker: U64, boot: U64)
    ensures var t := LossSweep(s, worker, boot);
            Invalidate(s, worker, boot) == t.(workers := Invalidate(s, worker, boot).workers)
    ensures worker !in s.workers || s.workers[worker].boot != boot ==>
              Invalidate(s, worker, boot).workers == LossSweep(s, worker, boot).workers
    ensures var t := LossSweep(s, worker, boot);
            worker in t.workers && t.workers[worker].boot == boot ==>
              Invalidate(s, worker, boot).workers == t.workers[worker := t.workers[worker].(connected := false)]
    ensures LossSweep(s, worker, boot).workers == s.workers
  {
    SweepWorkers(Disowned(s, worker, boot), SortedKeys(s.placements.Keys),
                 TouchedBy(worker, boot, AffectedResources(s, worker, boot)), ReassignmentRequired);
  }

  lemma {:induction false} SweepWorkers(s: State, ids: seq<U64>, pick: Placement -> bool, target: PlacementState)
    ensures TerminateWhere(s, ids, pick, target).workers == s.workers
  {
    if ids != [] {
      var n := |ids| - 1;
      SweepWorkers(s, ids[..n], pick, target);
      TerminateFrame(TerminateWhere(s, ids[..n], pick, target), ids[n], target);
    }
  }

  lemma WorkersFree(limits: Limits, s: State, t: State)
    requires Inv(limits, s) && t == s.(workers := t.workers)
    ensures Inv(limits, t)
  {
    hide Linked, Recorded, Indexed, Numbered, Grounded, Balanced, Authority;
  }

  lemma InvalidateInv(limits: Limits, s: State, worker: U64, boot: U64)
    requires Inv(limits, s)
    ensures Inv(limits, Invalidate(s, worker, boot))
    ensures OnlyEnded(Disowned(s, worker, boot), LossSweep(s, worker, boot))
  {
    hide Inv, OnlyEnded, Invalidate, LossSweep;
    LossSweepInv(limits, s, worker, boot);
    InvalidateIsSweep(s, worker, boot);
    WorkersFree(limits, LossSweep(s, worker, boot), Invalidate(s, worker, boot));
  }

  lemma LossSweepInv(limits: Limits, s: State, worker: U64, boot: U64)
    requires Inv(limits, s)
    ensures Inv(limits, LossSweep(s, worker, boot))
    ensures OnlyEnded(Disowned(s, worker, boot), LossSweep(s, worker, boot))
  {
    hide Inv, OnlyEnded, TerminateWhere, InvalidateResources;
    InvalidateResourcesInv(limits, s, worker, boot);
    SweepInv(limits, Disowned(s, worker, boot), SortedKeys(s.placements.Keys),
             TouchedBy(worker, boot, AffectedResources(s, worker, boot)), ReassignmentRequired);
  }

  /** After a loss no live placement touches the incarnation or a resource it had. */
  ghost predicate Purged(s: State, t: State, worker: U64, boot: U64) {
    var affected := AffectedResources(s, worker, boot);
    && (forall id :: id in t.placements && Live(t.placements[id].state) ==>
          !Touches(t.placements[id], worker, boot, affected))
    && (forall id :: id in affected ==> id in t.resources && t.resources[id].reserved == 0
                                        && !t.resources[id].authoritative && t.resources[id].lifecycle.Lost?)
    && AffectedResources(t, worker, boot) == {}
  }

  lemma LossPlacements(s: State, worker: U64, boot: U64)
    ensures var t := LossSweep(s, worker, boot); var affected := AffectedResources(s, worker, boot);
            t.placements.Keys == s.placements.Keys
            && forall id :: id in t.placements && Live(t.placements[id].state) ==>
                 t.placements[id] == s.placements[id] && !Touches(s.placements[id], worker, boot, affected)
  {
    hide TerminateWhere;
    SweepComplete(Disowned(s, worker, boot), TouchedBy(worker, boot, AffectedResources(s, worker, boot)),
                  ReassignmentRequired);
  }

  lemma LossResources(limits: Limits, s: State, worker: U64, boot: U64)
    requires Inv(limits, s)
    ensures var t := LossSweep(s, worker, boot);
            AffectedResources(t, worker, boot) == {}
            && forall id :: id in AffectedResources(s, worker, boot) ==>
                 id in t.resources && !t.resources[id].authoritative && t.resources[id].lifecycle.Lost?
  {
    hide Inv, LossSweep;
    LossSweepInv(limits, s, worker, boot);
    var d, t := Disowned(s, worker, boot), LossSweep(s, worker, boot);
    assert Relieved(d.resources, t.resources);
    forall id | id in t.resources
      ensures !OwnedBy(t.resources[id], worker, boot)
      ensures OwnedBy(s.resources[id], worker, boot) ==>
                !t.resources[id].authoritative && t.resources[id].lifecycle.Lost?
    {
      assert t.resources[id] == d.resources[id].(reserved := t.resources[id].reserved);
    }
  }

  /** Worker loss is complete: nothing live is bound to the lost incarnation or selects one of its
      resources, and those resources hold no reserved slots. */
  lemma LossIsComplete(limits: Limits, s: State, worker: U64, boot: U64)
    requires Inv(limits, s)
    ensures Purged(s, Invalidate(s, worker, boot), worker, boot)
  {
    hide Inv, LossSweep, Invalidate;
    var u, t := LossSweep(s, worker, boot), Invalidate(s, worker, boot);
    InvalidateIsSweep(s, worker, boot);
    LossPlacements(s, worker, boot);
    LossResources(limits, s, worker, boot);
    LossSweepInv(limits, s, worker, boot);
    var affected := AffectedResources(s, worker, boot);
    forall id | id in affected ensures u.resources[id].reserved == 0 {
      forall k | k in u.placements && Live(u.placements[k].state) ensures !Selects(u.placements[k], id) {
        assert !Touches(u.placements[k], worker, boot, affected);
      }
      UnselectedIsFree(limits, u, id);
    }
  }

  /** Exactly the reservations of the live placements that touched the incarnation are revoked. */
  lemma LossRevokesOnce(limits: Limits, s: State, worker: U64, boot: U64, v: U64)
    requires Inv(limits, s) && v in s.reservations
    ensures s.reservations[v].placement in s.placements
    ensures var p := s.placements[s.reservations[v].placement]; var t := Invalidate(s, worker, boot);
            v in t.reservations
            && t.reservations[v]
               == if Live(p.state) && Touches(p, worker, boot, AffectedResources(s, worker, boot))
                  then s.reservations[v].(state := Revoked) else s.reservations[v]
  {
    hide Inv, TerminateWhere, InvalidateResources;
    var d := Disowned(s, worker, boot);
    var ids, pick := SortedKeys(s.placements.Keys), TouchedBy(worker, boot, AffectedResources(s, worker, boot));
    InvLinkedOnly(limits, s);
    InvalidateResourcesInv(limits, s, worker, boot);
    SweepSettles(limits, d, ids, pick, ReassignmentRequired);
    InvalidateIsSweep(s, worker, boot);
    SortedKeysExact(s.placements.Keys, s.reservations[v].placement);
  }

  /** An immediate second report finds nothing to invalidate and nothing to release. */
  lemma LossIsIdempotent(limits: Limits, s: State, worker: U64, boot: U64)
    requires Inv(limits, s)
    ensures var t := Invalidate(s, worker, boot); Invalidate(t, worker, boot) == t
    ensures MarkWorkerLost(s, worker, boot).Done? ==>
              var t := MarkWorkerLost(s, worker, boot).state; MarkWorkerLost(t, worker, boot) == Done(t, worker)
  {
    hide Inv, LossSweep, Purged;
    var t := Invalidate(s, worker, boot);
    LossIsComplete(limits, s, worker, boot);
    SecondSweep(limits, s, t, worker, boot);
    InvalidateIsSweep(s, worker, boot);
    InvalidateIsSweep(t, worker, boot);
  }

  lemma SecondSweep(limits: Limits, s: State, t: State, worker: U64, boot: U64)
    requires Purged(s, t, worker, boot)
    ensures LossSweep(t, worker, boot) == t
  {
    assert InvalidateResources(t.resources, worker, boot) == t.resources by {
      forall id | id in t.resources ensures !OwnedBy(t.resources[id], worker, boot) {
        assert id !in AffectedResources(t, worker, boot);
      }
    }
    var pick := TouchedBy(worker, boot, {});
    forall id | id in t.placements ensures !Picked(t.placements[id], pick) {
      if Live(t.placements[id].state) {
        assert !Touches(t.placements[id], worker, boot, AffectedResources(s, worker, boot));
      }
    }
    SweepNothing(t, SortedKeys(t.placements.Keys), pick, ReassignmentRequired);
  }

  /** What a loss leaves alone. */
  lemma LossFrame(limits: Limits, s: State, worker: U64, boot: U64)
    requires Inv(limits, s)
    ensures var t := Invalidate(s, worker, boot);
            t.resources.Keys == s.resources.Keys && t.lastId == s.lastId && t.epoch == s.epoch
            && t.shuttingDown == s.shuttingDown && SameRequests(t.requests, s.requests)
            && t.tenantService == s.tenantService
  {
    hide Inv, LossSweep, Invalidate, Refreed, Moved;
    InvalidateIsSweep(s, worker, boot);
    LossSweepInv(limits, s, worker, boot);
  }

  lemma AdoptInv(limits: Limits, s: State, worker: U64, boot: U64)
    requires Inv(limits, s)
    ensures Inv(limits, Adopt(s, worker, boot))
  {
    hide Inv, Invalidate;
    if worker in s.workers && s.workers[worker].boot != boot {
      InvalidateInv(limits, s, worker, s.workers[worker].boot);
      WorkersFree(limits, Invalidate(s, worker, s.workers[worker].boot), Adopt(s, worker, boot));
    } else {
      WorkersFree(limits, s, Adopt(s, worker, boot));
    }
  }

  // ---------------------------------------------------------------- cancelling a request

  lemma RequestEdited(limits: Limits, s: State, id: U64, q: StoredRequest)
    requires Inv(limits, s) && id in s.requests && q == s.requests[id].(state := q.state, current := 0)
    ensures Inv(limits, s.(requests := s.requests[id := q]))
  {
    hide Linked, Indexed, Numbered, Balanced, Authority, ValidRequest;
    var t := s.(requests := s.requests[id := q]);
    assert Grounded(t.placements, t.resources.Keys, t.requests) by {
      forall k | k in t.placements ensures WellFounded(t.placements[k], t.resources.Keys, t.requests) {
        assert WellFounded(s.placements[k], s.resources.Keys, s.requests);
      }
    }
  }

  lemma CancelRequestInv(limits: Limits, s: State, request: U64)
    requires Inv(limits, s)
    ensures Inv(limits, CancelRequest(s, request).state)
    ensures CancelRequest(s, request).Done? ==>
              var t := CancelRequest(s, request).state;
              forall id :: id in t.placements && Live(t.placements[id].state) ==> t.placements[id].request != request
  {
    hide Inv, TerminateWhere;
    if request != 0 && request in s.requests {
      var t := TerminateWhere(s, SortedKeys(s.placements.Keys), BelongsTo(request), Cancelled);
      SweepInv(limits, s, SortedKeys(s.placements.Keys), BelongsTo(request), Cancelled);
      SweepComplete(s, BelongsTo(request), Cancelled);
      RequestEdited(limits, t, request, t.requests[request].(state := RequestCancelled, current := 0));
    }
  }
}
