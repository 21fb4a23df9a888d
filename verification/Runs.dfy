/** Runs of the engine: any number of operations in any order, and what holds after all of them. */
module Runs {
  import opened Prelude
  import opened Records
  import opened Search
  import opened Planning
  import opened Transitions
  import opened Ledger
  import opened Invariants
  import opened Endings
  import opened Commitment
  import opened Steps
  import opened Phases

  /** Enough 64-bit identities are left for `n` operations. */
  predicate Roomy(s: State, n: nat) { s.lastId + 4 * n < TWO_64 }

  function Exec(limits: Limits, s: State, ops: seq<Op>): (t: State)
    requires Inv(limits, s) && Roomy(s, |ops|) && limits.maxRejectionReasons >= 1
    ensures Inv(limits, t)
    decreases |ops|
  {
    if ops == [] then s
    else
      StepInv(limits, s, ops[0]);
      Exec(limits, Step(limits, s, ops[0]), ops[1..])
  }

  /** Every operation of a run meets `guard` in the state it starts from. */
  ghost predicate Guarded(limits: Limits, s: State, ops: seq<Op>, guard: (State, Op) -> bool)
    requires Inv(limits, s) && Roomy(s, |ops|) && limits.maxRejectionReasons >= 1
    decreases |ops|
  {
    ops == []
    || (guard(s, ops[0])
        && (StepInv(limits, s, ops[0]); Guarded(limits, Step(limits, s, ops[0]), ops[1..], guard)))
  }

  /** Every state of a run, the first and the last included, is good. */
  ghost predicate Throughout(limits: Limits, s: State, ops: seq<Op>, good: State -> bool)
    requires Inv(limits, s) && Roomy(s, |ops|) && limits.maxRejectionReasons >= 1
    decreases |ops|
  {
    good(s)
    && (ops == [] || (StepInv(limits, s, ops[0]); Throughout(limits, Step(limits, s, ops[0]), ops[1..], good)))
  }

  lemma StartsGood(limits: Limits, s: State, ops: seq<Op>, good: State -> bool)
    requires Inv(limits, s) && Roomy(s, |ops|) && limits.maxRejectionReasons >= 1
    ensures Throughout(limits, s, ops, good) ==> good(s)
  {
    hide Inv;
  }

  lemma {:induction false} EndsGood(limits: Limits, s: State, ops: seq<Op>, good: State -> bool)
    requires Inv(limits, s) && Roomy(s, |ops|) && limits.maxRejectionReasons >= 1
    requires Throughout(limits, s, ops, good)
    ensures good(Exec(limits, s, ops))
    decreases |ops|
  {
    hide Inv, Step;
    if ops != [] {
      StepInv(limits, s, ops[0]);
      EndsGood(limits, Step(limits, s, ops[0]), ops[1..], good);
    }
  }

  // ---------------------------------------------------------------- lifecycles only move forward

  ghost predicate Advances(p: Placement, q: Placement) {
    && q == p.(state := q.state, completionRecorded := q.completionRecorded)
    && Stage(p.state) <= Stage(q.state)
    && (!Live(p.state) ==> q == p)
    && (p.completionRecorded ==> q.completionRecorded)
  }

  /** A reservation leaves Active at most once. */
  ghost predicate Settles(a: Reservation, b: Reservation) {
    b == a.(state := b.state) && (!a.state.Active? ==> b == a)
  }

  ghost predicate Progress(s: State, t: State) {
    && (forall id :: id in s.placements ==> id in t.placements && Advances(s.placements[id], t.placements[id]))
    && (forall v :: v in s.reservations ==> v in t.reservations && Settles(s.reservations[v], t.reservations[v]))
  }

  lemma ProgressTransitive(s: State, t: State, u: State)
    requires Progress(s, t) && Progress(t, u)
    ensures Progress(s, u)
  {
    forall id | id in s.placements ensures id in u.placements && Advances(s.placements[id], u.placements[id]) {
      assert Advances(s.placements[id], t.placements[id]) && Advances(t.placements[id], u.placements[id]);
    }
    forall v | v in s.reservations ensures v in u.reservations && Settles(s.reservations[v], u.reservations[v]) {
      assert Settles(s.reservations[v], t.reservations[v]) && Settles(t.reservations[v], u.reservations[v]);
    }
  }

  lemma SameProgress(s: State, t: State)
    requires t.placements == s.placements && t.reservations == s.reservations
    ensures Progress(s, t)
  {
  }

  lemma TerminateProgress(s: State, id: U64, target: PlacementState)
    requires Linked(s.placements, s.reservations) && !Live(target)
    ensures Progress(s, Terminate(s, id, target))
  {
    hide Terminate, Linked;
    if id in s.placements && Live(s.placements[id].state) {
      TerminateShape(s, id, target);
      LiveReservation(s, id);
    } else {
      TerminateDead(s, id, target);
    }
  }

  lemma TerminateDead(s: State, id: U64, target: PlacementState)
    requires id !in s.placements || !Live(s.placements[id].state)
    ensures Terminate(s, id, target) == s
  {
  }

  lemma InvLinked(limits: Limits, s: State)
    requires Inv(limits, s)
    ensures Linked(s.placements, s.reservations) && Indexed(s.unitCurrent, s.placements)
    ensures Grounded(s.placements, s.resources.Keys, s.requests) && Balanced(s.resources, s.reservations)
    ensures Numbered(s.placements, s.reservations, s.lastId) && Authority(s.resources) && Filed(s)
    ensures Recorded(limits, s.requests, s.placements) && s.epoch >= 1
  {
    hide Filed, Numbered, Linked, Grounded, Balanced, Authority, Indexed, Recorded;
  }

  lemma {:induction false} SweepProgress(
    limits: Limits, s: State, ids: seq<U64>, pick: Placement -> bool, target: PlacementState)
    requires Inv(limits, s) && !Live(target)
    ensures Progress(s, TerminateWhere(s, ids, pick, target))
  {
    hide Inv, Terminate, Progress, Linked;
    if ids == [] {
      SameProgress(s, s);
    } else {
      var n := |ids| - 1;
      var t := TerminateWhere(s, ids[..n], pick, target);
      SweepProgress(limits, s, ids[..n], pick, target);
      SweepInv(limits, s, ids[..n], pick, target);
      InvLinked(limits, t);
      TerminateProgress(t, ids[n], target);
      ProgressTransitive(s, t, Terminate(t, ids[n], target));
    }
  }

  lemma LoseProgress(limits: Limits, s: State, worker: U64, boot: U64)
    requires Inv(limits, s)
    ensures Progress(s, Invalidate(s, worker, boot))
  {
    hide Inv, Progress, TerminateWhere, InvalidateResources;
    var d, u := Disowned(s, worker, boot), LossSweep(s, worker, boot);
    InvalidateResourcesInv(limits, s, worker, boot);
    SweepProgress(limits, d, SortedKeys(s.placements.Keys),
                  TouchedBy(worker, boot, AffectedResources(s, worker, boot)), ReassignmentRequired);
    SameProgress(s, d);
    ProgressTransitive(s, d, u);
    InvalidateIsSweep(s, worker, boot);
    SameProgress(u, Invalidate(s, worker, boot));
    ProgressTransitive(s, u, Invalidate(s, worker, boot));
  }

  lemma FinishProgress(s: State, c: CompletionClaim)
    requires Linked(s.placements, s.reservations) && CheckCompletion(s, c) == Ok
    ensures Progress(s, ReportCompletion(s, c).state)
  {
    hide Linked, Terminate;
    var p := s.placements[c.placement].(completionRecorded := true);
    var recorded := s.(placements := s.placements[c.placement := p]);
    EditedLinked(s.placements, s.reservations, c.placement, p);
    TerminateProgress(recorded, c.placement, if c.succeeded then Completed else Failed);
    ProgressTransitive(s, recorded, ReportCompletion(s, c).state);
  }

  /** The committed placement and reservation of a Place phase. */
  lemma PlaceShape(limits: Limits, s: State, requestId: U64, generation: nat, count: nat, sel: Selection)
    returns (p: Placement, rv: Reservation)
    requires Inv(limits, s) && CanPlace(limits, s, requestId, generation, count, sel)
    ensures Committed(s, Commit(s, requestId, generation, count, sel).state, requestId, p, rv, sel)
    ensures Live(p.state) && !p.completionRecorded && rv.state.Active? && rv.claims == ClaimList(s, sel)
    ensures p.request == requestId && UnitOf(p) == UnitOfRequest(s.requests[requestId].request)
  {
    hide Inv, Commit, Committed, SoundSelection, RoomFor, TotalRoom, SelectedList, ClaimList;
    var request := s.requests[requestId].request;
    RequestKnown(limits, s, requestId);
    CommitShape(limits, s, requestId, generation, count, sel);
    p := NewPlacement(s, s.lastId + 1, request, generation, count, SelectedList(s, request, sel));
    rv := NewReservation(s, p, ClaimList(s, sel));
  }

  lemma MarkProgress(s: State, id: U64, state: PlacementState)
    requires id in s.placements && Live(s.placements[id].state)
    requires Stage(s.placements[id].state) <= Stage(state)
    ensures Progress(s, s.(placements := s.placements[id := s.placements[id].(state := state)]))
  {
  }

  lemma PhaseProgress(limits: Limits, s: State, ph: Phase, t: State)
    requires Inv(limits, s) && Does(limits, s, ph, t)
    ensures Progress(s, t)
  {
    hide Inv, Terminate, TerminateWhere, Invalidate, ReportCompletion, CheckCompletion, CanPlace, Commit, Linked,
         Trusted, Progress, Grounded, Balanced, Numbered, Authority, Filed, Recorded, Indexed;
    InvLinked(limits, s);
    match ph
    case End(id, target) => TerminateProgress(s, id, target);
    case Finish(claim) => FinishProgress(s, claim);
    case Mark(id, state) => MarkProgress(s, id, state);
    case Sweep(requestId) =>
      SweepProgress(limits, s, SortedKeys(s.placements.Keys), BelongsTo(requestId), Cancelled);
    case Lose(worker, boot) => LoseProgress(limits, s, worker, boot);
    case Put(r) => SameProgress(s, t);
    case Aside => SameProgress(s, t);
    case Admit(request) => SameProgress(s, t);
    case Place(requestId, generation, count, sel) => PlaceProgress(limits, s, requestId, generation, count, sel);
  }

  lemma PlaceProgress(limits: Limits, s: State, requestId: U64, generation: nat, count: nat, sel: Selection)
    requires Inv(limits, s) && CanPlace(limits, s, requestId, generation, count, sel)
    ensures Progress(s, Commit(s, requestId, generation, count, sel).state)
  {
    hide Inv, Commit, Added, SoundSelection, RoomFor, TotalRoom;
    var p, rv := PlaceShape(limits, s, requestId, generation, count, sel);
  }

  lemma StepProgress(limits: Limits, s: State, op: Op)
    requires Inv(limits, s) && s.lastId + 4 < TWO_64 && limits.maxRejectionReasons >= 1
    ensures Reschedulable(s) && Progress(s, Step(limits, s, op))
  {
    hide Inv, Does, Step, Progress;
    var trace := StepPhases(limits, s, op);
    PhaseProgress(limits, s, trace.a, trace.s1);
    PhaseProgress(limits, trace.s1, trace.b, trace.s2);
    PhaseProgress(limits, trace.s2, trace.c, Step(limits, s, op));
    ProgressTransitive(s, trace.s1, trace.s2);
    ProgressTransitive(s, trace.s2, Step(limits, s, op));
  }

  /** Over any run a placement's rank never falls, terminal records never change again, a recorded
      completion stays recorded, and a reservation leaves Active at most once. */
  lemma {:induction false} RunProgress(limits: Limits, s: State, ops: seq<Op>)
    requires Inv(limits, s) && Roomy(s, |ops|) && limits.maxRejectionReasons >= 1
    ensures Progress(s, Exec(limits, s, ops))
    decreases |ops|
  {
    hide Inv, Step, Progress;
    if ops == [] {
      SameProgress(s, s);
    } else {
      StepInv(limits, s, ops[0]);
      StepProgress(limits, s, ops[0]);
      var t := Step(limits, s, ops[0]);
      RunProgress(limits, t, ops[1..]);
      ProgressTransitive(s, t, Exec(limits, t, ops[1..]));
    }
  }

  /** The ledger and the links after any run, spelled out: reserved slots are the active claims and fit the
      capacity; placements and reservations name each other, agree on generation and resources, and are
      live and active together; generations count reassignments within the budget. */
  lemma RunLedger(limits: Limits, s: State, ops: seq<Op>)
    requires Inv(limits, s) && Roomy(s, |ops|) && limits.maxRejectionReasons >= 1
    ensures var t := Exec(limits, s, ops);
            && (forall id :: id in t.resources ==>
                  var r := t.resources[id];
                  r.reserved == Claimed(t.reservations, id) && r.ad.occupancy + r.reserved <= r.ad.slots
                  && (r.authoritative <==> r.lifecycle.Current?) && (r.lifecycle.Retired? ==> r.reserved == 0))
            && (forall id :: id in t.placements ==>
                  var p := t.placements[id];
                  p.reservation in t.reservations
                  && t.reservations[p.reservation].placement == id
                  && t.reservations[p.reservation].placementGeneration == p.generation
                  && (Live(p.state) <==> t.reservations[p.reservation].state.Active?)
                  && Matches(p.resources, t.reservations[p.reservation].claims))
            && (forall v :: v in t.reservations ==>
                  t.reservations[v].placement in t.placements
                  && t.placements[t.reservations[v].placement].reservation == v)
            && (forall id :: id in t.placements ==>
                  var p := t.placements[id];
                  p.request in t.requests && p.generation == p.reassignmentCount + 1
                  && p.reassignmentCount <= t.requests[p.request].request.maxReassignments <= 16)
  {
    hide Inv, Exec, Linked, Grounded, Balanced, Authority, Recorded, Claimed, Matches;
    var t := Exec(limits, s, ops);
    InvLinked(limits, t);
    LinksSpelledOut(t.placements, t.reservations);
    forall id | id in t.resources
      ensures var r := t.resources[id];
              r.reserved == Claimed(t.reservations, id) && r.ad.occupancy + r.reserved <= r.ad.slots
              && (r.authoritative <==> r.lifecycle.Current?) && (r.lifecycle.Retired? ==> r.reserved == 0)
    {
      LedgerSpelledOut(t, id);
    }
    forall id | id in t.placements
      ensures var p := t.placements[id];
              p.request in t.requests && p.generation == p.reassignmentCount + 1
              && p.reassignmentCount <= t.requests[p.request].request.maxReassignments <= 16
    {
      BudgetSpelledOut(limits, t, id);
    }
  }

  lemma LinksSpelledOut(ps: map<U64, Placement>, rs: map<U64, Reservation>)
    requires Linked(ps, rs)
    ensures forall id :: id in ps ==>
              ps[id].reservation in rs && rs[ps[id].reservation].placement == id
              && rs[ps[id].reservation].placementGeneration == ps[id].generation
              && (Live(ps[id].state) <==> rs[ps[id].reservation].state.Active?)
              && Matches(ps[id].resources, rs[ps[id].reservation].claims)
    ensures forall v :: v in rs ==> rs[v].placement in ps && ps[rs[v].placement].reservation == v
  {
    hide Matches;
  }

  lemma LedgerSpelledOut(s: State, id: U64)
    requires Balanced(s.resources, s.reservations) && Authority(s.resources) && id in s.resources
    ensures var r := s.resources[id];
            r.reserved == Claimed(s.reservations, id) && r.ad.occupancy + r.reserved <= r.ad.slots
            && (r.authoritative <==> r.lifecycle.Current?) && (r.lifecycle.Retired? ==> r.reserved == 0)
  {
    hide Claimed, ValidAdvertisement;
    assert Trusted(s.resources[id]);
  }

  lemma BudgetSpelledOut(limits: Limits, s: State, id: U64)
    requires Grounded(s.placements, s.resources.Keys, s.requests) && Recorded(limits, s.requests, s.placements)
    requires id in s.placements
    ensures var p := s.placements[id];
            p.request in s.requests && p.generation == p.reassignmentCount + 1
            && p.reassignmentCount <= s.requests[p.request].request.maxReassignments <= 16
  {
    var p := s.placements[id];
    assert WellFounded(p, s.resources.Keys, s.requests);
    assert ValidRequest(s.requests[p.request].request, limits);
  }

  /** At most one completion of a placement is ever accepted, and a refused one changes nothing. */
  lemma CompletionOnce(limits: Limits, s: State, claim: CompletionClaim, ops: seq<Op>, again: CompletionClaim)
    requires Inv(limits, s) && Roomy(s, |ops|) && limits.maxRejectionReasons >= 1
    requires ReportCompletion(s, claim).Done? && again.placement == claim.placement
    ensures Inv(limits, ReportCompletion(s, claim).state)
    ensures Roomy(ReportCompletion(s, claim).state, |ops|)
    ensures var later := Exec(limits, ReportCompletion(s, claim).state, ops);
            ReportCompletion(later, again).Refused? && ReportCompletion(later, again).state == later
  {
    hide Inv, Exec;
    CompleteInv(limits, s, claim);
    var t := ReportCompletion(s, claim).state;
    CompletionRecorded(s, claim);
    RunProgress(limits, t, ops);
    var later := Exec(limits, t, ops);
    assert Advances(t.placements[claim.placement], later.placements[claim.placement]);
  }

  lemma CompletionRecorded(s: State, claim: CompletionClaim)
    requires ReportCompletion(s, claim).Done?
    ensures var t := ReportCompletion(s, claim).state;
            claim.placement in t.placements && t.placements[claim.placement].completionRecorded
            && !Live(t.placements[claim.placement].state)
  {
    hide ReleaseReservation, DetachRequest, DetachUnit, CheckGenerations, SelectedIds;
  }
}
