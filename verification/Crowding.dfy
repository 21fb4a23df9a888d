/** Exclusivity over every operation and every run (src/engine_scheduling.cpp:292-302,
    src/engine_resources.cpp:125-148): exactly which operations let a second claim onto a resource that an
    exclusive claim, or its exclusive mode, sets apart. */
module Crowding {
  import opened Prelude
  import opened Records
  import opened Planning
  import opened Transitions
  import opened Invariants
  import opened Commitment
  import opened Steps
  import opened Phases
  import opened Runs
  import opened Publications
  import opened Exclusivity
  import opened Waivers

  /** The operation makes a resource with two claims that stay exclusive, or schedules a request whose best
      placement names a resource with an active exclusive claim. */
  ghost predicate OpCrowds(limits: Limits, s: State, op: Op) {
    match op
    case Publish(ad) => Accepts(s, ad) && ad.sharing.Exclusive? && !AtMostOneClaim(Staying(s, ad), ad.id)
    case Submit(request) => SubmitChecks(limits, s, request) && Crowds(limits, Admitted(s, request), request)
    case Reassign(id, generation, epoch) =>
      ReassignChecks(s, id, generation, epoch)
      && var p := s.placements[id];
         p.request in s.requests && p.reassignmentCount < s.requests[p.request].request.maxReassignments
         && Crowds(limits, Terminate(s, id, ReassignmentRequired), s.requests[p.request].request)
    case Preempt(id, generation, epoch) =>
      PreemptChecks(s, id, generation, epoch)
      && var p := s.placements[id];
         p.request in s.requests && s.requests[p.request].request.allowPreemption
         && p.reassignmentCount < s.requests[p.request].request.maxReassignments
         && Crowds(limits, Preempting(s, id), s.requests[p.request].request)
    case _ => false
  }

  // ---------------------------------------------------------------- one operation

  lemma SubmitSole(limits: Limits, s: State, request: Request)
    requires Inv(limits, s) && s.lastId + 4 < TWO_64 && limits.maxRejectionReasons >= 1 && Sole(s)
    ensures Reschedulable(s)
    ensures Sole(SubmitRequest(s, limits, request).state) <==> !OpCrowds(limits, s, Submit(request))
  {
    hide Inv, Schedule, ValidRequest, Plannable, UnitBusy, Crowds, Sole;
    PlanReady(limits, s, 0);
    if SubmitChecks(limits, s, request) {
      RequestAdded(limits, s, request);
      QuietSole(s, Admitted(s, request));
      ScheduleSole(limits, Admitted(s, request), request.id, 0, 0);
    }
  }

  /** Ending a placement keeps everything a later scheduling relies on. */
  lemma EndSole(limits: Limits, s: State, id: U64, target: PlacementState)
    requires Inv(limits, s) && Sole(s) && !Live(target)
    ensures var t := Terminate(s, id, target);
            Inv(limits, t) && Sole(t) && t.lastId == s.lastId && SameRequests(t.requests, s.requests)
  {
    hide Inv, Terminate, Sole, KeepsClaims;
    TerminateInv(limits, s, id, target);
    TerminateFrame(s, id, target);
    EndKeeps(limits, s, id, target);
    KeepsSole(s, Terminate(s, id, target));
  }

  lemma ReassignSole(limits: Limits, s: State, id: U64, generation: nat, epoch: nat)
    requires Inv(limits, s) && s.lastId + 4 < TWO_64 && limits.maxRejectionReasons >= 1 && Sole(s)
    ensures Reschedulable(s)
    ensures Sole(ReassignPlacement(s, limits, id, generation, epoch).state)
            <==> !OpCrowds(limits, s, Reassign(id, generation, epoch))
  {
    hide Inv, Schedule, ValidRequest, Plannable, Crowds, Sole, Terminate, ReassignPlacement, Reschedulable;
    PlanReady(limits, s, 0);
    if id in s.placements {
      PlacementBudget(limits, s, id);
      EndSole(limits, s, id, ReassignmentRequired);
    }
    ReassignUnfolds(limits, s, id, generation, epoch);
    if ReassignChecks(s, id, generation, epoch) {
      var p, t := s.placements[id], Terminate(s, id, ReassignmentRequired);
      if p.reassignmentCount < t.requests[p.request].request.maxReassignments {
        ScheduleSole(limits, t, p.request, p.generation + 1, p.reassignmentCount + 1);
      }
    }
  }

  lemma PreemptSole(limits: Limits, s: State, id: U64, generation: nat, epoch: nat)
    requires Inv(limits, s) && s.lastId + 4 < TWO_64 && limits.maxRejectionReasons >= 1 && Sole(s)
    ensures Reschedulable(s)
    ensures Sole(PreemptPlacement(s, limits, id, generation, epoch).state)
            <==> !OpCrowds(limits, s, Preempt(id, generation, epoch))
  {
    hide Inv, Schedule, ValidRequest, Plannable, Crowds, Sole, Terminate, PreemptPlacement, Reschedulable;
    PlanReady(limits, s, 0);
    if PreemptChecks(s, id, generation, epoch) {
      var p, t := s.placements[id], Terminate(s, id, Preempted);
      PlacementBudget(limits, s, id);
      EndSole(limits, s, id, Preempted);
      var q := t.requests[p.request].(state := RequestState.Submitted);
      RequestMarked(limits, t, p.request, q);
      QuietSole(t, t.(requests := t.requests[p.request := q]));
      PreemptUnfolds(limits, s, id, generation, epoch);
      if q.request.allowPreemption && p.reassignmentCount < q.request.maxReassignments {
        ScheduleSole(limits, Preempting(s, id), p.request, p.generation + 1, p.reassignmentCount + 1);
      }
    } else {
      PreemptRefused(limits, s, id, generation, epoch);
    }
  }

  lemma PublicationSole(limits: Limits, s: State, ad: Advertisement)
    requires Inv(limits, s) && Sole(s)
    ensures Sole(PublishResource(s, ad).state) <==> !OpCrowds(limits, s, Publish(ad))
  {
    hide Inv, Sole, KeepsClaims, Accepts, Adopted, Staying, PublishResource, AtMostOneClaim;
    PublicationAccepted(limits, s, ad);
    if Accepts(s, ad) {
      PublishSole(limits, s, ad);
    } else {
      AdoptedKeeps(limits, s, ad);
      KeepsSole(s, Adopted(s, ad));
    }
  }

  /** A phase that neither commits nor replaces a reserved resource keeps exclusivity. */
  lemma PhaseSole(limits: Limits, s: State, ph: Phase, t: State)
    requires Inv(limits, s) && Does(limits, s, ph, t) && Sole(s) && !ph.Place?
    requires ph.Put? ==> ph.r.reserved == 0
    ensures Sole(t)
  {
    hide Inv, Does, Sole, KeepsClaims, Unclaimed, AtMostOneClaim;
    if ph.Put? {
      PutDoes(limits, s, ph.r, t);
      FreeUnclaimed(limits, s, ph.r.ad.id);
      UnclaimedOnce(s.reservations, ph.r.ad.id);
      PutSole(s, ph.r);
    } else {
      PhaseKeeps(limits, s, ph, t);
      KeepsSole(s, t);
    }
  }

  lemma UnclaimedOnce(reservations: map<U64, Reservation>, resource: U64)
    requires Unclaimed(reservations, resource)
    ensures AtMostOneClaim(reservations, resource)
  {
  }

  lemma QuietStepSole(limits: Limits, s: State, op: Op)
    requires Inv(limits, s) && s.lastId + 4 < TWO_64 && limits.maxRejectionReasons >= 1 && Sole(s)
    requires !op.Submit? && !op.Reassign? && !op.Preempt? && !op.Publish?
    ensures Reschedulable(s) && Sole(Step(limits, s, op))
  {
    hide Inv, Does, Sole, Step;
    var trace := StepPhases(limits, s, op);
    PhaseSole(limits, s, trace.a, trace.s1);
    PhaseSole(limits, trace.s1, trace.b, trace.s2);
    PhaseSole(limits, trace.s2, trace.c, Step(limits, s, op));
  }

  /** One operation keeps every exclusive claim, and every claim on an exclusive resource, alone if and only
      if it does not crowd. */
  lemma StepSole(limits: Limits, s: State, op: Op)
    requires Inv(limits, s) && s.lastId + 4 < TWO_64 && limits.maxRejectionReasons >= 1 && Sole(s)
    ensures Reschedulable(s)
    ensures Sole(Step(limits, s, op)) <==> !OpCrowds(limits, s, op)
  {
    hide Inv, Sole, Crowds, SubmitRequest, ReassignPlacement, PreemptPlacement, PublishResource, SubmitChecks, Admitted,
         ReassignChecks, PreemptChecks, Preempting, Reschedulable, Accepts, Staying, AtMostOneClaim;
    PlanReady(limits, s, 0);
    match op {
      case Publish(ad) => PublicationSole(limits, s, ad);
      case Submit(request) => SubmitSole(limits, s, request);
      case Reassign(id, generation, epoch) => ReassignSole(limits, s, id, generation, epoch);
      case Preempt(id, generation, epoch) => PreemptSole(limits, s, id, generation, epoch);
      case _ => QuietStepSole(limits, s, op);
    }
  }

  // ---------------------------------------------------------------- every run

  ghost function NeverCrowds(limits: Limits): (State, Op) -> bool {
    (s: State, op: Op) => !OpCrowds(limits, s, op)
  }

  /** Exclusive claims, and claims on exclusive resources, are alone throughout a run if and only if no
      operation of it crowds. */
  lemma {:induction false} RunSole(limits: Limits, s: State, ops: seq<Op>)
    requires Inv(limits, s) && Roomy(s, |ops|) && limits.maxRejectionReasons >= 1 && Sole(s)
    ensures Throughout(limits, s, ops, ClaimsSole()) <==> Guarded(limits, s, ops, NeverCrowds(limits))
    decreases |ops|
  {
    hide Inv, Step, Sole, OpCrowds;
    if ops != [] {
      StepInv(limits, s, ops[0]);
      StepSole(limits, s, ops[0]);
      var t := Step(limits, s, ops[0]);
      StartsGood(limits, t, ops[1..], ClaimsSole());
      if Sole(t) {
        RunSole(limits, t, ops[1..]);
      }
    }
  }
}
