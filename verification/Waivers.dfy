/** Requirements that waive current evidence (src/engine_scheduling.cpp:249-265): when scheduling reserves a
    resource without authority, told from the state before it, and over every run. */
module Waivers {
  import opened Prelude
  import opened Records
  import opened Eligibility
  import opened Search
  import opened Planning
  import opened Transitions
  import opened Invariants
  import opened Commitment
  import opened Steps
  import opened Phases
  import opened Runs
  import opened Evidence

  // ---------------------------------------------------------------- one scheduling decision

  /** A requirement waives evidence and this restored resource is eligible for it. */
  predicate Tempts(s: State, limits: Limits, request: Request, q: Requirement, id: U64) {
    Eligible(s, limits, request, q, id) && !s.resources[id].authoritative
  }

  /** Only a waived requirement is tempted, and only by a restored resource. */
  lemma TemptedByRestored(limits: Limits, s: State, request: Request, q: Requirement, id: U64)
    requires Inv(limits, s) && limits.maxRejectionReasons >= 1 && Tempts(s, limits, request, q, id)
    ensures !q.requireCurrentEvidence && s.resources[id].lifecycle.Registered?
  {
    hide Inv, Evaluate, Fits, HasRoom;
    EligibleExactly(request, q, s.resources[id], limits.maxRejectionReasons);
    ResourceTrusted(limits, s, id);
  }

  /** The placement that scheduling would make names a resource without authority. */
  ghost predicate Strays(limits: Limits, s: State, request: Request) {
    && Places(limits, s, request)
    && var sel := Head(RankingOf(s, limits, request)).selection;
       exists i :: 0 <= i < |sel| && sel[i].id in s.resources && !s.resources[sel[i].id].authoritative
  }

  /** Scheduling reserves a resource without authority exactly when the best placement strays. */
  lemma ScheduleStale(limits: Limits, s: State, requestId: U64, forced: nat, count: nat)
    requires Inv(limits, s) && requestId in s.requests && s.lastId + 4 < TWO_64 && limits.maxRejectionReasons >= 1
    requires (if forced == 0 then 1 else forced) == count + 1 && StaleFree(s.resources)
    requires count <= s.requests[requestId].request.maxReassignments
    ensures Plannable(s, s.requests[requestId].request)
    ensures StaleFree(Schedule(s, limits, requestId, forced, count).state.resources)
            <==> !Strays(limits, s, s.requests[requestId].request)
  {
    hide Inv, Run, Head, SearchSpace, Commit, ValidRequest, Plannable, HasCapacity, ChoiceLists, Schedule, RankingOf,
         SoundSelection, CanPlace, Found, StaleFree;
    var request := s.requests[requestId].request;
    PlanReady(limits, s, requestId);
    var t := s.(lastId := s.lastId + 1);
    assert NextId(s.lastId) == s.lastId + 1;
    CountedInv(limits, s, s.lastId + 1);
    ScheduleCases(limits, s, t, requestId, forced, count);
    SameCapacity(limits, s, t);
    if RankingOf(s, limits, request) != [] {
      var sel := Head(RankingOf(s, limits, request)).selection;
      RankingSound(s, limits, request);
      FoundCanPlace(limits, s, t, requestId, count, sel);
      PlaceStale(limits, t, requestId, count + 1, count, sel);
      FoundHere(t, sel);
    }
  }

  lemma FoundHere(s: State, sel: Selection)
    ensures Found(s, sel) ==> forall i :: 0 <= i < |sel| ==> sel[i].id in s.resources
  {
  }

  /** No eligible resource lacks authority: nothing strays. */
  lemma UntemptedStays(limits: Limits, s: State, request: Request)
    requires limits.maxRejectionReasons >= 1 && Strays(limits, s, request)
    ensures exists i, id ::
              0 <= i < |request.requirements| && Tempts(s, limits, request, request.requirements[i], id)
  {
    hide Run, Head, SearchSpace, HasCapacity, ChoiceLists, RankingOf, Evaluate, Meets, Acceptable;
    var sel := Head(RankingOf(s, limits, request)).selection;
    RankingSound(s, limits, request);
    var i :| 0 <= i < |sel| && sel[i].id in s.resources && !s.resources[sel[i].id].authoritative;
    SelectedIsEligible(limits, s, request, sel, i);
    assert Tempts(s, limits, request, request.requirements[i], sel[i].id);
  }

  lemma SelectedIsEligible(limits: Limits, s: State, request: Request, sel: Selection, i: nat)
    requires limits.maxRejectionReasons >= 1 && SoundSelection(s, request, sel) && i < |sel|
    ensures i < |request.requirements| && Eligible(s, limits, request, request.requirements[i], sel[i].id)
  {
    hide Evaluate, Meets;
    EligibleExactly(request, request.requirements[i], s.resources[sel[i].id], limits.maxRejectionReasons);
  }

  /** The eligible resources of a requirement all have authority, or all lack it. */
  ghost predicate Uniform(s: State, limits: Limits, request: Request, q: Requirement) {
    forall a, b :: Eligible(s, limits, request, q, a) && Tempts(s, limits, request, q, b) ==>
      !s.resources[a].authoritative
  }

  /** Where every requirement has one kind of eligible resources only, the lists decide: a placement that is
      made strays if and only if some eligible resource of some requirement lacks authority. */
  lemma UniformDecides(limits: Limits, s: State, request: Request)
    requires limits.maxRejectionReasons >= 1 && Places(limits, s, request)
    requires forall q :: q in request.requirements ==> Uniform(s, limits, request, q)
    ensures Strays(limits, s, request) <==>
            exists i, id :: 0 <= i < |request.requirements| && Tempts(s, limits, request, request.requirements[i], id)
  {
    hide Run, Head, SearchSpace, HasCapacity, ChoiceLists, RankingOf, Evaluate, Meets, Eligible;
    if Strays(limits, s, request) {
      UntemptedStays(limits, s, request);
    }
    if i, id :| 0 <= i < |request.requirements| && Tempts(s, limits, request, request.requirements[i], id) {
      var sel := Head(RankingOf(s, limits, request)).selection;
      RankingSound(s, limits, request);
      SelectedIsEligible(limits, s, request, sel, i);
      assert request.requirements[i] in request.requirements;
      EligibleIsKnown(s, limits, request, request.requirements[i], sel[i].id);
    }
  }

  lemma EligibleIsKnown(s: State, limits: Limits, request: Request, q: Requirement, id: U64)
    requires Eligible(s, limits, request, q, id)
    ensures id in s.resources
  {
  }

  // ---------------------------------------------------------------- every operation, every run

  function Admitted(s: State, request: Request): State {
    s.(requests := s.requests[request.id := StoredRequest(request, RequestState.Submitted, 0, 0)])
  }

  /** The checks of a submission. */
  predicate SubmitChecks(limits: Limits, s: State, request: Request) {
    && ValidRequest(request, limits) && !s.shuttingDown && |s.requests| < limits.maxRetainedRequests
    && request.id !in s.requests && |ActiveRequests(s)| < limits.maxActiveRequests
    && !UnitBusy(s, UnitOfRequest(request))
  }

  /** The state a preemption schedules from. */
  function Preempting(s: State, id: U64): State
    requires id in s.placements
  {
    var t := Terminate(s, id, Preempted);
    var r := s.placements[id].request;
    if r in t.requests then t.(requests := t.requests[r := t.requests[r].(state := RequestState.Submitted)]) else t
  }

  /** The operation schedules a request whose best placement strays. */
  ghost predicate OpStrays(limits: Limits, s: State, op: Op) {
    match op
    case Submit(request) => SubmitChecks(limits, s, request) && Strays(limits, Admitted(s, request), request)
    case Reassign(id, generation, epoch) =>
      ReassignChecks(s, id, generation, epoch)
      && var p := s.placements[id];
         p.request in s.requests && p.reassignmentCount < s.requests[p.request].request.maxReassignments
         && Strays(limits, Terminate(s, id, ReassignmentRequired), s.requests[p.request].request)
    case Preempt(id, generation, epoch) =>
      PreemptChecks(s, id, generation, epoch)
      && var p := s.placements[id];
         p.request in s.requests && s.requests[p.request].request.allowPreemption
         && p.reassignmentCount < s.requests[p.request].request.maxReassignments
         && Strays(limits, Preempting(s, id), s.requests[p.request].request)
    case _ => false
  }

  lemma SubmitStale(limits: Limits, s: State, request: Request)
    requires Inv(limits, s) && s.lastId + 4 < TWO_64 && limits.maxRejectionReasons >= 1 && StaleFree(s.resources)
    ensures Reschedulable(s)
    ensures StaleFree(SubmitRequest(s, limits, request).state.resources)
            <==> !(SubmitChecks(limits, s, request) && Strays(limits, Admitted(s, request), request))
  {
    hide Inv, Schedule, ValidRequest, Plannable, UnitBusy, Strays, StaleFree;
    PlanReady(limits, s, 0);
    if SubmitChecks(limits, s, request) {
      RequestAdded(limits, s, request);
      ScheduleStale(limits, Admitted(s, request), request.id, 0, 0);
    }
  }

  lemma ReassignStale(limits: Limits, s: State, id: U64, generation: nat, epoch: nat)
    requires Inv(limits, s) && s.lastId + 4 < TWO_64 && limits.maxRejectionReasons >= 1 && StaleFree(s.resources)
    ensures Reschedulable(s)
    ensures StaleFree(ReassignPlacement(s, limits, id, generation, epoch).state.resources)
            <==> !OpStrays(limits, s, Reassign(id, generation, epoch))
  {
    hide Inv, Schedule, ValidRequest, Plannable, Strays, StaleFree, Terminate, ReassignPlacement, Reschedulable;
    PlanReady(limits, s, 0);
    if id in s.placements {
      PlacementBudget(limits, s, id);
      EndStale(limits, s, id, ReassignmentRequired);
    }
    ReassignUnfolds(limits, s, id, generation, epoch);
    if ReassignChecks(s, id, generation, epoch) {
      var p, t := s.placements[id], Terminate(s, id, ReassignmentRequired);
      if p.reassignmentCount < t.requests[p.request].request.maxReassignments {
        ScheduleStale(limits, t, p.request, p.generation + 1, p.reassignmentCount + 1);
      }
    }
  }

  /** Ending a placement keeps everything a later scheduling relies on. */
  lemma EndStale(limits: Limits, s: State, id: U64, target: PlacementState)
    requires Inv(limits, s) && StaleFree(s.resources) && !Live(target)
    ensures var t := Terminate(s, id, target);
            Inv(limits, t) && StaleFree(t.resources) && t.lastId == s.lastId && SameRequests(t.requests, s.requests)
  {
    hide Inv, Terminate;
    TerminateInv(limits, s, id, target);
    TerminateFrame(s, id, target);
    RelievedStale(s.resources, Terminate(s, id, target).resources);
  }

  lemma PreemptStale(limits: Limits, s: State, id: U64, generation: nat, epoch: nat)
    requires Inv(limits, s) && s.lastId + 4 < TWO_64 && limits.maxRejectionReasons >= 1 && StaleFree(s.resources)
    ensures Reschedulable(s)
    ensures StaleFree(PreemptPlacement(s, limits, id, generation, epoch).state.resources)
            <==> !OpStrays(limits, s, Preempt(id, generation, epoch))
  {
    hide Inv, Schedule, ValidRequest, Plannable, Strays, StaleFree, Terminate, PreemptPlacement, Reschedulable;
    PlanReady(limits, s, 0);
    if PreemptChecks(s, id, generation, epoch) {
      var p, t := s.placements[id], Terminate(s, id, Preempted);
      PlacementBudget(limits, s, id);
      EndStale(limits, s, id, Preempted);
      var q := t.requests[p.request].(state := RequestState.Submitted);
      RequestMarked(limits, t, p.request, q);
      PreemptUnfolds(limits, s, id, generation, epoch);
      if q.request.allowPreemption && p.reassignmentCount < q.request.maxReassignments {
        ScheduleStale(limits, Preempting(s, id), p.request, p.generation + 1, p.reassignmentCount + 1);
      }
    } else {
      PreemptRefused(limits, s, id, generation, epoch);
    }
  }

  /** One operation leaves every resource without authority free if and only if it does not stray. */
  lemma StepStale(limits: Limits, s: State, op: Op)
    requires Inv(limits, s) && s.lastId + 4 < TWO_64 && limits.maxRejectionReasons >= 1 && StaleFree(s.resources)
    ensures Reschedulable(s)
    ensures StaleFree(Step(limits, s, op).resources) <==> !OpStrays(limits, s, op)
  {
    hide Inv, StaleFree, Strays, SubmitRequest, ReassignPlacement, PreemptPlacement, SubmitChecks, Admitted,
         ReassignChecks, PreemptChecks, Preempting, Reschedulable, Does;
    PlanReady(limits, s, 0);
    match op {
      case Submit(request) => SubmitStale(limits, s, request);
      case Reassign(id, generation, epoch) => ReassignStale(limits, s, id, generation, epoch);
      case Preempt(id, generation, epoch) => PreemptStale(limits, s, id, generation, epoch);
      case _ => QuietStale(limits, s, op);
    }
  }

  lemma QuietStale(limits: Limits, s: State, op: Op)
    requires Inv(limits, s) && s.lastId + 4 < TWO_64 && limits.maxRejectionReasons >= 1 && StaleFree(s.resources)
    requires !op.Submit? && !op.Reassign? && !op.Preempt?
    ensures Reschedulable(s)
    ensures StaleFree(Step(limits, s, op).resources)
  {
    hide Inv, Does, StaleFree, Step;
    var trace := StepPhases(limits, s, op);
    PhaseFrees(limits, s, trace.a, trace.s1);
    PhaseFrees(limits, trace.s1, trace.b, trace.s2);
    PhaseFrees(limits, trace.s2, trace.c, Step(limits, s, op));
  }

  ghost function NeverStrays(limits: Limits): (State, Op) -> bool {
    (s: State, op: Op) => !OpStrays(limits, s, op)
  }

  ghost function StaleResourcesFree(): State -> bool {
    (s: State) => StaleFree(s.resources)
  }

  /** Resources without authority hold no reserved slots throughout a run if and only if no operation of it
      strays. */
  lemma {:induction false} RunStale(limits: Limits, s: State, ops: seq<Op>)
    requires Inv(limits, s) && Roomy(s, |ops|) && limits.maxRejectionReasons >= 1 && StaleFree(s.resources)
    ensures Throughout(limits, s, ops, StaleResourcesFree()) <==> Guarded(limits, s, ops, NeverStrays(limits))
    decreases |ops|
  {
    hide Inv, Step, StaleFree, OpStrays;
    if ops != [] {
      StepInv(limits, s, ops[0]);
      StepStale(limits, s, ops[0]);
      var t := Step(limits, s, ops[0]);
      StartsGood(limits, t, ops[1..], StaleResourcesFree());
      if StaleFree(t.resources) {
        RunStale(limits, t, ops[1..]);
      }
    }
  }
}
