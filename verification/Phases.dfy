/** Every operation is at most three phases, each of one kind. Properties of runs are proved phase by
    phase. */
module Phases {
  import opened Prelude
  import opened Records
  import opened Search
  import opened Planning
  import opened Transitions
  import opened Ledger
  import opened Invariants
  import opened Endings
  import opened Commitment
  import opened Steps

  datatype Phase =
    | End(id: U64, target: PlacementState)
    | Finish(claim: CompletionClaim)
    | Mark(id: U64, state: PlacementState)
    | Sweep(requestId: U64)
    | Lose(worker: U64, boot: U64)
    | Put(r: Resource)
    | Aside
    | Admit(request: Request)
    | Place(requestId: U64, generation: nat, count: nat, sel: Selection)

  function Stage(state: PlacementState): nat {
    match state
    case Reserved => 0
    case Assigned => 1
    case Running => 2
    case _ => 3
  }

  ghost predicate CanPlace(limits: Limits, s: State, requestId: U64, generation: nat, count: nat, sel: Selection) {
    && requestId in s.requests && FreshIds(s)
    && SoundSelection(s, s.requests[requestId].request, sel)
    && Committable(s, s.requests[requestId].request, sel)
    && generation == count + 1 && count <= s.requests[requestId].request.maxReassignments
  }

  /** Records next to the placements: workers, request states, counters, epoch, shutdown. */
  ghost predicate StepsAside(s: State, t: State) {
    && t == s.(workers := t.workers, requests := t.requests, lastId := t.lastId, epoch := t.epoch,
               shuttingDown := t.shuttingDown)
    && SameRequests(t.requests, s.requests)
  }

  /** Which phases an operation may have. */
  ghost predicate Allowed(op: Op, ph: Phase) {
    && (ph.Place? ==> op.Submit? || op.Reassign? || op.Preempt?)
    && (ph.Admit? ==> op.Submit? && ph.request == op.request)
    && (ph.Put? ==> op.Register? || op.Retire? || op.Publish?)
    && (ph.Put? ==> ph.r.reserved == 0 || (op.Publish? && ph.r.ad == op.ad))
  }

  ghost predicate Does(limits: Limits, s: State, ph: Phase, t: State) {
    match ph
    case End(id, target) =>
      !Live(target) && !target.Completed? && !target.Failed? && t == Terminate(s, id, target)
    case Finish(claim) => CheckCompletion(s, claim) == Ok && t == ReportCompletion(s, claim).state
    case Mark(id, state) =>
      id in s.placements && Live(s.placements[id].state) && Live(state) && Stage(s.placements[id].state) <= Stage(state)
      && t == s.(placements := s.placements[id := s.placements[id].(state := state)])
    case Sweep(requestId) =>
      t == TerminateWhere(s, SortedKeys(s.placements.Keys), BelongsTo(requestId), Cancelled)
    case Lose(worker, boot) => t == Invalidate(s, worker, boot)
    case Put(r) =>
      && t == s.(resources := s.resources[r.ad.id := r]) && Trusted(r)
      && r.reserved == (if r.ad.id in s.resources then s.resources[r.ad.id].reserved else 0)
      && (r.authoritative || r.reserved == 0)
    case Aside => StepsAside(s, t)
    case Admit(request) =>
      request.id !in s.requests
      && t == s.(requests := s.requests[request.id := StoredRequest(request, Submitted, 0, 0)])
    case Place(requestId, generation, count, sel) =>
      CanPlace(limits, s, requestId, generation, count, sel) && t == Commit(s, requestId, generation, count, sel).state
  }

  datatype Trace = Trace(a: Phase, s1: State, b: Phase, s2: State, c: Phase)

  ghost predicate Follows(limits: Limits, s: State, trace: Trace, t: State) {
    && Inv(limits, trace.s1) && Inv(limits, trace.s2)
    && Does(limits, s, trace.a, trace.s1) && Does(limits, trace.s1, trace.b, trace.s2)
    && Does(limits, trace.s2, trace.c, t)
  }

  ghost predicate Fit(op: Op, trace: Trace) {
    && Allowed(op, trace.a) && Allowed(op, trace.b) && Allowed(op, trace.c)
    && !trace.a.Put? && !trace.b.Put? && !trace.a.Place? && !trace.b.Place?
  }

  lemma Idle(limits: Limits, s: State)
    ensures Does(limits, s, Aside, s)
  {
  }

  lemma EndDoes(limits: Limits, s: State, id: U64, target: PlacementState)
    requires !Live(target) && !target.Completed? && !target.Failed?
    ensures Does(limits, s, End(id, target), Terminate(s, id, target))
  {
    hide Terminate;
  }

  lemma RequestDoes(limits: Limits, s: State, id: U64, q: StoredRequest)
    requires id in s.requests && q.request == s.requests[id].request
    ensures Does(limits, s, Aside, s.(requests := s.requests[id := q]))
  {
  }

  lemma OnePhase(limits: Limits, s: State, ph: Phase, t: State) returns (trace: Trace)
    requires Inv(limits, s) && Does(limits, s, ph, t)
    ensures Follows(limits, s, trace, t) && trace == Trace(Aside, s, Aside, s, ph)
  {
    hide Inv, Does;
    Idle(limits, s);
    trace := Trace(Aside, s, Aside, s, ph);
  }

  lemma AdoptPhases(limits: Limits, s: State, worker: U64, boot: U64) returns (a: Phase, s1: State)
    requires Inv(limits, s)
    ensures Does(limits, s, a, s1) && Inv(limits, s1) && Does(limits, s1, Aside, Adopt(s, worker, boot))
    ensures a.Aside? || a.Lose?
  {
    hide Inv, Invalidate;
    if worker in s.workers && s.workers[worker].boot != boot {
      a, s1 := Lose(worker, s.workers[worker].boot), Invalidate(s, worker, s.workers[worker].boot);
      InvalidateInv(limits, s, worker, s.workers[worker].boot);
    } else {
      a, s1 := Aside, s;
    }
  }

  lemma RegisterPhases(limits: Limits, s: State, ad: Advertisement) returns (trace: Trace)
    requires Inv(limits, s)
    ensures Follows(limits, s, trace, RegisterResource(s, limits, ad).state)
    ensures Fit(Register(ad), trace)
  {
    hide Inv, Adopt, ValidAdvertisement;
    var t := RegisterResource(s, limits, ad).state;
    if t == s {
      trace := OnePhase(limits, s, Aside, s);
    } else {
      var mid := if ad.worker != 0 then Adopt(s, ad.worker, ad.boot) else s;
      var a, s1 := Aside, s;
      if ad.worker != 0 {
        a, s1 := AdoptPhases(limits, s, ad.worker, ad.boot);
      }
      AdoptKeeps(limits, s, ad.worker, ad.boot);
      trace := Trace(a, s1, Aside, mid, if t == mid then Aside else Put(Registration(ad, mid.epoch)));
      AdvertisementBasics(ad);
    }
  }

  lemma PublishPhases(limits: Limits, s: State, ad: Advertisement) returns (trace: Trace)
    requires Inv(limits, s)
    ensures Follows(limits, s, trace, PublishResource(s, ad).state)
    ensures trace.c.Put? ==> trace.c.r.ad == ad
    ensures Fit(Publish(ad), trace)
  {
    hide Inv, Adopt, ValidAdvertisement, Trusted, Publication;
    var t := PublishResource(s, ad).state;
    if t == s {
      trace := OnePhase(limits, s, Aside, s);
    } else {
      var record := s.resources[ad.id];
      var adopts := record.ad.worker != 0 && record.ad.boot != ad.boot;
      var mid := if adopts then Adopt(s, ad.worker, ad.boot) else s;
      var a, s1 := Aside, s;
      if adopts {
        a, s1 := AdoptPhases(limits, s, ad.worker, ad.boot);
      }
      AdoptKeeps(limits, s, ad.worker, ad.boot);
      ResourceTrusted(limits, mid, ad.id);
      PublicationTrusted(mid.resources[ad.id], ad, mid.epoch);
      PublicationCurrent(mid.resources[ad.id], ad, mid.epoch);
      var c := if t == mid then Aside else Put(Publication(mid.resources[ad.id], ad, mid.epoch));
      trace := Trace(a, s1, Aside, mid, c);
    }
  }

  lemma PublicationCurrent(r: Resource, ad: Advertisement, epoch: nat)
    ensures Publication(r, ad, epoch).authoritative
  {
  }

  lemma RetirePhases(limits: Limits, s: State, id: U64, expected: nat) returns (trace: Trace)
    requires Inv(limits, s)
    ensures Follows(limits, s, trace, RetireResource(s, id, expected).state)
    ensures Fit(Retire(id, expected), trace)
  {
    hide Inv, ValidAdvertisement;
    var o := RetireResource(s, id, expected);
    if o.Done? {
      ResourceTrusted(limits, s, id);
      trace := OnePhase(limits, s, Put(o.value), o.state);
    } else {
      trace := OnePhase(limits, s, Aside, s);
    }
  }

  lemma MarkPhases(limits: Limits, s: State, id: U64, generation: nat, epoch: nat, boot: U64)
    returns (marked: Trace, started: Trace)
    requires Inv(limits, s)
    ensures Follows(limits, s, marked, MarkAssigned(s, id, generation, epoch, boot).state)
    ensures Follows(limits, s, started, MarkRunning(s, id, generation, epoch, boot).state)
    ensures Fit(Assign(id, generation, epoch, boot), marked) && Fit(Start(id, generation, epoch, boot), started)
  {
    hide Inv;
    var a, r := MarkAssigned(s, id, generation, epoch, boot), MarkRunning(s, id, generation, epoch, boot);
    marked := OnePhase(limits, s, if a.Done? then Mark(id, Assigned) else Aside, a.state);
    started := OnePhase(limits, s, if r.Done? then Mark(id, Running) else Aside, r.state);
  }

  /** Scheduling is a count of identities followed by a commit, or only a note that nothing fits. */
  lemma SchedulePhases(limits: Limits, s: State, requestId: U64, forced: nat, count: nat)
    returns (s1: State, c: Phase)
    requires Inv(limits, s) && requestId in s.requests && s.lastId + 4 < TWO_64 && limits.maxRejectionReasons >= 1
    requires (if forced == 0 then 1 else forced) == count + 1
    requires count <= s.requests[requestId].request.maxReassignments
    ensures Plannable(s, s.requests[requestId].request)
    ensures Inv(limits, s1) && Does(limits, s, Aside, s1)
    ensures Does(limits, s1, c, Schedule(s, limits, requestId, forced, count).state)
    ensures c.Aside? || (c.Place? && c.requestId == requestId)
    ensures c.Place? <==> (Schedule(s, limits, requestId, forced, count).Done?
                           && Schedule(s, limits, requestId, forced, count).value.PlacedAt?)
  {
    hide Inv, SoundSelection, Run, Head, SearchSpace, Commit, ValidRequest, CanPlace, Plannable, Schedule;
    var request := s.requests[requestId].request;
    PlanReady(limits, s, requestId);
    assert NextId(s.lastId) == s.lastId + 1;
    s1 := s.(lastId := s.lastId + 1);
    CountedInv(limits, s, s.lastId + 1);
    c := Aside;
    HeadIsSound(s, limits, request);
    ScheduleUnfolds(limits, s, s1, requestId, forced, count);
    var found := Run(SearchSpace(s, limits, request)).ranked;
    if found != [] {
      var sel := Head(found).selection;
      FoundCanPlace(limits, s, s1, requestId, count, sel);
      if Schedule(s, limits, requestId, forced, count) == Commit(s1, requestId, count + 1, count, sel) {
        c := Place(requestId, count + 1, count, sel);
      }
    }
  }

  /** schedule_locked ends in one of three ways. */
  lemma ScheduleUnfolds(limits: Limits, s: State, s1: State, requestId: U64, forced: nat, count: nat)
    requires requestId in s.requests && Plannable(s, s.requests[requestId].request)
    requires s1 == s.(lastId := NextId(s.lastId)) && (if forced == 0 then 1 else forced) == count + 1
    ensures var o := Schedule(s, limits, requestId, forced, count);
            var found := Run(SearchSpace(s, limits, s.requests[requestId].request)).ranked;
            || o == Done(NoPlacementFor(s1, requestId), NoValidPlacement)
            || (found != [] && o.Refused? && o.state == s1)
            || (found != [] && |Head(found).selection| == |s.requests[requestId].request.requirements|
                && Found(s1, Head(found).selection)
                && o == Commit(s1, requestId, count + 1, count, Head(found).selection))
  {
    hide Run, Head, SearchSpace, Commit, Plannable, HasCapacity;
  }

  lemma FoundCanPlace(limits: Limits, s: State, s1: State, requestId: U64, count: nat, sel: Selection)
    requires Inv(limits, s1) && requestId in s.requests && s1 == s.(lastId := s1.lastId) && FreshIds(s1)
    requires ValidRequest(s.requests[requestId].request, limits)
    requires SoundSelection(s, s.requests[requestId].request, sel)
    requires count <= s.requests[requestId].request.maxReassignments
    ensures CanPlace(limits, s1, requestId, count + 1, count, sel)
    ensures |sel| == |s1.requests[requestId].request.requirements| && Found(s1, sel)
    ensures Commit(s1, requestId, count + 1, count, sel).Done?
            && Commit(s1, requestId, count + 1, count, sel).value.PlacedAt?
  {
    hide Inv, SoundSelection, Commit, ValidRequest, Committable;
    SoundTransfers(s, s1, s.requests[requestId].request, sel);
    SoundIsCommittable(limits, s1, s.requests[requestId].request, sel);
    CommitDone(limits, s1, requestId, count + 1, count, sel);
  }

  lemma CommitDone(limits: Limits, s: State, requestId: U64, generation: nat, count: nat, sel: Selection)
    requires Inv(limits, s) && requestId in s.requests && FreshIds(s)
    requires Committable(s, s.requests[requestId].request, sel)
    requires generation == count + 1 && count <= s.requests[requestId].request.maxReassignments
    ensures Commit(s, requestId, generation, count, sel).Done?
            && Commit(s, requestId, generation, count, sel).value.PlacedAt?
    ensures |sel| == |s.requests[requestId].request.requirements| && Found(s, sel)
  {
    hide Inv, RoomFor, TotalRoom, Commit;
    CommitShape(limits, s, requestId, generation, count, sel);
  }

  lemma AsideTwice(limits: Limits, s: State, t: State, u: State)
    requires Does(limits, s, Aside, t) && Does(limits, t, Aside, u)
    ensures Does(limits, s, Aside, u)
  {
  }

  lemma SubmitPhases(limits: Limits, s: State, request: Request) returns (trace: Trace)
    requires Inv(limits, s) && s.lastId + 4 < TWO_64 && limits.maxRejectionReasons >= 1
    ensures Reschedulable(s)
    ensures Follows(limits, s, trace, SubmitRequest(s, limits, request).state)
    ensures !trace.a.Place? && !trace.b.Place?
    ensures trace.c.Place? ==> trace.c.requestId == request.id && !UnitBusy(s, UnitOfRequest(request))
                               && request.id in trace.s2.requests && trace.s2.requests[request.id].request == request
                               && trace.a == Admit(request) && trace.b.Aside?
    ensures Fit(Submit(request), trace)
  {
    hide Inv, Schedule, ValidRequest, Plannable, CanPlace, UnitBusy;
    PlanReady(limits, s, 0);
    var t := SubmitRequest(s, limits, request).state;
    if ValidRequest(request, limits) && !s.shuttingDown && |s.requests| < limits.maxRetainedRequests
       && request.id !in s.requests && |ActiveRequests(s)| < limits.maxActiveRequests
       && !UnitBusy(s, UnitOfRequest(request)) {
      var mid := s.(requests := s.requests[request.id := StoredRequest(request, Submitted, 0, 0)]);
      RequestAdded(limits, s, request);
      var s1, c := SchedulePhases(limits, mid, request.id, 0, 0);
      trace := Trace(Admit(request), mid, Aside, s1, c);
    } else {
      trace := OnePhase(limits, s, Aside, s);
    }
  }

  predicate ReassignChecks(s: State, id: U64, generation: nat, epoch: nat) {
    id != 0 && CheckEpoch(s, epoch) == Ok && id in s.placements
    && (generation == 0 || s.placements[id].generation == generation)
    && (Live(s.placements[id].state) || s.placements[id].state.ReassignmentRequired?)
  }

  /** reassign_placement once its checks have passed, and when they fail. */
  lemma ReassignUnfolds(limits: Limits, s: State, id: U64, generation: nat, epoch: nat)
    requires Reschedulable(s)
    requires ReassignChecks(s, id, generation, epoch) ==>
               s.placements[id].request in Terminate(s, id, ReassignmentRequired).requests
    ensures !ReassignChecks(s, id, generation, epoch) ==>
              ReassignPlacement(s, limits, id, generation, epoch).state == s
              && ReassignPlacement(s, limits, id, generation, epoch).Refused?
    ensures ReassignChecks(s, id, generation, epoch) ==>
              var p := s.placements[id]; var t := Terminate(s, id, ReassignmentRequired);
              Reschedulable(t) && Plannable(t, t.requests[p.request].request)
              && ReassignPlacement(s, limits, id, generation, epoch)
                 == if p.reassignmentCount < t.requests[p.request].request.maxReassignments then
                      Schedule(t, limits, p.request, p.generation + 1, p.reassignmentCount + 1)
                    else Refused(t, ReassignmentRequiredCode)
  {
    hide Schedule, Terminate;
    TerminateReschedulable(s, id, ReassignmentRequired);
  }

  lemma ReassignPhases(limits: Limits, s: State, id: U64, generation: nat, epoch: nat) returns (trace: Trace)
    requires Inv(limits, s) && s.lastId + 4 < TWO_64 && limits.maxRejectionReasons >= 1
    ensures Reschedulable(s)
    ensures Follows(limits, s, trace, ReassignPlacement(s, limits, id, generation, epoch).state)
    ensures !trace.a.Place? && trace.b.Aside?
    ensures trace.c.Place? ==> id in s.placements && trace.a == End(id, ReassignmentRequired)
                               && trace.c.requestId == s.placements[id].request
    ensures trace.c.Place? <==> (ReassignPlacement(s, limits, id, generation, epoch).Done?
                                 && ReassignPlacement(s, limits, id, generation, epoch).value.PlacedAt?)
    ensures Fit(Reassign(id, generation, epoch), trace)
  {
    hide Inv, Does, Schedule, ValidRequest, Plannable, Terminate, ReassignPlacement, Reschedulable;
    PlanReady(limits, s, 0);
    Idle(limits, s);
    EndDoes(limits, s, id, ReassignmentRequired);
    if id in s.placements {
      PlacementBudget(limits, s, id);
    }
    TerminateInv(limits, s, id, ReassignmentRequired);
    TerminateFrame(s, id, ReassignmentRequired);
    ReassignUnfolds(limits, s, id, generation, epoch);
    var t := Terminate(s, id, ReassignmentRequired);
    if !ReassignChecks(s, id, generation, epoch) {
      trace := OnePhase(limits, s, Aside, s);
    } else if s.placements[id].reassignmentCount < t.requests[s.placements[id].request].request.maxReassignments {
      var p := s.placements[id];
      var s1, c := SchedulePhases(limits, t, p.request, p.generation + 1, p.reassignmentCount + 1);
      trace := Trace(End(id, ReassignmentRequired), t, Aside, s1, c);
    } else {
      Idle(limits, t);
      trace := Trace(End(id, ReassignmentRequired), t, Aside, t, Aside);
    }
  }

  /** preempt_placement once its checks have passed. */
  lemma PreemptUnfolds(limits: Limits, s: State, id: U64, generation: nat, epoch: nat)
    requires Reschedulable(s) && id != 0 && id in s.placements && Live(s.placements[id].state)
    requires CheckEpoch(s, epoch) == Ok && (generation == 0 || s.placements[id].generation == generation)
    requires s.placements[id].request in Terminate(s, id, Preempted).requests
    ensures var p := s.placements[id]; var t := Terminate(s, id, Preempted);
            var q := t.requests[p.request].(state := Submitted);
            var u := t.(requests := t.requests[p.request := q]);
            Reschedulable(t) && Plannable(u, q.request)
            && PreemptPlacement(s, limits, id, generation, epoch)
               == if q.request.allowPreemption && p.reassignmentCount < q.request.maxReassignments then
                    Schedule(u, limits, p.request, p.generation + 1, p.reassignmentCount + 1)
                  else Done(u, NoValidPlacement)
  {
    hide Schedule, Terminate;
    TerminateReschedulable(s, id, Preempted);
  }

  predicate PreemptChecks(s: State, id: U64, generation: nat, epoch: nat) {
    id != 0 && id in s.placements && Live(s.placements[id].state) && CheckEpoch(s, epoch) == Ok
    && (generation == 0 || s.placements[id].generation == generation)
  }

  lemma PreemptRefused(limits: Limits, s: State, id: U64, generation: nat, epoch: nat)
    requires Reschedulable(s) && !PreemptChecks(s, id, generation, epoch)
    ensures PreemptPlacement(s, limits, id, generation, epoch).state == s
  {
    hide Schedule, Terminate, Reschedulable;
  }

  lemma PreemptPhases(limits: Limits, s: State, id: U64, generation: nat, epoch: nat) returns (trace: Trace)
    requires Inv(limits, s) && s.lastId + 4 < TWO_64 && limits.maxRejectionReasons >= 1
    ensures Reschedulable(s)
    ensures Follows(limits, s, trace, PreemptPlacement(s, limits, id, generation, epoch).state)
    ensures !trace.a.Place? && trace.b.Aside?
    ensures trace.c.Place? ==> id in s.placements && Live(s.placements[id].state) && trace.a == End(id, Preempted)
                               && trace.c.requestId == s.placements[id].request
    ensures Fit(Preempt(id, generation, epoch), trace)
  {
    hide Inv, Does, Schedule, ValidRequest, Plannable, Terminate, PreemptPlacement, Reschedulable;
    PlanReady(limits, s, 0);
    if !PreemptChecks(s, id, generation, epoch) {
      PreemptRefused(limits, s, id, generation, epoch);
      Idle(limits, s);
      trace := OnePhase(limits, s, Aside, s);
    } else {
      var p := s.placements[id];
      PlacementBudget(limits, s, id);
      TerminateInv(limits, s, id, Preempted);
      TerminateFrame(s, id, Preempted);
      PreemptUnfolds(limits, s, id, generation, epoch);
      var t := Terminate(s, id, Preempted);
      var q := t.requests[p.request].(state := Submitted);
      var u := t.(requests := t.requests[p.request := q]);
      RequestMarked(limits, t, p.request, q);
      RequestDoes(limits, t, p.request, q);
      EndDoes(limits, s, id, Preempted);
      if q.request.allowPreemption && p.reassignmentCount < q.request.maxReassignments {
        trace := PreemptSchedules(limits, s, t, u, id);
      } else {
        Idle(limits, u);
        trace := Trace(End(id, Preempted), t, Aside, u, Aside);
      }
    }
  }

  lemma PreemptSchedules(limits: Limits, s: State, t: State, u: State, id: U64) returns (trace: Trace)
    requires Inv(limits, t) && Inv(limits, u) && id in s.placements && t == Terminate(s, id, Preempted)
    requires Does(limits, t, Aside, u) && u.lastId + 4 < TWO_64 && limits.maxRejectionReasons >= 1
    requires var p := s.placements[id];
             p.request in u.requests && p.generation == p.reassignmentCount + 1
             && p.reassignmentCount < u.requests[p.request].request.maxReassignments
    ensures var p := s.placements[id];
            Plannable(u, u.requests[p.request].request)
            && Follows(limits, s, trace,
                       Schedule(u, limits, p.request, p.generation + 1, p.reassignmentCount + 1).state)
    ensures trace.a == End(id, Preempted) && trace.b.Aside?
    ensures trace.c.Place? ==> trace.c.requestId == s.placements[id].request
    ensures !trace.c.Admit? && !trace.c.Put?
  {
    hide Inv, Schedule, ValidRequest, Plannable, Terminate, CanPlace, StepsAside;
    var p := s.placements[id];
    var s1, c := SchedulePhases(limits, u, p.request, p.generation + 1, p.reassignmentCount + 1);
    AsideTwice(limits, t, u, s1);
    trace := Trace(End(id, Preempted), t, Aside, s1, c);
  }

  lemma PlacementBudget(limits: Limits, s: State, id: U64)
    requires Inv(limits, s) && id in s.placements
    ensures var p := s.placements[id];
            id != 0 && p.request in s.requests && p.generation == p.reassignmentCount + 1
            && UnitOf(p) == UnitOfRequest(s.requests[p.request].request)
  {
    hide Inv;
    PlacementFacts(limits, s, id);
  }

  lemma WorkerPhases(limits: Limits, s: State, worker: U64, boot: U64) returns (connected: Trace, lost: Trace)
    requires Inv(limits, s)
    ensures Follows(limits, s, connected, WorkerConnected(s, worker, boot).state)
    ensures Follows(limits, s, lost, MarkWorkerLost(s, worker, boot).state)
    ensures Fit(Connect(worker, boot), connected) && Fit(LoseWorker(worker, boot), lost)
  {
    hide Inv, Adopt, Invalidate;
    Idle(limits, s);
    var o := MarkWorkerLost(s, worker, boot);
    lost := OnePhase(limits, s, if o.Done? then Lose(worker, boot) else Aside, o.state);
    if worker == 0 || boot == 0 {
      connected := OnePhase(limits, s, Aside, s);
    } else {
      var a, s1 := AdoptPhases(limits, s, worker, boot);
      AdoptInv(limits, s, worker, boot);
      Idle(limits, Adopt(s, worker, boot));
      connected := Trace(a, s1, Aside, Adopt(s, worker, boot), Aside);
    }
  }

  lemma SweepDoes(limits: Limits, s: State, requestId: U64)
    ensures Does(limits, s, Sweep(requestId),
                 TerminateWhere(s, SortedKeys(s.placements.Keys), BelongsTo(requestId), Cancelled))
  {
    hide TerminateWhere;
  }

  lemma CancelAllPhases(limits: Limits, s: State, requestId: U64) returns (trace: Trace)
    requires Inv(limits, s)
    ensures Follows(limits, s, trace, CancelRequest(s, requestId).state)
    ensures Fit(CancelAll(requestId), trace)
  {
    hide Inv, TerminateWhere, Does;
    Idle(limits, s);
    if requestId != 0 && requestId in s.requests {
      var t := TerminateWhere(s, SortedKeys(s.placements.Keys), BelongsTo(requestId), Cancelled);
      SweepInv(limits, s, SortedKeys(s.placements.Keys), BelongsTo(requestId), Cancelled);
      SweepDoes(limits, s, requestId);
      RequestDoes(limits, t, requestId, t.requests[requestId].(state := RequestCancelled, current := 0));
      trace := Trace(Aside, s, Sweep(requestId), t, Aside);
    } else {
      trace := OnePhase(limits, s, Aside, s);
    }
  }

  lemma CancelPhases(limits: Limits, s: State, id: U64, generation: nat, epoch: nat) returns (trace: Trace)
    requires Inv(limits, s)
    ensures Follows(limits, s, trace, CancelPlacement(s, id, generation, epoch).state)
    ensures Fit(Cancel(id, generation, epoch), trace)
  {
    hide Inv, Terminate;
    var o := CancelPlacement(s, id, generation, epoch);
    trace := OnePhase(limits, s, if o.Done? then End(id, Cancelled) else Aside, o.state);
  }

  lemma CompletePhases(limits: Limits, s: State, c: CompletionClaim) returns (trace: Trace)
    requires Inv(limits, s)
    ensures Follows(limits, s, trace, ReportCompletion(s, c).state)
    ensures Fit(Complete(c), trace)
  {
    hide Inv, Terminate, CheckCompletion;
    var o := ReportCompletion(s, c);
    trace := OnePhase(limits, s, if o.Done? then Finish(c) else Aside, o.state);
  }

  /** The phases of any operation. */
  lemma StepPhases(limits: Limits, s: State, op: Op) returns (trace: Trace)
    requires Inv(limits, s) && s.lastId + 4 < TWO_64 && limits.maxRejectionReasons >= 1
    ensures Reschedulable(s)
    ensures Follows(limits, s, trace, Step(limits, s, op))
    ensures Fit(op, trace)
  {
    hide Inv, Follows, RegisterResource, PublishResource, RetireResource, WorkerConnected, MarkWorkerLost,
         SubmitRequest, ReportCompletion, CancelPlacement, CancelRequest, ReassignPlacement, PreemptPlacement,
         MarkAssigned, MarkRunning;
    PlanReady(limits, s, 0);
    match op
    case Register(ad) => trace := RegisterPhases(limits, s, ad);
    case Publish(ad) => trace := PublishPhases(limits, s, ad);
    case Retire(id, expected) => trace := RetirePhases(limits, s, id, expected);
    case Connect(worker, boot) => var connected, _ := WorkerPhases(limits, s, worker, boot); trace := connected;
    case LoseWorker(worker, boot) => var _, lost := WorkerPhases(limits, s, worker, boot); trace := lost;
    case Submit(request) => trace := SubmitPhases(limits, s, request);
    case Assign(id, generation, epoch, boot) =>
      var marked, _ := MarkPhases(limits, s, id, generation, epoch, boot);
      trace := marked;
    case Start(id, generation, epoch, boot) =>
      var _, started := MarkPhases(limits, s, id, generation, epoch, boot);
      trace := started;
    case Complete(claim) => trace := CompletePhases(limits, s, claim);
    case Cancel(id, generation, epoch) => trace := CancelPhases(limits, s, id, generation, epoch);
    case CancelAll(requestId) => trace := CancelAllPhases(limits, s, requestId);
    case Reassign(id, generation, epoch) => trace := ReassignPhases(limits, s, id, generation, epoch);
    case Preempt(id, generation, epoch) => trace := PreemptPhases(limits, s, id, generation, epoch);
    case Advance(epoch) => trace := ControlPhases(limits, s, AdoptEpoch(s, epoch).state);
    case Shutdown => trace := ControlPhases(limits, s, BeginShutdown(s).state);
  }

  lemma ControlPhases(limits: Limits, s: State, t: State) returns (trace: Trace)
    requires Inv(limits, s) && t == s.(epoch := t.epoch, shuttingDown := t.shuttingDown)
    ensures Follows(limits, s, trace, t) && trace == Trace(Aside, s, Aside, s, Aside)
  {
    hide Inv;
    trace := OnePhase(limits, s, Aside, t);
  }
}
