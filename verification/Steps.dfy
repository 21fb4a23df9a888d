/** One step of the engine is one public operation; a run is a sequence of steps. Every run keeps every
    invariant, whatever the operations and their arguments are. */
module Steps {
  import opened Prelude
  import opened Records
  import opened Search
  import opened Planning
  import opened Transitions
  import opened Ledger
  import opened Invariants
  import opened Endings
  import opened Commitment

  datatype Op =
    | Register(ad: Advertisement)
    | Publish(ad: Advertisement)
    | Retire(id: U64, expected: nat)
    | Connect(worker: U64, boot: U64)
    | LoseWorker(worker: U64, boot: U64)
    | Submit(request: Request)
    | Assign(id: U64, generation: nat, epoch: nat, boot: U64)
    | Start(id: U64, generation: nat, epoch: nat, boot: U64)
    | Complete(claim: CompletionClaim)
    | Cancel(id: U64, generation: nat, epoch: nat)
    | CancelAll(requestId: U64)
    | Reassign(id: U64, generation: nat, epoch: nat)
    | Preempt(id: U64, generation: nat, epoch: nat)
    | Advance(epoch: nat)
    | Shutdown

  function Step(limits: Limits, s: State, op: Op): State
    requires Reschedulable(s)
  {
    match op
    case Register(ad) => RegisterResource(s, limits, ad).state
    case Publish(ad) => PublishResource(s, ad).state
    case Retire(id, expected) => RetireResource(s, id, expected).state
    case Connect(worker, boot) => WorkerConnected(s, worker, boot).state
    case LoseWorker(worker, boot) => MarkWorkerLost(s, worker, boot).state
    case Submit(request) => SubmitRequest(s, limits, request).state
    case Assign(id, generation, epoch, boot) => MarkAssigned(s, id, generation, epoch, boot).state
    case Start(id, generation, epoch, boot) => MarkRunning(s, id, generation, epoch, boot).state
    case Complete(claim) => ReportCompletion(s, claim).state
    case Cancel(id, generation, epoch) => CancelPlacement(s, id, generation, epoch).state
    case CancelAll(requestId) => CancelRequest(s, requestId).state
    case Reassign(id, generation, epoch) => ReassignPlacement(s, limits, id, generation, epoch).state
    case Preempt(id, generation, epoch) => PreemptPlacement(s, limits, id, generation, epoch).state
    case Advance(epoch) => AdoptEpoch(s, epoch).state
    case Shutdown => BeginShutdown(s).state
  }

  // ---------------------------------------------------------------- operations on resources

  /** Replacing one resource record by a trusted one with the same reserved slots. */
  lemma ResourceReplaced(limits: Limits, s: State, id: U64, r: Resource)
    requires Inv(limits, s) && id in s.resources && r.ad.id == id && Trusted(r)
    requires r.reserved == s.resources[id].reserved && r.ad.occupancy + r.reserved <= r.ad.slots
    ensures Inv(limits, s.(resources := s.resources[id := r]))
  {
    hide Trusted, Linked, Recorded, Indexed, Numbered, Claimed, ValidRequest;
    var t := s.(resources := s.resources[id := r]);
    assert t.resources.Keys == s.resources.Keys;
  }

  lemma ResourceAdded(limits: Limits, s: State, r: Resource)
    requires Inv(limits, s) && r.ad.id !in s.resources && Trusted(r) && r.ad.id != 0
    requires r.reserved == 0 && r.ad.occupancy <= r.ad.slots
    ensures Inv(limits, s.(resources := s.resources[r.ad.id := r]))
  {
    hide Trusted, Linked, Grounded, Recorded, Indexed, Numbered, Claimed, ValidRequest;
    NobodyClaims(limits, s, r.ad.id);
    var t := s.(resources := s.resources[r.ad.id := r]);
    GroundedExtends(s.placements, s.resources.Keys, t.resources.Keys, s.requests, t.requests);
  }

  /** No reservation claims a resource that is not registered. */
  lemma NobodyClaims(limits: Limits, s: State, id: U64)
    requires Inv(limits, s) && id !in s.resources
    ensures Claimed(s.reservations, id) == 0
  {
    hide Recorded, Indexed, Numbered, Filed, Authority, Balanced;
    var f := HeldBy(s.reservations, id);
    forall v | v in s.reservations.Keys ensures f(v) == 0 {
      var rv := s.reservations[v];
      var p := s.placements[rv.placement];
      assert Bound(rv.placement, p, s.reservations[p.reservation]);
      assert WellFounded(p, s.resources.Keys, s.requests);
      MatchedClaims(p.resources, rv.claims, id);
      ClaimSlotsAbsent(rv.claims, id);
    }
    SumZero(s.reservations.Keys, f);
  }

  lemma AdoptKeeps(limits: Limits, s: State, worker: U64, boot: U64)
    requires Inv(limits, s)
    ensures var t := Adopt(s, worker, boot);
            Inv(limits, t) && t.resources.Keys == s.resources.Keys && t.lastId == s.lastId && t.epoch == s.epoch
  {
    hide Inv, Invalidate;
    AdoptInv(limits, s, worker, boot);
    if worker in s.workers && s.workers[worker].boot != boot {
      LossFrame(limits, s, worker, s.workers[worker].boot);
    }
  }

  lemma RegisterInv(limits: Limits, s: State, ad: Advertisement)
    requires Inv(limits, s)
    ensures Inv(limits, RegisterResource(s, limits, ad).state)
    ensures RegisterResource(s, limits, ad).state.lastId == s.lastId
  {
    hide Inv, Adopt, ValidAdvertisement;
    AdoptKeeps(limits, s, ad.worker, ad.boot);
    if ValidAdvertisement(ad) && ad.id !in s.resources {
      var t := if ad.worker != 0 then Adopt(s, ad.worker, ad.boot) else s;
      AdvertisementBasics(ad);
      ResourceAdded(limits, t, Registration(ad, t.epoch));
    }
  }

  lemma AdvertisementBasics(ad: Advertisement)
    requires ValidAdvertisement(ad)
    ensures ad.id != 0 && ad.occupancy <= ad.slots && ad.slots >= 1
  {
  }

  lemma PublicationTrusted(r: Resource, ad: Advertisement, epoch: nat)
    requires Trusted(r) && ValidAdvertisement(ad)
    ensures Trusted(Publication(r, ad, epoch)) && Publication(r, ad, epoch).reserved == r.reserved
            && Publication(r, ad, epoch).ad == ad
  {
  }

  lemma PublishInv(limits: Limits, s: State, ad: Advertisement)
    requires Inv(limits, s)
    ensures Inv(limits, PublishResource(s, ad).state)
    ensures PublishResource(s, ad).state.lastId == s.lastId
  {
    hide Inv, Adopt, ValidAdvertisement, Trusted, Publication;
    AdoptKeeps(limits, s, ad.worker, ad.boot);
    if ValidAdvertisement(ad) && ad.id in s.resources {
      var record := s.resources[ad.id];
      var t := if record.ad.worker != 0 && record.ad.boot != ad.boot then Adopt(s, ad.worker, ad.boot) else s;
      ResourceTrusted(limits, t, ad.id);
      PublicationTrusted(t.resources[ad.id], ad, t.epoch);
      if ad.occupancy + t.resources[ad.id].reserved <= ad.slots {
        ResourceReplaced(limits, t, ad.id, Publication(t.resources[ad.id], ad, t.epoch));
      }
    }
  }

  lemma ResourceTrusted(limits: Limits, s: State, id: U64)
    requires Inv(limits, s) && id in s.resources
    ensures Trusted(s.resources[id]) && s.resources[id].ad.id == id && id != 0
    ensures s.resources[id].ad.occupancy + s.resources[id].reserved <= s.resources[id].ad.slots
  {
    hide Trusted, Linked, Grounded, Recorded, Indexed, Numbered, Claimed;
  }

  lemma RetireInv(limits: Limits, s: State, id: U64, expected: nat)
    requires Inv(limits, s)
    ensures Inv(limits, RetireResource(s, id, expected).state)
    ensures RetireResource(s, id, expected).state.lastId == s.lastId
  {
    hide Inv, ValidAdvertisement;
    if RetireResource(s, id, expected).Done? {
      ResourceTrusted(limits, s, id);
      ResourceReplaced(limits, s, id, RetireResource(s, id, expected).value);
    }
  }

  // ---------------------------------------------------------------- operations on placements

  /** Editing a placement's state between live states, or its completion mark. */
  lemma PlacementEdited(limits: Limits, s: State, id: U64, p: Placement)
    requires Inv(limits, s) && id in s.placements
    requires p == s.placements[id].(state := p.state, completionRecorded := p.completionRecorded)
    requires Live(p.state) <==> Live(s.placements[id].state)
    ensures Inv(limits, s.(placements := s.placements[id := p]))
  {
    hide Filed, Numbered, Linked, Grounded, Indexed, Recorded, Balanced, Authority;
    var t := s.(placements := s.placements[id := p]);
    assert Moved(s.placements, t.placements) && Refreed(s.reservations, t.reservations);
    MovedNumbered(s.placements, t.placements, s.reservations, t.reservations, s.lastId);
    MovedGrounded(s.placements, t.placements, s.resources.Keys, s.requests, t.requests);
    MovedFiled(s, t);
    EditedLinked(s.placements, s.reservations, id, p);
    EditedIndexes(limits, s, id, p);
  }

  lemma EditedLinked(ps: map<U64, Placement>, rs: map<U64, Reservation>, id: U64, p: Placement)
    requires Linked(ps, rs) && id in ps
    requires p == ps[id].(state := p.state, completionRecorded := p.completionRecorded)
    requires Live(p.state) <==> Live(ps[id].state)
    ensures Linked(ps[id := p], rs)
  {
    forall k | k in ps ensures ps[k].reservation in rs && Bound(k, ps[id := p][k], rs[ps[k].reservation]) {
      assert Bound(k, ps[k], rs[ps[k].reservation]);
    }
  }

  lemma EditedIndexes(limits: Limits, s: State, id: U64, p: Placement)
    requires Indexed(s.unitCurrent, s.placements) && Recorded(limits, s.requests, s.placements) && id in s.placements
    requires p == s.placements[id].(state := p.state, completionRecorded := p.completionRecorded)
    requires Live(p.state) <==> Live(s.placements[id].state)
    ensures Indexed(s.unitCurrent, s.placements[id := p]) && Recorded(limits, s.requests, s.placements[id := p])
  {
    hide ValidRequest;
  }

  lemma MarksInv(limits: Limits, s: State, id: U64, generation: nat, epoch: nat, boot: U64)
    requires Inv(limits, s)
    ensures Inv(limits, MarkAssigned(s, id, generation, epoch, boot).state)
    ensures Inv(limits, MarkRunning(s, id, generation, epoch, boot).state)
  {
    hide Inv;
    if CheckMark(s, id, generation, epoch, boot) == Ok {
      PlacementEdited(limits, s, id, s.placements[id].(state := Assigned));
      PlacementEdited(limits, s, id, s.placements[id].(state := Running));
    }
  }

  lemma CompleteInv(limits: Limits, s: State, c: CompletionClaim)
    requires Inv(limits, s)
    ensures Inv(limits, ReportCompletion(s, c).state)
    ensures ReportCompletion(s, c).state.lastId == s.lastId
  {
    hide Inv, Terminate;
    if CheckCompletion(s, c) == Ok {
      var p := s.placements[c.placement].(completionRecorded := true);
      var recorded := s.(placements := s.placements[c.placement := p]);
      var target := if c.succeeded then Completed else Failed;
      PlacementEdited(limits, s, c.placement, p);
      TerminateInv(limits, recorded, c.placement, target);
      TerminateFrame(recorded, c.placement, target);
    }
  }

  lemma CancelInv(limits: Limits, s: State, id: U64, generation: nat, epoch: nat)
    requires Inv(limits, s)
    ensures Inv(limits, CancelPlacement(s, id, generation, epoch).state)
    ensures CancelPlacement(s, id, generation, epoch).state.lastId == s.lastId
  {
    hide Inv, Terminate;
    TerminateInv(limits, s, id, Cancelled);
    TerminateFrame(s, id, Cancelled);
  }

  // ---------------------------------------------------------------- operations that schedule

  /** Identities consumed by one operation. */
  ghost predicate Issues(s: State, t: State) {
    s.lastId <= t.lastId <= s.lastId + 4
  }

  lemma CommitIssues(s: State, requestId: U64, generation: nat, count: nat, sel: Selection)
    requires requestId in s.requests && Found(s, sel) && |sel| == |s.requests[requestId].request.requirements|
    requires s.lastId + 3 < TWO_64
    ensures Commit(s, requestId, generation, count, sel).state.lastId == s.lastId + 3
  {
    hide Acquire, SelectedList, ClaimList, Anchor;
    NextIds(s.lastId);
  }

  lemma ScheduleIssues(limits: Limits, s: State, requestId: U64, forced: nat, count: nat)
    requires requestId in s.requests && Plannable(s, s.requests[requestId].request) && s.lastId + 4 < TWO_64
    ensures Issues(s, Schedule(s, limits, requestId, forced, count).state)
  {
    hide ChoiceLists, SearchSpace, Run, Head, HasCapacity, Commit, Plannable;
    assert NextId(s.lastId) == s.lastId + 1;
    var t := s.(lastId := s.lastId + 1);
    var found := Run(SearchSpace(s, limits, s.requests[requestId].request)).ranked;
    if found != [] {
      var sel := Head(found).selection;
      if |sel| == |s.requests[requestId].request.requirements| && Found(t, sel) {
        CommitIssues(t, requestId, if forced == 0 then 1 else forced, count, sel);
      }
    }
  }

  lemma GroundedExtends(ps: map<U64, Placement>, resources: set<U64>, resources': set<U64>,
                        requests: map<U64, StoredRequest>, requests': map<U64, StoredRequest>)
    requires Grounded(ps, resources, requests) && resources <= resources'
    requires forall k :: k in requests ==> k in requests' && requests'[k].request == requests[k].request
    ensures Grounded(ps, resources', requests')
  {
    forall k | k in ps ensures WellFounded(ps[k], resources', requests') {
      assert WellFounded(ps[k], resources, requests);
    }
  }

  lemma RequestAdded(limits: Limits, s: State, request: Request)
    requires Inv(limits, s) && ValidRequest(request, limits) && request.id !in s.requests
    ensures Inv(limits, s.(requests := s.requests[request.id := StoredRequest(request, Submitted, 0, 0)]))
  {
    hide Grounded, Linked, Indexed, Numbered, Balanced, Authority, ValidRequest;
    RequestNamed(limits, request);
    var t := s.(requests := s.requests[request.id := StoredRequest(request, Submitted, 0, 0)]);
    GroundedExtends(s.placements, s.resources.Keys, t.resources.Keys, s.requests, t.requests);
  }

  lemma RequestNamed(limits: Limits, request: Request)
    requires ValidRequest(request, limits)
    ensures request.id != 0
  {
  }

  lemma SubmitInv(limits: Limits, s: State, request: Request)
    requires Inv(limits, s) && s.lastId + 4 < TWO_64 && limits.maxRejectionReasons >= 1
    ensures Reschedulable(s)
    ensures Inv(limits, SubmitRequest(s, limits, request).state)
    ensures Issues(s, SubmitRequest(s, limits, request).state)
  {
    hide Inv, Schedule, ValidRequest, Plannable;
    PlanReady(limits, s, 0);
    if ValidRequest(request, limits) && request.id !in s.requests {
      var t := s.(requests := s.requests[request.id := StoredRequest(request, Submitted, 0, 0)]);
      RequestAdded(limits, s, request);
      ScheduleInv(limits, t, request.id, 0, 0);
      ScheduleIssues(limits, t, request.id, 0, 0);
    }
  }

  lemma RescheduleInv(limits: Limits, t: State, p: Placement)
    requires Inv(limits, t) && t.lastId + 4 < TWO_64 && limits.maxRejectionReasons >= 1
    requires p.request in t.requests && p.generation == p.reassignmentCount + 1
    requires p.reassignmentCount < t.requests[p.request].request.maxReassignments
    ensures Plannable(t, t.requests[p.request].request)
    ensures Inv(limits, Schedule(t, limits, p.request, p.generation + 1, p.reassignmentCount + 1).state)
    ensures Issues(t, Schedule(t, limits, p.request, p.generation + 1, p.reassignmentCount + 1).state)
  {
    hide Inv, Schedule, ValidRequest;
    ScheduleInv(limits, t, p.request, p.generation + 1, p.reassignmentCount + 1);
    ScheduleIssues(limits, t, p.request, p.generation + 1, p.reassignmentCount + 1);
  }

  lemma ReassignInv(limits: Limits, s: State, id: U64, generation: nat, epoch: nat)
    requires Inv(limits, s) && s.lastId + 4 < TWO_64 && limits.maxRejectionReasons >= 1
    ensures Reschedulable(s)
    ensures Inv(limits, ReassignPlacement(s, limits, id, generation, epoch).state)
    ensures Issues(s, ReassignPlacement(s, limits, id, generation, epoch).state)
  {
    hide Inv, Schedule, ValidRequest, Plannable, Terminate;
    PlanReady(limits, s, 0);
    if id in s.placements {
      var p := s.placements[id];
      PlacementFacts(limits, s, id);
      TerminateInv(limits, s, id, ReassignmentRequired);
      TerminateFrame(s, id, ReassignmentRequired);
      var t := Terminate(s, id, ReassignmentRequired);
      if p.reassignmentCount < t.requests[p.request].request.maxReassignments {
        RescheduleInv(limits, t, p);
      }
    }
  }

  lemma PreemptInv(limits: Limits, s: State, id: U64, generation: nat, epoch: nat)
    requires Inv(limits, s) && s.lastId + 4 < TWO_64 && limits.maxRejectionReasons >= 1
    ensures Reschedulable(s)
    ensures Inv(limits, PreemptPlacement(s, limits, id, generation, epoch).state)
    ensures Issues(s, PreemptPlacement(s, limits, id, generation, epoch).state)
  {
    hide Inv, Schedule, ValidRequest, Plannable, Terminate;
    PlanReady(limits, s, 0);
    if id in s.placements {
      var p := s.placements[id];
      PlacementFacts(limits, s, id);
      TerminateInv(limits, s, id, Preempted);
      TerminateFrame(s, id, Preempted);
      var t := Terminate(s, id, Preempted);
      var q := t.requests[p.request].(state := Submitted);
      var u := t.(requests := t.requests[p.request := q]);
      RequestMarked(limits, t, p.request, q);
      if p.reassignmentCount < q.request.maxReassignments {
        RescheduleInv(limits, u, p);
      }
    }
  }

  lemma RequestMarked(limits: Limits, s: State, id: U64, q: StoredRequest)
    requires Inv(limits, s) && id in s.requests && q == s.requests[id].(state := q.state)
    ensures Inv(limits, s.(requests := s.requests[id := q]))
  {
    hide Grounded, Linked, Indexed, Numbered, Balanced, Authority, ValidRequest;
    var t := s.(requests := s.requests[id := q]);
    GroundedExtends(s.placements, s.resources.Keys, t.resources.Keys, s.requests, t.requests);
  }

  lemma ControlInv(limits: Limits, s: State, t: State)
    requires Inv(limits, s) && t == s.(epoch := t.epoch, shuttingDown := t.shuttingDown) && t.epoch >= 1
    ensures Inv(limits, t)
  {
    hide Linked, Grounded, Indexed, Numbered, Balanced, Authority, Recorded;
  }

  // ---------------------------------------------------------------- every step, every run

  lemma WorkerStepsInv(limits: Limits, s: State, worker: U64, boot: U64)
    requires Inv(limits, s)
    ensures Inv(limits, WorkerConnected(s, worker, boot).state)
    ensures Inv(limits, MarkWorkerLost(s, worker, boot).state)
    ensures WorkerConnected(s, worker, boot).state.lastId == s.lastId == MarkWorkerLost(s, worker, boot).state.lastId
  {
    hide Inv, Adopt, Invalidate, LossSweep;
    AdoptKeeps(limits, s, worker, boot);
    InvalidateInv(limits, s, worker, boot);
    InvalidateIsSweep(s, worker, boot);
  }

  lemma CancelAllIssues(s: State, request: U64)
    ensures CancelRequest(s, request).state.lastId == s.lastId
  {
    SweepLastId(s, SortedKeys(s.placements.Keys), BelongsTo(request), Cancelled);
  }

  lemma {:induction false} SweepLastId(s: State, ids: seq<U64>, pick: Placement -> bool, target: PlacementState)
    ensures TerminateWhere(s, ids, pick, target).lastId == s.lastId
  {
    if ids != [] {
      var n := |ids| - 1;
      SweepLastId(s, ids[..n], pick, target);
      TerminateFrame(TerminateWhere(s, ids[..n], pick, target), ids[n], target);
    }
  }

  /** Every operation keeps every invariant and issues at most four identities. */
  lemma StepInv(limits: Limits, s: State, op: Op)
    requires Inv(limits, s) && s.lastId + 4 < TWO_64 && limits.maxRejectionReasons >= 1
    ensures Reschedulable(s)
    ensures Inv(limits, Step(limits, s, op)) && Issues(s, Step(limits, s, op))
  {
    hide Inv, RegisterResource, PublishResource, RetireResource, WorkerConnected, MarkWorkerLost, SubmitRequest,
         ReportCompletion, CancelPlacement, CancelRequest, ReassignPlacement, PreemptPlacement;
    PlanReady(limits, s, 0);
    match op
    case Register(ad) => RegisterInv(limits, s, ad);
    case Publish(ad) => PublishInv(limits, s, ad);
    case Retire(id, expected) => RetireInv(limits, s, id, expected);
    case Connect(worker, boot) => WorkerStepsInv(limits, s, worker, boot);
    case LoseWorker(worker, boot) => WorkerStepsInv(limits, s, worker, boot);
    case Submit(request) => SubmitInv(limits, s, request);
    case Assign(id, generation, epoch, boot) => MarksInv(limits, s, id, generation, epoch, boot);
    case Start(id, generation, epoch, boot) => MarksInv(limits, s, id, generation, epoch, boot);
    case Complete(claim) => CompleteInv(limits, s, claim);
    case Cancel(id, generation, epoch) => CancelInv(limits, s, id, generation, epoch);
    case CancelAll(requestId) => CancelRequestInv(limits, s, requestId); CancelAllIssues(s, requestId);
    case Reassign(id, generation, epoch) => ReassignInv(limits, s, id, generation, epoch);
    case Preempt(id, generation, epoch) => PreemptInv(limits, s, id, generation, epoch);
    case Advance(epoch) => AdvanceInv(limits, s, epoch);
    case Shutdown => ShutdownInv(limits, s);
  }

  lemma AdvanceInv(limits: Limits, s: State, epoch: nat)
    requires Inv(limits, s)
    ensures Inv(limits, AdoptEpoch(s, epoch).state)
  {
    hide Filed, Linked, Grounded, Indexed, Numbered, Balanced, Authority, Recorded;
    ControlInv(limits, s, AdoptEpoch(s, epoch).state);
  }

  lemma ShutdownInv(limits: Limits, s: State)
    requires Inv(limits, s)
    ensures Inv(limits, BeginShutdown(s).state)
  {
    hide Filed, Linked, Grounded, Indexed, Numbered, Balanced, Authority, Recorded;
    ControlInv(limits, s, BeginShutdown(s).state);
  }
}
