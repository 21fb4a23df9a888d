/** What accepted operations change, field by field: scheduling, reassignment, preemption, the resource operations
    and the worker operations (src/engine_scheduling.cpp:940-1312, src/engine_lifecycle.cpp:374-503,
    src/engine_resources.cpp:42-193, src/engine_state.cpp:206-288, 500-547). */
module Effects {
  import opened Prelude
  import opened Records
  import opened Search
  import opened Planning
  import opened Transitions
  import opened Ledger
  import opened Invariants
  import opened Commitment
  import opened Decisions
  import opened Phases
  import opened Runs
  import opened Acceptance
  import opened Publications

  // ---------------------------------------------------------------- a placement is made

  /** The worker of the first owned resource that is no dataset, else of the first owned one, else nobody. */
  ghost predicate Anchored(p: Placement) {
    || (exists i :: 0 <= i < |p.resources| && p.resources[i].worker != 0 && p.resources[i].resourceClass != Dataset
                    && p.worker == p.resources[i].worker && p.workerBoot == p.resources[i].workerBoot
                    && forall j :: 0 <= j < i ==> p.resources[j].worker == 0 || p.resources[j].resourceClass == Dataset)
    || ((forall j :: 0 <= j < |p.resources| ==> p.resources[j].worker == 0 || p.resources[j].resourceClass == Dataset)
        && exists i :: 0 <= i < |p.resources| && p.resources[i].worker != 0
                       && p.worker == p.resources[i].worker && p.workerBoot == p.resources[i].workerBoot
                       && forall j :: 0 <= j < i ==> p.resources[j].worker == 0)
    || ((forall j :: 0 <= j < |p.resources| ==> p.resources[j].worker == 0) && p.worker == 0 && p.workerBoot == 0)
  }

  /** The reservation of a placement holds exactly what the placement names. */
  ghost predicate Holds(rv: Reservation, p: Placement) {
    && rv.id == p.reservation && rv.lease == p.lease && rv.placement == p.id && rv.placementGeneration == p.generation
    && rv.request == p.request && rv.experiment == p.experiment && rv.experimentGeneration == p.experimentGeneration
    && rv.epoch == p.epoch && rv.state == Active
    && |rv.claims| == |p.resources|
    && forall i :: 0 <= i < |rv.claims| ==>
         var x := p.resources[i]; rv.claims[i] == Claim(x.resource, x.slots, x.exclusive, x.generation)
  }

  /** Every named resource has as many slots more reserved, and nothing else about any resource changes. */
  ghost predicate Booked(before: map<U64, Resource>, after: map<U64, Resource>, p: Placement) {
    && after.Keys == before.Keys
    && (forall id :: id in before ==> after[id] == before[id].(reserved := after[id].reserved))
    && (forall x :: x in p.resources && x.resource in before ==>
          after[x.resource].reserved == before[x.resource].reserved + x.slots)
    && (forall id :: id in before && (forall x :: x in p.resources ==> x.resource != id) ==> after[id] == before[id])
  }

  ghost predicate Fresh(s: State, requestId: U64, count: nat, p: Placement)
    requires requestId in s.requests
  {
    var r := s.requests[requestId].request;
    && p.decision == s.lastId + 1 && p.id == s.lastId + 2 && p.reservation == s.lastId + 3 && p.lease == s.lastId + 4
    && p.id !in s.placements && p.reservation !in s.reservations
    && p.generation == count + 1 && p.reassignmentCount == count && p.request == requestId
    && p.experiment == r.experiment && p.experimentGeneration == r.experimentGeneration && p.trial == r.trial
    && p.epoch == s.epoch && p.state == Reserved && !p.completionRecorded
  }

  function Served(service: map<string, nat>, tenant: string): map<string, nat> {
    if tenant == "" then service
    else service[tenant := (if tenant in service then service[tenant] else 0) + 1]
  }

  ghost predicate Placing(s: State, t: State, requestId: U64, count: nat, p: Placement, rv: Reservation)
    requires requestId in s.requests
  {
    var q := s.requests[requestId];
    && Fresh(s, requestId, count, p) && Anchored(p) && Holds(rv, p) && Booked(s.resources, t.resources, p)
    && t == s.(placements := s.placements[p.id := p], reservations := s.reservations[rv.id := rv],
               resources := t.resources, lastId := p.lease,
               unitCurrent := s.unitCurrent[UnitKey(p.experiment, p.experimentGeneration, p.trial) := p.id],
               requests := s.requests[requestId :=
                 q.(state := Placed, current := p.id, placementCount := q.placementCount + 1)],
               tenantService := Served(s.tenantService, q.request.tenant))
  }

  lemma AnchorIsFirst(p: Placement)
    requires (p.worker, p.workerBoot) == Anchor(p.resources)
    ensures Anchored(p)
  {
    var xs := p.resources;
    FirstOwnedExact(xs, true);
    FirstOwnedExact(xs, false);
    match FirstOwned(xs, true)
    case Some(x) =>
      var i :| 0 <= i < |xs| && xs[i] == x && Qualifies(x, true) && forall j :: 0 <= j < i ==> !Qualifies(xs[j], true);
    case None =>
      match FirstOwned(xs, false)
      case Some(x) =>
        var i :| 0 <= i < |xs| && xs[i] == x && Qualifies(x, false)
                 && forall j :: 0 <= j < i ==> !Qualifies(xs[j], false);
      case None =>
  }

  lemma {:induction false} SelectionSlotsDistinct(sel: Selection, i: nat)
    requires i < |sel| && forall j, k :: 0 <= j < k < |sel| ==> sel[j].id != sel[k].id
    ensures SelectionSlots(sel, sel[i].id) == sel[i].slots
  {
    var n := |sel| - 1;
    if i < n {
      SelectionSlotsDistinct(sel[..n], i);
    } else {
      SelectionSlotsAbsent(sel[..n], sel[n].id);
    }
  }

  lemma AddedIsBooked(s: State, after: map<U64, Resource>, sel: Selection, p: Placement)
    requires Added(s.resources, after, sel) && Found(s, sel)
    requires forall i, j :: 0 <= i < j < |sel| ==> sel[i].id != sel[j].id
    requires |p.resources| == |sel|
    requires forall i :: 0 <= i < |sel| ==> p.resources[i].resource == sel[i].id && p.resources[i].slots == sel[i].slots
    ensures Booked(s.resources, after, p)
  {
    forall x | x in p.resources && x.resource in s.resources
      ensures after[x.resource].reserved == s.resources[x.resource].reserved + x.slots
    {
      var i :| 0 <= i < |p.resources| && p.resources[i] == x;
      SelectionSlotsDistinct(sel, i);
    }
    forall id | id in s.resources && (forall x :: x in p.resources ==> x.resource != id)
      ensures after[id] == s.resources[id]
    {
      forall i | 0 <= i < |sel| ensures sel[i].id != id {
        assert p.resources[i] in p.resources;
      }
      SelectionSlotsAbsent(sel, id);
    }
  }

  /** The entries a commit makes. */
  lemma CommitPlaces(limits: Limits, s: State, t: State, requestId: U64, count: nat, sel: Selection)
    returns (p: Placement, rv: Reservation)
    requires s.lastId + 4 < TWO_64 && t == s.(lastId := s.lastId + 1) && requestId in s.requests
    requires Found(t, sel) && |sel| == |t.requests[requestId].request.requirements|
    requires Inv(limits, t) && Committable(t, t.requests[requestId].request, sel)
    requires forall i, j :: 0 <= i < j < |sel| ==> sel[i].id != sel[j].id
    ensures var o := Commit(t, requestId, count + 1, count, sel);
            o.Done? && o.value == PlacedAt(p.id) && Placing(s, o.state, requestId, count, p, rv)
  {
    hide Inv, RoomFor, TotalRoom, Commit, Added, Booked, Anchored, Holds, SelectedList, ClaimList, Anchor;
    var request := t.requests[requestId].request;
    CommitShape(limits, t, requestId, count + 1, count, sel);
    RequestKnown(limits, t, requestId);
    p := NewPlacement(t, t.lastId + 1, request, count + 1, count, SelectedList(t, request, sel));
    rv := NewReservation(t, p, ClaimList(t, sel));
    NextIds(t.lastId);
    AnchorIsFirst(p);
    ListsMatch(t, request, sel, p, rv);
    AddedIsBooked(t, Commit(t, requestId, count + 1, count, sel).state.resources, sel, p);
    CommitCounts(t, requestId, count + 1, count, sel);
  }

  lemma ListsMatch(t: State, request: Request, sel: Selection, p: Placement, rv: Reservation)
    requires |sel| == |request.requirements| && Found(t, sel) && p.resources == SelectedList(t, request, sel)
    requires rv == NewReservation(t, p, ClaimList(t, sel)) && p.epoch == t.epoch
    ensures Holds(rv, p) && |p.resources| == |sel|
    ensures forall i :: 0 <= i < |sel| ==> p.resources[i].resource == sel[i].id && p.resources[i].slots == sel[i].slots
  {
  }

  /** The request and the tenant count the placement. */
  lemma CommitCounts(t: State, requestId: U64, generation: nat, count: nat, sel: Selection)
    requires requestId in t.requests && Found(t, sel) && |sel| == |t.requests[requestId].request.requirements|
    requires Commit(t, requestId, generation, count, sel).Done?
    ensures var u := Commit(t, requestId, generation, count, sel).state; var q := t.requests[requestId];
            && u.requests == t.requests[requestId :=
                 q.(state := Placed, current := NextId(t.lastId), placementCount := q.placementCount + 1)]
            && u.tenantService == Served(t.tenantService, q.request.tenant)
            && u.lastId == NextId(NextId(NextId(t.lastId)))
  {
    hide Acquire, Anchor, SelectedList, ClaimList;
  }

  /** A log or the set of what is in force has reached its bound. */
  ghost predicate Exhausted(limits: Limits, s: State) {
    || |s.placements| >= limits.maxPlacements || |s.reservations| >= limits.maxReservations
    || |set id | id in s.placements && s.placements[id].state in {Reserved, Assigned, Running}|
       >= limits.maxActivePlacements
    || |set v | v in s.reservations && s.reservations[v].state == Active| >= limits.maxActiveReservations
  }

  lemma CapacityIsRoom(limits: Limits, s: State)
    ensures HasCapacity(s, limits) <==> !Exhausted(limits, s)
  {
    assert LivePlacements(s) == set id | id in s.placements && s.placements[id].state in {Reserved, Assigned, Running};
    assert ActiveReservations(s) == set v | v in s.reservations && s.reservations[v].state == Active;
  }

  lemma ExhaustedFrame(limits: Limits, s: State, t: State)
    requires t == s.(lastId := t.lastId)
    ensures Exhausted(limits, s) <==> Exhausted(limits, t)
  {
  }

  /** A decision, field by field: a placement with its entries, or the request marked as unplaced, or a refusal
      that only counts the decision because a bound is reached. */
  lemma ScheduleEffect(limits: Limits, s: State, requestId: U64, forced: nat, count: nat)
    requires Inv(limits, s) && requestId in s.requests && s.lastId + 4 < TWO_64 && limits.maxRejectionReasons >= 1
    requires (if forced == 0 then 1 else forced) == count + 1
    requires count <= s.requests[requestId].request.maxReassignments
    ensures Plannable(s, s.requests[requestId].request)
    ensures var o := Schedule(s, limits, requestId, forced, count);
            match o
            case Refused(t, code) =>
              code == ResourceExhausted && t == s.(lastId := s.lastId + 1) && Exhausted(limits, s)
            case Done(t, NoValidPlacement) =>
              t == s.(lastId := s.lastId + 1,
                      requests := s.requests[requestId :=
                        s.requests[requestId].(state := RequestState.NoPlacement, current := 0)])
            case Done(t, PlacedAt(id)) =>
              && !Exhausted(limits, s)
              && exists p: Placement, rv: Reservation :: p.id == id && Placing(s, t, requestId, count, p, rv)
  {
    hide Inv, SoundSelection, Run, Head, SearchSpace, Commit, ValidRequest, Plannable, Schedule, HasCapacity,
         Exhausted, Committable, ChoiceLists, RankingOf, Placing;
    var request := s.requests[requestId].request;
    PlanReady(limits, s, requestId);
    var t := s.(lastId := s.lastId + 1);
    assert NextId(s.lastId) == s.lastId + 1;
    CountedInv(limits, s, s.lastId + 1);
    CapacityIsRoom(limits, t);
    ExhaustedFrame(limits, s, t);
    ScheduleCases(limits, s, t, requestId, forced, count);
    var found := RankingOf(s, limits, request);
    if found != [] && HasCapacity(t, limits) {
      var sel := Head(found).selection;
      RankingSound(s, limits, request);
      SoundDistinct(s, request, sel);
      SoundTransfers(s, t, request, sel);
      SoundIsCommittable(limits, t, request, sel);
      var p, rv := CommitPlaces(limits, s, t, requestId, count, sel);
      CommitDone(limits, t, requestId, count + 1, count, sel);
    }
  }

  // ---------------------------------------------------------------- a placement is made again

  ghost predicate Waits(p: Placement) { p.state == ReassignmentRequired }

  /** The placement may be reassigned: it is live or waits for it, and the caller names its generation, or none,
      and the epoch. */
  ghost predicate Reassignable(s: State, id: U64, generation: nat, epoch: nat) {
    && id != 0 && epoch != 0 && epoch == s.epoch && id in s.placements
    && (generation == 0 || s.placements[id].generation == generation)
    && (s.placements[id].state == Reserved || s.placements[id].state == Assigned || s.placements[id].state == Running
        || Waits(s.placements[id]))
  }

  /** A reassignment ends the placement as waiting if it is live, and then schedules its request once more,
      within its budget. */
  lemma ReassignEffect(limits: Limits, s: State, id: U64, generation: nat, epoch: nat)
    requires Inv(limits, s) && s.lastId + 4 < TWO_64 && limits.maxRejectionReasons >= 1
    ensures Reschedulable(s)
    ensures var o := ReassignPlacement(s, limits, id, generation, epoch);
            && (!Reassignable(s, id, generation, epoch) ==> o.Refused? && o.state == s)
            && (Reassignable(s, id, generation, epoch) ==>
                  exists t ::
                    && (if Waits(s.placements[id]) then t == s
                        else EndedAs(s, t, id, s.placements[id].(state := ReassignmentRequired), Revoked, Submitted))
                    && Again(limits, s, t, id, o, Refused(t, ReassignmentRequiredCode)))
  {
    hide Inv, Schedule, Terminate, EndedAs, ReassignPlacement, Plannable, Reschedulable;
    PlanReady(limits, s, 0);
    if id in s.placements {
      PlacementBudget(limits, s, id);
      TerminateFrame(s, id, ReassignmentRequired);
      ReassignUnfolds(limits, s, id, generation, epoch);
      if Reassignable(s, id, generation, epoch) {
        assert ReassignChecks(s, id, generation, epoch);
        var o, t := ReassignPlacement(s, limits, id, generation, epoch), Terminate(s, id, ReassignmentRequired);
        if Live(s.placements[id].state) {
          EndingExact(limits, s, id, ReassignmentRequired);
        } else {
          TerminateDead(s, id, ReassignmentRequired);
        }
        assert Again(limits, s, t, id, o, Refused(t, ReassignmentRequiredCode));
      }
    } else {
      ReassignUnfolds(limits, s, id, generation, epoch);
    }
  }

  /** The request of placement `id` is scheduled from `t` with the next generation, or `otherwise` happens when
      its budget is spent. */
  ghost predicate Again(
    limits: Limits, s: State, t: State, id: U64, o: Transitions.Outcome<Decision>,
    otherwise: Transitions.Outcome<Decision>)
  {
    && id in s.placements
    && var p := s.placements[id];
       && p.request in t.requests && p.request in s.requests && Plannable(t, t.requests[p.request].request)
       && t.requests[p.request].request == s.requests[p.request].request
       && o == if p.reassignmentCount < s.requests[p.request].request.maxReassignments then
                 Schedule(t, limits, p.request, p.generation + 1, p.reassignmentCount + 1)
               else otherwise
  }

  /** The placement may be preempted: it is live and the caller names its generation, or none, and the epoch. */
  ghost predicate Preemptible(s: State, id: U64, generation: nat, epoch: nat) {
    Reassignable(s, id, generation, epoch) && !Waits(s.placements[id])
  }

  /** A preemption ends the placement as preempted, queues its request, and schedules it once more if it allows
      that and has budget left. */
  lemma PreemptEffect(limits: Limits, s: State, id: U64, generation: nat, epoch: nat)
    requires Inv(limits, s) && s.lastId + 4 < TWO_64 && limits.maxRejectionReasons >= 1
    ensures Reschedulable(s)
    ensures var o := PreemptPlacement(s, limits, id, generation, epoch);
            && (!Preemptible(s, id, generation, epoch) ==> o.Refused? && o.state == s)
            && (Preemptible(s, id, generation, epoch) ==>
                  exists t, u ::
                    && EndedAs(s, t, id, s.placements[id].(state := Preempted), Revoked, Submitted)
                    && Queued(s, t, u, id)
                    && if s.requests[s.placements[id].request].request.allowPreemption
                       then Again(limits, s, u, id, o, Done(u, NoValidPlacement)) else o == Done(u, NoValidPlacement))
  {
    hide Inv, Schedule, Terminate, EndedAs, PreemptPlacement, Plannable, Reschedulable;
    PlanReady(limits, s, 0);
    if PreemptChecks(s, id, generation, epoch) {
      PlacementBudget(limits, s, id);
      TerminateFrame(s, id, Preempted);
      EndingExact(limits, s, id, Preempted);
      PreemptUnfolds(limits, s, id, generation, epoch);
      var p, t := s.placements[id], Terminate(s, id, Preempted);
      var u := t.(requests := t.requests[p.request := t.requests[p.request].(state := Submitted)]);
      assert Queued(s, t, u, id);
    } else {
      PreemptRefusal(limits, s, id, generation, epoch);
    }
  }

  lemma PreemptRefusal(limits: Limits, s: State, id: U64, generation: nat, epoch: nat)
    requires Reschedulable(s) && !PreemptChecks(s, id, generation, epoch)
    ensures var o := PreemptPlacement(s, limits, id, generation, epoch); o.Refused? && o.state == s
  {
    hide Schedule, Terminate, Reschedulable;
  }

  ghost predicate Queued(s: State, t: State, u: State, id: U64) {
    && id in s.placements && s.placements[id].request in s.requests && s.placements[id].request in t.requests
    && var request := s.placements[id].request;
       u == t.(requests := t.requests[request := t.requests[request].(state := Submitted)])
  }

  // ---------------------------------------------------------------- submission

  ghost predicate BusyUnit(s: State, unit: UnitKey) {
    unit in s.unitCurrent && s.unitCurrent[unit] in s.placements
    && var state := s.placements[s.unitCurrent[unit]].state; state == Reserved || state == Assigned || state == Running
  }

  ghost function Waiting(s: State): set<U64> {
    set id | id in s.requests && (s.requests[id].state == Submitted || s.requests[id].state == Placed)
  }

  /** A submission is taken up exactly when the request is valid and new, its unit is not placed, and the logs
      have room; it is recorded as submitted and scheduled for the first time. */
  lemma SubmitEffect(limits: Limits, s: State, request: Request)
    requires Inv(limits, s)
    ensures Reschedulable(s)
    ensures var o := SubmitRequest(s, limits, request);
            var t := s.(requests := s.requests[request.id := StoredRequest(request, Submitted, 0, 0)]);
            if ValidRequest(request, limits) && !s.shuttingDown && |s.requests| < limits.maxRetainedRequests
               && request.id !in s.requests && |Waiting(s)| < limits.maxActiveRequests
               && !BusyUnit(s, UnitKey(request.experiment, request.experimentGeneration, request.trial))
            then Plannable(t, request) && o == Schedule(t, limits, request.id, 0, 0)
            else o.Refused? && o.state == s
  {
    hide Inv, Schedule, ValidRequest;
    PlanReady(limits, s, 0);
    assert ActiveRequests(s) == Waiting(s);
    if ValidRequest(request, limits) {
      assert |request.weights| == 12 by { TwelveWeights(limits, request); }
    }
  }

  lemma TwelveWeights(limits: Limits, request: Request)
    requires ValidRequest(request, limits)
    ensures |request.weights| == 12
  {
  }

  // ---------------------------------------------------------------- resources

  /** A registration is accepted exactly when the advertisement is valid and new and there is room; the new
      record is current, authoritative, free, and at the first version of everything. */
  lemma RegisterEffect(s: State, limits: Limits, ad: Advertisement)
    ensures var o := RegisterResource(s, limits, ad);
            && (o.Done? <==> ValidAdvertisement(ad) && !s.shuttingDown && |s.resources| < limits.maxResources
                             && ad.id !in s.resources)
            && (o.Refused? ==> o.state == s)
            && (o.Done? ==>
                  var t := if ad.worker != 0 then Adopt(s, ad.worker, ad.boot) else s;
                  o.state == t.(resources := t.resources[ad.id := o.value])
                  && o.value == Resource(ad, Current, 1, 1, 1, 1, t.epoch, true, 0))
  {
    hide Adopt;
  }

  /** A resource is retired exactly when it is free and the caller names its generation, or none. */
  lemma RetireEffect(s: State, id: U64, expected: nat)
    ensures var o := RetireResource(s, id, expected);
            && (o.Done? <==> id != 0 && id in s.resources && s.resources[id].reserved == 0
                             && (expected == 0 || expected == s.resources[id].generation))
            && (o.Refused? ==> o.state == s)
            && (o.Done? ==>
                  o.state == s.(resources := s.resources[id := o.value])
                  && var r := s.resources[id];
                     o.value == Resource(r.ad, Retired, r.generation + 1, r.healthGeneration, r.capacityGeneration,
                                         r.stateSequence, 0, false, 0))
  {
  }

  /** A publication makes a new version of a record: the advertisement, current and authoritative in the epoch,
      one version and one state further, one capacity version further exactly when slots, memory or sessions
      changed, and one health version further exactly when health or readiness did. */
  ghost predicate Republished(before: Resource, after: Resource, ad: Advertisement, epoch: nat) {
    && after.ad == ad && after.lifecycle == Current && after.authoritative && after.validatedEpoch == epoch
    && after.reserved == before.reserved
    && after.generation == before.generation + 1 && after.stateSequence == before.stateSequence + 1
    && (if before.ad.slots == ad.slots && before.ad.memory == ad.memory && before.ad.maxSessions == ad.maxSessions
        then after.capacityGeneration == before.capacityGeneration
        else after.capacityGeneration == before.capacityGeneration + 1)
    && (if before.ad.health == ad.health && before.ad.readiness == ad.readiness
        then after.healthGeneration == before.healthGeneration
        else after.healthGeneration == before.healthGeneration + 1)
  }

  /** An accepted publication does that to the record that is there once its incarnation is adopted. */
  lemma PublishEffect(limits: Limits, s: State, ad: Advertisement)
    requires Inv(limits, s) && PublishResource(s, ad).Done?
    ensures var o := PublishResource(s, ad); var t := Adopted(s, ad);
            && ad.id in t.resources && o.state == t.(resources := t.resources[ad.id := o.value])
            && Republished(t.resources[ad.id], o.value, ad, s.epoch)
    ensures ad.id in s.resources
            && (s.resources[ad.id].ad.worker == 0 || s.resources[ad.id].ad.boot == ad.boot ==> Adopted(s, ad) == s)
            && (s.resources[ad.id].ad.worker != 0 && s.resources[ad.id].ad.boot != ad.boot ==>
                  Adopted(s, ad) == Adopt(s, ad.worker, ad.boot))
  {
    hide Inv, Adopted, Adopt, ValidAdvertisement, Staying, Claimed, ValidResource, Publication, Republished;
    PublicationAccepted(limits, s, ad);
    AdoptedFrame(limits, s, ad);
    PublishYields(s, ad);
    AdoptedCases(s, ad);
    PublicationFields(Adopted(s, ad).resources[ad.id], ad, s.epoch);
  }

  lemma AdoptedCases(s: State, ad: Advertisement)
    requires PublishResource(s, ad).Done?
    ensures ad.id in s.resources
            && (s.resources[ad.id].ad.worker == 0 || s.resources[ad.id].ad.boot == ad.boot ==> Adopted(s, ad) == s)
            && (s.resources[ad.id].ad.worker != 0 && s.resources[ad.id].ad.boot != ad.boot ==>
                  Adopted(s, ad) == Adopt(s, ad.worker, ad.boot))
  {
    hide Adopt, ValidAdvertisement;
  }

  lemma PublishYields(s: State, ad: Advertisement)
    requires PublishResource(s, ad).Done?
    ensures var o := PublishResource(s, ad); ad.id in o.state.resources && o.value == o.state.resources[ad.id]
  {
    hide Adopt, ValidAdvertisement;
  }

  lemma PublicationFields(before: Resource, ad: Advertisement, epoch: nat)
    ensures Republished(before, Publication(before, ad, epoch), ad, epoch)
  {
  }

  // ---------------------------------------------------------------- workers, epoch and shutdown

  /** Only the recorded incarnation of a worker can be lost; any incarnation may connect; epochs only rise; and
      a shutdown happens once. */
  lemma ControlEffect(s: State, worker: U64, boot: U64, epoch: nat)
    ensures var o := MarkWorkerLost(s, worker, boot);
            && (o.Done? <==> worker != 0 && boot != 0 && worker in s.workers && s.workers[worker].boot == boot)
            && o.state == if o.Done? then Invalidate(s, worker, boot) else s
    ensures var o := WorkerConnected(s, worker, boot);
            && (o.Done? <==> worker != 0 && boot != 0)
            && o.state == if o.Done? then Adopt(s, worker, boot) else s
    ensures var o := AdoptEpoch(s, epoch);
            && (o.Done? <==> epoch > s.epoch) && o.state == if epoch > s.epoch then s.(epoch := epoch) else s
    ensures var o := BeginShutdown(s); (o.Done? <==> !s.shuttingDown) && o.state == s.(shuttingDown := true)
  {
    hide Adopt, Invalidate;
  }
}
