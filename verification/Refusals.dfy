/** Why a call is refused (src/engine_lifecycle.cpp:16-338, src/engine_resources.cpp:13-255,
    src/engine_scheduling.cpp:955-1031): of several defects the first in a fixed order is reported, and two codes
    are never seen in consistent states. Every clause holds in both directions. */
module Refusals {
  import opened Prelude
  import opened Records
  import opened Planning
  import opened Transitions
  import opened Ledger
  import opened Invariants
  import opened Endings
  import opened Publications
  import opened Acceptance
  import opened Effects

  predicate RefusedWith<T>(o: Transitions.Outcome<T>, code: ErrorCode) { o.Refused? && o.code == code }

  // ---------------------------------------------------------------- completions

  /** Each stage of a report adds one thing that is right: the placement is known, the epoch is the current one,
      the unit is the placement's, and the generation is. */
  predicate Known(s: State, c: CompletionClaim) { c.placement != 0 && c.placement in s.placements }

  predicate Timely(s: State, c: CompletionClaim) { Known(s, c) && c.epoch != 0 && c.epoch == s.epoch }

  predicate Titled(s: State, c: CompletionClaim) {
    && Timely(s, c) && c.experiment != 0 && c.experimentGeneration != 0
    && c.experiment == s.placements[c.placement].experiment
    && c.experimentGeneration == s.placements[c.placement].experimentGeneration
  }

  predicate Dated(s: State, c: CompletionClaim) { Titled(s, c) && c.generation == s.placements[c.placement].generation }

  /** A recorded completion, or an end that only a completion reaches. */
  predicate AlreadyDone(p: Placement) { p.completionRecorded || p.state == Completed || p.state == Failed }

  /** The placement is still to be completed. */
  predicate Open(s: State, c: CompletionClaim) {
    && Dated(s, c) && !s.placements[c.placement].completionRecorded
    && var state := s.placements[c.placement].state; state == Reserved || state == Assigned || state == Running
  }

  predicate FromWorker(s: State, c: CompletionClaim) {
    Open(s, c) && (c.workerBoot == 0 || c.workerBoot == s.placements[c.placement].workerBoot)
  }

  /** The report lists the resources of the placement in any order, or none, and as many generations, or none. */
  predicate Listed(s: State, c: CompletionClaim) {
    && FromWorker(s, c)
    && (c.resources == [] || multiset(c.resources) == multiset(SelectedIds(s.placements[c.placement])))
    && (c.resourceGenerations == [] || |c.resourceGenerations| == |s.placements[c.placement].resources|)
  }

  /** Some resource of the placement has another generation than the report shows. */
  predicate Outdated(s: State, c: CompletionClaim) {
    Listed(s, c)
    && exists i :: 0 <= i < |c.resourceGenerations|
         && var x := s.placements[c.placement].resources[i].resource;
            x in s.resources && s.resources[x].generation != c.resourceGenerations[i]
  }

  /** Which defect a refused completion names: first what the report says of itself. */
  lemma CompletionCodes(s: State, c: CompletionClaim)
    ensures var o := ReportCompletion(s, c);
            && (RefusedWith(o, InvalidIdentity) <==> c.placement == 0 || (Known(s, c) && c.epoch == 0))
            && (RefusedWith(o, NotFound) <==> c.placement != 0 && c.placement !in s.placements)
            && (RefusedWith(o, StaleEpoch) <==> Known(s, c) && c.epoch != 0 && c.epoch != s.epoch)
            && (RefusedWith(o, StaleExperiment) <==> Timely(s, c) && !Titled(s, c))
  {
    hide Sort, SelectedIds, Terminate;
    if Known(s, c) && |c.resourceGenerations| == |s.placements[c.placement].resources| {
      GenerationsOnly(s, s.placements[c.placement], c.resourceGenerations, 0);
    }
  }

  lemma {:induction false} GenerationsOnly(s: State, p: Placement, generations: seq<nat>, i: nat)
    requires |generations| == |p.resources| && i <= |generations|
    ensures CheckGenerations(s, p, generations, i) in {Ok, Fail(ResourceLost), Fail(StaleResource)}
    decreases |generations| - i
  {
    if i < |generations| {
      GenerationsOnly(s, p, generations, i + 1);
    }
  }

  /** Then what it says of the worker and the resources; in consistent states a resource is never gone and the
      reservation of a live placement is active. */
  lemma EvidenceCodes(limits: Limits, s: State, c: CompletionClaim)
    requires Inv(limits, s)
    ensures var o := ReportCompletion(s, c);
            && (RefusedWith(o, StaleWorker) <==> Open(s, c) && !FromWorker(s, c))
            && (RefusedWith(o, Unauthorized) <==> FromWorker(s, c) && !Listed(s, c))
            && (RefusedWith(o, StaleResource) <==> Outdated(s, c))
            && !RefusedWith(o, ResourceLost) && !RefusedWith(o, ReservationNotActive)
  {
    hide Inv, Sort, CheckGenerations, SelectedIds, Terminate, Outdated;
    OutdatedAt(limits, s, c);
    if Known(s, c) {
      Compared(limits, s, c);
    }
  }

  /** And for the state of its placement. */
  lemma EndedCodes(limits: Limits, s: State, c: CompletionClaim)
    requires Inv(limits, s)
    ensures var o := ReportCompletion(s, c);
            var ended := Dated(s, c) && !AlreadyDone(s.placements[c.placement]);
            && (RefusedWith(o, DuplicateCompletion) <==> Dated(s, c) && AlreadyDone(s.placements[c.placement]))
            && (RefusedWith(o, CancelledCode) <==> ended && s.placements[c.placement].state == Cancelled)
            && (RefusedWith(o, PreemptedCode) <==> ended && s.placements[c.placement].state == Preempted)
            && (RefusedWith(o, ReassignmentRequiredCode) <==>
                  ended && s.placements[c.placement].state == ReassignmentRequired)
            && (RefusedWith(o, StalePlacement) <==>
                  (Titled(s, c) && !Dated(s, c)) || (ended && s.placements[c.placement].state == LostPlacement))
  {
    hide Inv, Sort, CheckGenerations, SelectedIds, Terminate;
    if Known(s, c) {
      Compared(limits, s, c);
    }
  }

  /** The comparisons that loops make, and the reservation of a live placement. */
  lemma Compared(limits: Limits, s: State, c: CompletionClaim)
    requires Inv(limits, s) && Known(s, c)
    ensures var p := s.placements[c.placement];
            && (Sort(c.resources) == Sort(SelectedIds(p)) <==> multiset(c.resources) == multiset(SelectedIds(p)))
            && (Live(p.state) ==> p.reservation in s.reservations && s.reservations[p.reservation].state.Active?)
            && (|c.resourceGenerations| == |p.resources| ==>
                  CheckGenerations(s, p, c.resourceGenerations, 0) == Ok
                  || CheckGenerations(s, p, c.resourceGenerations, 0) == Fail(StaleResource))
  {
    hide Inv, Sort, CheckGenerations, SelectedIds;
    var p := s.placements[c.placement];
    InvLinkedOnly(limits, s);
    SortComparesContents(c.resources, SelectedIds(p));
    if Live(p.state) {
      LiveReservation(s, c.placement);
    }
    SelectedRegistered(limits, s, c.placement);
    if |c.resourceGenerations| == |p.resources| {
      GenerationCodes(s, p, c.resourceGenerations, 0);
    }
  }

  lemma OutdatedAt(limits: Limits, s: State, c: CompletionClaim)
    requires Inv(limits, s)
    ensures Outdated(s, c) <==> Listed(s, c) && c.resourceGenerations != []
                                && CheckGenerations(s, s.placements[c.placement], c.resourceGenerations, 0) != Ok
  {
    hide Inv, CheckGenerations, SelectedIds;
    if Listed(s, c) && c.resourceGenerations != [] {
      SelectedRegistered(limits, s, c.placement);
      GenerationCodes(s, s.placements[c.placement], c.resourceGenerations, 0);
    }
  }

  lemma SelectedRegistered(limits: Limits, s: State, id: U64)
    requires Inv(limits, s) && id in s.placements
    ensures forall x :: x in s.placements[id].resources ==> x.resource in s.resources
  {
    hide Inv;
    PlacementFacts(limits, s, id);
  }

  /** The comparison of generations only ever reports a stale resource, and exactly when one differs. */
  lemma {:induction false} GenerationCodes(s: State, p: Placement, generations: seq<nat>, i: nat)
    requires |generations| == |p.resources| && i <= |generations|
    requires forall x :: x in p.resources ==> x.resource in s.resources
    ensures var checked := CheckGenerations(s, p, generations, i);
            && (checked == Ok || checked == Fail(StaleResource))
            && (checked != Ok <==>
                  exists k :: i <= k < |generations|
                              && s.resources[p.resources[k].resource].generation != generations[k])
    decreases |generations| - i
  {
    if i < |generations| {
      assert p.resources[i] in p.resources;
      GenerationCodes(s, p, generations, i + 1);
    }
  }

  // ---------------------------------------------------------------- marks and cancellations

  /** Over, other than by a cancellation. */
  predicate Past(state: PlacementState) {
    state == Completed || state == Failed || state == Preempted || state == ReassignmentRequired
    || state == LostPlacement
  }

  /** Reports of assignment and start, in the order epoch, placement, generation, worker, state. */
  lemma MarkCodes(s: State, id: U64, generation: nat, epoch: nat, boot: U64)
    ensures var o := MarkRunning(s, id, generation, epoch, boot);
            var timely := id != 0 && generation != 0 && epoch != 0 && epoch == s.epoch;
            var known := timely && id in s.placements;
            var dated := known && s.placements[id].generation == generation;
            var sent := dated && (boot == 0 || s.placements[id].workerBoot == boot);
            && (RefusedWith(o, InvalidIdentity) <==> id == 0 || generation == 0 || epoch == 0)
            && (RefusedWith(o, StaleEpoch) <==> id != 0 && generation != 0 && epoch != 0 && epoch != s.epoch)
            && (RefusedWith(o, NotFound) <==> timely && !known)
            && (RefusedWith(o, StaleWorker) <==> dated && !sent)
            && (RefusedWith(o, CancelledCode) <==> sent && s.placements[id].state == Cancelled)
            && (RefusedWith(o, StalePlacement) <==>
                  (known && !dated)
                  || (sent && Past(s.placements[id].state)))
    ensures var a, o := MarkAssigned(s, id, generation, epoch, boot), MarkRunning(s, id, generation, epoch, boot);
            if o.Refused? then RefusedWith(a, o.code)
            else a.Refused? <==> RefusedWith(a, StalePlacement) && s.placements[id].state == Running
  {
  }

  /** Cancellations, preemptions and reassignments, in the order identity, epoch, placement, generation, state. */
  lemma CancelCodes(s: State, id: U64, generation: nat, epoch: nat)
    ensures var o := CancelPlacement(s, id, generation, epoch);
            var timely := id != 0 && epoch != 0 && epoch == s.epoch;
            var known := timely && id in s.placements;
            var dated := known && (generation == 0 || s.placements[id].generation == generation);
            && (RefusedWith(o, InvalidIdentity) <==> id == 0 || epoch == 0)
            && (RefusedWith(o, StaleEpoch) <==> id != 0 && epoch != 0 && epoch != s.epoch)
            && (RefusedWith(o, NotFound) <==> timely && !known)
            && (RefusedWith(o, CancelledCode) <==> dated && s.placements[id].state == Cancelled)
            && (RefusedWith(o, StalePlacement) <==>
                  (known && !dated)
                  || (dated && Past(s.placements[id].state)))
  {
    hide Terminate;
  }

  lemma PreemptCodes(limits: Limits, s: State, id: U64, generation: nat, epoch: nat)
    requires Reschedulable(s) && !Preemptible(s, id, generation, epoch)
    ensures var o, c := PreemptPlacement(s, limits, id, generation, epoch), CancelPlacement(s, id, generation, epoch);
            o.Refused? && RefusedWith(c, o.code)
  {
    hide Schedule, Terminate, Reschedulable;
  }

  lemma ReassignCodes(limits: Limits, s: State, id: U64, generation: nat, epoch: nat)
    requires Reschedulable(s) && !Reassignable(s, id, generation, epoch)
    ensures var o, c := ReassignPlacement(s, limits, id, generation, epoch), CancelPlacement(s, id, generation, epoch);
            o.Refused? && c.Refused? && o.code == if c.code == CancelledCode then StalePlacement else c.code
  {
    hide Schedule, Terminate, Reschedulable;
  }

  // ---------------------------------------------------------------- defects of requests and advertisements

  /** No requirement of the request is in the group. */
  ghost predicate Undeclared(r: Request, group: U32) {
    group == 0 || forall i :: 0 <= i < |r.requirements| ==> r.requirements[i].affinityGroup != group
  }

  ghost predicate DefectivePairs(r: Request, cs: seq<GroupConstraint>) {
    exists i :: 0 <= i < |cs| && (Undeclared(r, cs[i].groupA) || Undeclared(r, cs[i].groupB))
  }

  ghost predicate DefectiveRequirements(qs: seq<Requirement>, limits: Limits) {
    exists i :: 0 <= i < |qs| && DefectiveRequirement(qs[i], limits)
  }

  ghost predicate DefectiveRequirement(q: Requirement, limits: Limits) {
    || q.name == "" || q.minSlots == 0 || q.minSlots > 65535
    || q.maxOccupancyPercent == 0 || q.maxOccupancyPercent > 100
    || q.affinityGroup > limits.maxAffinityGroups || 0 in q.allowlist || 0 in q.denylist
  }

  ghost predicate DefectiveRequest(r: Request, limits: Limits) {
    || r.id == 0 || r.experiment == 0 || r.experimentGeneration == 0 || r.priority < -1000 || r.priority > 1000
    || r.requirements == [] || |r.requirements| > limits.maxRequirements || r.maxReassignments > 16
    || |r.weights| != 12 || (exists f :: 0 <= f < |r.weights| && (r.weights[f] < -1000 || r.weights[f] > 1000))
    || DefectiveRequirements(r.requirements, limits)
    || (exists i, j :: 0 <= i < j < |r.requirements| && r.requirements[i].name == r.requirements[j].name)
    || |r.affinity| > limits.maxAffinityPairs || |r.antiAffinity| > limits.maxAffinityPairs
    || DefectivePairs(r, r.affinity) || DefectivePairs(r, r.antiAffinity)
  }

  lemma PairDefects(r: Request, cs: seq<GroupConstraint>)
    ensures (forall c :: c in cs ==> DeclaresGroup(r, c.groupA) && DeclaresGroup(r, c.groupB))
            <==> !DefectivePairs(r, cs)
  {
    hide Undeclared, DeclaresGroup;
    forall g: U32 ensures DeclaresGroup(r, g) <==> !Undeclared(r, g) { GroupDefects(r, g); }
    if !DefectivePairs(r, cs) {
      forall c | c in cs ensures DeclaresGroup(r, c.groupA) && DeclaresGroup(r, c.groupB) {
        var i :| 0 <= i < |cs| && cs[i] == c;
      }
    }
  }

  lemma GroupDefects(r: Request, g: U32)
    ensures DeclaresGroup(r, g) <==> !Undeclared(r, g)
  {
  }

  lemma OneRequirement(q: Requirement, limits: Limits)
    ensures ValidRequirement(q, limits) <==> !DefectiveRequirement(q, limits)
  {
  }

  lemma RequirementDefects(qs: seq<Requirement>, limits: Limits)
    ensures (forall q :: q in qs ==> ValidRequirement(q, limits)) <==> !DefectiveRequirements(qs, limits)
  {
    hide ValidRequirement, DefectiveRequirement;
    forall q | q in qs ensures ValidRequirement(q, limits) <==> !DefectiveRequirement(q, limits) {
      OneRequirement(q, limits);
    }
  }

  lemma RequestDefects(r: Request, limits: Limits)
    ensures ValidRequest(r, limits) <==> !DefectiveRequest(r, limits)
  {
    hide DeclaresGroup, DefectivePairs, ValidRequirement, DefectiveRequirements;
    PairDefects(r, r.affinity);
    PairDefects(r, r.antiAffinity);
    RequirementDefects(r.requirements, limits);
  }

  /** What is wrong with an advertisement whatever its class, and with the descriptor its class asks for. */
  ghost predicate Defective(ad: Advertisement) {
    || ad.id == 0 || (ad.worker != 0 && ad.boot == 0) || (ad.worker == 0 && ad.boot != 0)
    || ad.slots == 0 || ad.maxSessions == 0 || ad.occupancy > ad.slots
    || (exists i :: 0 <= i < |ad.accelerators| && ad.accelerators[i].id == 0)
    || (ad.resourceClass == Model && (ad.model == None || ad.model.value.id == 0))
    || (ad.resourceClass == Gpu && |ad.accelerators| == 0)
    || (ad.resourceClass == Simulator
        && (ad.simulator == None || ad.simulator.value.id == 0 || ad.simulator.value.maxSessions == 0
            || ad.simulator.value.maxSessions > ad.maxSessions))
    || (ad.resourceClass == Dataset
        && (ad.dataset == None || ad.dataset.value.id == 0 || ad.dataset.value.version == 0))
    || (ad.resourceClass == PhysicalEnvironment
        && (ad.environment == None || ad.environment.value.id == 0 || ad.environment.value.physicalEnvironment == 0))
    || (ad.resourceClass == VirtualEnvironment
        && (ad.environment == None || ad.environment.value.id == 0 || ad.environment.value.virtualEnvironment == 0))
  }

  lemma AdvertisementDefects(ad: Advertisement)
    ensures ValidAdvertisement(ad) <==> !Defective(ad)
  {
    if !Defective(ad) {
      forall a | a in ad.accelerators ensures a.id != 0 {
        var i :| 0 <= i < |ad.accelerators| && ad.accelerators[i] == a;
      }
    }
  }

  // ---------------------------------------------------------------- submissions

  lemma SubmitCodes(limits: Limits, s: State, request: Request)
    requires SlotsPositive(s)
    ensures var o := SubmitRequest(s, limits, request);
            var valid := !DefectiveRequest(request, limits) && !s.shuttingDown;
            var full := |s.requests| >= limits.maxRetainedRequests;
            var unseen := valid && !full && request.id !in s.requests;
            var crowded := |Waiting(s)| >= limits.maxActiveRequests;
            var unit := UnitKey(request.experiment, request.experimentGeneration, request.trial);
            && (DefectiveRequest(request, limits) ==> RefusedWith(o, InvalidArgument))
            && (!DefectiveRequest(request, limits) && s.shuttingDown ==> RefusedWith(o, ShuttingDown))
            && (valid && full ==> RefusedWith(o, ResourceExhausted))
            && (valid && !full && request.id in s.requests ==> RefusedWith(o, DuplicateIdentity))
            && (unseen && crowded ==> RefusedWith(o, ResourceExhausted))
            && (unseen && !crowded && BusyUnit(s, unit) ==> RefusedWith(o, Busy))
  {
    hide Schedule, ValidRequest, DefectiveRequest, SlotsPositive;
    RequestDefects(request, limits);
    assert ActiveRequests(s) == Waiting(s);
  }

  // ---------------------------------------------------------------- resources and workers

  lemma RegisterCodes(limits: Limits, s: State, ad: Advertisement)
    ensures var o := RegisterResource(s, limits, ad);
            var valid := !Defective(ad);
            && (RefusedWith(o, InvalidArgument) <==> !valid)
            && (RefusedWith(o, ShuttingDown) <==> valid && s.shuttingDown)
            && (RefusedWith(o, ResourceExhausted) <==>
                  valid && !s.shuttingDown && |s.resources| >= limits.maxResources)
            && (RefusedWith(o, DuplicateIdentity) <==>
                  valid && !s.shuttingDown && |s.resources| < limits.maxResources && ad.id in s.resources)
  {
    hide Adopt, ValidAdvertisement, Defective;
    AdvertisementDefects(ad);
    if ValidAdvertisement(ad) {
      RegistrationValid(s, ad);
    }
  }

  lemma RegistrationValid(s: State, ad: Advertisement)
    requires ValidAdvertisement(ad)
    ensures forall epoch: nat :: ValidResource(Registration(ad, epoch))
  {
  }

  lemma RetireCodes(s: State, id: U64, expected: nat)
    ensures var o := RetireResource(s, id, expected);
            var known := id != 0 && id in s.resources;
            var dated := known && (expected == 0 || s.resources[id].generation == expected);
            && (RefusedWith(o, InvalidIdentity) <==> id == 0)
            && (RefusedWith(o, NotFound) <==> id != 0 && !known)
            && (RefusedWith(o, StaleResource) <==> known && !dated)
            && (RefusedWith(o, ReservationConflict) <==> dated && s.resources[id].reserved != 0)
  {
  }

  lemma PublishCodes(limits: Limits, s: State, ad: Advertisement)
    requires Inv(limits, s)
    ensures var o := PublishResource(s, ad);
            var valid := !Defective(ad) && !s.shuttingDown;
            var known := valid && ad.id in s.resources;
            var owned := known && s.resources[ad.id].ad.worker == ad.worker && s.resources[ad.id].lifecycle != Retired;
            var same := owned && s.resources[ad.id].ad.resourceClass == ad.resourceClass;
            && (RefusedWith(o, InvalidArgument) <==> Defective(ad) || (owned && !same))
            && (RefusedWith(o, ShuttingDown) <==> !Defective(ad) && s.shuttingDown)
            && (RefusedWith(o, NotFound) <==> valid && !known)
            && (RefusedWith(o, Unauthorized) <==> known && !owned)
            && (RefusedWith(o, CapacityExhausted) <==>
                  same && ad.occupancy + Claimed(Staying(s, ad), ad.id) > ad.slots)
  {
    hide Inv, Adopt, ValidAdvertisement, Defective, ValidResource, Staying, Claimed, Publication;
    AdvertisementDefects(ad);
    AdoptedFrame(limits, s, ad);
    PublicationAccepted(limits, s, ad);
  }

  lemma WorkerCodes(s: State, worker: U64, boot: U64)
    ensures var o := MarkWorkerLost(s, worker, boot);
            && (RefusedWith(o, InvalidIdentity) <==> worker == 0 || boot == 0)
            && (RefusedWith(o, NotFound) <==> worker != 0 && boot != 0 && worker !in s.workers)
            && (RefusedWith(o, StaleWorker) <==>
                  worker != 0 && boot != 0 && worker in s.workers && s.workers[worker].boot != boot)
    ensures var o := WorkerConnected(s, worker, boot);
            (o.Refused? <==> worker == 0 || boot == 0) && (o.Refused? ==> o.code == InvalidIdentity)
  {
    hide Invalidate, Adopt;
  }
}
