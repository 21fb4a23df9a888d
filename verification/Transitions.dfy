/** Every engine operation as a function of the scheduler state (src/engine_lifecycle.cpp,
    src/engine_state.cpp, src/engine_resources.cpp, src/engine_scheduling.cpp:940-1312). Each public
    method runs under one mutex, so an operation is one step. Audit records, explanations, decisions
    and detail texts are not part of the state. */
module Transitions {
  import opened Prelude
  import opened Records
  import opened Ranking
  import opened Search
  import opened Planning

  datatype Outcome<T> = Done(state: State, value: T) | Refused(state: State, code: ErrorCode)

  function NextId(last: U64): U64 { Wrap64(last + 1) }

  // ---------------------------------------------------------------- reservations

  /** Gives one claim back, clamping at zero. */
  function ReleaseOne(resources: map<U64, Resource>, c: Claim): map<U64, Resource> {
    if c.resource !in resources then resources
    else
      var r := resources[c.resource];
      resources[c.resource := r.(reserved := if r.reserved >= c.slots then r.reserved - c.slots else 0)]
  }

  function ReleaseClaims(resources: map<U64, Resource>, claims: seq<Claim>): map<U64, Resource> {
    if claims == [] then resources
    else ReleaseOne(ReleaseClaims(resources, claims[..|claims| - 1]), claims[|claims| - 1])
  }

  /** release_reservation: only an active reservation gives capacity back. */
  function ReleaseReservation(s: State, id: U64, target: ReservationState): State {
    if id !in s.reservations || !s.reservations[id].state.Active? then s
    else
      var rv := s.reservations[id];
      s.(resources := ReleaseClaims(s.resources, rv.claims),
         reservations := s.reservations[id := rv.(state := target)])
  }

  // ---------------------------------------------------------------- ending a placement

  predicate Revokes(target: PlacementState) {
    target.Preempted? || target.ReassignmentRequired? || target.LostPlacement?
  }

  function RequestAfter(q: StoredRequest, target: PlacementState): StoredRequest {
    var state :=
      match target
      case Completed => RequestCompleted
      case Failed => RequestFailed
      case Cancelled => RequestCancelled
      case Preempted => Submitted
      case ReassignmentRequired => Submitted
      case LostPlacement => Submitted
      case _ => q.state;
    q.(current := 0, state := state)
  }

  function DetachRequest(requests: map<U64, StoredRequest>, request: U64, placement: U64, target: PlacementState)
    : map<U64, StoredRequest>
  {
    if request in requests && requests[request].current == placement then
      requests[request := RequestAfter(requests[request], target)]
    else requests
  }

  function DetachUnit(units: map<UnitKey, U64>, key: UnitKey, placement: U64): map<UnitKey, U64> {
    if key in units && units[key] == placement then units - {key} else units
  }

  /** terminate_placement: a placement that is not live is left alone. */
  function Terminate(s: State, id: U64, target: PlacementState): State {
    if id !in s.placements || !Live(s.placements[id].state) then s
    else
      var p := s.placements[id];
      var released := ReleaseReservation(s, p.reservation, if Revokes(target) then Revoked else Released);
      released.(placements := s.placements[id := p.(state := target)],
                requests := DetachRequest(s.requests, p.request, id, target),
                unitCurrent := DetachUnit(s.unitCurrent, UnitOf(p), id))
  }

  /** Ends, in ascending order, every live placement among `ids` that `pick` selects. */
  function TerminateWhere(s: State, ids: seq<U64>, pick: Placement -> bool, target: PlacementState): State {
    if ids == [] then s
    else
      var t := TerminateWhere(s, ids[..|ids| - 1], pick, target);
      var id := ids[|ids| - 1];
      if id in t.placements && Live(t.placements[id].state) && pick(t.placements[id]) then Terminate(t, id, target)
      else t
  }

  // ---------------------------------------------------------------- placement lifecycle

  function CheckEpoch(s: State, epoch: nat): Status {
    if epoch == 0 then Fail(InvalidIdentity) else if epoch != s.epoch then Fail(StaleEpoch) else Ok
  }

  function NotLiveCode(state: PlacementState): ErrorCode {
    if state.Cancelled? then CancelledCode else StalePlacement
  }

  /** The checks mark_assigned and mark_running share. */
  function CheckMark(s: State, id: U64, generation: nat, epoch: nat, boot: U64): Status {
    if id == 0 || generation == 0 then Fail(InvalidIdentity)
    else if CheckEpoch(s, epoch) != Ok then CheckEpoch(s, epoch)
    else if id !in s.placements then Fail(NotFound)
    else
      var p := s.placements[id];
      if p.generation != generation then Fail(StalePlacement)
      else if boot != 0 && p.workerBoot != boot then Fail(StaleWorker)
      else if !Live(p.state) then Fail(NotLiveCode(p.state))
      else Ok
  }

  function MarkAssigned(s: State, id: U64, generation: nat, epoch: nat, boot: U64): Outcome<Placement> {
    var checked := CheckMark(s, id, generation, epoch, boot);
    if checked != Ok then Refused(s, checked.code)
    else if s.placements[id].state.Running? then Refused(s, StalePlacement)
    else
      var p := s.placements[id].(state := Assigned);
      Done(s.(placements := s.placements[id := p]), p)
  }

  function MarkRunning(s: State, id: U64, generation: nat, epoch: nat, boot: U64): Outcome<Placement> {
    var checked := CheckMark(s, id, generation, epoch, boot);
    if checked != Ok then Refused(s, checked.code)
    else
      var p := s.placements[id].(state := Running);
      Done(s.(placements := s.placements[id := p]), p)
  }

  datatype CompletionClaim = CompletionClaim(
    placement: U64, generation: nat, experiment: U64, experimentGeneration: U64, epoch: nat, workerBoot: U64,
    resources: seq<U64>, resourceGenerations: seq<nat>, succeeded: bool)

  function SelectedIds(p: Placement): seq<U64> {
    seq(|p.resources|, i requires 0 <= i < |p.resources| => p.resources[i].resource)
  }

  function EndedCode(state: PlacementState): ErrorCode {
    match state
    case Cancelled => CancelledCode
    case Preempted => PreemptedCode
    case ReassignmentRequired => ReassignmentRequiredCode
    case _ => StalePlacement
  }

  /** The first bound resource that is gone or whose generation differs from the claimed one. */
  function CheckGenerations(s: State, p: Placement, generations: seq<nat>, i: nat): Status
    requires |generations| == |p.resources| && i <= |generations|
    decreases |generations| - i
  {
    if i == |generations| then Ok
    else if p.resources[i].resource !in s.resources then Fail(ResourceLost)
    else if s.resources[p.resources[i].resource].generation != generations[i] then Fail(StaleResource)
    else CheckGenerations(s, p, generations, i + 1)
  }

  /** The fixed validation order of report_completion. */
  function CheckCompletion(s: State, c: CompletionClaim): Status {
    if c.placement == 0 then Fail(InvalidIdentity)
    else if c.placement !in s.placements then Fail(NotFound)
    else
      var p := s.placements[c.placement];
      if CheckEpoch(s, c.epoch) != Ok then CheckEpoch(s, c.epoch)
      else if c.experiment == 0 || c.experiment != p.experiment then Fail(StaleExperiment)
      else if c.experimentGeneration == 0 || c.experimentGeneration != p.experimentGeneration then Fail(StaleExperiment)
      else if c.generation != p.generation then Fail(StalePlacement)
      else if p.completionRecorded || p.state.Completed? || p.state.Failed? then Fail(DuplicateCompletion)
      else if !Live(p.state) then Fail(EndedCode(p.state))
      else if c.workerBoot != 0 && c.workerBoot != p.workerBoot then Fail(StaleWorker)
      else if c.resources != [] && Sort(c.resources) != Sort(SelectedIds(p)) then Fail(Unauthorized)
      else if c.resourceGenerations != [] && |c.resourceGenerations| != |p.resources| then Fail(Unauthorized)
      else if c.resourceGenerations != [] && CheckGenerations(s, p, c.resourceGenerations, 0) != Ok then
        CheckGenerations(s, p, c.resourceGenerations, 0)
      else if p.reservation !in s.reservations || !s.reservations[p.reservation].state.Active? then
        Fail(ReservationNotActive)
      else Ok
  }

  function ReportCompletion(s: State, c: CompletionClaim): Outcome<PlacementState> {
    var checked := CheckCompletion(s, c);
    if checked != Ok then Refused(s, checked.code)
    else
      var p := s.placements[c.placement];
      var recorded := s.(placements := s.placements[c.placement := p.(completionRecorded := true)]);
      var target := if c.succeeded then Completed else Failed;
      Done(Terminate(recorded, c.placement, target), target)
  }

  function CancelPlacement(s: State, id: U64, generation: nat, epoch: nat): Outcome<U64> {
    if id == 0 then Refused(s, InvalidIdentity)
    else if CheckEpoch(s, epoch) != Ok then Refused(s, CheckEpoch(s, epoch).code)
    else if id !in s.placements then Refused(s, NotFound)
    else
      var p := s.placements[id];
      if generation != 0 && p.generation != generation then Refused(s, StalePlacement)
      else if !Live(p.state) then Refused(s, NotLiveCode(p.state))
      else Done(Terminate(s, id, Cancelled), p.reservation)
  }

  function BelongsTo(request: U64): Placement -> bool {
    (p: Placement) => p.request == request
  }

  function CancelRequest(s: State, request: U64): Outcome<U64> {
    if request == 0 then Refused(s, InvalidIdentity)
    else if request !in s.requests then Refused(s, NotFound)
    else
      var t := TerminateWhere(s, SortedKeys(s.placements.Keys), BelongsTo(request), Cancelled);
      if request !in t.requests then Done(t, request)
      else
        var q := t.requests[request].(state := RequestCancelled, current := 0);
        Done(t.(requests := t.requests[request := q]), request)
  }

  // ---------------------------------------------------------------- worker incarnations

  predicate OwnedBy(r: Resource, worker: U64, boot: U64) {
    r.ad.worker == worker && r.ad.boot == boot && (r.authoritative || r.lifecycle.Current?)
  }

  function Invalidated(r: Resource): Resource {
    r.(authoritative := false, lifecycle := Lost,
       ad := r.ad.(health := HealthUnknown, readiness := ReadyUnknown),
       generation := r.generation + 1, healthGeneration := r.healthGeneration + 1,
       capacityGeneration := r.capacityGeneration + 1, validatedEpoch := 0)
  }

  function InvalidateResources(resources: map<U64, Resource>, worker: U64, boot: U64): map<U64, Resource> {
    map id | id in resources ::
      if OwnedBy(resources[id], worker, boot) then Invalidated(resources[id]) else resources[id]
  }

  function AffectedResources(s: State, worker: U64, boot: U64): set<U64> {
    set id | id in s.resources && OwnedBy(s.resources[id], worker, boot)
  }

  /** The placement is bound to the incarnation or selects one of the affected resources. */
  predicate Touches(p: Placement, worker: U64, boot: U64, affected: set<U64>) {
    (p.worker == worker && p.workerBoot == boot) || exists x :: x in p.resources && x.resource in affected
  }

  function TouchedBy(worker: U64, boot: U64, affected: set<U64>): Placement -> bool {
    (p: Placement) => Touches(p, worker, boot, affected)
  }

  /** invalidate_worker_incarnation. */
  function Invalidate(s: State, worker: U64, boot: U64): State {
    var affected := AffectedResources(s, worker, boot);
    var s1 := s.(resources := InvalidateResources(s.resources, worker, boot));
    var s2 :=
      TerminateWhere(s1, SortedKeys(s1.placements.Keys), TouchedBy(worker, boot, affected), ReassignmentRequired);
    if worker in s2.workers && s2.workers[worker].boot == boot then
      s2.(workers := s2.workers[worker := s2.workers[worker].(connected := false)])
    else s2
  }

  /** adopt_worker_incarnation. */
  function Adopt(s: State, worker: U64, boot: U64): State {
    if worker in s.workers && s.workers[worker].boot != boot then
      var t := Invalidate(s, worker, s.workers[worker].boot);
      t.(workers := t.workers[worker := WorkerRecord(boot, true)])
    else s.(workers := s.workers[worker := WorkerRecord(boot, true)])
  }

  function WorkerConnected(s: State, worker: U64, boot: U64): Outcome<U64> {
    if worker == 0 || boot == 0 then Refused(s, InvalidIdentity) else Done(Adopt(s, worker, boot), worker)
  }

  function MarkWorkerLost(s: State, worker: U64, boot: U64): Outcome<U64> {
    if worker == 0 || boot == 0 then Refused(s, InvalidIdentity)
    else if worker !in s.workers then Refused(s, NotFound)
    else if s.workers[worker].boot != boot then Refused(s, StaleWorker)
    else Done(Invalidate(s, worker, boot), worker)
  }

  // ---------------------------------------------------------------- resources

  function Registration(ad: Advertisement, epoch: nat): Resource {
    Resource(ad, Current, 1, 1, 1, 1, epoch, true, 0)
  }

  function RegisterResource(s: State, limits: Limits, ad: Advertisement): Outcome<Resource> {
    if !ValidAdvertisement(ad) then Refused(s, InvalidArgument)
    else if s.shuttingDown then Refused(s, ShuttingDown)
    else if |s.resources| >= limits.maxResources then Refused(s, ResourceExhausted)
    else if ad.id in s.resources then Refused(s, DuplicateIdentity)
    else
      var t := if ad.worker != 0 then Adopt(s, ad.worker, ad.boot) else s;
      var r := Registration(ad, t.epoch);
      if !ValidResource(r) then Refused(t, InvalidArgument)
      else Done(t.(resources := t.resources[ad.id := r]), r)
  }

  function Publication(r: Resource, ad: Advertisement, epoch: nat): Resource {
    var sameCapacity :=
      r.ad.slots == ad.slots && r.ad.memory == ad.memory && r.ad.maxSessions == ad.maxSessions;
    var sameHealth := r.ad.health == ad.health && r.ad.readiness == ad.readiness;
    r.(ad := ad, lifecycle := Current, generation := r.generation + 1, stateSequence := r.stateSequence + 1,
       validatedEpoch := epoch, authoritative := true,
       capacityGeneration := if sameCapacity then r.capacityGeneration else r.capacityGeneration + 1,
       healthGeneration := if sameHealth then r.healthGeneration else r.healthGeneration + 1)
  }

  function PublishResource(s: State, ad: Advertisement): Outcome<Resource> {
    if !ValidAdvertisement(ad) then Refused(s, InvalidArgument)
    else if s.shuttingDown then Refused(s, ShuttingDown)
    else if ad.id !in s.resources then Refused(s, NotFound)
    else if s.resources[ad.id].ad.worker != ad.worker then Refused(s, Unauthorized)
    else if s.resources[ad.id].lifecycle.Retired? then Refused(s, Unauthorized)
    else
      var record := s.resources[ad.id];
      var t := if record.ad.worker != 0 && record.ad.boot != ad.boot then Adopt(s, ad.worker, ad.boot) else s;
      if ad.id !in t.resources then Refused(t, InternalError)
      else
        var live := t.resources[ad.id];
        if live.ad.resourceClass != ad.resourceClass then Refused(t, InvalidArgument)
        else if ad.slots < live.reserved then Refused(t, CapacityExhausted)
        else if ad.occupancy + live.reserved > ad.slots then Refused(t, CapacityExhausted)
        else
          var r := Publication(live, ad, t.epoch);
          var u := t.(resources := t.resources[ad.id := r]);
          if !ValidResource(r) then Refused(u, InvalidArgument) else Done(u, r)
  }

  function RetireResource(s: State, id: U64, expected: nat): Outcome<Resource> {
    if id == 0 then Refused(s, InvalidIdentity)
    else if id !in s.resources then Refused(s, NotFound)
    else
      var r := s.resources[id];
      if expected != 0 && r.generation != expected then Refused(s, StaleResource)
      else if r.reserved != 0 then Refused(s, ReservationConflict)
      else
        var r' := r.(lifecycle := Retired, authoritative := false, generation := r.generation + 1, validatedEpoch := 0);
        Done(s.(resources := s.resources[id := r']), r')
  }

  // ---------------------------------------------------------------- epoch and shutdown

  function AdoptEpoch(s: State, epoch: nat): Outcome<nat> {
    if epoch == 0 then Refused(s, InvalidIdentity)
    else if epoch <= s.epoch then Refused(s, GenerationMismatch)
    else Done(s.(epoch := epoch), epoch)
  }

  function BeginShutdown(s: State): Outcome<bool> {
    if s.shuttingDown then Refused(s, ShuttingDown) else Done(s.(shuttingDown := true), true)
  }

  // ---------------------------------------------------------------- scheduling

  datatype Decision = PlacedAt(placement: U64) | NoValidPlacement

  datatype Acquisition = Acquired(resources: map<U64, Resource>)
                       | Blocked(resources: map<U64, Resource>, code: ErrorCode)

  /** One iteration of the commit loop. */
  function AcquireOne(resources: map<U64, Resource>, c: Candidate): Acquisition {
    if c.id !in resources then Blocked(resources, InternalError)
    else
      var r := resources[c.id];
      if r.reserved > Wrap32(r.ad.slots - c.slots) then Blocked(resources, CapacityExhausted)
      else Acquired(resources[c.id := r.(reserved := Wrap32(r.reserved + c.slots))])
  }

  function Acquire(resources: map<U64, Resource>, sel: Selection): Acquisition {
    if sel == [] then Acquired(resources)
    else
      var a := Acquire(resources, sel[..|sel| - 1]);
      if a.Blocked? then a else AcquireOne(a.resources, sel[|sel| - 1])
  }

  function SelectedOf(c: Candidate, r: Resource, name: string): Selected {
    Selected(c.id, r.ad.resourceClass, r.generation, c.slots, c.exclusive, name, r.ad.worker, r.ad.boot)
  }

  function ClaimOf(c: Candidate, r: Resource): Claim {
    Claim(c.id, c.slots, c.exclusive, r.generation)
  }

  function SelectedList(s: State, request: Request, sel: Selection): seq<Selected>
    requires |sel| == |request.requirements| && Found(s, sel)
  {
    seq(|sel|, i requires 0 <= i < |sel| => SelectedOf(sel[i], s.resources[sel[i].id], request.requirements[i].name))
  }

  function ClaimList(s: State, sel: Selection): seq<Claim>
    requires Found(s, sel)
  {
    seq(|sel|, i requires 0 <= i < |sel| => ClaimOf(sel[i], s.resources[sel[i].id]))
  }

  /** The first selected resource with an owning worker, passing over datasets if asked to. */
  function FirstOwned(xs: seq<Selected>, skipDatasets: bool): Option<Selected> {
    if xs == [] then None
    else if xs[0].worker != 0 && !(skipDatasets && xs[0].resourceClass.Dataset?) then Some(xs[0])
    else FirstOwned(xs[1..], skipDatasets)
  }

  function Anchor(xs: seq<Selected>): (U64, U64) {
    match FirstOwned(xs, true)
    case Some(x) => (x.worker, x.workerBoot)
    case None =>
      match FirstOwned(xs, false)
      case Some(x) => (x.worker, x.workerBoot)
      case None => (0, 0)
  }

  function LivePlacements(s: State): set<U64> {
    set id | id in s.placements && Live(s.placements[id].state)
  }

  function ActiveReservations(s: State): set<U64> {
    set id | id in s.reservations && s.reservations[id].state.Active?
  }

  /** The bounds checked after a placement was found. */
  predicate HasCapacity(s: State, limits: Limits) {
    && |s.placements| < limits.maxPlacements
    && |s.reservations| < limits.maxReservations
    && |LivePlacements(s)| < limits.maxActivePlacements
    && |ActiveReservations(s)| < limits.maxActiveReservations
  }

  function Emplace<V>(m: map<U64, V>, k: U64, v: V): map<U64, V> {
    if k in m then m else m[k := v]
  }

  function NewPlacement(s: State, id: U64, request: Request, generation: nat, count: nat,
                        resources: seq<Selected>): Placement
  {
    var anchor := Anchor(resources);
    Placement(id, generation, request.id, s.lastId, request.experiment, request.experimentGeneration,
              request.trial, s.epoch, resources, NextId(id), NextId(NextId(id)), anchor.0, anchor.1,
              Reserved, count, false)
  }

  function NewReservation(s: State, p: Placement, claims: seq<Claim>): Reservation {
    Reservation(p.reservation, p.lease, p.id, p.generation, p.request, p.experiment, p.experimentGeneration,
                s.epoch, claims, Active)
  }

  /** The commit of a selection. `s` already counts the decision identity. */
  function Commit(s: State, requestId: U64, generation: nat, count: nat, sel: Selection): Outcome<Decision>
    requires requestId in s.requests && Found(s, sel) && |sel| == |s.requests[requestId].request.requirements|
  {
    var request := s.requests[requestId].request;
    var id := NextId(s.lastId);
    var p := NewPlacement(s, id, request, generation, count, SelectedList(s, request, sel));
    var a := Acquire(s.resources, sel);
    var issued := s.(lastId := p.lease, resources := a.resources);
    if a.Blocked? then Refused(issued, a.code)
    else
      var stored := s.requests[requestId];
      Done(issued.(
             reservations := Emplace(s.reservations, p.reservation, NewReservation(s, p, ClaimList(s, sel))),
             placements := Emplace(s.placements, id, p),
             unitCurrent := s.unitCurrent[UnitOfRequest(request) := id],
             requests := s.requests[requestId :=
               stored.(state := Placed, current := id, placementCount := stored.placementCount + 1)],
             tenantService :=
               if request.tenant == "" then s.tenantService
               else s.tenantService[request.tenant :=
                      (if request.tenant in s.tenantService then s.tenantService[request.tenant] else 0) + 1]),
           PlacedAt(id))
  }

  function NoPlacementFor(s: State, requestId: U64): State
    requires requestId in s.requests
  {
    s.(requests := s.requests[requestId := s.requests[requestId].(state := RequestState.NoPlacement, current := 0)])
  }

  /** schedule_locked. An empty candidate list ends the search before it starts; that is the same answer
      the search gives, because no selection is full then. */
  function Schedule(s0: State, limits: Limits, requestId: U64, forced: nat, count: nat): Outcome<Decision>
    requires requestId in s0.requests && Plannable(s0, s0.requests[requestId].request)
  {
    var s := s0.(lastId := NextId(s0.lastId));
    var request := s0.requests[requestId].request;
    var lists := ChoiceLists(s0, limits, request);
    if exists i :: 0 <= i < |lists| && lists[i] == [] then Done(NoPlacementFor(s, requestId), NoValidPlacement)
    else
      var found := Run(SearchSpace(s0, limits, request)).ranked;
      if found == [] then Done(NoPlacementFor(s, requestId), NoValidPlacement)
      else if !HasCapacity(s, limits) then Refused(s, ResourceExhausted)
      else
        var sel := Head(found).selection;
        if !(|sel| == |request.requirements| && Found(s, sel)) then Refused(s, InternalError)
        else Commit(s, requestId, if forced == 0 then 1 else forced, count, sel)
  }

  /** The three ways schedule_locked ends. */
  lemma ScheduleCases(limits: Limits, s: State, t: State, requestId: U64, forced: nat, count: nat)
    requires requestId in s.requests && Plannable(s, s.requests[requestId].request)
    requires t == s.(lastId := NextId(s.lastId))
    ensures var request := s.requests[requestId].request;
            var o := Schedule(s, limits, requestId, forced, count);
            var found := RankingOf(s, limits, request);
            && (found == [] ==> o == Done(NoPlacementFor(t, requestId), NoValidPlacement))
            && (found != [] ==>
                  var sel := Head(found).selection;
                  |sel| == |request.requirements| && Found(t, sel)
                  && o == if !HasCapacity(t, limits) then Refused(t, ResourceExhausted)
                          else Commit(t, requestId, if forced == 0 then 1 else forced, count, sel))
  {
    hide Run, Head, SearchSpace, Commit, Plannable, HasCapacity, ChoiceLists;
    HeadIsComplete(s, t, limits, s.requests[requestId].request);
  }

  /** The head of the ranking has one registered resource per requirement. */
  lemma HeadIsComplete(s: State, t: State, limits: Limits, request: Request)
    requires Plannable(s, request) && t == s.(lastId := t.lastId)
    ensures var ranked := Run(SearchSpace(s, limits, request)).ranked;
            ranked != [] ==>
              var sel := Head(ranked).selection; |sel| == |request.requirements| && Found(t, sel)
  {
    hide Run, Head, ChoiceLists;
    HeadIsValid(SearchSpace(s, limits, request));
  }

  function ActiveRequests(s: State): set<U64> {
    set id | id in s.requests && (s.requests[id].state.Submitted? || s.requests[id].state.Placed?)
  }

  /** A live placement is already current for the unit. */
  predicate UnitBusy(s: State, key: UnitKey) {
    key in s.unitCurrent && s.unitCurrent[key] in s.placements && Live(s.placements[s.unitCurrent[key]].state)
  }

  function SubmitRequest(s: State, limits: Limits, request: Request): Outcome<Decision>
    requires SlotsPositive(s)
  {
    if !ValidRequest(request, limits) then Refused(s, InvalidArgument)
    else if s.shuttingDown then Refused(s, ShuttingDown)
    else if |s.requests| >= limits.maxRetainedRequests then Refused(s, ResourceExhausted)
    else if request.id in s.requests then Refused(s, DuplicateIdentity)
    else if |ActiveRequests(s)| >= limits.maxActiveRequests then Refused(s, ResourceExhausted)
    else if UnitBusy(s, UnitOfRequest(request)) then Refused(s, Busy)
    else
      Schedule(s.(requests := s.requests[request.id := StoredRequest(request, Submitted, 0, 0)]),
               limits, request.id, 0, 0)
  }

  // ---------------------------------------------------------------- reassignment and preemption

  ghost predicate Reschedulable(s: State) {
    SlotsPositive(s) && forall id :: id in s.requests ==> |s.requests[id].request.weights| == FACTORS
  }

  lemma {:induction false} ReleaseKeepsAdvertisements(resources: map<U64, Resource>, claims: seq<Claim>)
    ensures ReleaseClaims(resources, claims).Keys == resources.Keys
    ensures var after := ReleaseClaims(resources, claims);
            forall id :: id in resources ==> after[id] == resources[id].(reserved := after[id].reserved)
  {
    if claims != [] {
      ReleaseKeepsAdvertisements(resources, claims[..|claims| - 1]);
    }
  }

  ghost predicate SameRequests(a: map<U64, StoredRequest>, b: map<U64, StoredRequest>) {
    a.Keys == b.Keys && forall k :: k in a ==> a[k].request == b[k].request
  }

  ghost predicate SameAdvertisements(a: map<U64, Resource>, b: map<U64, Resource>) {
    a.Keys == b.Keys && forall k :: k in a ==> a[k] == b[k].(reserved := a[k].reserved)
  }

  lemma ReleaseFrame(s: State, id: U64, target: ReservationState)
    ensures var t := ReleaseReservation(s, id, target);
            t == s.(resources := t.resources, reservations := t.reservations)
            && SameAdvertisements(t.resources, s.resources)
  {
    if id in s.reservations {
      ReleaseKeepsAdvertisements(s.resources, s.reservations[id].claims);
    }
  }

  /** Ending a placement touches no advertisement and no request text, and neither epoch, workers,
      tenants nor the identity counter. */
  lemma TerminateFrame(s: State, id: U64, target: PlacementState)
    ensures var t := Terminate(s, id, target);
            t == s.(placements := t.placements, resources := t.resources, reservations := t.reservations,
                    requests := t.requests, unitCurrent := t.unitCurrent)
            && SameRequests(t.requests, s.requests) && SameAdvertisements(t.resources, s.resources)
  {
    if id in s.placements && Live(s.placements[id].state) {
      var p := s.placements[id];
      ReleaseFrame(s, p.reservation, if Revokes(target) then Revoked else Released);
    }
  }

  lemma TerminateReschedulable(s: State, id: U64, target: PlacementState)
    requires Reschedulable(s)
    ensures Reschedulable(Terminate(s, id, target))
  {
    TerminateFrame(s, id, target);
    var t := Terminate(s, id, target);
    KeptReschedulable(s, t);
  }

  lemma KeptReschedulable(s: State, t: State)
    requires Reschedulable(s) && SameRequests(t.requests, s.requests) && SameAdvertisements(t.resources, s.resources)
    ensures Reschedulable(t)
  {
  }

  function ReassignPlacement(s: State, limits: Limits, id: U64, generation: nat, epoch: nat): Outcome<Decision>
    requires Reschedulable(s)
  {
    if id == 0 then Refused(s, InvalidIdentity)
    else if CheckEpoch(s, epoch) != Ok then Refused(s, CheckEpoch(s, epoch).code)
    else if id !in s.placements then Refused(s, NotFound)
    else
      var p := s.placements[id];
      if generation != 0 && p.generation != generation then Refused(s, StalePlacement)
      else if !Live(p.state) && !p.state.ReassignmentRequired? then Refused(s, StalePlacement)
      else
        TerminateReschedulable(s, id, ReassignmentRequired);
        var t := Terminate(s, id, ReassignmentRequired);
        if p.request !in t.requests then Refused(t, NotFound)
        else if p.reassignmentCount >= t.requests[p.request].request.maxReassignments then
          Refused(t, ReassignmentRequiredCode)
        else Schedule(t, limits, p.request, p.generation + 1, p.reassignmentCount + 1)
  }

  function PreemptPlacement(s: State, limits: Limits, id: U64, generation: nat, epoch: nat): Outcome<Decision>
    requires Reschedulable(s)
  {
    if id == 0 then Refused(s, InvalidIdentity)
    else if CheckEpoch(s, epoch) != Ok then Refused(s, CheckEpoch(s, epoch).code)
    else if id !in s.placements then Refused(s, NotFound)
    else
      var p := s.placements[id];
      if generation != 0 && p.generation != generation then Refused(s, StalePlacement)
      else if !Live(p.state) then Refused(s, NotLiveCode(p.state))
      else
        TerminateReschedulable(s, id, Preempted);
        var t := Terminate(s, id, Preempted);
        if p.request !in t.requests then Done(t, NoValidPlacement)
        else
          var q := t.requests[p.request];
          var u := t.(requests := t.requests[p.request := q.(state := Submitted)]);
          if !q.request.allowPreemption || p.reassignmentCount >= q.request.maxReassignments then
            Done(u, NoValidPlacement)
          else Schedule(u, limits, p.request, p.generation + 1, p.reassignmentCount + 1)
  }
}
