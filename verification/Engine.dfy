/** The scheduler engine as the source keeps it: one object whose maps every public method updates in
    place. Each method is proved to turn the abstract state into the one its operation is specified to
    give (src/engine_lifecycle.cpp, src/engine_state.cpp, src/engine_resources.cpp,
    src/engine_scheduling.cpp:940-1312, src/engine_recovery.cpp). */
module Engine {
  import opened Prelude
  import opened Records
  import opened Ranking
  import opened Planning
  import opened Plans
  import opened Transitions
  import opened Invariants
  import opened Endings
  import opened Durability
  import opened Validation

  datatype Result<T> = Success(value: T) | Failure(code: ErrorCode)

  function Answer<T>(o: Outcome<T>): Result<T> {
    match o
    case Done(_, value) => Success(value)
    case Refused(_, code) => Failure(code)
  }

  /** The identity source: strictly increasing until the 64-bit counter wraps. */
  class IdGenerator {
    var counter: U64

    constructor (seed: U64)
      ensures counter == seed
    {
      counter := seed;
    }

    method NextValue() returns (id: U64)
      modifies this
      ensures id == counter == NextId(old(counter))
      ensures old(counter) + 1 < TWO_64 ==> id > old(counter)
    {
      counter := Wrap64(counter + 1);
      id := counter;
    }

    method Observe(value: U64)
      modifies this
      ensures counter == Max(old(counter), value)
    {
      if value > counter {
        counter := value;
      }
    }
  }

  class SchedulerEngine {
    const limits: Limits
    const ids: IdGenerator
    var epoch: nat
    var shuttingDown: bool
    var workers: map<U64, WorkerRecord>
    var resources: map<U64, Resource>
    var requests: map<U64, StoredRequest>
    var placements: map<U64, Placement>
    var reservations: map<U64, Reservation>
    var unitCurrent: map<UnitKey, U64>
    var tenantService: map<string, nat>

    constructor (limits: Limits, seed: U64)
      ensures this.limits == limits && fresh(ids)
      ensures Abs() == EMPTY_STATE.(lastId := seed)
    {
      this.limits := limits;
      ids := new IdGenerator(seed);
      epoch, shuttingDown := 1, false;
      workers, resources, requests, placements, reservations := map[], map[], map[], map[], map[];
      unitCurrent, tenantService := map[], map[];
    }

    function Abs(): State
      reads this, ids
    {
      State(epoch, shuttingDown, workers, resources, requests, placements, reservations, unitCurrent,
            tenantService, ids.counter)
    }

    // -------------------------------------------------------------- reservations and endings

    /** release_reservation. */
    method ReleaseReservation(id: U64, target: ReservationState)
      modifies this
      ensures Abs() == Transitions.ReleaseReservation(old(Abs()), id, target)
    {
      if id !in reservations || !reservations[id].state.Active? {
        return;
      }
      var claims := reservations[id].claims;
      for i := 0 to |claims|
        invariant Abs() == old(Abs()).(resources := ReleaseClaims(old(resources), claims[..i]))
      {
        assert claims[..i + 1][..i] == claims[..i];
        var c := claims[i];
        if c.resource in resources {
          var r := resources[c.resource];
          if r.reserved >= c.slots {
            resources := resources[c.resource := r.(reserved := r.reserved - c.slots)];
          } else {
            resources := resources[c.resource := r.(reserved := 0)];
          }
        }
      }
      assert claims[..|claims|] == claims;
      reservations := reservations[id := reservations[id].(state := target)];
    }

    /** The request forgets the placement if it is its current one, and takes the state it leaves. */
    method DetachFromRequest(request: U64, id: U64, target: PlacementState)
      modifies this`requests
      ensures requests == DetachRequest(old(requests), request, id, target)
    {
      if request in requests && requests[request].current == id {
        var q := requests[request].(current := 0);
        match target {
          case Completed => q := q.(state := RequestCompleted);
          case Failed => q := q.(state := RequestFailed);
          case Cancelled => q := q.(state := RequestCancelled);
          case Preempted => q := q.(state := Submitted);
          case ReassignmentRequired => q := q.(state := Submitted);
          case LostPlacement => q := q.(state := Submitted);
          case _ =>
        }
        requests := requests[request := q];
      }
    }

    /** The unit is free again if the placement held it. */
    method DetachFromUnit(key: UnitKey, id: U64)
      modifies this`unitCurrent
      ensures unitCurrent == DetachUnit(old(unitCurrent), key, id)
    {
      if key in unitCurrent && unitCurrent[key] == id {
        unitCurrent := unitCurrent - {key};
      }
    }

    /** terminate_placement: the placement, its reservation, its request and the unit index, in turn. */
    method TerminatePlacement(id: U64, target: PlacementState)
      modifies this
      ensures Abs() == Terminate(old(Abs()), id, target)
    {
      hide Transitions.ReleaseReservation, DetachRequest, DetachUnit;
      if id !in placements || !Live(placements[id].state) {
        return;
      }
      var p := placements[id];
      ghost var released := if Revokes(target) then Revoked else Released;
      ReleaseFrame(Abs(), p.reservation, released);
      ReleaseIgnoresPlacements(Abs(), placements[id := p.(state := target)], p.reservation, released);
      ReleaseUnknown(Abs(), p.reservation, released);
      placements := placements[id := p.(state := target)];
      if p.reservation in reservations {
        if target.Preempted? || target.ReassignmentRequired? || target.LostPlacement? {
          ReleaseReservation(p.reservation, Revoked);
        } else {
          ReleaseReservation(p.reservation, Released);
        }
      }
      DetachFromRequest(p.request, id, target);
      DetachFromUnit(UnitOf(p), id);
    }

    /** The loop over all placements that ends the live ones `pick` selects. */
    method TerminateSelected(pick: Placement -> bool, target: PlacementState)
      modifies this
      ensures Abs() == TerminateWhere(old(Abs()), SortedKeys(old(placements).Keys), pick, target)
    {
      hide Terminate, TerminateWhere;
      var keys := SortedKeys(placements.Keys);
      SweepStart(Abs(), keys, pick, target);
      for i := 0 to |keys|
        invariant Abs() == TerminateWhere(old(Abs()), keys[..i], pick, target)
      {
        SweepNext(old(Abs()), keys, i, pick, target);
        if keys[i] in placements && Live(placements[keys[i]].state) && pick(placements[keys[i]]) {
          TerminatePlacement(keys[i], target);
        }
      }
      assert keys[..|keys|] == keys;
    }

    // -------------------------------------------------------------- placement lifecycle

    /** The checks mark_assigned and mark_running share, in the source's order. */
    method CheckMarkable(id: U64, generation: nat, epoch: nat, boot: U64) returns (checked: Status)
      ensures checked == CheckMark(Abs(), id, generation, epoch, boot)
    {
      if id == 0 || generation == 0 || epoch == 0 { return Fail(InvalidIdentity); }
      if epoch != this.epoch { return Fail(StaleEpoch); }
      if id !in placements { return Fail(NotFound); }
      var p := placements[id];
      if p.generation != generation { return Fail(StalePlacement); }
      if boot != 0 && p.workerBoot != boot { return Fail(StaleWorker); }
      if !Live(p.state) { return Fail(if p.state.Cancelled? then CancelledCode else StalePlacement); }
      return Ok;
    }

    method MarkAssigned(id: U64, generation: nat, epoch: nat, boot: U64) returns (r: Result<Placement>)
      modifies this
      ensures var o := Transitions.MarkAssigned(old(Abs()), id, generation, epoch, boot);
              Abs() == o.state && r == Answer(o)
    {
      var checked := CheckMarkable(id, generation, epoch, boot);
      if checked != Ok {
        return Failure(checked.code);
      }
      if placements[id].state.Running? {
        return Failure(StalePlacement);
      }
      placements := placements[id := placements[id].(state := Assigned)];
      return Success(placements[id]);
    }

    method MarkRunning(id: U64, generation: nat, epoch: nat, boot: U64) returns (r: Result<Placement>)
      modifies this
      ensures var o := Transitions.MarkRunning(old(Abs()), id, generation, epoch, boot);
              Abs() == o.state && r == Answer(o)
    {
      var checked := CheckMarkable(id, generation, epoch, boot);
      if checked != Ok {
        return Failure(checked.code);
      }
      placements := placements[id := placements[id].(state := Running)];
      return Success(placements[id]);
    }

    /** The loop that compares every claimed generation with the current one. */
    method CompareGenerations(p: Placement, generations: seq<nat>) returns (checked: Status)
      requires |generations| == |p.resources|
      ensures checked == CheckGenerations(Abs(), p, generations, 0)
    {
      for i := 0 to |generations|
        invariant CheckGenerations(Abs(), p, generations, 0) == CheckGenerations(Abs(), p, generations, i)
      {
        if p.resources[i].resource !in resources {
          return Fail(ResourceLost);
        }
        if resources[p.resources[i].resource].generation != generations[i] {
          return Fail(StaleResource);
        }
      }
      return Ok;
    }

    /** The fixed validation order of report_completion. */
    method CheckClaim(c: CompletionClaim) returns (checked: Status)
      ensures checked == CheckCompletion(Abs(), c)
    {
      if c.placement == 0 { return Fail(InvalidIdentity); }
      if c.placement !in placements { return Fail(NotFound); }
      var p := placements[c.placement];
      if c.epoch == 0 { return Fail(InvalidIdentity); }
      if c.epoch != epoch { return Fail(StaleEpoch); }
      if c.experiment == 0 || c.experiment != p.experiment { return Fail(StaleExperiment); }
      if c.experimentGeneration == 0 || c.experimentGeneration != p.experimentGeneration {
        return Fail(StaleExperiment);
      }
      if c.generation != p.generation { return Fail(StalePlacement); }
      if p.completionRecorded || p.state.Completed? || p.state.Failed? { return Fail(DuplicateCompletion); }
      if !Live(p.state) { return Fail(EndedCode(p.state)); }
      if c.workerBoot != 0 && c.workerBoot != p.workerBoot { return Fail(StaleWorker); }
      SortContents(c.resources);
      SortContents(SelectedIds(p));
      if c.resources != [] {
        if |c.resources| != |p.resources| { return Fail(Unauthorized); }
        if Sort(c.resources) != Sort(SelectedIds(p)) { return Fail(Unauthorized); }
      }
      if c.resourceGenerations != [] {
        if |c.resourceGenerations| != |p.resources| { return Fail(Unauthorized); }
        var compared := CompareGenerations(p, c.resourceGenerations);
        if compared != Ok { return compared; }
      }
      if p.reservation !in reservations || !reservations[p.reservation].state.Active? {
        return Fail(ReservationNotActive);
      }
      return Ok;
    }

    method ReportCompletion(c: CompletionClaim) returns (r: Result<PlacementState>)
      modifies this
      ensures var o := Transitions.ReportCompletion(old(Abs()), c); Abs() == o.state && r == Answer(o)
    {
      hide CheckCompletion, Terminate;
      var checked := CheckClaim(c);
      if checked != Ok {
        return Failure(checked.code);
      }
      CheckedPlacement(Abs(), c);
      placements := placements[c.placement := placements[c.placement].(completionRecorded := true)];
      var target := if c.succeeded then Completed else Failed;
      TerminatePlacement(c.placement, target);
      return Success(target);
    }

    method CancelPlacement(id: U64, generation: nat, epoch: nat) returns (r: Result<U64>)
      modifies this
      ensures var o := Transitions.CancelPlacement(old(Abs()), id, generation, epoch);
              Abs() == o.state && r == Answer(o)
    {
      hide Terminate;
      if id == 0 || epoch == 0 { return Failure(InvalidIdentity); }
      if epoch != this.epoch { return Failure(StaleEpoch); }
      if id !in placements { return Failure(NotFound); }
      var p := placements[id];
      if generation != 0 && p.generation != generation { return Failure(StalePlacement); }
      if p.state.Cancelled? { return Failure(CancelledCode); }
      if !Live(p.state) { return Failure(StalePlacement); }
      TerminatePlacement(id, Cancelled);
      return Success(p.reservation);
    }

    method CancelRequest(request: U64) returns (r: Result<U64>)
      modifies this
      ensures var o := Transitions.CancelRequest(old(Abs()), request); Abs() == o.state && r == Answer(o)
    {
      hide TerminateWhere;
      if request == 0 { return Failure(InvalidIdentity); }
      if request !in requests { return Failure(NotFound); }
      TerminateSelected(BelongsTo(request), Cancelled);
      if request in requests {
        requests := requests[request := requests[request].(state := RequestCancelled, current := 0)];
      }
      return Success(request);
    }

    // -------------------------------------------------------------- worker incarnations

    /** Takes authority away from every resource of the incarnation and collects their identities. */
    method InvalidateOwned(worker: U64, boot: U64) returns (affected: set<U64>)
      modifies this
      ensures Abs() == Disowned(old(Abs()), worker, boot)
      ensures affected == AffectedResources(old(Abs()), worker, boot)
    {
      hide Invalidated, OwnedBy;
      var keys := SortedKeys(resources.Keys);
      affected := {};
      ghost var before := resources;
      for i := 0 to |keys|
        invariant Abs() == old(Abs()).(resources := resources)
        invariant resources == PartlyInvalidated(before, keys[..i], worker, boot)
        invariant affected == OwnedAmong(before, keys[..i], worker, boot)
      {
        SortedKeysExact(before.Keys, keys[i]);
        SortedKeysDistinct(before.Keys, i);
        InvalidateOneMore(before, keys[..i], keys[i], worker, boot);
        assert keys[..i + 1] == keys[..i] + [keys[i]];
        if OwnedBy(resources[keys[i]], worker, boot) {
          resources := resources[keys[i] := Invalidated(resources[keys[i]])];
          affected := affected + {keys[i]};
        }
      }
      assert keys[..|keys|] == keys;
      InvalidateAll(old(Abs()), keys, worker, boot);
    }

    /** invalidate_worker_incarnation. */
    method InvalidateIncarnation(worker: U64, boot: U64)
      modifies this
      ensures Abs() == Invalidate(old(Abs()), worker, boot)
    {
      hide TerminateWhere, InvalidateResources;
      var affected := InvalidateOwned(worker, boot);
      TerminateSelected(TouchedBy(worker, boot, affected), ReassignmentRequired);
      if worker in workers && workers[worker].boot == boot {
        workers := workers[worker := workers[worker].(connected := false)];
      }
    }

    /** adopt_worker_incarnation. */
    method AdoptIncarnation(worker: U64, boot: U64)
      modifies this
      ensures Abs() == Adopt(old(Abs()), worker, boot)
    {
      hide Invalidate;
      if worker !in workers {
        workers := workers[worker := WorkerRecord(boot, true)];
        return;
      }
      if workers[worker].boot == boot {
        workers := workers[worker := workers[worker].(connected := true)];
        return;
      }
      InvalidateIncarnation(worker, workers[worker].boot);
      workers := workers[worker := WorkerRecord(boot, true)];
    }

    method WorkerConnected(worker: U64, boot: U64) returns (r: Result<U64>)
      modifies this
      ensures var o := Transitions.WorkerConnected(old(Abs()), worker, boot); Abs() == o.state && r == Answer(o)
    {
      hide Adopt;
      if worker == 0 || boot == 0 { return Failure(InvalidIdentity); }
      AdoptIncarnation(worker, boot);
      return Success(worker);
    }

    method MarkWorkerLost(worker: U64, boot: U64) returns (r: Result<U64>)
      modifies this
      ensures var o := Transitions.MarkWorkerLost(old(Abs()), worker, boot); Abs() == o.state && r == Answer(o)
    {
      hide Invalidate;
      if worker == 0 || boot == 0 { return Failure(InvalidIdentity); }
      if worker !in workers { return Failure(NotFound); }
      if workers[worker].boot != boot { return Failure(StaleWorker); }
      InvalidateIncarnation(worker, boot);
      return Success(worker);
    }

    // -------------------------------------------------------------- resources

    method RegisterResource(ad: Advertisement) returns (r: Result<Resource>)
      modifies this
      ensures var o := Transitions.RegisterResource(old(Abs()), limits, ad); Abs() == o.state && r == Answer(o)
    {
      hide Adopt, ValidAdvertisement, ValidResource;
      if !ValidAdvertisement(ad) { return Failure(InvalidArgument); }
      if shuttingDown { return Failure(ShuttingDown); }
      if |resources| >= limits.maxResources { return Failure(ResourceExhausted); }
      if ad.id in resources { return Failure(DuplicateIdentity); }
      if ad.worker != 0 {
        AdoptIncarnation(ad.worker, ad.boot);
      }
      var record := Resource(ad, Current, 1, 1, 1, 1, epoch, true, 0);
      if !ValidResource(record) { return Failure(InvalidArgument); }
      resources := resources[ad.id := record];
      return Success(record);
    }

    method PublishResource(ad: Advertisement) returns (r: Result<Resource>)
      modifies this
      ensures var o := Transitions.PublishResource(old(Abs()), ad); Abs() == o.state && r == Answer(o)
    {
      hide Adopt, ValidAdvertisement, ValidResource;
      if !ValidAdvertisement(ad) { return Failure(InvalidArgument); }
      if shuttingDown { return Failure(ShuttingDown); }
      if ad.id !in resources { return Failure(NotFound); }
      var record := resources[ad.id];
      if record.ad.worker != ad.worker || record.lifecycle.Retired? { return Failure(Unauthorized); }
      if record.ad.worker != 0 && record.ad.boot != ad.boot {
        AdoptIncarnation(ad.worker, ad.boot);
        if ad.id !in resources { return Failure(InternalError); }
      }
      var live := resources[ad.id];
      if live.ad.resourceClass != ad.resourceClass { return Failure(InvalidArgument); }
      if ad.slots < live.reserved { return Failure(CapacityExhausted); }
      if ad.occupancy + live.reserved > ad.slots { return Failure(CapacityExhausted); }
      var updated := live.(ad := ad, lifecycle := Current, generation := live.generation + 1,
                           stateSequence := live.stateSequence + 1, validatedEpoch := epoch, authoritative := true);
      if live.ad.slots != ad.slots || live.ad.memory != ad.memory || live.ad.maxSessions != ad.maxSessions {
        updated := updated.(capacityGeneration := updated.capacityGeneration + 1);
      }
      if live.ad.health != ad.health || live.ad.readiness != ad.readiness {
        updated := updated.(healthGeneration := updated.healthGeneration + 1);
      }
      resources := resources[ad.id := updated];
      if !ValidResource(updated) { return Failure(InvalidArgument); }
      return Success(updated);
    }

    method RetireResource(id: U64, expected: nat) returns (r: Result<Resource>)
      modifies this
      ensures var o := Transitions.RetireResource(old(Abs()), id, expected); Abs() == o.state && r == Answer(o)
    {
      if id == 0 { return Failure(InvalidIdentity); }
      if id !in resources { return Failure(NotFound); }
      var record := resources[id];
      if expected != 0 && record.generation != expected { return Failure(StaleResource); }
      if record.reserved != 0 { return Failure(ReservationConflict); }
      record := record.(lifecycle := Retired, authoritative := false);
      record := record.(generation := record.generation + 1, validatedEpoch := 0);
      resources := resources[id := record];
      return Success(record);
    }

    method AdoptEpoch(next: nat) returns (r: Result<nat>)
      modifies this
      ensures var o := Transitions.AdoptEpoch(old(Abs()), next); Abs() == o.state && r == Answer(o)
    {
      if next == 0 { return Failure(InvalidIdentity); }
      if next <= epoch { return Failure(GenerationMismatch); }
      epoch := next;
      return Success(next);
    }

    method BeginShutdown() returns (r: Result<bool>)
      modifies this
      ensures var o := Transitions.BeginShutdown(old(Abs())); Abs() == o.state && r == Answer(o)
    {
      if shuttingDown { return Failure(ShuttingDown); }
      shuttingDown := true;
      return Success(true);
    }

    // -------------------------------------------------------------- scheduling

    /** The two loops that bind a placement to the worker of its first owned resource. */
    method FindAnchor(selected: seq<Selected>) returns (worker: U64, boot: U64)
      ensures (worker, boot) == Anchor(selected)
    {
      worker, boot := 0, 0;
      for i := 0 to |selected|
        invariant FirstOwned(selected, true) == FirstOwned(selected[i..], true)
      {
        if !selected[i].resourceClass.Dataset? && selected[i].worker != 0 {
          return selected[i].worker, selected[i].workerBoot;
        }
      }
      for i := 0 to |selected|
        invariant FirstOwned(selected, false) == FirstOwned(selected[i..], false)
      {
        if selected[i].worker != 0 {
          return selected[i].worker, selected[i].workerBoot;
        }
      }
    }

    /** Books the selected slots one resource after the other; on a failure the earlier ones stay booked. */
    method AcquireSelection(request: Request, sel: Search.Selection)
      returns (code: Option<ErrorCode>, selected: seq<Selected>, claims: seq<Claim>)
      requires Found(Abs(), sel) && |sel| == |request.requirements|
      modifies this`resources
      ensures var a := Acquire(old(resources), sel);
              resources == a.resources && code == (if a.Blocked? then Some(a.code) else None)
      ensures code == None ==> selected == SelectedList(old(Abs()), request, sel)
      ensures code == None ==> claims == ClaimList(old(Abs()), sel)
    {
      hide Acquire, SelectedOf, ClaimOf, SelectedList, ClaimList, Found;
      selected, claims := [], [];
      ghost var s := Abs();
      AcquireNone(resources, sel);
      for i := 0 to |sel|
        invariant Found(s, sel) && s.resources == old(resources)
        invariant Acquire(s.resources, sel[..i]) == Acquired(resources)
        invariant ListsUpTo(s, request, sel, selected, claims, i)
      {
        AcquireNext(s, sel, i);
        ListsNext(s, request, sel, selected, claims, i);
        var c := sel[i];
        var r := resources[c.id];
        selected := selected + [SelectedOf(c, r, request.requirements[i].name)];
        claims := claims + [ClaimOf(c, r)];
        if r.reserved > Wrap32(r.ad.slots - c.slots) {
          return Some(CapacityExhausted), selected, claims;
        }
        resources := resources[c.id := r.(reserved := Wrap32(r.reserved + c.slots))];
      }
      assert sel[..|sel|] == sel;
      ListsComplete(s, request, sel, selected, claims);
      code := None;
    }

    /** Records a committed placement: ledger, log, unit index, request and tenant, in the source's order. */
    method RecordPlacement(requestId: U64, p: Placement, rv: Reservation)
      requires requestId in requests
      modifies this
      ensures Abs() == Booked(old(Abs()), requestId, p, rv)
    {
      if rv.id !in reservations {
        reservations := reservations[rv.id := rv];
      }
      if p.id !in placements {
        placements := placements[p.id := p];
      }
      var stored := requests[requestId];
      var tenant := stored.request.tenant;
      unitCurrent := unitCurrent[UnitOfRequest(stored.request) := p.id];
      requests := requests[requestId :=
        stored.(state := Placed, current := p.id, placementCount := stored.placementCount + 1)];
      if tenant != "" {
        tenantService := tenantService[tenant :=
          (if tenant in tenantService then tenantService[tenant] else 0) + 1];
      }
    }

    /** The commit of the winning selection; `decision` is the identity issued last. */
    method CommitSelection(decision: U64, requestId: U64, generation: nat, count: nat, sel: Search.Selection)
      returns (r: Result<Decision>)
      requires decision == ids.counter && requestId in requests && Found(Abs(), sel)
      requires |sel| == |requests[requestId].request.requirements|
      modifies this, ids
      ensures var o := Commit(old(Abs()), requestId, generation, count, sel); Abs() == o.state && r == Answer(o)
    {
      hide Acquire, SelectedList, ClaimList, Anchor, Commit, Booked, Found;
      var request := requests[requestId].request;
      ghost var s := Abs();
      var id := ids.NextValue();
      var reservation := ids.NextValue();
      var lease := ids.NextValue();
      SelectionIgnoresCounter(s, Abs(), request, sel);
      var code, selected, claims := AcquireSelection(request, sel);
      CommitCases(s, Abs(), requestId, generation, count, sel);
      if code.Some? {
        return Failure(code.value);
      }
      var worker, boot := FindAnchor(selected);
      var p := Placement(id, generation, request.id, decision, request.experiment, request.experimentGeneration,
                         request.trial, epoch, selected, reservation, lease, worker, boot, Reserved, count, false);
      var rv := Reservation(reservation, lease, id, generation, request.id, request.experiment,
                            request.experimentGeneration, epoch, claims, Active);
      RecordPlacement(requestId, p, rv);
      return Success(PlacedAt(id));
    }

    /** The plans of all requirements, and whether every one of them has a candidate. */
    method BuildPlans(s: State, request: Request) returns (plans: seq<seq<Search.Candidate>>, satisfiable: bool)
      requires Plannable(s, request)
      ensures plans == ChoiceLists(s, limits, request)
      ensures satisfiable <==> [] !in plans
    {
      hide Choices;
      plans, satisfiable := [], true;
      for i := 0 to |request.requirements|
        invariant plans == ChoiceLists(s, limits, request)[..i]
        invariant satisfiable <==> [] !in plans
      {
        var plan := BuildPlan(s, limits, request, request.requirements[i]);
        if plan == [] {
          satisfiable := false;
        }
        plans := plans + [plan];
      }
    }

    /** Search over the plans. */
    method SearchPlans(s: State, request: Request, plans: seq<seq<Search.Candidate>>)
      returns (ranked: seq<Search.Ranked>)
      requires Plannable(s, request) && plans == ChoiceLists(s, limits, request)
      ensures ranked == Search.Run(SearchSpace(s, limits, request)).ranked
    {
      hide Choices;
      var bound := ComputeCrossBound(request.weights, |plans|);
      var space := SpaceWith(s, limits, request, plans).(bound := bound);
      var searcher := new Search.Searcher(space);
      searcher.SearchRecursive(0, 0);
      ranked := searcher.ranked;
      assert ranked == searcher.Result().ranked;
    }

    method NotPlaced(requestId: U64)
      requires requestId in requests
      modifies this`requests
      ensures Abs() == NoPlacementFor(old(Abs()), requestId)
    {
      requests := requests[requestId := requests[requestId].(state := RequestState.NoPlacement, current := 0)];
    }

    /** The four bounds checked before a commit. */
    method CheckBounds() returns (ok: bool)
      ensures ok <==> HasCapacity(Abs(), limits)
    {
      if |placements| >= limits.maxPlacements || |reservations| >= limits.maxReservations {
        return false;
      }
      var live := CountWhere(placements, IsLive);
      var active := CountWhere(reservations, IsActive);
      CountsAgree(Abs());
      return live < limits.maxActivePlacements && active < limits.maxActiveReservations;
    }

    /** Planning and search: no ranking when a requirement has no candidate or no selection is valid. */
    method FindRanking(s: State, request: Request) returns (ranked: seq<Search.Ranked>)
      requires Plannable(s, request)
      ensures ranked == RankingOf(s, limits, request)
    {
      hide Choices;
      var plans, satisfiable := BuildPlans(s, request);
      if !satisfiable {
        return [];
      }
      ranked := SearchPlans(s, request, plans);
    }

    /** schedule_locked. */
    method ScheduleLocked(requestId: U64, forced: nat, count: nat) returns (r: Result<Decision>)
      requires requestId in requests && Plannable(Abs(), requests[requestId].request)
      modifies this, ids
      ensures var o := Schedule(old(Abs()), limits, requestId, forced, count); Abs() == o.state && r == Answer(o)
    {
      hide Commit, Plannable, HasCapacity, RankingOf, Schedule, Found, NoPlacementFor, Search.Head;
      ghost var s := Abs();
      var request := requests[requestId].request;
      var ranked := FindRanking(Abs(), request);
      var decision := ids.NextValue();
      ScheduleCases(limits, s, Abs(), requestId, forced, count);
      if ranked == [] {
        NotPlaced(requestId);
        return Success(NoValidPlacement);
      }
      var ok := CheckBounds();
      if !ok {
        return Failure(ResourceExhausted);
      }
      var generation := if forced == 0 then 1 else forced;
      r := CommitSelection(decision, requestId, generation, count, Search.Head(ranked).selection);
    }

    method SubmitRequest(request: Request) returns (r: Result<Decision>)
      requires SlotsPositive(Abs())
      modifies this, ids
      ensures var o := Transitions.SubmitRequest(old(Abs()), limits, request); Abs() == o.state && r == Answer(o)
    {
      hide Schedule, Plannable;
      if !ValidRequest(request, limits) { return Failure(InvalidArgument); }
      if shuttingDown { return Failure(ShuttingDown); }
      if |requests| >= limits.maxRetainedRequests { return Failure(ResourceExhausted); }
      if request.id in requests { return Failure(DuplicateIdentity); }
      var active := CountWhere(requests, IsOpen);
      CountsAgree(Abs());
      if active >= limits.maxActiveRequests { return Failure(ResourceExhausted); }
      var key := UnitOfRequest(request);
      if key in unitCurrent && unitCurrent[key] in placements && Live(placements[unitCurrent[key]].state) {
        return Failure(Busy);
      }
      SubmittedPlannable(Abs(), limits, request);
      requests := requests[request.id := StoredRequest(request, Submitted, 0, 0)];
      r := ScheduleLocked(request.id, 0, 0);
    }

    method ReassignPlacement(id: U64, generation: nat, epoch: nat) returns (r: Result<Decision>)
      requires Reschedulable(Abs())
      modifies this, ids
      ensures var o := Transitions.ReassignPlacement(old(Abs()), limits, id, generation, epoch);
              Abs() == o.state && r == Answer(o)
    {
      hide Schedule, Terminate, Reschedulable, Plannable;
      if id == 0 || epoch == 0 { return Failure(InvalidIdentity); }
      if epoch != this.epoch { return Failure(StaleEpoch); }
      if id !in placements { return Failure(NotFound); }
      var p := placements[id];
      if generation != 0 && p.generation != generation { return Failure(StalePlacement); }
      TerminateReschedulable(Abs(), id, ReassignmentRequired);
      DeadUnchanged(Abs(), id, ReassignmentRequired);
      if Live(p.state) {
        TerminatePlacement(id, ReassignmentRequired);
      } else if !p.state.ReassignmentRequired? {
        return Failure(StalePlacement);
      }
      if p.request !in requests { return Failure(NotFound); }
      if p.reassignmentCount >= requests[p.request].request.maxReassignments {
        return Failure(ReassignmentRequiredCode);
      }
      PlannableHere(Abs(), p.request);
      r := ScheduleLocked(p.request, p.generation + 1, p.reassignmentCount + 1);
    }

    method PreemptPlacement(id: U64, generation: nat, epoch: nat) returns (r: Result<Decision>)
      requires Reschedulable(Abs())
      modifies this, ids
      ensures var o := Transitions.PreemptPlacement(old(Abs()), limits, id, generation, epoch);
              Abs() == o.state && r == Answer(o)
    {
      hide Schedule, Terminate, Reschedulable, Plannable;
      if id == 0 || epoch == 0 { return Failure(InvalidIdentity); }
      if epoch != this.epoch { return Failure(StaleEpoch); }
      if id !in placements { return Failure(NotFound); }
      var p := placements[id];
      if generation != 0 && p.generation != generation { return Failure(StalePlacement); }
      if !Live(p.state) { return Failure(NotLiveCode(p.state)); }
      TerminateReschedulable(Abs(), id, Preempted);
      TerminatePlacement(id, Preempted);
      if p.request !in requests { return Success(NoValidPlacement); }
      MarkedPlannable(Abs(), p.request, Submitted);
      requests := requests[p.request := requests[p.request].(state := Submitted)];
      if !requests[p.request].request.allowPreemption { return Success(NoValidPlacement); }
      if p.reassignmentCount >= requests[p.request].request.maxReassignments {
        return Success(NoValidPlacement);
      }
      r := ScheduleLocked(p.request, p.generation + 1, p.reassignmentCount + 1);
    }

    // -------------------------------------------------------------- export and import

    method ExportState() returns (d: Durable)
      ensures d == Export(limits, Abs())
    {
      var rs := ListValues(resources);
      var qs := ListValues(requests);
      var ps := ListValues(placements);
      var rvs := ListValues(reservations);
      d := Durable(FORMAT_VERSION, epoch, limits, ids.counter, rs, qs, ps, rvs);
    }

    /** Rebuilds the resources and the workers they name, and raises the identity floor. */
    method RestoreResources(rs: seq<Resource>, next: nat, floor: U64) returns (raised: U64)
      modifies this`resources, this`workers
      ensures resources == Emplaced(old(resources), rs, ResourceId, (r: Resource) => Restored(r, next))
      ensures workers == RestoredWorkers(old(workers), rs)
      ensures raised == Raise(floor, ResourceMarks(old(workers), rs))
    {
      raised := floor;
      for i := 0 to |rs|
        invariant resources == Emplaced(old(resources), rs[..i], ResourceId, (r: Resource) => Restored(r, next))
        invariant workers == RestoredWorkers(old(workers), rs[..i])
        invariant raised == Raise(floor, ResourceMarks(old(workers), rs[..i]))
      {
        assert rs[..i + 1][..i] == rs[..i];
        var r := rs[i];
        RaiseAppend(floor, ResourceMarks(old(workers), rs[..i]), r.ad.id);
        ghost var marks := ResourceMarks(old(workers), rs[..i]) + [r.ad.id];
        raised := if r.ad.id > raised then r.ad.id else raised;
        if r.ad.worker != 0 && r.ad.worker !in workers {
          RaiseAppend(floor, marks, r.ad.worker);
          RaiseAppend(floor, marks + [r.ad.worker], r.ad.boot);
          assert marks + [r.ad.worker] + [r.ad.boot] == marks + [r.ad.worker, r.ad.boot];
          raised := if r.ad.worker > raised then r.ad.worker else raised;
          raised := if r.ad.boot > raised then r.ad.boot else raised;
          workers := workers[r.ad.worker := WorkerRecord(r.ad.boot, false)];
        } else {
          assert marks + [] == marks;
        }
        if r.ad.id !in resources {
          resources := resources[r.ad.id := Restored(r, next)];
        }
      }
      assert rs[..|rs|] == rs;
    }

    /** Requests come back without a current placement; a placed one is submitted again. */
    method RestoreRequests(qs: seq<StoredRequest>, floor: U64) returns (raised: U64)
      modifies this`requests
      ensures requests == Emplaced(old(requests), qs, RequestId, RestoredRequest)
      ensures raised == Raise(floor, RequestMarks(qs))
    {
      raised := floor;
      for i := 0 to |qs|
        invariant requests == Emplaced(old(requests), qs[..i], RequestId, RestoredRequest)
        invariant raised == Raise(floor, RequestMarks(qs[..i]))
      {
        assert qs[..i + 1][..i] == qs[..i];
        var q := qs[i];
        raised := RaiseAll(floor, RequestMarks(qs[..i]), raised,
                           [q.request.id, q.request.experiment, q.request.experimentGeneration, q.request.trial]);
        if q.request.id !in requests {
          var state := if q.state.Placed? then Submitted else q.state;
          requests := requests[q.request.id := q.(state := state, current := 0)];
        }
      }
      assert qs[..|qs|] == qs;
    }

    /** Live placements become history: their authority does not survive the restart. */
    method RestorePlacements(ps: seq<Placement>, floor: U64) returns (raised: U64)
      modifies this`placements
      ensures placements == Emplaced(old(placements), ps, PlacementId, RestoredPlacement)
      ensures raised == Raise(floor, PlacementMarks(ps))
    {
      raised := floor;
      for i := 0 to |ps|
        invariant placements == Emplaced(old(placements), ps[..i], PlacementId, RestoredPlacement)
        invariant raised == Raise(floor, PlacementMarks(ps[..i]))
      {
        assert ps[..i + 1][..i] == ps[..i];
        var p := ps[i];
        raised := RaiseAll(floor, PlacementMarks(ps[..i]), raised,
                           [p.id, p.request, p.decision, p.reservation, p.lease]);
        if p.id !in placements {
          placements := placements[p.id := if Live(p.state) then p.(state := ReassignmentRequired) else p];
        }
      }
      assert ps[..|ps|] == ps;
    }

    /** No reservation survives as active. */
    method RestoreReservations(rvs: seq<Reservation>, floor: U64) returns (raised: U64)
      modifies this`reservations
      ensures reservations == Emplaced(old(reservations), rvs, ReservationId, RestoredReservation)
      ensures raised == Raise(floor, ReservationMarks(rvs))
    {
      raised := floor;
      for i := 0 to |rvs|
        invariant reservations == Emplaced(old(reservations), rvs[..i], ReservationId, RestoredReservation)
        invariant raised == Raise(floor, ReservationMarks(rvs[..i]))
      {
        assert rvs[..i + 1][..i] == rvs[..i];
        var rv := rvs[i];
        raised := RaiseAll(floor, ReservationMarks(rvs[..i]), raised, [rv.id, rv.lease, rv.placement]);
        if rv.id !in reservations {
          reservations := reservations[rv.id := if rv.state.Active? then rv.(state := Revoked) else rv];
        }
      }
      assert rvs[..|rvs|] == rvs;
    }

    /** The four loops of recovery, and the identity floor they leave. */
    method RestoreAll(d: Durable, next: nat) returns (floor: U64)
      modifies this`resources, this`workers, this`requests, this`placements, this`reservations
      ensures resources == Emplaced(old(resources), d.resources, ResourceId, (r: Resource) => Restored(r, next))
      ensures workers == RestoredWorkers(old(workers), d.resources)
      ensures requests == Emplaced(old(requests), d.requests, RequestId, RestoredRequest)
      ensures placements == Emplaced(old(placements), d.placements, PlacementId, RestoredPlacement)
      ensures reservations == Emplaced(old(reservations), d.reservations, ReservationId, RestoredReservation)
      ensures floor == Highest(Marks(old(workers), d))
    {
      hide Emplaced, RestoredWorkers, Highest, ResourceMarks, RequestMarks, PlacementMarks, ReservationMarks, Raise,
           Marks;
      FloorIsHighest(workers, d);
      floor := RestoreResources(d.resources, next, d.idCounter);
      floor := RestoreRequests(d.requests, floor);
      floor := RestorePlacements(d.placements, floor);
      floor := RestoreReservations(d.reservations, floor);
    }

    /** import_state. Which error a rejected image is reported with is left to the validation. */
    method ImportState(d: Durable) returns (r: Result<nat>)
      modifies this, ids
      ensures var o := Durability.ImportState(old(Abs()), d);
              Abs() == o.state && (r.Success? <==> o.Done?) && (r.Success? ==> r == Answer(o))
      ensures SoundDurable(d) && !Vacant(old(Abs())) ==> r == Failure(Busy)
    {
      hide SoundDurable, Emplaced, RestoredWorkers, Highest, Marks, Restored, RestoredRequest, RestoredPlacement,
           RestoredReservation;
      var checked := ValidateDurable(d);
      if checked != Ok {
        return Failure(checked.code);
      }
      if |resources| != 0 || |requests| != 0 || |placements| != 0 || |reservations| != 0 {
        return Failure(Busy);
      }
      epoch := d.epoch + 1;
      var floor := RestoreAll(d, epoch);
      ids.Observe(Wrap64(floor as int + 1));
      return Success(epoch);
    }
  }

  // ---------------------------------------------------------------- lemmas the methods use

  lemma SweepStart(s: State, keys: seq<U64>, pick: Placement -> bool, target: PlacementState)
    ensures TerminateWhere(s, keys[..0], pick, target) == s
  {
  }

  lemma SweepNext(s: State, keys: seq<U64>, i: nat, pick: Placement -> bool, target: PlacementState)
    requires i < |keys|
    ensures var t := TerminateWhere(s, keys[..i], pick, target); var id := keys[i];
            TerminateWhere(s, keys[..i + 1], pick, target)
            == if id in t.placements && Live(t.placements[id].state) && pick(t.placements[id])
               then Terminate(t, id, target) else t
  {
    hide Terminate;
    assert keys[..i + 1][..i] == keys[..i];
  }

  lemma ReleaseIgnoresPlacements(s: State, placements: map<U64, Placement>, id: U64, target: ReservationState)
    ensures Transitions.ReleaseReservation(s.(placements := placements), id, target)
         == Transitions.ReleaseReservation(s, id, target).(placements := placements)
  {
    hide ReleaseClaims;
    if id in s.reservations && s.reservations[id].state.Active? {
      var rv := s.reservations[id];
      var resources, reservations := ReleaseClaims(s.resources, rv.claims), s.reservations[id := rv.(state := target)];
      assert Transitions.ReleaseReservation(s, id, target) == s.(resources := resources, reservations := reservations);
    }
  }

  lemma ReleaseUnknown(s: State, id: U64, target: ReservationState)
    ensures id !in s.reservations ==> Transitions.ReleaseReservation(s, id, target) == s
  {
    hide ReleaseClaims;
  }

  function PartlyInvalidated(before: map<U64, Resource>, ids: seq<U64>, worker: U64, boot: U64): map<U64, Resource> {
    map id | id in before ::
      if id in ids && OwnedBy(before[id], worker, boot) then Invalidated(before[id]) else before[id]
  }

  function OwnedAmong(before: map<U64, Resource>, ids: seq<U64>, worker: U64, boot: U64): set<U64> {
    set id | id in before && id in ids && OwnedBy(before[id], worker, boot)
  }

  lemma InvalidateOneMore(before: map<U64, Resource>, ids: seq<U64>, id: U64, worker: U64, boot: U64)
    requires id in before && id !in ids
    ensures var now := PartlyInvalidated(before, ids, worker, boot);
            id in now && now[id] == before[id]
            && PartlyInvalidated(before, ids + [id], worker, boot)
               == if OwnedBy(before[id], worker, boot) then now[id := Invalidated(before[id])] else now
    ensures OwnedAmong(before, ids + [id], worker, boot)
         == OwnedAmong(before, ids, worker, boot) + if OwnedBy(before[id], worker, boot) then {id} else {}
  {
    hide Invalidated, OwnedBy;
  }

  lemma InvalidateAll(s: State, ids: seq<U64>, worker: U64, boot: U64)
    requires ids == SortedKeys(s.resources.Keys)
    ensures PartlyInvalidated(s.resources, ids, worker, boot) == InvalidateResources(s.resources, worker, boot)
    ensures OwnedAmong(s.resources, ids, worker, boot) == AffectedResources(s, worker, boot)
  {
    hide Invalidated, OwnedBy;
    forall id | id in s.resources ensures id in ids { SortedKeysExact(s.resources.Keys, id); }
  }

  lemma CheckedPlacement(s: State, c: CompletionClaim)
    requires CheckCompletion(s, c) == Ok
    ensures c.placement in s.placements
  {
  }

  lemma {:induction false} SortedKeysDistinct(keys: set<U64>, i: nat)
    requires i < |SortedKeys(keys)|
    ensures SortedKeys(keys)[i] !in SortedKeys(keys)[..i]
  {
    var m := SortedKeysHead(keys);
    if i > 0 {
      SortedKeysDistinct(keys - {m}, i - 1);
      SortedKeysExact(keys - {m}, SortedKeys(keys)[i]);
      assert SortedKeys(keys)[..i] == [m] + SortedKeys(keys - {m})[..i - 1];
    }
  }

  // ---------------------------------------------------------------- counting and listing

  predicate IsLive(p: Placement) { Live(p.state) }
  predicate IsActive(rv: Reservation) { rv.state.Active? }
  predicate IsOpen(q: StoredRequest) { q.state.Submitted? || q.state.Placed? }

  function KeysWhere<V>(m: map<U64, V>, keys: set<U64>, pick: V -> bool): set<U64> {
    set k | k in keys && k in m && pick(m[k])
  }

  method CountWhere<V>(m: map<U64, V>, pick: V -> bool) returns (n: nat)
    ensures n == |KeysWhere(m, m.Keys, pick)|
  {
    n := 0;
    var rest := m.Keys;
    while rest != {}
      invariant rest <= m.Keys && n + |KeysWhere(m, rest, pick)| == |KeysWhere(m, m.Keys, pick)|
    {
      var k :| k in rest;
      assert KeysWhere(m, rest, pick) == KeysWhere(m, rest - {k}, pick) + if pick(m[k]) then {k} else {};
      if pick(m[k]) {
        n := n + 1;
      }
      rest := rest - {k};
    }
    assert KeysWhere(m, {}, pick) == {};
  }

  lemma CountsAgree(s: State)
    ensures KeysWhere(s.placements, s.placements.Keys, IsLive) == LivePlacements(s)
    ensures KeysWhere(s.reservations, s.reservations.Keys, IsActive) == ActiveReservations(s)
    ensures KeysWhere(s.requests, s.requests.Keys, IsOpen) == ActiveRequests(s)
  {
  }

  method ListValues<V>(m: map<U64, V>) returns (vs: seq<V>)
    ensures vs == Values(m)
  {
    var keys := SortedKeys(m.Keys);
    vs := [];
    for i := 0 to |keys|
      invariant vs == ValuesAt(m, keys[..i])
    {
      SortedKeysExact(m.Keys, keys[i]);
      assert keys[..i + 1][..i] == keys[..i];
      vs := vs + [m[keys[i]]];
    }
    assert keys[..|keys|] == keys;
  }

  // ---------------------------------------------------------------- lemmas about scheduling

  lemma {:induction false} AcquireStops(resources: map<U64, Resource>, sel: Search.Selection, i: nat)
    requires i <= |sel|
    ensures Acquire(resources, sel[..i]).Blocked? ==> Acquire(resources, sel) == Acquire(resources, sel[..i])
  {
    if i < |sel| {
      var n := |sel| - 1;
      AcquireStops(resources, sel[..n], i);
      assert sel[..n][..i] == sel[..i];
    } else {
      assert sel[..i] == sel;
    }
  }

  lemma SelectionIgnoresCounter(s: State, t: State, request: Request, sel: Search.Selection)
    requires t == s.(lastId := t.lastId) && Found(s, sel) && |sel| == |request.requirements|
    ensures Found(t, sel) && SelectedList(t, request, sel) == SelectedList(s, request, sel)
    ensures ClaimList(t, sel) == ClaimList(s, sel)
  {
  }

  lemma AcquireNone(resources: map<U64, Resource>, sel: Search.Selection)
    ensures Acquire(resources, sel[..0]) == Acquired(resources)
  {
  }

  /** The records of the first `n` selected resources. */
  ghost predicate ListsUpTo(s: State, request: Request, sel: Search.Selection, selected: seq<Selected>,
                            claims: seq<Claim>, n: nat)
    requires Found(s, sel) && |sel| == |request.requirements|
  {
    && n <= |sel| && |selected| == |claims| == n
    && (forall j :: 0 <= j < n ==>
          selected[j] == SelectedOf(sel[j], s.resources[sel[j].id], request.requirements[j].name)
          && claims[j] == ClaimOf(sel[j], s.resources[sel[j].id]))
  }

  /** One more iteration of the commit loop: a full resource stops it for good. */
  lemma {:induction false} AcquireNext(s: State, sel: Search.Selection, i: nat)
    requires Found(s, sel) && i < |sel| && Acquire(s.resources, sel[..i]).Acquired?
    ensures var mid := Acquire(s.resources, sel[..i]).resources; var c := sel[i];
            c.id in mid
            && (if mid[c.id].reserved > Wrap32(mid[c.id].ad.slots - c.slots) then
                  Acquire(s.resources, sel) == Blocked(mid, CapacityExhausted)
                else
                  Acquire(s.resources, sel[..i + 1])
                  == Acquired(mid[c.id := mid[c.id].(reserved := Wrap32(mid[c.id].reserved + c.slots))]))
  {
    assert sel[..i + 1][..i] == sel[..i];
    AcquireStops(s.resources, sel, i + 1);
    assert sel[i].id in Acquire(s.resources, sel[..i]).resources by {
      hide Acquire;
      AcquireKeeps(s.resources, sel[..i]);
    }
  }

  /** Booking slots leaves the evidence a placement records as it was. */
  lemma {:induction false} ListsNext(s: State, request: Request, sel: Search.Selection, selected: seq<Selected>,
                                     claims: seq<Claim>, i: nat)
    requires Found(s, sel) && |sel| == |request.requirements| && i < |sel|
    requires ListsUpTo(s, request, sel, selected, claims, i)
    ensures var mid := Acquire(s.resources, sel[..i]).resources; var c := sel[i];
            c.id in mid
            && ListsUpTo(s, request, sel, selected + [SelectedOf(c, mid[c.id], request.requirements[i].name)],
                         claims + [ClaimOf(c, mid[c.id])], i + 1)
  {
    hide SelectedOf, ClaimOf, Acquire;
    AcquireKeeps(s.resources, sel[..i]);
    var mid := Acquire(s.resources, sel[..i]).resources;
    SameEvidence(sel[i], mid[sel[i].id], s.resources[sel[i].id], request.requirements[i].name);
  }

  lemma {:induction false} AcquireKeeps(resources: map<U64, Resource>, sel: Search.Selection)
    ensures SameAdvertisements(Acquire(resources, sel).resources, resources)
  {
    if sel != [] {
      AcquireKeeps(resources, sel[..|sel| - 1]);
    }
  }

  lemma SameEvidence(c: Search.Candidate, a: Resource, b: Resource, name: string)
    requires a == b.(reserved := a.reserved)
    ensures SelectedOf(c, a, name) == SelectedOf(c, b, name) && ClaimOf(c, a) == ClaimOf(c, b)
  {
  }

  lemma ListsComplete(s: State, request: Request, sel: Search.Selection, selected: seq<Selected>, claims: seq<Claim>)
    requires Found(s, sel) && |sel| == |request.requirements|
    requires ListsUpTo(s, request, sel, selected, claims, |sel|)
    ensures selected == SelectedList(s, request, sel) && claims == ClaimList(s, sel)
  {
    hide SelectedOf, ClaimOf;
  }

  /** The records a commit adds to a state whose slots are booked. */
  function Booked(s: State, requestId: U64, p: Placement, rv: Reservation): State
    requires requestId in s.requests
  {
    var stored := s.requests[requestId];
    var tenant := stored.request.tenant;
    s.(reservations := Emplace(s.reservations, rv.id, rv),
       placements := Emplace(s.placements, p.id, p),
       unitCurrent := s.unitCurrent[UnitOfRequest(stored.request) := p.id],
       requests := s.requests[requestId :=
         stored.(state := Placed, current := p.id, placementCount := stored.placementCount + 1)],
       tenantService :=
         if tenant == "" then s.tenantService
         else s.tenantService[tenant := (if tenant in s.tenantService then s.tenantService[tenant] else 0) + 1])
  }

  lemma CommitCases(s: State, t: State, requestId: U64, generation: nat, count: nat, sel: Search.Selection)
    requires requestId in s.requests && Found(s, sel) && |sel| == |s.requests[requestId].request.requirements|
    requires t == s.(lastId := NextId(NextId(NextId(s.lastId))), resources := Acquire(s.resources, sel).resources)
    ensures var request := s.requests[requestId].request;
            var p := NewPlacement(s, NextId(s.lastId), request, generation, count, SelectedList(s, request, sel));
            var a := Acquire(s.resources, sel);
            Commit(s, requestId, generation, count, sel)
            == if a.Blocked? then Refused(t, a.code)
               else Done(Booked(t, requestId, p, NewReservation(s, p, ClaimList(s, sel))), PlacedAt(NextId(s.lastId)))
  {
    hide Acquire, SelectedList, ClaimList, Anchor, Found;
  }

  lemma SubmittedPlannable(s: State, limits: Limits, request: Request)
    requires SlotsPositive(s) && ValidRequest(request, limits)
    ensures Plannable(s.(requests := s.requests[request.id := StoredRequest(request, Submitted, 0, 0)]), request)
  {
  }

  lemma PlannableHere(s: State, requestId: U64)
    requires Reschedulable(s) && requestId in s.requests
    ensures Plannable(s, s.requests[requestId].request)
  {
  }

  lemma MarkedPlannable(s: State, requestId: U64, state: RequestState)
    requires Reschedulable(s) && requestId in s.requests
    ensures var q := s.requests[requestId].(state := state);
            Plannable(s.(requests := s.requests[requestId := q]), q.request)
  {
  }

  lemma DeadUnchanged(s: State, id: U64, target: PlacementState)
    requires id in s.placements
    ensures !Live(s.placements[id].state) ==> Terminate(s, id, target) == s
  {
  }

  // ---------------------------------------------------------------- the identity floor

  /** Raising a floor by a list of identities, one after the other. */
  function Raise(floor: U64, marks: seq<U64>): U64 {
    Max(floor, Highest(marks))
  }

  lemma RaiseAppend(floor: U64, marks: seq<U64>, mark: U64)
    ensures Raise(floor, marks + [mark]) == Max(Raise(floor, marks), mark)
  {
    assert (marks + [mark])[..|marks|] == marks;
  }

  /** Observing a few more identities. */
  method RaiseAll(floor: U64, ghost marks: seq<U64>, before: U64, more: seq<U64>) returns (raised: U64)
    requires before == Raise(floor, marks)
    ensures raised == Raise(floor, marks + more)
  {
    raised := before;
    assert marks + more[..0] == marks;
    for i := 0 to |more|
      invariant raised == Raise(floor, marks + more[..i])
    {
      RaiseAppend(floor, marks + more[..i], more[i]);
      assert marks + more[..i] + [more[i]] == marks + more[..i + 1];
      if more[i] > raised {
        raised := more[i];
      }
    }
    assert more[..|more|] == more;
  }

  lemma {:induction false} HighestJoins(xs: seq<U64>, ys: seq<U64>)
    ensures Highest(xs + ys) == Max(Highest(xs), Highest(ys))
  {
    if ys == [] {
      assert xs + ys == xs;
    } else {
      var n := |ys| - 1;
      HighestJoins(xs, ys[..n]);
      assert (xs + ys)[..|xs| + n] == xs + ys[..n];
    }
  }

  /** The floor raised list by list is the largest identity of them all. */
  lemma FloorIsHighest(workers: map<U64, WorkerRecord>, d: Durable)
    ensures Raise(Raise(Raise(Raise(d.idCounter, ResourceMarks(workers, d.resources)), RequestMarks(d.requests)),
                        PlacementMarks(d.placements)), ReservationMarks(d.reservations))
         == Highest(Marks(workers, d))
  {
    var a, b := ResourceMarks(workers, d.resources), RequestMarks(d.requests);
    var c, e := PlacementMarks(d.placements), ReservationMarks(d.reservations);
    HighestJoins([d.idCounter], a);
    HighestJoins([d.idCounter] + a, b);
    HighestJoins([d.idCounter] + a + b, c);
    HighestJoins([d.idCounter] + a + b + c, e);
    assert Highest([d.idCounter]) == d.idCounter;
  }
}
