/** Coordinator incarnations: an engine, the images it exported but has not written out yet, and the file
    the next incarnation starts from (src/cluster.cpp:249-293, 744-747, src/engine_recovery.cpp:36-39,
    src/engine_state.cpp:79-92). Two connections may write their exports out of order, and a crash loses
    whatever was not written out. */
module Crashes {
  import opened Prelude
  import opened Records
  import opened Planning
  import opened Transitions
  import opened Invariants
  import opened Endings
  import opened Commitment
  import opened Steps
  import opened Durability
  import opened Recovery
  import opened Units
  import opened Exclusivity
  import opened Evidence

  /** `pending` and `disk` hold the engine states whose exports are being written or are on disk; `past`
      holds the epochs of earlier incarnations, oldest first. */
  datatype System = System(engine: State, pending: seq<State>, disk: Option<State>, saved: bool, past: seq<nat>)

  datatype Event = Act(op: Op) | Snapshot | WriteOut(index: nat) | CrashRestart

  const BOOT := System(EMPTY_STATE, [], None, false, [])

  /** A new incarnation: from the file if there is one. */
  function Restart(limits: Limits, disk: Option<State>): State {
    if disk.None? then EMPTY_STATE else ImportState(EMPTY_STATE, Export(limits, disk.value)).state
  }

  /** The image on disk can be recovered: its counts are within bounds and its identities leave room. */
  ghost predicate Loadable(limits: Limits, disk: Option<State>) {
    disk.Some? ==> Storable(limits, disk.value) && RoomAbove(EMPTY_STATE, Export(limits, disk.value))
  }

  ghost predicate Possible(limits: Limits, sys: System, ev: Event) {
    match ev
    case Act(op) => !op.Advance? && sys.engine.lastId + 4 < TWO_64
    case Snapshot => true
    case WriteOut(index) => index < |sys.pending|
    case CrashRestart => Loadable(limits, sys.disk)
  }

  function Next(limits: Limits, sys: System, ev: Event): System
    requires Reschedulable(sys.engine) && (ev.WriteOut? ==> ev.index < |sys.pending|)
  {
    match ev
    case Act(op) => sys.(engine := Step(limits, sys.engine, op))
    case Snapshot => sys.(pending := sys.pending + [sys.engine])
    case WriteOut(index) =>
      sys.(disk := Some(sys.pending[index]), saved := true,
           pending := sys.pending[..index] + sys.pending[index + 1..])
    case CrashRestart =>
      System(Restart(limits, sys.disk), [], sys.disk, false, sys.past + [sys.engine.epoch])
  }

  /** The file belongs to this incarnation once it has saved, and to the one it recovered from before. */
  ghost predicate SystemInv(limits: Limits, sys: System) {
    && Inv(limits, sys.engine)
    && (forall i :: 0 <= i < |sys.pending| ==>
          Inv(limits, sys.pending[i]) && sys.pending[i].epoch == sys.engine.epoch)
    && (sys.disk.Some? ==> Inv(limits, sys.disk.value))
    && (sys.saved ==> sys.disk.Some? && sys.disk.value.epoch == sys.engine.epoch)
    && (!sys.saved && sys.disk.Some? ==> sys.disk.value.epoch + 1 == sys.engine.epoch)
    && (!sys.saved && sys.disk.None? ==> sys.engine.epoch == 1)
  }

  // ---------------------------------------------------------------- epochs within an incarnation

  lemma ScheduleEpoch(limits: Limits, s: State, requestId: U64, forced: nat, count: nat)
    requires requestId in s.requests && Plannable(s, s.requests[requestId].request)
    ensures Schedule(s, limits, requestId, forced, count).state.epoch == s.epoch
  {
    hide Acquire, SelectedList, ClaimList, Anchor, SearchSpace, ChoiceLists, HasCapacity, Found, Plannable;
  }

  lemma ReschedulingEpoch(limits: Limits, s: State, id: U64, generation: nat, epoch: nat)
    requires Reschedulable(s)
    ensures ReassignPlacement(s, limits, id, generation, epoch).state.epoch == s.epoch
    ensures PreemptPlacement(s, limits, id, generation, epoch).state.epoch == s.epoch
  {
    hide Schedule, Terminate, Plannable, Reschedulable;
    TerminateFrame(s, id, ReassignmentRequired);
    TerminateFrame(s, id, Preempted);
    if id in s.placements {
      var p := s.placements[id];
      TerminateReschedulable(s, id, ReassignmentRequired);
      TerminateReschedulable(s, id, Preempted);
      var t, u := Terminate(s, id, ReassignmentRequired), Terminate(s, id, Preempted);
      if p.request in s.requests {
        PlannableAfter(t, p.request);
        PlannableAfter(u, p.request);
        var q := u.requests[p.request].(state := Submitted);
        ScheduleEpoch(limits, t, p.request, p.generation + 1, p.reassignmentCount + 1);
        SubmittedPlannable(u, p.request, q);
        ScheduleEpoch(limits, u.(requests := u.requests[p.request := q]), p.request,
                      p.generation + 1, p.reassignmentCount + 1);
      }
    }
  }

  lemma PlannableAfter(s: State, requestId: U64)
    requires Reschedulable(s) && requestId in s.requests
    ensures Plannable(s, s.requests[requestId].request)
  {
  }

  lemma SubmittedPlannable(s: State, requestId: U64, q: StoredRequest)
    requires Reschedulable(s) && requestId in s.requests && q.request == s.requests[requestId].request
    ensures Plannable(s.(requests := s.requests[requestId := q]), q.request)
  {
  }

  lemma ResourceEpochs(limits: Limits, s: State, ad: Advertisement)
    requires Inv(limits, s)
    ensures RegisterResource(s, limits, ad).state.epoch == s.epoch && PublishResource(s, ad).state.epoch == s.epoch
  {
    hide Inv, Adopt, ValidAdvertisement, Publication, Registration, ValidResource;
    AdoptKeeps(limits, s, ad.worker, ad.boot);
  }

  lemma WorkerEpochs(limits: Limits, s: State, worker: U64, boot: U64)
    requires Inv(limits, s)
    ensures WorkerConnected(s, worker, boot).state.epoch == s.epoch == MarkWorkerLost(s, worker, boot).state.epoch
  {
    hide Inv, Adopt, Invalidate;
    AdoptKeeps(limits, s, worker, boot);
    LossFrame(limits, s, worker, boot);
  }

  lemma PlacementEpochs(s: State, id: U64, generation: nat, epoch: nat, boot: U64)
    ensures MarkAssigned(s, id, generation, epoch, boot).state.epoch == s.epoch
    ensures MarkRunning(s, id, generation, epoch, boot).state.epoch == s.epoch
    ensures CancelPlacement(s, id, generation, epoch).state.epoch == s.epoch
  {
    hide Terminate, CheckMark, SameRequests, SameAdvertisements;
    TerminateFrame(s, id, Cancelled);
  }

  lemma CancelAllEpoch(limits: Limits, s: State, requestId: U64)
    requires Inv(limits, s)
    ensures CancelRequest(s, requestId).state.epoch == s.epoch
  {
    hide Inv, TerminateWhere, SameRequests, Relieved, Refreed, Moved;
    SweepInv(limits, s, SortedKeys(s.placements.Keys), BelongsTo(requestId), Cancelled);
  }

  /** Only adopt_epoch changes the epoch. */
  lemma StepEpoch(limits: Limits, s: State, op: Op)
    requires Inv(limits, s) && !op.Advance?
    ensures Reschedulable(s) && Step(limits, s, op).epoch == s.epoch
  {
    hide Inv, Reschedulable, RegisterResource, PublishResource, RetireResource, WorkerConnected, MarkWorkerLost,
         SubmitRequest, ReportCompletion, CancelPlacement, CancelRequest, ReassignPlacement, PreemptPlacement,
         MarkAssigned, MarkRunning;
    PlanReady(limits, s, 0);
    match op {
      case Register(ad) => ResourceEpochs(limits, s, ad);
      case Publish(ad) => ResourceEpochs(limits, s, ad);
      case Retire(id, expected) => RetireEpoch(s, id, expected);
      case Connect(worker, boot) => WorkerEpochs(limits, s, worker, boot);
      case LoseWorker(worker, boot) => WorkerEpochs(limits, s, worker, boot);
      case Submit(request) => SubmitEpoch(limits, s, request);
      case Assign(id, generation, epoch, boot) => PlacementEpochs(s, id, generation, epoch, boot);
      case Start(id, generation, epoch, boot) => PlacementEpochs(s, id, generation, epoch, boot);
      case Complete(claim) => CompleteEpoch(s, claim);
      case Cancel(id, generation, epoch) => PlacementEpochs(s, id, generation, epoch, 0);
      case CancelAll(requestId) => CancelAllEpoch(limits, s, requestId);
      case Reassign(id, generation, epoch) => ReschedulingEpoch(limits, s, id, generation, epoch);
      case Preempt(id, generation, epoch) => ReschedulingEpoch(limits, s, id, generation, epoch);
      case Shutdown =>
    }
  }

  lemma RetireEpoch(s: State, id: U64, expected: nat)
    ensures RetireResource(s, id, expected).state.epoch == s.epoch
  {
  }

  lemma SubmitEpoch(limits: Limits, s: State, request: Request)
    requires Inv(limits, s) && Reschedulable(s)
    ensures SubmitRequest(s, limits, request).state.epoch == s.epoch
  {
    hide Inv, Schedule, Plannable;
    if ValidRequest(request, limits) && request.id !in s.requests {
      var t := s.(requests := s.requests[request.id := StoredRequest(request, Submitted, 0, 0)]);
      assert Plannable(t, request) by { NewlyPlannable(limits, s, request); }
      ScheduleEpoch(limits, t, request.id, 0, 0);
    }
  }

  lemma NewlyPlannable(limits: Limits, s: State, request: Request)
    requires Reschedulable(s) && ValidRequest(request, limits)
    ensures Plannable(s.(requests := s.requests[request.id := StoredRequest(request, Submitted, 0, 0)]), request)
  {
  }

  lemma CompleteEpoch(s: State, claim: CompletionClaim)
    ensures ReportCompletion(s, claim).state.epoch == s.epoch
  {
    hide Terminate;
    if CheckCompletion(s, claim) == Ok {
      var p := s.placements[claim.placement].(completionRecorded := true);
      TerminateFrame(s.(placements := s.placements[claim.placement := p]), claim.placement,
                     if claim.succeeded then Completed else Failed);
    }
  }

  // ---------------------------------------------------------------- every event keeps the invariant

  lemma BootInv(limits: Limits)
    ensures SystemInv(limits, BOOT)
  {
    EmptyInv(limits, EMPTY_STATE);
  }

  lemma RestartInv(limits: Limits, disk: Option<State>)
    requires disk.Some? ==> Inv(limits, disk.value)
    requires Loadable(limits, disk)
    ensures Inv(limits, Restart(limits, disk))
    ensures Restart(limits, disk).epoch == if disk.Some? then disk.value.epoch + 1 else 1
    ensures Quiescent(Restart(limits, disk))
  {
    hide Inv, Export, Marks, Storable, RoomAbove;
    if disk.Some? {
      RecoveryIsTotal(limits, disk.value, EMPTY_STATE);
    } else {
      EmptyInv(limits, EMPTY_STATE);
    }
  }

  /** A new incarnation starts with everything the conditional run theorems ask for. */
  lemma RestartIsSafe(limits: Limits, disk: Option<State>)
    requires disk.Some? ==> Inv(limits, disk.value)
    requires Loadable(limits, disk)
    ensures var t := Restart(limits, disk);
            UnitExact(t.placements, t.unitCurrent) && Covering(t.resources, t.reservations) && StaleFree(t.resources)
            && ((disk.Some? ==> Evidenced(disk.value.requests)) ==> Evidenced(t.requests))
  {
    hide Inv, Restart, Loadable, NeedsEvidence;
    RestartInv(limits, disk);
    RestartRequests(limits, disk);
  }

  /** A new incarnation knows the requests of the file, as they were submitted. */
  lemma RestartRequests(limits: Limits, disk: Option<State>)
    requires disk.Some? ==> Inv(limits, disk.value)
    requires Loadable(limits, disk)
    ensures var t := Restart(limits, disk);
            forall k :: k in t.requests ==>
              disk.Some? && k in disk.value.requests
              && t.requests[k].request == disk.value.requests[k].request
  {
    hide Inv, Export, Marks, Storable, RoomAbove, Recovered, Quiescent;
    if disk.Some? {
      RecoveryIsTotal(limits, disk.value, EMPTY_STATE);
      RecoveredReborn(limits, disk.value, EMPTY_STATE);
    }
  }

  lemma NextInv(limits: Limits, sys: System, ev: Event)
    requires SystemInv(limits, sys) && Possible(limits, sys, ev) && limits.maxRejectionReasons >= 1
    ensures Reschedulable(sys.engine) && SystemInv(limits, Next(limits, sys, ev))
  {
    hide Inv, Step, Restart, Loadable, Reschedulable, Quiescent;
    PlanReady(limits, sys.engine, 0);
    match ev
    case Act(op) => StepInv(limits, sys.engine, op); StepEpoch(limits, sys.engine, op);
    case Snapshot =>
    case WriteOut(index) =>
    case CrashRestart => RestartInv(limits, sys.disk);
  }

  /** A crash moves to a new epoch exactly when the incarnation had written out one of its exports;
      otherwise the next incarnation repeats the epoch. */
  lemma CrashAdvances(limits: Limits, sys: System)
    requires SystemInv(limits, sys) && Possible(limits, sys, CrashRestart)
    ensures Reschedulable(sys.engine)
    ensures var t := Next(limits, sys, CrashRestart);
            t.engine.epoch == (if sys.saved then sys.engine.epoch + 1 else sys.engine.epoch)
  {
    hide Inv, Restart, Loadable, Reschedulable, Quiescent;
    PlanReady(limits, sys.engine, 0);
    RestartInv(limits, sys.disk);
  }

  // ---------------------------------------------------------------- runs

  function RunSystem(limits: Limits, sys: System, evs: seq<Event>): (t: System)
    requires SystemInv(limits, sys) && limits.maxRejectionReasons >= 1 && Feasible(limits, sys, evs)
    ensures SystemInv(limits, t)
    decreases |evs|
  {
    if evs == [] then sys
    else
      NextInv(limits, sys, evs[0]);
      RunSystem(limits, Next(limits, sys, evs[0]), evs[1..])
  }

  ghost predicate Feasible(limits: Limits, sys: System, evs: seq<Event>)
    requires SystemInv(limits, sys) && limits.maxRejectionReasons >= 1
    decreases |evs|
  {
    evs == []
    || (Possible(limits, sys, evs[0])
        && (NextInv(limits, sys, evs[0]); Feasible(limits, Next(limits, sys, evs[0]), evs[1..])))
  }

  /** No incarnation crashes before one of its own exports is on disk. */
  ghost predicate SavesFirst(limits: Limits, sys: System, evs: seq<Event>)
    requires SystemInv(limits, sys) && limits.maxRejectionReasons >= 1 && Feasible(limits, sys, evs)
    decreases |evs|
  {
    evs == []
    || ((evs[0].CrashRestart? ==> sys.saved)
        && (NextInv(limits, sys, evs[0]); SavesFirst(limits, Next(limits, sys, evs[0]), evs[1..])))
  }

  ghost predicate Fenced(sys: System) {
    Ascending(sys.past) && forall i :: 0 <= i < |sys.past| ==> sys.past[i] < sys.engine.epoch
  }

  lemma {:induction false} EpochsIncrease(limits: Limits, sys: System, evs: seq<Event>)
    requires SystemInv(limits, sys) && limits.maxRejectionReasons >= 1 && Feasible(limits, sys, evs)
    requires SavesFirst(limits, sys, evs) && Fenced(sys)
    ensures Fenced(RunSystem(limits, sys, evs))
    decreases |evs|
  {
    hide SystemInv, Loadable;
    if evs != [] {
      NextInv(limits, sys, evs[0]);
      NextFenced(limits, sys, evs[0]);
      EpochsIncrease(limits, Next(limits, sys, evs[0]), evs[1..]);
    }
  }

  lemma NextFenced(limits: Limits, sys: System, ev: Event)
    requires SystemInv(limits, sys) && Possible(limits, sys, ev) && limits.maxRejectionReasons >= 1
    requires Fenced(sys) && (ev.CrashRestart? ==> sys.saved)
    ensures Reschedulable(sys.engine) && Fenced(Next(limits, sys, ev))
  {
    hide Inv, Restart, Loadable, Reschedulable, Step;
    PlanReady(limits, sys.engine, 0);
    match ev
    case Act(op) => StepEpoch(limits, sys.engine, op);
    case Snapshot =>
    case WriteOut(index) =>
    case CrashRestart => CrashAdvances(limits, sys);
  }

  // ---------------------------------------------------------------- what a stale epoch can do

  /** Operations that carry the epoch of the placement they act on. */
  predicate Carries(op: Op, epoch: nat) {
    match op
    case Assign(_, _, e, _) => e == epoch
    case Start(_, _, e, _) => e == epoch
    case Complete(claim) => claim.epoch == epoch
    case Cancel(_, _, e) => e == epoch
    case Reassign(_, _, e) => e == epoch
    case Preempt(_, _, e) => e == epoch
    case _ => false
  }

  lemma StaleIsRejected(limits: Limits, s: State, op: Op, epoch: nat)
    requires Reschedulable(s) && Carries(op, epoch) && epoch != s.epoch
    ensures Step(limits, s, op) == s
  {
    hide Schedule, Terminate, Reschedulable;
  }

  /** Crash fencing: over any run of operations, exports, out-of-order writes and crashes from the first
      start, if every incarnation saves before it crashes, epochs strictly increase and an operation
      that carries an earlier incarnation's epoch leaves the engine as it is. */
  lemma CrashFencing(limits: Limits, evs: seq<Event>, op: Op, i: nat)
    requires limits.maxRejectionReasons >= 1
    requires (BootInv(limits); Feasible(limits, BOOT, evs) && SavesFirst(limits, BOOT, evs))
    requires var sys := RunSystem(limits, BOOT, evs); i < |sys.past| && Carries(op, sys.past[i])
    ensures var sys := RunSystem(limits, BOOT, evs);
            Fenced(sys) && Reschedulable(sys.engine) && Step(limits, sys.engine, op) == sys.engine
  {
    hide Inv, Step, Carries, Reschedulable;
    BootInv(limits);
    EpochsIncrease(limits, BOOT, evs);
    var sys := RunSystem(limits, BOOT, evs);
    PlanReady(limits, sys.engine, 0);
    StaleIsRejected(limits, sys.engine, op, sys.past[i]);
  }

  /** Without that save the fence is down: a second crash right after a recovery starts an incarnation
      with the epoch of the one that just died. */
  lemma UnsavedEpochRepeats(limits: Limits, sys: System)
    requires SystemInv(limits, sys) && limits.maxRejectionReasons >= 1 && Possible(limits, sys, CrashRestart)
    ensures Reschedulable(sys.engine)
    ensures var once := Next(limits, sys, CrashRestart);
            SystemInv(limits, once) && Reschedulable(once.engine)
            && Next(limits, once, CrashRestart).engine.epoch == once.engine.epoch
            && once.engine.epoch in Next(limits, once, CrashRestart).past
  {
    hide Inv, Restart, Loadable, Reschedulable;
    NextInv(limits, sys, CrashRestart);
    var once := Next(limits, sys, CrashRestart);
    CrashAdvances(limits, once);
  }
}
