/** The coordinator around one engine (src/cluster.cpp:249-293): starting from the persisted image if
    there is one, and serving one operation at a time. */
module Coordinator {
  import opened Prelude
  import opened Records
  import opened Planning
  import opened Transitions
  import opened Invariants
  import opened Steps
  import opened Durability
  import opened Recovery
  import opened Engine

  /** One operation on the engine object is one step of the specification and keeps every invariant. */
  method Serve(engine: SchedulerEngine, op: Op)
    requires Inv(engine.limits, engine.Abs()) && engine.ids.counter + 4 < TWO_64
    requires engine.limits.maxRejectionReasons >= 1
    modifies engine, engine.ids
    ensures Reschedulable(old(engine.Abs())) && engine.Abs() == Step(engine.limits, old(engine.Abs()), op)
    ensures Inv(engine.limits, engine.Abs())
    ensures engine.ids.counter <= old(engine.ids.counter) + 4
  {
    hide Inv, Reschedulable, Transitions.RegisterResource, Transitions.PublishResource, Transitions.RetireResource,
         Transitions.WorkerConnected, Transitions.MarkWorkerLost, Transitions.SubmitRequest,
         Transitions.ReportCompletion, Transitions.CancelPlacement, Transitions.CancelRequest,
         Transitions.ReassignPlacement, Transitions.PreemptPlacement, Transitions.MarkAssigned,
         Transitions.MarkRunning, Transitions.AdoptEpoch, Transitions.BeginShutdown;
    StepInv(engine.limits, engine.Abs(), op);
    ReadyForSubmissions(engine.Abs());
    match op {
      case Register(ad) => var _ := engine.RegisterResource(ad);
      case Publish(ad) => var _ := engine.PublishResource(ad);
      case Retire(id, expected) => var _ := engine.RetireResource(id, expected);
      case Connect(worker, boot) => var _ := engine.WorkerConnected(worker, boot);
      case LoseWorker(worker, boot) => var _ := engine.MarkWorkerLost(worker, boot);
      case Submit(request) => var _ := engine.SubmitRequest(request);
      case Assign(id, generation, epoch, boot) => var _ := engine.MarkAssigned(id, generation, epoch, boot);
      case Start(id, generation, epoch, boot) => var _ := engine.MarkRunning(id, generation, epoch, boot);
      case Complete(claim) => var _ := engine.ReportCompletion(claim);
      case Cancel(id, generation, epoch) => var _ := engine.CancelPlacement(id, generation, epoch);
      case CancelAll(requestId) => var _ := engine.CancelRequest(requestId);
      case Reassign(id, generation, epoch) => var _ := engine.ReassignPlacement(id, generation, epoch);
      case Preempt(id, generation, epoch) => var _ := engine.PreemptPlacement(id, generation, epoch);
      case Advance(epoch) => var _ := engine.AdoptEpoch(epoch);
      case Shutdown => var _ := engine.BeginShutdown();
    }
  }

  lemma ReadyForSubmissions(s: State)
    requires Reschedulable(s)
    ensures SlotsPositive(s)
  {
  }

  /** A new incarnation starts with the persisted image, or empty when there is none; it refuses to start
      exactly when the image is not sound. */
  method StartCoordinator(limits: Limits, image: Option<Durable>) returns (started: bool, engine: SchedulerEngine)
    ensures fresh(engine) && fresh(engine.ids) && engine.limits == limits
    ensures started <==> (image.Some? ==> SoundDurable(image.value))
    ensures started ==> engine.Abs() == if image.Some? then Recovered(EMPTY_STATE, image.value) else EMPTY_STATE
  {
    hide SoundDurable, Recovered;
    engine := new SchedulerEngine(limits, 1);
    if image.None? {
      return true, engine;
    }
    var r := engine.ImportState(image.value);
    started := r.Success?;
  }

  /** Stopping an engine and starting the next one from its export: the new engine is consistent,
      quiescent and one epoch ahead. */
  method Handover(previous: SchedulerEngine) returns (engine: SchedulerEngine)
    requires Inv(previous.limits, previous.Abs()) && Storable(previous.limits, previous.Abs())
    requires RoomAbove(EMPTY_STATE, Export(previous.limits, previous.Abs()))
    ensures engine.limits == previous.limits && Inv(engine.limits, engine.Abs()) && Quiescent(engine.Abs())
    ensures engine.Abs().epoch == previous.Abs().epoch + 1 && engine.Abs().lastId > previous.Abs().lastId
  {
    hide Inv, SoundDurable, Storable, RoomAbove, Quiescent, Recovered, Export;
    RecoveryIsTotal(previous.limits, previous.Abs(), EMPTY_STATE);
    var image := previous.ExportState();
    var started;
    started, engine := StartCoordinator(previous.limits, Some(image));
  }
}
