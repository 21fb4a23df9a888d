/** The records the scheduler keeps: what a resource advertises, what a request asks for, and the
    placement, reservation and worker entries of the engine state. Identities are 64-bit values with
    0 as the null identity; text is kept only where a decision reads it. */
module Records {
  import opened Prelude

  datatype ResourceClass =
    | Model | Gpu | Simulator | Dataset | PhysicalEnvironment | VirtualEnvironment | WorkerClass

  datatype SharingMode = Shared | Exclusive
  datatype HealthState = HealthUnknown | Healthy | Degraded | Unhealthy
  datatype ReadinessState = ReadyUnknown | Ready | NotReady | Unsupported
  datatype Lifecycle = Registered | Current | Retired | Lost
  datatype Scope = Host | NumaDomain | RootComplex | Rack | Cluster

  datatype Topology = Topology(host: U64, numa: U64, rootComplex: U64, rack: U64, cluster: U64)

  function Domain(t: Topology, scope: Scope): U64 {
    match scope
    case Host => t.host
    case NumaDomain => t.numa
    case RootComplex => t.rootComplex
    case Rack => t.rack
    case Cluster => t.cluster
  }

  datatype Accelerator = Accelerator(id: U64, memory: U64)
  datatype ModelDescriptor = ModelDescriptor(id: U64, version: string, resident: bool)
  datatype SimulatorDescriptor =
    SimulatorDescriptor(id: U64, version: string, scenarios: seq<string>, maxSessions: U32)
  datatype DatasetDescriptor = DatasetDescriptor(id: U64, version: U64)
  datatype EnvironmentDescriptor =
    EnvironmentDescriptor(id: U64, imageDigest: string, virtualEnvironment: U64, physicalEnvironment: U64)

  /** Everything a resource publishes about itself. */
  datatype Advertisement = Advertisement(
    id: U64,
    resourceClass: ResourceClass,
    worker: U64,
    boot: U64,
    sharing: SharingMode,
    capabilities: set<U64>,
    slots: U32,
    memory: U64,
    maxSessions: U32,
    occupancy: U32,
    health: HealthState,
    readiness: ReadinessState,
    topology: Topology,
    localDatasets: seq<U64>,
    accelerators: seq<Accelerator>,
    model: Option<ModelDescriptor>,
    simulator: Option<SimulatorDescriptor>,
    dataset: Option<DatasetDescriptor>,
    environment: Option<EnvironmentDescriptor>,
    tenant: string)

  /** The scheduler's record of a resource: the last accepted advertisement and its authority. */
  datatype Resource = Resource(
    ad: Advertisement,
    lifecycle: Lifecycle,
    generation: nat,
    healthGeneration: nat,
    capacityGeneration: nat,
    stateSequence: nat,
    validatedEpoch: nat,
    authoritative: bool,
    reserved: U32)

  function TotalOccupancy(r: Resource): U32 {
    Wrap32(r.ad.occupancy + r.reserved)
  }

  function AvailableSlots(r: Resource): U32 {
    var used := Wrap32(r.ad.occupancy + r.reserved);
    if used >= r.ad.slots then 0 else r.ad.slots - used
  }

  datatype Requirement = Requirement(
    name: string,
    resourceClass: ResourceClass,
    capabilities: set<U64>,
    minSlots: U32,
    minMemory: U64,
    requireExclusive: bool,
    requireCurrentEvidence: bool,
    minimumHealth: HealthState,
    maxOccupancyPercent: U32,
    accelerator: Option<U64>,
    model: Option<U64>,
    modelVersion: string,
    requireModelResident: bool,
    simulator: Option<U64>,
    simulatorVersion: string,
    simulatorScenario: string,
    requireSimulatorReady: bool,
    dataset: Option<U64>,
    datasetVersion: Option<U64>,
    environment: Option<U64>,
    environmentDigest: string,
    physicalEnvironment: Option<U64>,
    virtualEnvironment: Option<U64>,
    requiredDomain: Option<U64>,
    requiredDomainScope: Scope,
    allowlist: seq<U64>,
    denylist: seq<U64>,
    affinityGroup: U32)

  /** An affinity or anti-affinity constraint between two groups of requirements. */
  datatype GroupConstraint = GroupConstraint(groupA: U32, groupB: U32, scope: Scope)

  datatype Request = Request(
    id: U64,
    experiment: U64,
    experimentGeneration: U64,
    trial: U64,
    tenant: string,
    priority: int,
    requirements: seq<Requirement>,
    affinity: seq<GroupConstraint>,
    antiAffinity: seq<GroupConstraint>,
    experimentAntiAffinity: bool,
    exclusive: bool,
    allowPreemption: bool,
    maxReassignments: nat,
    weights: seq<int>)

  datatype RequestState = Submitted | Placed | RequestCompleted | RequestFailed | RequestCancelled | NoPlacement

  datatype StoredRequest = StoredRequest(
    request: Request, state: RequestState, current: U64, placementCount: nat)

  datatype Selected = Selected(
    resource: U64,
    resourceClass: ResourceClass,
    generation: nat,
    slots: U32,
    exclusive: bool,
    requirementName: string,
    worker: U64,
    workerBoot: U64)

  datatype PlacementState =
    | Reserved | Assigned | Running | Completed | Failed | Cancelled | Preempted | ReassignmentRequired | LostPlacement

  predicate Live(state: PlacementState) {
    state.Reserved? || state.Assigned? || state.Running?
  }

  datatype Placement = Placement(
    id: U64,
    generation: nat,
    request: U64,
    decision: U64,
    experiment: U64,
    experimentGeneration: U64,
    trial: U64,
    epoch: nat,
    resources: seq<Selected>,
    reservation: U64,
    lease: U64,
    worker: U64,
    workerBoot: U64,
    state: PlacementState,
    reassignmentCount: nat,
    completionRecorded: bool)

  datatype ReservationState = Active | Released | Revoked

  datatype Claim = Claim(resource: U64, slots: U32, exclusive: bool, generationAtAcquire: nat)

  datatype Reservation = Reservation(
    id: U64,
    lease: U64,
    placement: U64,
    placementGeneration: nat,
    request: U64,
    experiment: U64,
    experimentGeneration: U64,
    epoch: nat,
    claims: seq<Claim>,
    state: ReservationState)

  datatype WorkerRecord = WorkerRecord(boot: U64, connected: bool)

  /** One schedulable unit. */
  datatype UnitKey = UnitKey(experiment: U64, experimentGeneration: U64, trial: U64)

  function UnitOf(p: Placement): UnitKey {
    UnitKey(p.experiment, p.experimentGeneration, p.trial)
  }

  function UnitOfRequest(r: Request): UnitKey {
    UnitKey(r.experiment, r.experimentGeneration, r.trial)
  }

  datatype State = State(
    epoch: nat,
    shuttingDown: bool,
    workers: map<U64, WorkerRecord>,
    resources: map<U64, Resource>,
    requests: map<U64, StoredRequest>,
    placements: map<U64, Placement>,
    reservations: map<U64, Reservation>,
    unitCurrent: map<UnitKey, U64>,
    tenantService: map<string, nat>,
    lastId: U64)

  /** The configured bounds a decision or a validation reads. */
  datatype Limits = Limits(
    maxResources: nat,
    maxRetainedRequests: nat,
    maxActiveRequests: nat,
    maxRequirements: nat,
    maxAffinityPairs: nat,
    maxAffinityGroups: nat,
    maxCandidateResources: nat,
    maxCandidatesEvaluated: nat,
    maxCandidatesRanked: nat,
    maxRejectionReasons: nat,
    maxPlacements: nat,
    maxActivePlacements: nat,
    maxReservations: nat,
    maxActiveReservations: nat,
    maxPersistenceRecords: nat)

  datatype ErrorCode =
    | InvalidIdentity | InvalidArgument | LimitExceeded | DuplicateIdentity | NotFound | ShuttingDown
    | ResourceExhausted | Busy | Unauthorized | CapacityExhausted | ReservationConflict | InternalError
    | StaleEpoch | StaleExperiment | StalePlacement | StaleWorker | StaleResource | DuplicateCompletion
    | CancelledCode | PreemptedCode | ReassignmentRequiredCode | ResourceLost | ReservationNotActive
    | GenerationMismatch | CorruptPersistence | NoPlacementCode

  datatype Status = Ok | Fail(code: ErrorCode)

  /** The part of validate_advertisement (src/resource.cpp:201-411) that later operations rely on:
      text lengths and list lengths are not modelled. */
  predicate ValidAdvertisement(ad: Advertisement) {
    && ad.id != 0
    && (ad.worker == 0 <==> ad.boot == 0)
    && ad.slots >= 1 && ad.maxSessions >= 1
    && ad.occupancy <= ad.slots
    && (forall a :: a in ad.accelerators ==> a.id != 0)
    && match ad.resourceClass
       case Model => ad.model.Some? && ad.model.value.id != 0
       case Gpu => ad.accelerators != []
       case Simulator =>
         ad.simulator.Some? && ad.simulator.value.id != 0
         && 1 <= ad.simulator.value.maxSessions <= ad.maxSessions
       case Dataset => ad.dataset.Some? && ad.dataset.value.id != 0 && ad.dataset.value.version != 0
       case PhysicalEnvironment =>
         ad.environment.Some? && ad.environment.value.id != 0 && ad.environment.value.physicalEnvironment != 0
       case VirtualEnvironment =>
         ad.environment.Some? && ad.environment.value.id != 0 && ad.environment.value.virtualEnvironment != 0
       case WorkerClass => true
  }

  /** validate_resource_record (src/resource.cpp:413-450). */
  predicate ValidResource(r: Resource) {
    && ValidAdvertisement(r.ad)
    && (r.lifecycle.Retired? ==> r.reserved == 0)
    && TotalOccupancy(r) <= r.ad.slots
  }

  predicate DeclaresGroup(r: Request, g: U32) {
    g != 0 && exists q :: q in r.requirements && q.affinityGroup == g
  }

  predicate ValidRequirement(q: Requirement, limits: Limits) {
    && q.name != ""
    && 1 <= q.minSlots <= 0xffff
    && 1 <= q.maxOccupancyPercent <= 100
    && q.affinityGroup <= limits.maxAffinityGroups
    && (forall id :: id in q.allowlist ==> id != 0)
    && (forall id :: id in q.denylist ==> id != 0)
  }

  /** validate_schedule_request (src/request.cpp:103-338) without text and list lengths. */
  predicate ValidRequest(r: Request, limits: Limits) {
    && r.id != 0 && r.experiment != 0 && r.experimentGeneration != 0
    && -1000 <= r.priority <= 1000
    && 1 <= |r.requirements| <= limits.maxRequirements
    && r.maxReassignments <= 16
    && |r.weights| == 12 && (forall f :: 0 <= f < 12 ==> -1000 <= r.weights[f] <= 1000)
    && (forall q :: q in r.requirements ==> ValidRequirement(q, limits))
    && (forall i, j :: 0 <= i < j < |r.requirements| ==> r.requirements[i].name != r.requirements[j].name)
    && |r.affinity| <= limits.maxAffinityPairs && |r.antiAffinity| <= limits.maxAffinityPairs
    && (forall c :: c in r.affinity ==> DeclaresGroup(r, c.groupA) && DeclaresGroup(r, c.groupB))
    && (forall c :: c in r.antiAffinity ==> DeclaresGroup(r, c.groupA) && DeclaresGroup(r, c.groupB))
  }
}
