/** Hard filtering of one resource against one requirement (src/engine_scheduling.cpp:47-320). */
module Eligibility {
  import opened Prelude
  import opened Records

  datatype RejectReason =
    | ResourceClassMismatch | AllowlistExcluded | DenylistExcluded | ResourceRetired | WorkerIncarnationStale
    | EvidenceStale | EvidenceNotAuthoritative | TenantViolation | CapabilityMismatch | HealthUnknownReason
    | HealthRejected | UnsupportedReason | TopologyMismatch | ModelMismatch | ModelVersionMismatch
    | ModelNotResident | AcceleratorMismatch | SimulatorMismatch | SimulatorNotReady | DatasetMismatch
    | DatasetVersionMismatch | EnvironmentMismatch | EnvironmentDigestMismatch | EnvironmentNotReady
    | ExclusivityConflict | CapacityReason | MemoryExhausted | OccupancyExceeded

  datatype Verdict = Verdict(eligible: bool, slots: U32, exclusive: bool, reasons: seq<RejectReason>)

  function HealthRank(h: HealthState): nat {
    match h
    case Healthy => 3
    case Degraded => 2
    case HealthUnknown => 1
    case Unhealthy => 0
  }

  function MaxMemory(accelerators: seq<Accelerator>, floor: U64): U64 {
    if accelerators == [] then floor
    else
      var rest := MaxMemory(accelerators[..|accelerators| - 1], floor);
      var last := accelerators[|accelerators| - 1].memory;
      if last > rest then last else rest
  }

  function EffectiveMemory(r: Resource): U64 {
    MaxMemory(r.ad.accelerators, r.ad.memory)
  }

  predicate HasAccelerator(r: Resource, id: U64) {
    exists a :: a in r.ad.accelerators && a.id == id
  }

  function ModelReason(r: Resource, q: Requirement): Option<RejectReason> {
    if r.ad.model.None? then Some(ModelMismatch)
    else if q.model.Some? && r.ad.model.value.id != q.model.value then Some(ModelMismatch)
    else if q.modelVersion != "" && r.ad.model.value.version != q.modelVersion then Some(ModelVersionMismatch)
    else if q.requireModelResident && !r.ad.model.value.resident then Some(ModelNotResident)
    else None
  }

  function SimulatorReason(r: Resource, q: Requirement): Option<RejectReason> {
    if r.ad.simulator.None? then Some(SimulatorMismatch)
    else if q.simulator.Some? && r.ad.simulator.value.id != q.simulator.value then Some(SimulatorMismatch)
    else if q.simulatorVersion != "" && r.ad.simulator.value.version != q.simulatorVersion then Some(SimulatorMismatch)
    else if q.simulatorScenario != "" && q.simulatorScenario !in r.ad.simulator.value.scenarios then
      Some(UnsupportedReason)
    else if q.requireSimulatorReady && !r.ad.readiness.Ready? then Some(SimulatorNotReady)
    else None
  }

  function DatasetReason(r: Resource, q: Requirement): Option<RejectReason> {
    if r.ad.dataset.None? then Some(DatasetMismatch)
    else if q.dataset.Some? && r.ad.dataset.value.id != q.dataset.value then Some(DatasetMismatch)
    else if q.datasetVersion.Some? && r.ad.dataset.value.version != q.datasetVersion.value then
      Some(DatasetVersionMismatch)
    else None
  }

  function PhysicalReason(r: Resource, q: Requirement): Option<RejectReason> {
    if r.ad.environment.None? then Some(EnvironmentMismatch)
    else if q.environment.Some? && r.ad.environment.value.id != q.environment.value then Some(EnvironmentMismatch)
    else if q.physicalEnvironment.Some?
            && r.ad.environment.value.physicalEnvironment != q.physicalEnvironment.value then Some(EnvironmentMismatch)
    else if q.requireCurrentEvidence && !r.ad.readiness.Ready? then Some(EnvironmentNotReady)
    else None
  }

  function VirtualReason(r: Resource, q: Requirement): Option<RejectReason> {
    if r.ad.environment.None? then Some(EnvironmentMismatch)
    else if q.environment.Some? && r.ad.environment.value.id != q.environment.value then Some(EnvironmentMismatch)
    else if q.virtualEnvironment.Some?
            && r.ad.environment.value.virtualEnvironment != q.virtualEnvironment.value then Some(EnvironmentMismatch)
    else if q.environmentDigest != "" && r.ad.environment.value.imageDigest != q.environmentDigest then
      Some(EnvironmentDigestMismatch)
    else if q.requireCurrentEvidence && !r.ad.readiness.Ready? then Some(EnvironmentNotReady)
    else None
  }

  /** class_specific_reason: the first descriptor of the resource's class that does not fit. */
  function ClassReason(r: Resource, q: Requirement): Option<RejectReason> {
    match r.ad.resourceClass
    case Model => ModelReason(r, q)
    case Gpu =>
      if q.accelerator.Some? && !HasAccelerator(r, q.accelerator.value) then Some(AcceleratorMismatch) else None
    case Simulator => SimulatorReason(r, q)
    case Dataset => DatasetReason(r, q)
    case PhysicalEnvironment => PhysicalReason(r, q)
    case VirtualEnvironment => VirtualReason(r, q)
    case WorkerClass => None
  }

  predicate ClaimsExclusively(request: Request, q: Requirement, r: Resource) {
    q.requireExclusive || request.exclusive || r.ad.sharing.Exclusive?
  }

  function ClaimSize(request: Request, q: Requirement, r: Resource): U32 {
    if ClaimsExclusively(request, q, r) then r.ad.slots else q.minSlots
  }

  function Flag(condition: bool, reason: RejectReason): seq<RejectReason> {
    if condition then [reason] else []
  }

  function Listed(reason: Option<RejectReason>): seq<RejectReason> {
    if reason.Some? then [reason.value] else []
  }

  /** Identity, authority and ownership checks, in the order the source makes them. */
  function AuthorityReasons(request: Request, q: Requirement, r: Resource): seq<RejectReason> {
    Flag(q.allowlist != [] && r.ad.id !in q.allowlist, AllowlistExcluded)
    + Flag(r.ad.id in q.denylist, DenylistExcluded)
    + Flag(r.lifecycle.Retired?, ResourceRetired)
    + Flag(r.lifecycle.Lost?, WorkerIncarnationStale)
    + Flag(q.requireCurrentEvidence && !r.authoritative,
           if r.lifecycle.Registered? then EvidenceStale else EvidenceNotAuthoritative)
    + Flag(request.tenant != "" && r.ad.tenant != "" && request.tenant != r.ad.tenant, TenantViolation)
  }

  /** Capability, health and topology checks. */
  function FitnessFlags(q: Requirement, r: Resource): seq<RejectReason> {
    Flag(!(q.capabilities <= r.ad.capabilities), CapabilityMismatch)
    + Flag(HealthRank(r.ad.health) < HealthRank(q.minimumHealth),
           if r.ad.health.HealthUnknown? then HealthUnknownReason else HealthRejected)
    + Flag(r.ad.readiness.Unsupported? && q.requireCurrentEvidence, UnsupportedReason)
    + Flag(q.requiredDomain.Some? && Domain(r.ad.topology, q.requiredDomainScope) != q.requiredDomain.value,
           TopologyMismatch)
  }

  /** Slot, memory and occupancy checks. */
  function CapacityReasons(request: Request, q: Requirement, r: Resource): seq<RejectReason> {
    var slots := ClaimSize(request, q, r);
    Flag(ClaimsExclusively(request, q, r) && TotalOccupancy(r) != 0, ExclusivityConflict)
    + Flag(AvailableSlots(r) < slots, CapacityReason)
    + Flag(q.minMemory > EffectiveMemory(r), MemoryExhausted)
    + Flag((TotalOccupancy(r) + slots) * 100 > r.ad.slots * q.maxOccupancyPercent, OccupancyExceeded)
  }

  function Reasons(request: Request, q: Requirement, r: Resource): seq<RejectReason> {
    AuthorityReasons(request, q, r) + FitnessFlags(q, r) + Listed(ClassReason(r, q))
    + CapacityReasons(request, q, r)
  }

  function Capped(reasons: seq<RejectReason>, maximum: nat): seq<RejectReason> {
    if |reasons| <= maximum then reasons else reasons[..maximum]
  }

  /** evaluate_resource: a resource is eligible when the capped list of reasons stayed empty. */
  function Evaluate(request: Request, q: Requirement, r: Resource, maximum: nat): Verdict {
    if r.ad.resourceClass != q.resourceClass then
      Verdict(false, 1, false, Capped([ResourceClassMismatch], maximum))
    else
      var reasons := Capped(Reasons(request, q, r), maximum);
      if reasons != [] then Verdict(false, 1, false, reasons)
      else Verdict(true, ClaimSize(request, q, r), ClaimsExclusively(request, q, r), [])
  }

  // ---------------------------------------------------------------- what eligibility means

  /** The resource may be named by this requirement and its evidence is current. */
  ghost predicate Authorised(request: Request, q: Requirement, r: Resource) {
    && (q.allowlist == [] || r.ad.id in q.allowlist) && r.ad.id !in q.denylist
    && (r.lifecycle.Registered? || r.lifecycle.Current?)
    && (q.requireCurrentEvidence ==> r.authoritative)
    && (request.tenant == "" || r.ad.tenant == "" || request.tenant == r.ad.tenant)
  }

  ghost predicate DescriptorFits(q: Requirement, r: Resource) {
    && (r.ad.resourceClass.Model? ==>
          && r.ad.model.Some?
          && (q.model.Some? ==> r.ad.model.value.id == q.model.value)
          && (q.modelVersion != "" ==> r.ad.model.value.version == q.modelVersion)
          && (q.requireModelResident ==> r.ad.model.value.resident))
    && (r.ad.resourceClass.Gpu? ==> q.accelerator.Some? ==> HasAccelerator(r, q.accelerator.value))
    && (r.ad.resourceClass.Simulator? ==>
          && r.ad.simulator.Some?
          && (q.simulator.Some? ==> r.ad.simulator.value.id == q.simulator.value)
          && (q.simulatorVersion != "" ==> r.ad.simulator.value.version == q.simulatorVersion)
          && (q.simulatorScenario != "" ==> q.simulatorScenario in r.ad.simulator.value.scenarios)
          && (q.requireSimulatorReady ==> r.ad.readiness.Ready?))
    && (r.ad.resourceClass.Dataset? ==>
          && r.ad.dataset.Some?
          && (q.dataset.Some? ==> r.ad.dataset.value.id == q.dataset.value)
          && (q.datasetVersion.Some? ==> r.ad.dataset.value.version == q.datasetVersion.value))
    && (r.ad.resourceClass.PhysicalEnvironment? || r.ad.resourceClass.VirtualEnvironment? ==>
          && r.ad.environment.Some?
          && (q.environment.Some? ==> r.ad.environment.value.id == q.environment.value)
          && (q.requireCurrentEvidence ==> r.ad.readiness.Ready?))
    && (r.ad.resourceClass.PhysicalEnvironment? && q.physicalEnvironment.Some? ==>
          r.ad.environment.value.physicalEnvironment == q.physicalEnvironment.value)
    && (r.ad.resourceClass.VirtualEnvironment? ==>
          && (q.virtualEnvironment.Some? ==> r.ad.environment.value.virtualEnvironment == q.virtualEnvironment.value)
          && (q.environmentDigest != "" ==> r.ad.environment.value.imageDigest == q.environmentDigest))
  }

  ghost predicate Fits(q: Requirement, r: Resource) {
    && q.capabilities <= r.ad.capabilities
    && HealthRank(q.minimumHealth) <= HealthRank(r.ad.health)
    && (q.requireCurrentEvidence ==> !r.ad.readiness.Unsupported?)
    && (q.requiredDomain.Some? ==> Domain(r.ad.topology, q.requiredDomainScope) == q.requiredDomain.value)
    && DescriptorFits(q, r)
  }

  /** The claim fits beside what is advertised and reserved already. */
  ghost predicate HasRoom(request: Request, q: Requirement, r: Resource) {
    var slots := ClaimSize(request, q, r);
    && (ClaimsExclusively(request, q, r) ==> TotalOccupancy(r) == 0)
    && (slots == 0 || TotalOccupancy(r) + slots <= r.ad.slots)
    && (TotalOccupancy(r) + slots) * 100 <= r.ad.slots * q.maxOccupancyPercent
    && (q.minMemory <= r.ad.memory || exists a :: a in r.ad.accelerators && q.minMemory <= a.memory)
  }

  /** Every hard constraint of the requirement. */
  ghost predicate Meets(request: Request, q: Requirement, r: Resource) {
    r.ad.resourceClass == q.resourceClass
    && Authorised(request, q, r) && Fits(q, r) && HasRoom(request, q, r)
  }

  lemma {:induction false} MaxMemoryReached(accelerators: seq<Accelerator>, floor: U64, need: U64)
    ensures need <= MaxMemory(accelerators, floor) <==>
            need <= floor || exists a :: a in accelerators && need <= a.memory
  {
    if accelerators != [] {
      var n := |accelerators| - 1;
      MaxMemoryReached(accelerators[..n], floor, need);
      assert accelerators == accelerators[..n] + [accelerators[n]];
    }
  }

  lemma ClassReasonFits(q: Requirement, r: Resource)
    ensures ClassReason(r, q).None? <==> DescriptorFits(q, r)
  {
  }

  lemma FitnessEmpty(q: Requirement, r: Resource)
    ensures FitnessFlags(q, r) == [] && Listed(ClassReason(r, q)) == [] <==> Fits(q, r)
  {
    ClassReasonFits(q, r);
  }

  lemma CapacityEmpty(request: Request, q: Requirement, r: Resource)
    ensures CapacityReasons(request, q, r) == [] <==> HasRoom(request, q, r)
  {
    MaxMemoryReached(r.ad.accelerators, r.ad.memory, q.minMemory);
  }

  /** Filtering is exact as long as at least one reason may be recorded; with a bound of zero the
      recorded list is always empty, and class equality alone decides. */
  lemma EligibleExactly(request: Request, q: Requirement, r: Resource, maximum: nat)
    ensures maximum >= 1 ==> (Evaluate(request, q, r, maximum).eligible <==> Meets(request, q, r))
    ensures maximum == 0 ==> (Evaluate(request, q, r, maximum).eligible <==> r.ad.resourceClass == q.resourceClass)
  {
    FitnessEmpty(q, r);
    CapacityEmpty(request, q, r);
    assert AuthorityReasons(request, q, r) == [] <==> Authorised(request, q, r);
  }

  // ---------------------------------------------------------------- the check as the source runs it

  /** Records one failed check unless the list is full. */
  method Reject(reasons: seq<RejectReason>, condition: bool, reason: RejectReason, maximum: nat,
                ghost before: seq<RejectReason>)
    returns (out: seq<RejectReason>)
    requires reasons == Capped(before, maximum)
    ensures out == Capped(before + Flag(condition, reason), maximum)
  {
    out := reasons;
    if condition && |reasons| < maximum {
      out := reasons + [reason];
    }
  }

  method EvaluateResource(request: Request, q: Requirement, r: Resource, maximum: nat) returns (v: Verdict)
    ensures v == Evaluate(request, q, r, maximum)
  {
    var reasons: seq<RejectReason>;
    if r.ad.resourceClass != q.resourceClass {
      reasons := Reject([], true, ResourceClassMismatch, maximum, []);
      return Verdict(false, 1, false, reasons);
    }
    ghost var a, f := AuthorityReasons(request, q, r), FitnessFlags(q, r);
    ghost var c := Listed(ClassReason(r, q));
    reasons := EvaluateAuthority(request, q, r, maximum);
    reasons := EvaluateFitness(q, r, maximum, reasons, a);
    reasons := EvaluateSpecific(q, r, maximum, reasons, a + f);
    reasons := EvaluateCapacity(request, q, r, maximum, reasons, a + f + c);
    if reasons != [] {
      return Verdict(false, 1, false, reasons);
    }
    return Verdict(true, ClaimSize(request, q, r), ClaimsExclusively(request, q, r), []);
  }

  /** Identity, authority and ownership. */
  method EvaluateAuthority(request: Request, q: Requirement, r: Resource, maximum: nat)
    returns (reasons: seq<RejectReason>)
    ensures reasons == Capped(AuthorityReasons(request, q, r), maximum)
  {
    hide Capped, Flag;
    CappedNone(maximum);
    var listed := q.allowlist == [] || r.ad.id in q.allowlist;
    var stale := if r.lifecycle.Registered? then EvidenceStale else EvidenceNotAuthoritative;
    var foreign := request.tenant != "" && r.ad.tenant != "" && request.tenant != r.ad.tenant;
    reasons := Reject([], !listed, AllowlistExcluded, maximum, []);
    ghost var all := Flag(!listed, AllowlistExcluded);
    assert [] + all == all;
    reasons := Reject(reasons, r.ad.id in q.denylist, DenylistExcluded, maximum, all);
    all := all + Flag(r.ad.id in q.denylist, DenylistExcluded);
    reasons := Reject(reasons, r.lifecycle.Retired?, ResourceRetired, maximum, all);
    all := all + Flag(r.lifecycle.Retired?, ResourceRetired);
    reasons := Reject(reasons, r.lifecycle.Lost?, WorkerIncarnationStale, maximum, all);
    all := all + Flag(r.lifecycle.Lost?, WorkerIncarnationStale);
    reasons := Reject(reasons, q.requireCurrentEvidence && !r.authoritative, stale, maximum, all);
    all := all + Flag(q.requireCurrentEvidence && !r.authoritative, stale);
    reasons := Reject(reasons, foreign, TenantViolation, maximum, all);
  }

  lemma CappedNone(maximum: nat)
    ensures Capped([], maximum) == []
  {
  }

  /** Capability, health and topology. */
  method EvaluateFitness(q: Requirement, r: Resource, maximum: nat, before: seq<RejectReason>,
                         ghost earlier: seq<RejectReason>)
    returns (reasons: seq<RejectReason>)
    requires before == Capped(earlier, maximum)
    ensures reasons == Capped(earlier + FitnessFlags(q, r), maximum)
  {
    hide Capped, Flag;
    ghost var all := earlier;
    var incapable := !(q.capabilities <= r.ad.capabilities);
    var unfit := HealthRank(r.ad.health) < HealthRank(q.minimumHealth);
    var illness := if r.ad.health.HealthUnknown? then HealthUnknownReason else HealthRejected;
    var unsupported := r.ad.readiness.Unsupported? && q.requireCurrentEvidence;
    var elsewhere := q.requiredDomain.Some? && Domain(r.ad.topology, q.requiredDomainScope) != q.requiredDomain.value;
    reasons := Reject(before, incapable, CapabilityMismatch, maximum, all);
    all := all + Flag(incapable, CapabilityMismatch);
    reasons := Reject(reasons, unfit, illness, maximum, all);
    all := all + Flag(unfit, illness);
    reasons := Reject(reasons, unsupported, UnsupportedReason, maximum, all);
    all := all + Flag(unsupported, UnsupportedReason);
    reasons := Reject(reasons, elsewhere, TopologyMismatch, maximum, all);
    FourFlags(earlier, Flag(incapable, CapabilityMismatch), Flag(unfit, illness), Flag(unsupported, UnsupportedReason),
              Flag(elsewhere, TopologyMismatch));
  }

  lemma FourFlags(a: seq<RejectReason>, b: seq<RejectReason>, c: seq<RejectReason>, d: seq<RejectReason>,
                  e: seq<RejectReason>)
    ensures a + b + c + d + e == a + (b + c + d + e)
  {
    assert a + b + c == a + (b + c) && a + (b + c) + d == a + (b + c + d);
  }

  /** The descriptor of the resource's class. */
  method EvaluateSpecific(q: Requirement, r: Resource, maximum: nat, before: seq<RejectReason>,
                          ghost earlier: seq<RejectReason>)
    returns (reasons: seq<RejectReason>)
    requires before == Capped(earlier, maximum)
    ensures reasons == Capped(earlier + Listed(ClassReason(r, q)), maximum)
  {
    reasons := before;
    var specific := ClassReason(r, q);
    if specific.Some? {
      reasons := Reject(reasons, true, specific.value, maximum, earlier);
    } else {
      assert earlier + [] == earlier;
    }
  }

  /** The loop over the accelerators for the largest memory. */
  method LargestMemory(r: Resource) returns (memory: U64)
    ensures memory == EffectiveMemory(r)
  {
    memory := r.ad.memory;
    for k := 0 to |r.ad.accelerators|
      invariant memory == MaxMemory(r.ad.accelerators[..k], r.ad.memory)
    {
      assert r.ad.accelerators[..k + 1][..k] == r.ad.accelerators[..k];
      if r.ad.accelerators[k].memory > memory {
        memory := r.ad.accelerators[k].memory;
      }
    }
    assert r.ad.accelerators[..|r.ad.accelerators|] == r.ad.accelerators;
  }

  /** Slots, memory and occupancy. */
  method EvaluateCapacity(request: Request, q: Requirement, r: Resource, maximum: nat, before: seq<RejectReason>,
                          ghost earlier: seq<RejectReason>)
    returns (reasons: seq<RejectReason>)
    requires before == Capped(earlier, maximum)
    ensures reasons == Capped(earlier + CapacityReasons(request, q, r), maximum)
  {
    hide Capped, Flag;
    ghost var all := earlier;
    var exclusive := q.requireExclusive || request.exclusive || r.ad.sharing.Exclusive?;
    var slots: U32 := if exclusive then r.ad.slots else q.minSlots;
    var memory := LargestMemory(r);
    var shared := exclusive && TotalOccupancy(r) != 0;
    var crowded := (TotalOccupancy(r) + slots) * 100 > r.ad.slots * q.maxOccupancyPercent;
    reasons := Reject(before, shared, ExclusivityConflict, maximum, all);
    all := all + Flag(shared, ExclusivityConflict);
    reasons := Reject(reasons, AvailableSlots(r) < slots, CapacityReason, maximum, all);
    all := all + Flag(AvailableSlots(r) < slots, CapacityReason);
    reasons := Reject(reasons, q.minMemory > memory, MemoryExhausted, maximum, all);
    all := all + Flag(q.minMemory > memory, MemoryExhausted);
    reasons := Reject(reasons, crowded, OccupancyExceeded, maximum, all);
    FourFlags(earlier, Flag(shared, ExclusivityConflict), Flag(AvailableSlots(r) < slots, CapacityReason),
              Flag(q.minMemory > memory, MemoryExhausted), Flag(crowded, OccupancyExceeded));
  }
}
