/** Why a resource is not eligible (src/engine_scheduling.cpp:126-320): which reasons a rejection lists, in which
    order, and how many of them. */
module Verdicts {
  import opened Prelude
  import opened Records
  import opened Eligibility
  import opened Guarantees

  predicate RightModel(q: Requirement, ad: Advertisement) {
    ad.model != None && (q.model == None || q.model == Some(ad.model.value.id))
  }

  predicate RightSimulator(q: Requirement, ad: Advertisement) {
    && ad.simulator != None && (q.simulator == None || q.simulator == Some(ad.simulator.value.id))
    && (q.simulatorVersion == "" || q.simulatorVersion == ad.simulator.value.version)
  }

  predicate RightDataset(q: Requirement, ad: Advertisement) {
    ad.dataset != None && (q.dataset == None || q.dataset == Some(ad.dataset.value.id))
  }

  /** Physical environments are told apart by their physical identity, virtual ones by their virtual identity. */
  predicate RightEnvironment(q: Requirement, ad: Advertisement) {
    && ad.environment != None && (q.environment == None || q.environment == Some(ad.environment.value.id))
    && (ad.resourceClass == PhysicalEnvironment ==>
          q.physicalEnvironment == None || q.physicalEnvironment == Some(ad.environment.value.physicalEnvironment))
    && (ad.resourceClass == VirtualEnvironment ==>
          q.virtualEnvironment == None || q.virtualEnvironment == Some(ad.environment.value.virtualEnvironment))
  }

  predicate RightVersion(q: Requirement, ad: Advertisement) {
    RightModel(q, ad) && (q.modelVersion == "" || q.modelVersion == ad.model.value.version)
  }

  predicate OffersScenario(q: Requirement, ad: Advertisement) {
    RightSimulator(q, ad) && (q.simulatorScenario == "" || q.simulatorScenario in ad.simulator.value.scenarios)
  }

  predicate RightImage(q: Requirement, ad: Advertisement) {
    && RightEnvironment(q, ad)
    && (ad.resourceClass == VirtualEnvironment ==>
          q.environmentDigest == "" || q.environmentDigest == ad.environment.value.imageDigest)
  }

  function Used(r: Resource): U32 { Wrap32(r.ad.occupancy + r.reserved) }

  /** When each reason applies to a resource of the required class. */
  ghost predicate Applies(x: RejectReason, request: Request, q: Requirement, r: Resource) {
    var ad, evidence := r.ad, q.requireCurrentEvidence;
    match x
    case ResourceClassMismatch => false
    case AllowlistExcluded => |q.allowlist| > 0 && ad.id !in q.allowlist
    case DenylistExcluded => ad.id in q.denylist
    case ResourceRetired => r.lifecycle == Retired
    case WorkerIncarnationStale => r.lifecycle == Lost
    case EvidenceStale => evidence && !r.authoritative && r.lifecycle == Registered
    case EvidenceNotAuthoritative => evidence && !r.authoritative && r.lifecycle != Registered
    case TenantViolation => request.tenant != "" && ad.tenant != "" && ad.tenant != request.tenant
    case CapabilityMismatch => exists c :: c in q.capabilities && c !in ad.capabilities
    case HealthUnknownReason => !HealthyEnough(ad.health, q.minimumHealth) && ad.health == HealthUnknown
    case HealthRejected => !HealthyEnough(ad.health, q.minimumHealth) && ad.health != HealthUnknown
    case UnsupportedReason =>
      || (evidence && ad.readiness == Unsupported)
      || (ad.resourceClass == Simulator && RightSimulator(q, ad) && !OffersScenario(q, ad))
    case TopologyMismatch => !InRequiredDomain(q, ad.topology)
    case ModelMismatch => ad.resourceClass == Model && !RightModel(q, ad)
    case ModelVersionMismatch => ad.resourceClass == Model && RightModel(q, ad) && !RightVersion(q, ad)
    case ModelNotResident =>
      ad.resourceClass == Model && RightVersion(q, ad) && q.requireModelResident && !ad.model.value.resident
    case AcceleratorMismatch =>
      ad.resourceClass == Gpu && q.accelerator != None
      && forall a :: a in ad.accelerators ==> a.id != q.accelerator.value
    case SimulatorMismatch => ad.resourceClass == Simulator && !RightSimulator(q, ad)
    case SimulatorNotReady =>
      ad.resourceClass == Simulator && OffersScenario(q, ad) && q.requireSimulatorReady && ad.readiness != Ready
    case DatasetMismatch => ad.resourceClass == Dataset && !RightDataset(q, ad)
    case DatasetVersionMismatch =>
      ad.resourceClass == Dataset && RightDataset(q, ad) && q.datasetVersion != None
      && q.datasetVersion.value != ad.dataset.value.version
    case EnvironmentMismatch =>
      (ad.resourceClass == PhysicalEnvironment || ad.resourceClass == VirtualEnvironment) && !RightEnvironment(q, ad)
    case EnvironmentDigestMismatch =>
      ad.resourceClass == VirtualEnvironment && RightEnvironment(q, ad) && !RightImage(q, ad)
    case EnvironmentNotReady =>
      (ad.resourceClass == PhysicalEnvironment || ad.resourceClass == VirtualEnvironment)
      && RightImage(q, ad) && evidence && ad.readiness != Ready
    case ExclusivityConflict => WholeOf(request, q, ad) && Used(r) > 0
    case CapacityReason => Share(request, q, ad) > 0 && Used(r) + Share(request, q, ad) > ad.slots
    case MemoryExhausted => q.minMemory > ad.memory && forall a :: a in ad.accelerators ==> a.memory < q.minMemory
    case OccupancyExceeded => (Used(r) + Share(request, q, ad)) * 100 > ad.slots * q.maxOccupancyPercent
  }

  /** Reasons are listed in this order. An unsupported readiness is listed before the topology, an unsupported
      scenario with the descriptor. */
  function Place(x: RejectReason): nat {
    match x
    case ResourceClassMismatch => 0
    case AllowlistExcluded => 1
    case DenylistExcluded => 2
    case ResourceRetired => 3
    case WorkerIncarnationStale => 4
    case EvidenceStale => 5
    case EvidenceNotAuthoritative => 5
    case TenantViolation => 6
    case CapabilityMismatch => 7
    case HealthUnknownReason => 8
    case HealthRejected => 8
    case UnsupportedReason => 9
    case TopologyMismatch => 10
    case ExclusivityConflict => 12
    case CapacityReason => 13
    case MemoryExhausted => 14
    case OccupancyExceeded => 15
    case _ => 11
  }

  ghost predicate InOrder(xs: seq<RejectReason>) {
    forall i, j :: 0 <= i < j < |xs| && xs[i] != UnsupportedReason && xs[j] != UnsupportedReason ==>
      Place(xs[i]) < Place(xs[j])
  }

  ghost predicate Between(xs: seq<RejectReason>, low: nat, high: nat) {
    forall x :: x in xs && x != UnsupportedReason ==> low <= Place(x) <= high
  }

  lemma OrderJoins(xs: seq<RejectReason>, ys: seq<RejectReason>, low: nat, middle: nat, high: nat)
    requires InOrder(xs) && InOrder(ys) && Between(xs, low, middle) && Between(ys, middle + 1, high)
    requires low <= middle < high
    ensures InOrder(xs + ys) && Between(xs + ys, low, high)
  {
    var zs := xs + ys;
    forall i, j | 0 <= i < j < |zs| && zs[i] != UnsupportedReason && zs[j] != UnsupportedReason
      ensures Place(zs[i]) < Place(zs[j])
    {
      assert i < |xs| ==> zs[i] in xs;
      assert j >= |xs| ==> zs[j] in ys;
    }
  }

  /** One more check, with a reason that comes later. */
  lemma FlagAdds(xs: seq<RejectReason>, condition: bool, y: RejectReason, low: nat)
    requires InOrder(xs) && 1 <= low <= Place(y) && Between(xs, low, Place(y) - 1)
    ensures var ys := xs + Flag(condition, y);
            && InOrder(ys) && Between(ys, low, Place(y))
            && forall x :: x in ys <==> x in xs || (condition && x == y)
  {
  }

  function NamedReasons(q: Requirement, r: Resource): seq<RejectReason> {
    Flag(q.allowlist != [] && r.ad.id !in q.allowlist, AllowlistExcluded)
    + Flag(r.ad.id in q.denylist, DenylistExcluded)
    + Flag(r.lifecycle.Retired?, ResourceRetired)
  }

  lemma NamedListed(q: Requirement, r: Resource)
    ensures var xs := NamedReasons(q, r);
            && InOrder(xs) && Between(xs, 1, 3)
            && forall x :: x in xs <==>
                 || (x == AllowlistExcluded && q.allowlist != [] && r.ad.id !in q.allowlist)
                 || (x == DenylistExcluded && r.ad.id in q.denylist)
                 || (x == ResourceRetired && r.lifecycle.Retired?)
  {
    hide Flag, InOrder, Between;
    var f1 := Flag(q.allowlist != [] && r.ad.id !in q.allowlist, AllowlistExcluded);
    var f2 := Flag(r.ad.id in q.denylist, DenylistExcluded);
    FlagAlone(q.allowlist != [] && r.ad.id !in q.allowlist, AllowlistExcluded);
    FlagAdds(f1, r.ad.id in q.denylist, DenylistExcluded, 1);
    FlagAdds(f1 + f2, r.lifecycle.Retired?, ResourceRetired, 1);
  }

  lemma AuthorityListed(request: Request, q: Requirement, r: Resource)
    ensures var xs := AuthorityReasons(request, q, r);
            && (forall x :: x in xs <==> Place(x) <= 6 && Applies(x, request, q, r))
            && InOrder(xs) && Between(xs, 1, 6) && UnsupportedReason !in xs
  {
    hide Flag, InOrder, Between, Applies, NamedReasons, AuthorityReasons;
    var stale := if r.lifecycle.Registered? then EvidenceStale else EvidenceNotAuthoritative;
    var foreign := request.tenant != "" && r.ad.tenant != "" && request.tenant != r.ad.tenant;
    var xs := NamedReasons(q, r);
    var f4 := Flag(r.lifecycle.Lost?, WorkerIncarnationStale);
    var f5 := Flag(q.requireCurrentEvidence && !r.authoritative, stale);
    NamedListed(q, r);
    FlagAdds(xs, r.lifecycle.Lost?, WorkerIncarnationStale, 1);
    FlagAdds(xs + f4, q.requireCurrentEvidence && !r.authoritative, stale, 1);
    FlagAdds(xs + f4 + f5, foreign, TenantViolation, 1);
    AuthorityJoined(request, q, r);
    forall x ensures x in AuthorityReasons(request, q, r) <==> Place(x) <= 6 && Applies(x, request, q, r) {
      AuthorityApplies(x, request, q, r);
    }
  }

  lemma AuthorityJoined(request: Request, q: Requirement, r: Resource)
    ensures AuthorityReasons(request, q, r)
         == NamedReasons(q, r) + Flag(r.lifecycle.Lost?, WorkerIncarnationStale)
            + Flag(q.requireCurrentEvidence && !r.authoritative,
                   if r.lifecycle.Registered? then EvidenceStale else EvidenceNotAuthoritative)
            + Flag(request.tenant != "" && r.ad.tenant != "" && request.tenant != r.ad.tenant, TenantViolation)
  {
    hide Flag;
  }

  lemma AuthorityApplies(x: RejectReason, request: Request, q: Requirement, r: Resource)
    ensures Place(x) <= 6 && Applies(x, request, q, r) <==>
              || (x == AllowlistExcluded && q.allowlist != [] && r.ad.id !in q.allowlist)
              || (x == DenylistExcluded && r.ad.id in q.denylist)
              || (x == ResourceRetired && r.lifecycle.Retired?)
              || (x == WorkerIncarnationStale && r.lifecycle.Lost?)
              || (x == (if r.lifecycle.Registered? then EvidenceStale else EvidenceNotAuthoritative)
                  && q.requireCurrentEvidence && !r.authoritative)
              || (x == TenantViolation && request.tenant != "" && r.ad.tenant != "" && request.tenant != r.ad.tenant)
  {
  }

  lemma FlagAlone(condition: bool, y: RejectReason)
    ensures var ys := Flag(condition, y);
            && InOrder(ys) && Between(ys, Place(y), Place(y)) && forall x :: x in ys <==> condition && x == y
  {
  }

  lemma FitnessListed(request: Request, q: Requirement, r: Resource)
    ensures var xs := FitnessFlags(q, r);
            && (forall x :: x != UnsupportedReason ==>
                  (x in xs <==> 7 <= Place(x) <= 10 && Applies(x, request, q, r)))
            && (UnsupportedReason in xs <==> q.requireCurrentEvidence && r.ad.readiness == Unsupported)
            && InOrder(xs) && Between(xs, 7, 10)
  {
    hide Flag, InOrder, Between, Applies, HealthRank, Domain, FitnessFlags;
    var lacks := !(q.capabilities <= r.ad.capabilities);
    var ill := HealthRank(r.ad.health) < HealthRank(q.minimumHealth);
    var why := if r.ad.health.HealthUnknown? then HealthUnknownReason else HealthRejected;
    var mute := r.ad.readiness.Unsupported? && q.requireCurrentEvidence;
    var away := q.requiredDomain.Some? && Domain(r.ad.topology, q.requiredDomainScope) != q.requiredDomain.value;
    var f1, f2, f3 := Flag(lacks, CapabilityMismatch), Flag(ill, why), Flag(mute, UnsupportedReason);
    FlagAlone(lacks, CapabilityMismatch);
    FlagAdds(f1, ill, why, 7);
    FlagAdds(f1 + f2, mute, UnsupportedReason, 7);
    FlagAdds(f1 + f2 + f3, away, TopologyMismatch, 7);
    FitnessJoined(q, r);
    forall x | x != UnsupportedReason
      ensures x in FitnessFlags(q, r) <==> 7 <= Place(x) <= 10 && Applies(x, request, q, r)
    {
      FitnessApplies(x, request, q, r);
    }
  }

  lemma FitnessJoined(q: Requirement, r: Resource)
    ensures FitnessFlags(q, r)
         == Flag(!(q.capabilities <= r.ad.capabilities), CapabilityMismatch)
            + Flag(HealthRank(r.ad.health) < HealthRank(q.minimumHealth),
                   if r.ad.health.HealthUnknown? then HealthUnknownReason else HealthRejected)
            + Flag(r.ad.readiness.Unsupported? && q.requireCurrentEvidence, UnsupportedReason)
            + Flag(q.requiredDomain.Some? && Domain(r.ad.topology, q.requiredDomainScope) != q.requiredDomain.value,
                   TopologyMismatch)
  {
    hide Flag, HealthRank, Domain;
  }

  lemma FitnessApplies(x: RejectReason, request: Request, q: Requirement, r: Resource)
    requires x != UnsupportedReason
    ensures 7 <= Place(x) <= 10 && Applies(x, request, q, r) <==>
              || (x == CapabilityMismatch && !(q.capabilities <= r.ad.capabilities))
              || (x == (if r.ad.health.HealthUnknown? then HealthUnknownReason else HealthRejected)
                  && HealthRank(r.ad.health) < HealthRank(q.minimumHealth))
              || (x == TopologyMismatch && q.requiredDomain.Some?
                  && Domain(r.ad.topology, q.requiredDomainScope) != q.requiredDomain.value)
  {
  }

  lemma DescriptorListed(request: Request, q: Requirement, r: Resource)
    ensures var xs := Listed(ClassReason(r, q));
            && (forall x :: x != UnsupportedReason ==> (x in xs <==> Place(x) == 11 && Applies(x, request, q, r)))
            && (UnsupportedReason in xs <==>
                  r.ad.resourceClass == Simulator && RightSimulator(q, r.ad) && !OffersScenario(q, r.ad))
            && InOrder(xs) && Between(xs, 11, 11)
  {
  }

  lemma CapacityListed(request: Request, q: Requirement, r: Resource)
    ensures var xs := CapacityReasons(request, q, r);
            && (forall x :: x in xs <==> 12 <= Place(x) && Applies(x, request, q, r))
            && InOrder(xs) && Between(xs, 12, 15) && UnsupportedReason !in xs
  {
    hide Flag, InOrder, Between, Applies, EffectiveMemory, ClaimSize, AvailableSlots;
    var slots := ClaimSize(request, q, r);
    var shared := ClaimsExclusively(request, q, r) && TotalOccupancy(r) != 0;
    var full := (TotalOccupancy(r) + slots) * 100 > r.ad.slots * q.maxOccupancyPercent;
    var f1, f2 := Flag(shared, ExclusivityConflict), Flag(AvailableSlots(r) < slots, CapacityReason);
    var f3 := Flag(q.minMemory > EffectiveMemory(r), MemoryExhausted);
    FlagAlone(shared, ExclusivityConflict);
    FlagAdds(f1, AvailableSlots(r) < slots, CapacityReason, 12);
    FlagAdds(f1 + f2, q.minMemory > EffectiveMemory(r), MemoryExhausted, 12);
    FlagAdds(f1 + f2 + f3, full, OccupancyExceeded, 12);
    forall x ensures x in CapacityReasons(request, q, r) <==> 12 <= Place(x) && Applies(x, request, q, r) {
      CapacityApplies(x, request, q, r);
    }
  }

  lemma CapacityApplies(x: RejectReason, request: Request, q: Requirement, r: Resource)
    ensures 12 <= Place(x) && Applies(x, request, q, r) <==>
              || (x == ExclusivityConflict && ClaimsExclusively(request, q, r) && TotalOccupancy(r) != 0)
              || (x == CapacityReason && AvailableSlots(r) < ClaimSize(request, q, r))
              || (x == MemoryExhausted && q.minMemory > EffectiveMemory(r))
              || (x == OccupancyExceeded
                  && (TotalOccupancy(r) + ClaimSize(request, q, r)) * 100 > r.ad.slots * q.maxOccupancyPercent)
  {
    hide EffectiveMemory;
    MemoryApplies(request, q, r);
  }

  lemma MemoryApplies(request: Request, q: Requirement, r: Resource)
    ensures q.minMemory > EffectiveMemory(r) <==> Applies(MemoryExhausted, request, q, r)
  {
    MaxMemoryReached(r.ad.accelerators, r.ad.memory, q.minMemory);
  }

  /** A rejection lists exactly the reasons that apply, in order, up to the bound; a resource of another class is
      rejected for that alone. */
  lemma ReasonsListed(request: Request, q: Requirement, r: Resource, maximum: nat)
    ensures var v, all := Evaluate(request, q, r, maximum), Reasons(request, q, r);
            if r.ad.resourceClass != q.resourceClass
            then v.reasons == if maximum == 0 then [] else [ResourceClassMismatch]
            else
              && (forall x :: x in all <==> Applies(x, request, q, r)) && InOrder(all)
              && |v.reasons| == (if |all| < maximum then |all| else maximum) && v.reasons == all[..|v.reasons|]
  {
    hide Applies, InOrder, Between, AuthorityReasons, FitnessFlags, ClassReason, CapacityReasons, Listed;
    var a, f := AuthorityReasons(request, q, r), FitnessFlags(q, r);
    var c, k := Listed(ClassReason(r, q)), CapacityReasons(request, q, r);
    AuthorityListed(request, q, r);
    FitnessListed(request, q, r);
    DescriptorListed(request, q, r);
    CapacityListed(request, q, r);
    UnsupportedApplies(request, q, r);
    OrderJoins(a, f, 0, 6, 10);
    OrderJoins(a + f, c, 0, 10, 11);
    OrderJoins(a + f + c, k, 0, 11, 15);
    forall x ensures x in a + f + c + k <==> Applies(x, request, q, r) {
      assert x in a + f + c + k <==> x in a || x in f || x in c || x in k;
    }
  }

  lemma UnsupportedApplies(request: Request, q: Requirement, r: Resource)
    ensures Applies(UnsupportedReason, request, q, r) <==>
              (q.requireCurrentEvidence && r.ad.readiness == Unsupported)
              || (r.ad.resourceClass == Simulator && RightSimulator(q, r.ad) && !OffersScenario(q, r.ad))
  {
  }
}
