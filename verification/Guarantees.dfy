/** What a scheduling decision guarantees (src/engine_scheduling.cpp:47-120, 235-320, 444-455, 651-713), written
    out over the fields of requests, resources, placements and reservations: a recorded placement serves every
    requirement and every constraint, and a request is left unplaced only when no resources would. */
module Guarantees {
  import opened Prelude
  import opened Records
  import opened Eligibility
  import opened Search
  import opened Planning
  import opened Transitions
  import opened Invariants
  import opened Commitment
  import opened Interchange
  import opened Decisions
  import opened Steps

  // ---------------------------------------------------------------- constraints between resources

  /** Both are known to be in one domain of the scope. */
  predicate Together(a: Topology, b: Topology, scope: Scope) {
    match scope
    case Host => a.host != 0 && a.host == b.host
    case NumaDomain => a.numa != 0 && a.numa == b.numa
    case RootComplex => a.rootComplex != 0 && a.rootComplex == b.rootComplex
    case Rack => a.rack != 0 && a.rack == b.rack
    case Cluster => a.cluster != 0 && a.cluster == b.cluster
  }

  /** Both are known to be in different domains of the scope. */
  predicate Apart(a: Topology, b: Topology, scope: Scope) {
    match scope
    case Host => a.host != 0 && b.host != 0 && a.host != b.host
    case NumaDomain => a.numa != 0 && b.numa != 0 && a.numa != b.numa
    case RootComplex => a.rootComplex != 0 && b.rootComplex != 0 && a.rootComplex != b.rootComplex
    case Rack => a.rack != 0 && b.rack != 0 && a.rack != b.rack
    case Cluster => a.cluster != 0 && b.cluster != 0 && a.cluster != b.cluster
  }

  ghost predicate Distinct(ids: seq<U64>) {
    forall i, j :: 0 <= i < j < |ids| ==> ids[i] != ids[j]
  }

  /** Resource `ids[i]` is for requirement `i`. */
  ghost predicate AffinityKept(s: State, request: Request, ids: seq<U64>)
    requires |ids| == |request.requirements| && forall id :: id in ids ==> id in s.resources
  {
    forall c, i, j :: c in request.affinity && 0 <= i < |ids| && 0 <= j < |ids|
      && request.requirements[i].affinityGroup == c.groupA && request.requirements[j].affinityGroup == c.groupB
      ==> Together(s.resources[ids[i]].ad.topology, s.resources[ids[j]].ad.topology, c.scope)
  }

  ghost predicate AntiAffinityKept(s: State, request: Request, ids: seq<U64>)
    requires |ids| == |request.requirements| && forall id :: id in ids ==> id in s.resources
  {
    forall c, i, j :: c in request.antiAffinity && 0 <= i < |ids| && 0 <= j < |ids|
      && request.requirements[i].affinityGroup == c.groupA && request.requirements[j].affinityGroup == c.groupB
      ==> Apart(s.resources[ids[i]].ad.topology, s.resources[ids[j]].ad.topology, c.scope)
  }

  /** No live placement of the same experiment and another request has an active claim on any of them. */
  ghost predicate ExperimentApart(s: State, request: Request, ids: seq<U64>) {
    forall p, c ::
      p in s.placements && s.placements[p].experiment == request.experiment && s.placements[p].request != request.id
      && (s.placements[p].state == Reserved || s.placements[p].state == Assigned || s.placements[p].state == Running)
      && s.placements[p].reservation in s.reservations
      && s.reservations[s.placements[p].reservation].state == Active
      && c in s.reservations[s.placements[p].reservation].claims
      ==> c.resource !in ids
  }

  ghost predicate Constrained(s: State, request: Request, ids: seq<U64>) {
    && |ids| == |request.requirements| && (forall id :: id in ids ==> id in s.resources) && Distinct(ids)
    && AffinityKept(s, request, ids) && AntiAffinityKept(s, request, ids)
    && (request.experimentAntiAffinity ==> ExperimentApart(s, request, ids))
  }

  // ---------------------------------------------------------------- one resource for one requirement

  predicate WholeOf(request: Request, q: Requirement, ad: Advertisement) {
    q.requireExclusive || request.exclusive || ad.sharing == Exclusive
  }

  /** What the requirement takes of the resource. */
  function Share(request: Request, q: Requirement, ad: Advertisement): U32 {
    if WholeOf(request, q, ad) then ad.slots else q.minSlots
  }

  /** The health is at least the required one: healthy, degraded, unknown, unhealthy. */
  predicate HealthyEnough(health: HealthState, least: HealthState) {
    match least
    case Healthy => health == Healthy
    case Degraded => health == Healthy || health == Degraded
    case HealthUnknown => health != Unhealthy
    case Unhealthy => true
  }

  predicate InRequiredDomain(q: Requirement, t: Topology) {
    match q.requiredDomain
    case None => true
    case Some(domain) =>
      match q.requiredDomainScope
      case Host => t.host == domain
      case NumaDomain => t.numa == domain
      case RootComplex => t.rootComplex == domain
      case Rack => t.rack == domain
      case Cluster => t.cluster == domain
  }

  /** The resource may serve the requirement, and what it takes of it is free. */
  ghost predicate Serves(request: Request, q: Requirement, r: Resource) {
    var slots := Share(request, q, r.ad);
    && r.ad.resourceClass == q.resourceClass
    && (q.allowlist == [] || r.ad.id in q.allowlist) && r.ad.id !in q.denylist
    && (r.lifecycle == Registered || r.lifecycle == Current)
    && (q.requireCurrentEvidence ==> r.authoritative && r.ad.readiness != Unsupported)
    && (request.tenant == "" || r.ad.tenant == "" || request.tenant == r.ad.tenant)
    && (forall c :: c in q.capabilities ==> c in r.ad.capabilities)
    && HealthyEnough(r.ad.health, q.minimumHealth)
    && InRequiredDomain(q, r.ad.topology)
    && DescriptorFits(q, r)
    && (WholeOf(request, q, r.ad) ==> r.ad.occupancy == 0 && r.reserved == 0)
    && r.ad.occupancy + r.reserved + slots <= r.ad.slots
    && (r.ad.occupancy + r.reserved + slots) * 100 <= r.ad.slots * q.maxOccupancyPercent
    && (q.minMemory <= r.ad.memory || exists a :: a in r.ad.accelerators && q.minMemory <= a.memory)
  }

  /** In a consistent state the constraints the filter decides are these. */
  lemma MeetsIsServes(request: Request, q: Requirement, r: Resource)
    requires r.ad.occupancy + r.reserved <= r.ad.slots && 1 <= r.ad.slots && 1 <= q.minSlots
    ensures Meets(request, q, r) <==> Serves(request, q, r)
    ensures ClaimSize(request, q, r) == Share(request, q, r.ad)
    ensures ClaimsExclusively(request, q, r) <==> WholeOf(request, q, r.ad)
  {
  }

  lemma AcceptableIsConstrained(s: State, request: Request, sel: Selection, ids: seq<U64>)
    requires |sel| == |request.requirements| && |ids| == |sel| && forall i :: 0 <= i < |sel| ==> sel[i].id == ids[i]
    requires request.exclusive ==> forall i :: 0 <= i < |sel| ==> sel[i].exclusive
    ensures Acceptable(s, request, sel) <==> Constrained(s, request, ids)
  {
    hide AffinityKept, AntiAffinityKept, ExperimentApart, AffinityHolds, AntiAffinityHolds, ReservedByOther, Found;
    FoundIsListed(s, sel, ids);
    ExperimentIsApart(s, request, sel, ids);
    if Found(s, sel) {
      AffinityIsKept(s, request, sel, ids);
      AntiAffinityIsKept(s, request, sel, ids);
    }
  }

  lemma DomainsAgree(a: Topology, b: Topology, scope: Scope)
    ensures SameDomain(a, b, scope) <==> Together(a, b, scope)
    ensures DisjointDomain(a, b, scope) <==> Apart(a, b, scope)
  {
  }

  lemma FoundIsListed(s: State, sel: Selection, ids: seq<U64>)
    requires |ids| == |sel| && forall i :: 0 <= i < |sel| ==> sel[i].id == ids[i]
    ensures Found(s, sel) <==> forall id :: id in ids ==> id in s.resources
  {
    if forall id :: id in ids ==> id in s.resources {
      assert forall i :: 0 <= i < |sel| ==> ids[i] in ids;
    }
  }

  lemma AffinityIsKept(s: State, request: Request, sel: Selection, ids: seq<U64>)
    requires |sel| == |request.requirements| && |ids| == |sel| && forall i :: 0 <= i < |sel| ==> sel[i].id == ids[i]
    requires Found(s, sel) && forall id :: id in ids ==> id in s.resources
    ensures (forall c :: c in request.affinity ==> AffinityHolds(s, request, sel, c)) <==> AffinityKept(s, request, ids)
  {
    hide Together, SameDomain;
    forall a, b, scope ensures SameDomain(a, b, scope) <==> Together(a, b, scope) { DomainsAgree(a, b, scope); }
    if AffinityKept(s, request, ids) {
      forall c | c in request.affinity ensures AffinityHolds(s, request, sel, c) {
      }
    }
    if forall c :: c in request.affinity ==> AffinityHolds(s, request, sel, c) {
      forall c, i, j | c in request.affinity && 0 <= i < |ids| && 0 <= j < |ids|
        && request.requirements[i].affinityGroup == c.groupA && request.requirements[j].affinityGroup == c.groupB
        ensures Together(s.resources[ids[i]].ad.topology, s.resources[ids[j]].ad.topology, c.scope)
      {
        assert AffinityHolds(s, request, sel, c);
        assert TopologyAt(s, sel, i) == s.resources[ids[i]].ad.topology;
        assert TopologyAt(s, sel, j) == s.resources[ids[j]].ad.topology;
      }
    }
  }

  lemma AntiAffinityIsKept(s: State, request: Request, sel: Selection, ids: seq<U64>)
    requires |sel| == |request.requirements| && |ids| == |sel| && forall i :: 0 <= i < |sel| ==> sel[i].id == ids[i]
    requires Found(s, sel) && forall id :: id in ids ==> id in s.resources
    ensures (forall c :: c in request.antiAffinity ==> AntiAffinityHolds(s, request, sel, c))
            <==> AntiAffinityKept(s, request, ids)
  {
    hide Apart, DisjointDomain;
    forall a, b, scope ensures DisjointDomain(a, b, scope) <==> Apart(a, b, scope) { DomainsAgree(a, b, scope); }
    if AntiAffinityKept(s, request, ids) {
      forall c | c in request.antiAffinity ensures AntiAffinityHolds(s, request, sel, c) {
      }
    }
    if forall c :: c in request.antiAffinity ==> AntiAffinityHolds(s, request, sel, c) {
      forall c, i, j | c in request.antiAffinity && 0 <= i < |ids| && 0 <= j < |ids|
        && request.requirements[i].affinityGroup == c.groupA && request.requirements[j].affinityGroup == c.groupB
        ensures Apart(s.resources[ids[i]].ad.topology, s.resources[ids[j]].ad.topology, c.scope)
      {
        assert AntiAffinityHolds(s, request, sel, c);
        assert TopologyAt(s, sel, i) == s.resources[ids[i]].ad.topology;
        assert TopologyAt(s, sel, j) == s.resources[ids[j]].ad.topology;
      }
    }
  }

  lemma ExperimentIsApart(s: State, request: Request, sel: Selection, ids: seq<U64>)
    requires |ids| == |sel| && forall i :: 0 <= i < |sel| ==> sel[i].id == ids[i]
    ensures (forall i :: 0 <= i < |sel| ==> !ReservedByOther(s, request.experiment, sel[i].id, request.id))
            <==> ExperimentApart(s, request, ids)
  {
  }

  // ---------------------------------------------------------------- decisions

  /** Resource `ids[i]` serves requirement `i`, and together they meet the constraints of the request. */
  ghost predicate ServedBy(s: State, request: Request, ids: seq<U64>) {
    && Constrained(s, request, ids)
    && forall i :: 0 <= i < |ids| ==> Serves(request, request.requirements[i], s.resources[ids[i]])
  }

  function NamedIn(p: Placement): seq<U64> {
    seq(|p.resources|, i requires 0 <= i < |p.resources| => p.resources[i].resource)
  }

  /** Every entry of the placement takes the share of its requirement, and names class, generation and owner
      of its resource. */
  ghost predicate TakesShares(s: State, request: Request, p: Placement) {
    && |p.resources| == |request.requirements|
    && forall i :: 0 <= i < |p.resources| ==>
         var x := p.resources[i]; var q := request.requirements[i];
         x.resource in s.resources
         && var r := s.resources[x.resource];
            && x.slots == Share(request, q, r.ad) && x.exclusive == WholeOf(request, q, r.ad)
            && x.requirementName == q.name
            && x.resourceClass == r.ad.resourceClass && x.generation == r.generation
            && x.worker == r.ad.worker && x.workerBoot == r.ad.boot
  }

  /** Every resource of a consistent state and every requirement of a recorded request meet the hypotheses of
      `MeetsIsServes`. */
  lemma Comparable(limits: Limits, s: State, request: Request, id: U64, i: nat)
    requires Inv(limits, s) && ValidRequest(request, limits) && id in s.resources && i < |request.requirements|
    ensures var r := s.resources[id];
            r.ad.occupancy + r.reserved <= r.ad.slots && 1 <= r.ad.slots && 1 <= request.requirements[i].minSlots
  {
    hide Filed, Linked, Grounded, Numbered, Indexed, Recorded;
    assert Trusted(s.resources[id]);
    assert ValidRequirement(request.requirements[i], limits);
  }

  /** A sound selection serves. */
  lemma SoundIsServed(limits: Limits, s: State, request: Request, sel: Selection, p: Placement)
    requires Inv(limits, s) && ValidRequest(request, limits) && SoundSelection(s, request, sel)
    requires Describes(s, request, p, sel)
    ensures ServedBy(s, request, NamedIn(p)) && TakesShares(s, request, p)
  {
    hide Inv, Acceptable, Constrained, Meets, Serves, ValidRequest, ClaimSize, ClaimsExclusively, Share, WholeOf;
    var ids := NamedIn(p);
    assert |sel| == |request.requirements| && Found(s, sel) by { SoundIsFound(s, request, sel); }
    forall i | 0 <= i < |sel|
      ensures Serves(request, request.requirements[i], s.resources[ids[i]])
      ensures sel[i].slots == Share(request, request.requirements[i], s.resources[ids[i]].ad)
      ensures sel[i].exclusive == WholeOf(request, request.requirements[i], s.resources[ids[i]].ad)
    {
      Comparable(limits, s, request, sel[i].id, i);
      MeetsIsServes(request, request.requirements[i], s.resources[sel[i].id]);
    }
    WholeIfAsked(request);
    AcceptableIsConstrained(s, request, sel, ids);
  }

  lemma WholeIfAsked(request: Request)
    ensures forall q, ad :: request.exclusive ==> WholeOf(request, q, ad)
  {
  }

  lemma SoundIsFound(s: State, request: Request, sel: Selection)
    requires SoundSelection(s, request, sel)
    ensures |sel| == |request.requirements| && Found(s, sel)
  {
    hide Meets;
  }

  /** Whatever is placed is served: each resource by all its requirement asks, and all of them together by
      what the request asks, in the state the decision was made in. */
  lemma PlacedIsServed(limits: Limits, s: State, requestId: U64, forced: nat, count: nat)
    requires Inv(limits, s) && requestId in s.requests && s.lastId + 4 < TWO_64
    requires limits.maxRejectionReasons >= 1 && limits.maxCandidatesRanked >= 1 && limits.maxRequirements <= 16
    requires (if forced == 0 then 1 else forced) == count + 1
    requires count <= s.requests[requestId].request.maxReassignments
    ensures Plannable(s, s.requests[requestId].request)
    ensures var o := Schedule(s, limits, requestId, forced, count); var request := s.requests[requestId].request;
            o.Done? && o.value.PlacedAt? ==>
              o.value.placement in o.state.placements
              && var p := o.state.placements[o.value.placement];
                 ServedBy(s, request, NamedIn(p)) && TakesShares(s, request, p)
  {
    hide Inv, SoundSelection, Run, SearchSpace, ValidRequest, Plannable, Schedule, Best, Describes, Valid, ServedBy,
         TakesShares;
    var request := s.requests[requestId].request;
    DecisionExact(limits, s, requestId, forced, count);
    PlanReady(limits, s, requestId);
    var o := Schedule(s, limits, requestId, forced, count);
    if o.Done? && o.value.PlacedAt? {
      var p := o.state.placements[o.value.placement];
      var sel :| SoundSelection(s, request, sel) && Describes(s, request, p, sel);
      SoundIsServed(limits, s, request, sel, p);
    }
  }

  /** Resources that serve the request are a valid selection. */
  lemma ServedIsValid(limits: Limits, s: State, request: Request, ids: seq<U64>) returns (sel: Selection)
    requires Inv(limits, s) && ValidRequest(request, limits) && Plannable(s, request) && limits.maxRejectionReasons >= 1
    requires ServedBy(s, request, ids)
    ensures Valid(FullSpace(s, limits, request), sel)
    ensures |sel| == |ids| && forall i :: 0 <= i < |sel| ==> sel[i].id == ids[i]
  {
    hide Inv, Acceptable, Constrained, Meets, Serves, ValidRequest, ClaimSize, ClaimsExclusively, Evaluate, Valid,
         FullSpace, CandidateOf, WholeOf, Share;
    var qs := request.requirements;
    ServedIsListed(s, request, ids);
    sel := seq(|ids|, i requires 0 <= i < |ids| => CandidateOf(s, request, qs[i], ids[i]));
    forall i | 0 <= i < |sel|
      ensures sel[i].id == ids[i] && Genuine(s, limits, request, qs[i], sel[i])
      ensures sel[i].exclusive == WholeOf(request, qs[i], s.resources[ids[i]].ad)
    {
      Comparable(limits, s, request, ids[i], i);
      MeetsIsServes(request, qs[i], s.resources[ids[i]]);
      EligibleExactly(request, qs[i], s.resources[ids[i]], limits.maxRejectionReasons);
      CandidateTakes(s, request, qs[i], ids[i]);
    }
    WholeIfAsked(request);
    AcceptableIsConstrained(s, request, sel, ids);
    FullIsGenuine(s, limits, request, sel);
  }

  lemma ServedIsListed(s: State, request: Request, ids: seq<U64>)
    requires ServedBy(s, request, ids)
    ensures |ids| == |request.requirements| && forall i :: 0 <= i < |ids| ==> ids[i] in s.resources
  {
  }

  lemma CandidateTakes(s: State, request: Request, q: Requirement, id: U64)
    requires Plannable(s, request) && id in s.resources
    ensures var c := CandidateOf(s, request, q, id);
            c.id == id && c.exclusive == ClaimsExclusively(request, q, s.resources[id])
  {
  }

  /** Where the collapse is harmless, the search is not truncated and the logs have room, a request is placed
      if and only if some resources serve it. */
  lemma PlacedIfServed(limits: Limits, s: State, requestId: U64, forced: nat, count: nat)
    requires Inv(limits, s) && requestId in s.requests && s.lastId + 4 < TWO_64
    requires limits.maxRejectionReasons >= 1 && limits.maxCandidatesRanked >= 1 && limits.maxRequirements <= 16
    requires (if forced == 0 then 1 else forced) == count + 1
    requires count <= s.requests[requestId].request.maxReassignments
    requires (PlanReady(limits, s, requestId);
              Collapsible(s, limits, s.requests[requestId].request)
              && !Run(SearchSpace(s, limits, s.requests[requestId].request)).truncated)
    ensures Plannable(s, s.requests[requestId].request)
    ensures var o := Schedule(s, limits, requestId, forced, count);
            (o.Done? ==> (o.value.PlacedAt? <==> exists ids :: ServedBy(s, s.requests[requestId].request, ids)))
            && (o.Refused? ==> o.code == ResourceExhausted)
  {
    hide Inv, SoundSelection, Run, SearchSpace, FullSpace, ValidRequest, Plannable, Schedule, Best, Describes, Valid,
         Collapsible, ServedBy, TakesShares;
    var request := s.requests[requestId].request;
    PlanReady(limits, s, requestId);
    DecisionIsOptimal(limits, s, requestId, forced, count);
    PlacedIsServed(limits, s, requestId, forced, count);
    var o := Schedule(s, limits, requestId, forced, count);
    if o.Done? && o.value.NoValidPlacement? {
      forall ids ensures !ServedBy(s, request, ids) {
        if ServedBy(s, request, ids) {
          var sel := ServedIsValid(limits, s, request, ids);
        }
      }
    }
  }

  /** In particular a submitted request that is placed is served, in the state it was submitted to. */
  lemma SubmittedIsServed(limits: Limits, s: State, request: Request)
    requires Inv(limits, s) && s.lastId + 4 < TWO_64
    requires limits.maxRejectionReasons >= 1 && limits.maxCandidatesRanked >= 1 && limits.maxRequirements <= 16
    ensures Reschedulable(s)
    ensures var o := SubmitRequest(s, limits, request);
            o.Done? && o.value.PlacedAt? ==>
              o.value.placement in o.state.placements
              && var p := o.state.placements[o.value.placement];
                 ServedBy(s, request, NamedIn(p)) && TakesShares(s, request, p)
  {
    hide Inv, Schedule, ValidRequest, Plannable, ServedBy, TakesShares;
    PlanReady(limits, s, 0);
    var o := SubmitRequest(s, limits, request);
    if o.Done? && o.value.PlacedAt? {
      var t := s.(requests := s.requests[request.id := StoredRequest(request, Submitted, 0, 0)]);
      RequestAdded(limits, s, request);
      PlacedIsServed(limits, t, request.id, 0, 0);
      SameServed(s, t, request, NamedIn(o.state.placements[o.value.placement]));
      SameShares(s, t, request, o.state.placements[o.value.placement]);
    }
  }

  lemma SameServed(s: State, t: State, request: Request, ids: seq<U64>)
    requires t.resources == s.resources && t.placements == s.placements && t.reservations == s.reservations
    ensures ServedBy(t, request, ids) <==> ServedBy(s, request, ids)
  {
    hide Serves, Together, Apart;
  }

  lemma SameShares(s: State, t: State, request: Request, p: Placement)
    requires t.resources == s.resources
    ensures TakesShares(t, request, p) <==> TakesShares(s, request, p)
  {
  }
}
