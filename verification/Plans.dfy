/** Building and checking a placement problem the way the source does: loops over the ordered maps, a set
    of keys already seen, and nested scans over the constraints (src/engine_scheduling.cpp:103-124,
    651-713, 967-1030). */
module Plans {
  import opened Prelude
  import opened Records
  import opened Eligibility
  import opened Ranking
  import opened Search
  import opened Planning

  /** reserved_by_other_placement. */
  method ReservedByOtherPlacement(s: State, experiment: U64, resource: U64, exclude: U64) returns (found: bool)
    ensures found <==> ReservedByOther(s, experiment, resource, exclude)
  {
    var ids := SortedKeys(s.placements.Keys);
    for k := 0 to |ids|
      invariant forall i :: 0 <= i < k && ids[i] in s.placements ==>
                  !HoldsForExperiment(s, s.placements[ids[i]], experiment, resource, exclude)
    {
      SortedKeysExact(s.placements.Keys, ids[k]);
      var p := s.placements[ids[k]];
      if p.experiment == experiment && p.request != exclude && Live(p.state)
         && p.reservation in s.reservations && s.reservations[p.reservation].state.Active? {
        var claims := s.reservations[p.reservation].claims;
        var j := 0;
        while j < |claims| && claims[j].resource != resource
          invariant j <= |claims| && forall i :: 0 <= i < j ==> claims[i].resource != resource
        {
          j := j + 1;
        }
        if j < |claims| {
          assert claims[j] in claims;
          return true;
        }
      }
    }
    forall id | id in s.placements ensures !HoldsForExperiment(s, s.placements[id], experiment, resource, exclude) {
      SortedKeysExact(s.placements.Keys, id);
    }
    return false;
  }

  /** The weighted sum of the additive factors. */
  method SumPartialScore(additive: seq<int>, w: seq<int>) returns (partial: int)
    requires |additive| == FACTORS && |w| == FACTORS
    ensures partial == PartialScore(additive, w, FACTORS)
  {
    partial := 0;
    for f := 0 to FACTORS
      invariant partial == PartialScore(additive, w, f)
    {
      if IsAdditive(f) {
        partial := partial + additive[f] * w[f];
      }
    }
  }

  /** Evaluates and scores one resource for one requirement. */
  method ConsiderResource(s: State, limits: Limits, request: Request, q: Requirement, id: U64)
    returns (eligible: bool, candidate: Candidate)
    requires SlotsPositive(s) && |request.weights| == FACTORS && id in s.resources
    ensures eligible <==> Eligible(s, limits, request, q, id)
    ensures eligible ==> candidate == CandidateOf(s, request, q, id)
  {
    hide Evaluate;
    var r := s.resources[id];
    var verdict := EvaluateResource(request, q, r, limits.maxRejectionReasons);
    eligible := verdict.eligible;
    candidate := Candidate(id, verdict.slots, verdict.exclusive, [], 0);
    if eligible {
      EligibleVerdict(request, q, r, limits.maxRejectionReasons);
      var reused := ReservedByOtherPlacement(s, request.experiment, id, request.id);
      var additive := AdditiveValues(q, r, verdict.slots, verdict.exclusive, reused);
      var partial := SumPartialScore(additive, request.weights);
      candidate := Candidate(id, verdict.slots, verdict.exclusive, additive, partial);
    }
  }

  /** The eligible candidates of one requirement, in map order. */
  method CollectCandidates(s: State, limits: Limits, request: Request, q: Requirement)
    returns (candidates: seq<Candidate>)
    requires SlotsPositive(s) && |request.weights| == FACTORS
    ensures candidates == Eligibles(s, limits, request, q, SortedKeys(s.resources.Keys))
  {
    var ids := SortedKeys(s.resources.Keys);
    candidates := [];
    for k := 0 to |ids|
      invariant candidates == Eligibles(s, limits, request, q, ids[..k])
    {
      assert ids[..k + 1][..k] == ids[..k];
      SortedKeysExact(s.resources.Keys, ids[k]);
      var eligible, candidate := ConsiderResource(s, limits, request, q, ids[k]);
      if eligible {
        candidates := candidates + [candidate];
      }
    }
    assert ids[..|ids|] == ids;
  }

  lemma EligibleVerdict(request: Request, q: Requirement, r: Resource, maximum: nat)
    requires Evaluate(request, q, r, maximum).eligible
    ensures Evaluate(request, q, r, maximum).slots == ClaimSize(request, q, r)
    ensures Evaluate(request, q, r, maximum).exclusive == ClaimsExclusively(request, q, r)
  {
  }

  /** Keeps the first candidate of every interchangeability key. */
  method CollapseCandidates(s: State, candidates: seq<Candidate>) returns (distinct: seq<Candidate>)
    ensures distinct == Collapse(s, candidates)
  {
    var seen: set<string> := {};
    distinct := [];
    for k := 0 to |candidates|
      invariant distinct == Collapse(s, candidates[..k])
      invariant forall text :: text in seen <==> KeySeen(candidates[..k], KeyIn(s), text)
    {
      var key := InterchangeKey(s, candidates[k]);
      assert candidates[..k + 1][..k] == candidates[..k];
      KeySeenNext(candidates, k, KeyIn(s));
      if key !in seen {
        distinct := distinct + [candidates[k]];
      }
      seen := seen + {key};
    }
    assert candidates[..|candidates|] == candidates;
  }

  lemma KeySeenNext(cs: seq<Candidate>, k: nat, key: Candidate -> string)
    requires k < |cs|
    ensures forall text :: KeySeen(cs[..k + 1], key, text) <==> KeySeen(cs[..k], key, text) || text == key(cs[k])
  {
    forall text ensures KeySeen(cs[..k + 1], key, text) <==> KeySeen(cs[..k], key, text) || text == key(cs[k]) {
      if KeySeen(cs[..k], key, text) {
        var i :| 0 <= i < k && key(cs[..k][i]) == text;
        assert key(cs[..k + 1][i]) == text;
      }
      if text == key(cs[k]) {
        assert key(cs[..k + 1][k]) == text;
      }
      if KeySeen(cs[..k + 1], key, text) && text != key(cs[k]) {
        var i :| 0 <= i < k + 1 && key(cs[..k + 1][i]) == text;
        assert key(cs[..k][i]) == text;
      }
    }
  }

  /** The candidates of one requirement that the search explores. */
  method BuildPlan(s: State, limits: Limits, request: Request, q: Requirement) returns (plan: seq<Candidate>)
    requires SlotsPositive(s) && |request.weights| == FACTORS
    ensures plan == Choices(s, limits, request, q)
  {
    var eligible := CollectCandidates(s, limits, request, q);
    plan := CollapseCandidates(s, SortCandidates(eligible));
    if |plan| > limits.maxCandidateResources {
      plan := plan[..limits.maxCandidateResources];
    }
  }

  // ---------------------------------------------------------------- checking a whole selection

  method HasDuplicate(sel: Selection) returns (duplicate: bool)
    ensures duplicate <==> exists i, j :: 0 <= i < j < |sel| && sel[i].id == sel[j].id
  {
    for i := 0 to |sel|
      invariant forall a, b :: 0 <= a < i && a < b < |sel| ==> sel[a].id != sel[b].id
    {
      for j := i + 1 to |sel|
        invariant forall b :: i < b < j ==> sel[i].id != sel[b].id
      {
        if sel[i].id == sel[j].id {
          return true;
        }
      }
    }
    return false;
  }

  /** One affinity (`together`) or anti-affinity constraint over all pairs of its two groups. */
  method CheckConstraint(s: State, request: Request, sel: Selection, c: GroupConstraint, together: bool)
    returns (ok: bool)
    requires Found(s, sel) && |sel| == |request.requirements|
    ensures ok <==> if together then AffinityHolds(s, request, sel, c) else AntiAffinityHolds(s, request, sel, c)
  {
    for i := 0 to |sel|
      invariant forall a, b :: 0 <= a < i && 0 <= b < |sel| ==> PairHolds(s, request, sel, c, together, a, b)
    {
      if request.requirements[i].affinityGroup == c.groupA {
        for j := 0 to |sel|
          invariant forall b :: 0 <= b < j ==> PairHolds(s, request, sel, c, together, i, b)
        {
          if !PairHolds(s, request, sel, c, together, i, j) {
            return false;
          }
        }
      }
    }
    AllPairsHold(s, request, sel, c, together);
    return true;
  }

  predicate PairHolds(s: State, request: Request, sel: Selection, c: GroupConstraint, together: bool, i: nat, j: nat)
    requires Found(s, sel) && |sel| == |request.requirements| && i < |sel| && j < |sel|
  {
    request.requirements[i].affinityGroup == c.groupA && request.requirements[j].affinityGroup == c.groupB ==>
      if together then SameDomain(TopologyAt(s, sel, i), TopologyAt(s, sel, j), c.scope)
      else DisjointDomain(TopologyAt(s, sel, i), TopologyAt(s, sel, j), c.scope)
  }

  lemma AllPairsHold(s: State, request: Request, sel: Selection, c: GroupConstraint, together: bool)
    requires Found(s, sel) && |sel| == |request.requirements|
    requires forall a, b :: 0 <= a < |sel| && 0 <= b < |sel| ==> PairHolds(s, request, sel, c, together, a, b)
    ensures if together then AffinityHolds(s, request, sel, c) else AntiAffinityHolds(s, request, sel, c)
  {
    forall i, j | 0 <= i < |sel| && 0 <= j < |sel|
      && request.requirements[i].affinityGroup == c.groupA && request.requirements[j].affinityGroup == c.groupB
      ensures if together then SameDomain(TopologyAt(s, sel, i), TopologyAt(s, sel, j), c.scope)
              else DisjointDomain(TopologyAt(s, sel, i), TopologyAt(s, sel, j), c.scope)
    {
      assert PairHolds(s, request, sel, c, together, i, j);
    }
  }

  method CheckConstraints(s: State, request: Request, sel: Selection, cs: seq<GroupConstraint>, together: bool)
    returns (ok: bool)
    requires Found(s, sel) && |sel| == |request.requirements|
    ensures ok <==> forall c :: c in cs ==>
              if together then AffinityHolds(s, request, sel, c) else AntiAffinityHolds(s, request, sel, c)
  {
    for k := 0 to |cs|
      invariant forall i :: 0 <= i < k ==>
        if together then AffinityHolds(s, request, sel, cs[i]) else AntiAffinityHolds(s, request, sel, cs[i])
    {
      var held := CheckConstraint(s, request, sel, cs[k], together);
      if !held {
        assert cs[k] in cs;
        return false;
      }
    }
    return true;
  }

  /** validate_selection: the selection is acceptable as a unit. */
  method ValidateSelection(s: State, request: Request, sel: Selection) returns (ok: bool)
    requires Found(s, sel) && |sel| == |request.requirements|
    ensures ok <==> Acceptable(s, request, sel)
  {
    var duplicate := HasDuplicate(sel);
    if duplicate {
      return false;
    }
    var together := CheckConstraints(s, request, sel, request.affinity, true);
    if !together {
      return false;
    }
    var apart := CheckConstraints(s, request, sel, request.antiAffinity, false);
    if !apart {
      return false;
    }
    if request.experimentAntiAffinity {
      for i := 0 to |sel|
        invariant forall a :: 0 <= a < i ==> !ReservedByOther(s, request.experiment, sel[a].id, request.id)
      {
        var taken := ReservedByOtherPlacement(s, request.experiment, sel[i].id, request.id);
        if taken {
          return false;
        }
      }
    }
    if request.exclusive {
      for i := 0 to |sel|
        invariant forall a :: 0 <= a < i ==> sel[a].exclusive
      {
        if !sel[i].exclusive {
          return false;
        }
      }
    }
    return true;
  }

  // ---------------------------------------------------------------- constraints between a group and itself

  /** An anti-affinity constraint of a group with itself is never satisfied: validation makes sure the
      group has a member, and every member is compared with itself. */
  lemma SelfAntiAffinityNeverHolds(s: State, limits: Limits, request: Request, sel: Selection, c: GroupConstraint)
    requires ValidRequest(request, limits) && c in request.antiAffinity && c.groupA == c.groupB
    ensures !Acceptable(s, request, sel)
  {
    assert DeclaresGroup(request, c.groupA);
    var i :| 0 <= i < |request.requirements| && request.requirements[i].affinityGroup == c.groupA;
    if |sel| == |request.requirements| && Found(s, sel) {
      assert !DisjointDomain(TopologyAt(s, sel, i), TopologyAt(s, sel, i), c.scope);
      assert !AntiAffinityHolds(s, request, sel, c);
    }
  }

  /** Two groups are proven apart, or together, only by domains that are known. */
  lemma UnknownProvesNothing(s: State, request: Request, sel: Selection, c: GroupConstraint, i: nat, j: nat)
    requires Acceptable(s, request, sel) && i < |sel| && j < |sel|
    requires request.requirements[i].affinityGroup == c.groupA && request.requirements[j].affinityGroup == c.groupB
    requires c in request.affinity || c in request.antiAffinity
    ensures Domain(TopologyAt(s, sel, i), c.scope) != 0 && Domain(TopologyAt(s, sel, j), c.scope) != 0
  {
    if c in request.affinity {
      assert AffinityHolds(s, request, sel, c);
      assert SameDomain(TopologyAt(s, sel, i), TopologyAt(s, sel, j), c.scope);
    } else {
      assert AntiAffinityHolds(s, request, sel, c);
      assert DisjointDomain(TopologyAt(s, sel, i), TopologyAt(s, sel, j), c.scope);
    }
  }
}
