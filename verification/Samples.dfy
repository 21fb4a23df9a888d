/** Small concrete states: one accelerator and the grants made on it. */
module Samples {
  import opened Prelude
  import opened Records
  import opened Ranking
  import opened Search
  import opened Planning
  import opened Transitions
  import opened Ledger
  import opened Invariants

  // ---------------------------------------------------------------- resources and requests

  const NOWHERE := Topology(0, 0, 0, 0, 0)
  const NO_WEIGHTS: seq<int> := [0, 0, 0, 0, 0, 0, 0, 0, 0, 0, 0, 0]

  function GpuAd(id: U64): Advertisement {
    Advertisement(id, Gpu, 0, 0, Shared, {}, 1, 0, 1, 0, Healthy, Ready, NOWHERE, [], [Accelerator(1, 0)],
                  None, None, None, None, "")
  }

  function GpuResource(id: U64): Resource {
    Resource(GpuAd(id), Current, 1, 1, 1, 1, 1, true, 0)
  }

  function GpuRequirement(name: string): Requirement {
    Requirement(name, Gpu, {}, 1, 0, false, true, HealthUnknown, 100, None, None, "", false, None, "", "", false,
                None, None, None, "", None, None, None, Host, [], [], 0)
  }

  /** A request of one accelerator for trial `trial` of experiment 8. */
  function Wants(id: U64, trial: U64, q: Requirement): Request {
    Request(id, 8, 9, trial, "", 0, [q], [], [], false, false, false, 2, NO_WEIGHTS)
  }

  /** Bounds that leave room for a handful of records. */
  predicate Ample(limits: Limits) {
    && limits.maxRetainedRequests >= 4 && limits.maxActiveRequests >= 4 && limits.maxRequirements >= 1
    && limits.maxCandidateResources >= 1 && limits.maxCandidatesEvaluated >= 1 && limits.maxCandidatesRanked >= 1
    && limits.maxRejectionReasons >= 1 && limits.maxPlacements >= 4 && limits.maxActivePlacements >= 4
    && limits.maxReservations >= 4 && limits.maxActiveReservations >= 4 && limits.maxPersistenceRecords >= 4
  }

  // ---------------------------------------------------------------- two grants on one accelerator

  function Granted(id: U64, request: U64, trial: U64, exclusive: bool, state: PlacementState): Placement
    requires 1 <= id <= 9
  {
    Placement(id, 1, request, id - 1, 8, 9, trial, 1, [Selected(1, Gpu, 1, 1, exclusive, "gpu", 0, 0)], id + 1, id + 2,
              0, 0, state, 0, false)
  }

  function LeaseOf(p: Placement): Reservation
    requires p.resources != []
  {
    var x := p.resources[0];
    Reservation(p.reservation, p.lease, p.id, 1, p.request, 8, 9, 1,
                [Claim(x.resource, x.slots, x.exclusive, 1)],
                if Live(p.state) then Active else if Revokes(p.state) then Revoked else Released)
  }

  function Booked(p: Placement): StoredRequest {
    var q := GpuRequirement("gpu").(requireExclusive := p.resources != [] && p.resources[0].exclusive);
    StoredRequest(Wants(p.request, p.trial, q), if Live(p.state) then Placed else Submitted,
                  if Live(p.state) then p.id else 0, 1)
  }

  function UnitsOf(a: Placement, b: Placement): map<UnitKey, U64> {
    (if Live(a.state) then map[UnitOf(a) := a.id] else map[])
    + (if Live(b.state) then map[UnitOf(b) := b.id] else map[])
  }

  /** Request 21 was granted placement 2, request 22 placement 6, each one slot of resource 1. */
  function TwoGrants(r: Resource, exclusive: bool, trial: U64, first: PlacementState, second: PlacementState): State {
    var a, b := Granted(2, 21, 1, exclusive, first), Granted(6, 22, trial, exclusive, second);
    State(1, false, map[], map[1 := r], map[21 := Booked(a), 22 := Booked(b)], map[2 := a, 6 := b],
          map[3 := LeaseOf(a), 7 := LeaseOf(b)], UnitsOf(a, b), map[], 8)
  }

  function Slots(state: PlacementState): nat { if Live(state) then 1 else 0 }

  lemma LeaseHolds(p: Placement)
    requires |p.resources| == 1 && p.resources[0].resource == 1 && p.resources[0].slots == 1
    ensures Held(LeaseOf(p), 1) == Slots(p.state)
  {
    var cs := LeaseOf(p).claims;
    assert cs[..|cs| - 1] == [];
    assert ClaimSlots(cs, 1) == ClaimSlots([], 1) + 1;
  }

  lemma GrantsClaimed(r: Resource, exclusive: bool, trial: U64, first: PlacementState, second: PlacementState)
    ensures Claimed(TwoGrants(r, exclusive, trial, first, second).reservations, 1) == Slots(first) + Slots(second)
  {
    var s := TwoGrants(r, exclusive, trial, first, second);
    var none: map<U64, Reservation> := map[];
    var one := none[3 := s.reservations[3]];
    LeaseHolds(s.placements[2]);
    LeaseHolds(s.placements[6]);
    ClaimedInsert(none, 3, s.reservations[3], 1);
    ClaimedInsert(one, 7, s.reservations[7], 1);
    assert s.reservations == one[7 := s.reservations[7]];
  }

  /** The state is consistent if the resource is and its counter is right; the units may coincide when not
      both grants are live. */
  lemma GrantsInv(
    limits: Limits, r: Resource, exclusive: bool, trial: U64, first: PlacementState, second: PlacementState)
    requires Ample(limits) && Trusted(r) && r.ad.id == 1 && r.reserved == Slots(first) + Slots(second)
    requires r.ad.occupancy + r.reserved <= r.ad.slots && (trial == 1 ==> !(Live(first) && Live(second)))
    ensures Inv(limits, TwoGrants(r, exclusive, trial, first, second))
  {
    hide Filed, Numbered, Balanced, Authority, Trusted, Linked, Grounded, Recorded, Indexed, TwoGrants;
    GrantsEpoch(r, exclusive, trial, first, second);
    GrantsFiled(r, exclusive, trial, first, second);
    GrantsBalanced(r, exclusive, trial, first, second);
    GrantsLinked(r, exclusive, trial, first, second);
    GrantsIndexed(r, exclusive, trial, first, second);
    GrantsRecorded(limits, r, exclusive, trial, first, second);
  }

  lemma LeaseNames(p: Placement)
    requires p.resources != []
    ensures LeaseOf(p).placement == p.id
  {
  }

  lemma GrantBound(id: U64, request: U64, trial: U64, exclusive: bool, state: PlacementState,
                   resources: set<U64>, requests: map<U64, StoredRequest>)
    requires 1 <= id <= 9 && 1 in resources
    requires request in requests && requests[request] == Booked(Granted(id, request, trial, exclusive, state))
    ensures var p := Granted(id, request, trial, exclusive, state);
            Bound(id, p, LeaseOf(p)) && WellFounded(p, resources, requests)
  {
  }

  lemma GrantsLinked(r: Resource, exclusive: bool, trial: U64, first: PlacementState, second: PlacementState)
    requires r.ad.id == 1
    ensures var s := TwoGrants(r, exclusive, trial, first, second);
            Linked(s.placements, s.reservations) && Grounded(s.placements, s.resources.Keys, s.requests)
  {
    hide UnitsOf, Bound, WellFounded, Booked, LeaseOf;
    var s := TwoGrants(r, exclusive, trial, first, second);
    GrantBound(2, 21, 1, exclusive, first, s.resources.Keys, s.requests);
    GrantBound(6, 22, trial, exclusive, second, s.resources.Keys, s.requests);
    LeaseNames(s.placements[2]);
    LeaseNames(s.placements[6]);
  }

  lemma GrantsEpoch(r: Resource, exclusive: bool, trial: U64, first: PlacementState, second: PlacementState)
    ensures TwoGrants(r, exclusive, trial, first, second).epoch == 1
  {
  }

  lemma GrantsFiled(r: Resource, exclusive: bool, trial: U64, first: PlacementState, second: PlacementState)
    requires r.ad.id == 1
    ensures var s := TwoGrants(r, exclusive, trial, first, second);
            Filed(s) && Numbered(s.placements, s.reservations, s.lastId)
  {
    hide UnitsOf;
  }

  lemma GrantsBalanced(r: Resource, exclusive: bool, trial: U64, first: PlacementState, second: PlacementState)
    requires Trusted(r) && r.reserved == Slots(first) + Slots(second) && r.ad.occupancy + r.reserved <= r.ad.slots
    ensures var s := TwoGrants(r, exclusive, trial, first, second);
            Balanced(s.resources, s.reservations) && Authority(s.resources)
  {
    hide Trusted, Claimed, UnitsOf;
    GrantsClaimed(r, exclusive, trial, first, second);
  }

  lemma GrantsIndexed(r: Resource, exclusive: bool, trial: U64, first: PlacementState, second: PlacementState)
    requires trial == 1 ==> !(Live(first) && Live(second))
    ensures var s := TwoGrants(r, exclusive, trial, first, second); Indexed(s.unitCurrent, s.placements)
  {
  }

  lemma GrantsRecorded(
    limits: Limits, r: Resource, exclusive: bool, trial: U64, first: PlacementState, second: PlacementState)
    requires Ample(limits)
    ensures var s := TwoGrants(r, exclusive, trial, first, second); Recorded(limits, s.requests, s.placements)
  {
    hide UnitsOf, ValidRequest;
    var s := TwoGrants(r, exclusive, trial, first, second);
    BookedValid(limits, s.placements[2]);
    BookedValid(limits, s.placements[6]);
  }

  lemma BookedValid(limits: Limits, p: Placement)
    requires Ample(limits) && p.request != 0
    ensures ValidRequest(Booked(p).request, limits)
  {
  }

  // ---------------------------------------------------------------- one request on one resource

  lemma {:induction false} NothingWeighs(additive: seq<int>, n: nat, k: nat)
    requires |additive| == FACTORS && k <= FACTORS
    ensures PartialScore(additive, NO_WEIGHTS, k) == 0 && CrossBound(NO_WEIGHTS, n, k) == 0
  {
    if k > 0 {
      NothingWeighs(additive, n, k - 1);
    }
  }

  lemma OnlyKey(id: U64)
    ensures SortedKeys({id}) == [id]
  {
    var m := SortedKeysHead({id});
    assert {id} - {m} == {};
  }

  lemma OnlyEligible(s: State, limits: Limits, request: Request, q: Requirement, id: U64)
    requires Plannable(s, request) && Eligible(s, limits, request, q, id)
    ensures Eligibles(s, limits, request, q, [id]) == [CandidateOf(s, request, q, id)]
  {
    hide Eligible, CandidateOf;
    assert [id][..0] == [];
    assert Eligibles(s, limits, request, q, []) == [];
  }

  lemma OnlySorted(c: Candidate)
    ensures SortCandidates([c]) == [c]
  {
    assert [c][1..] == [];
    assert SortCandidates([]) == [];
  }

  lemma OnlyKept(c: Candidate, key: Candidate -> string)
    ensures FirstOfEach([c], key) == [c]
  {
    assert [c][..0] == [];
    assert FirstOfEach([], key) == [];
  }

  /** With one resource in the engine, a request that it can serve has it as its one candidate. */
  lemma OnlyChoice(s: State, limits: Limits, request: Request, id: U64)
    requires Plannable(s, request) && s.resources.Keys == {id} && |request.requirements| == 1
    requires Eligible(s, limits, request, request.requirements[0], id) && limits.maxCandidateResources >= 1
    ensures ChoiceLists(s, limits, request) == [[CandidateOf(s, request, request.requirements[0], id)]]
  {
    hide Eligible, CandidateOf, SortCandidates, Eligibles, SortedKeys;
    var q := request.requirements[0];
    var c := CandidateOf(s, request, q, id);
    OnlyKey(id);
    OnlyEligible(s, limits, request, q, id);
    OnlySorted(c);
    assert AllCandidates(s, limits, request, q) == SortCandidates(Eligibles(s, limits, request, q, [id]));
    OnlyKept(c, KeyIn(s));
    assert Choices(s, limits, request, q) == [c];
  }

  lemma OnlyCandidateFound(sp: Space, c: Candidate)
    requires sp.choices == [[c]] && sp.accept([c]) && c.partial + sp.bound >= INT64_MIN
    requires sp.maxEvaluated >= 1 && sp.maxRanked >= 1
    ensures Run(sp).ranked == [Search.Rank(sp, [c])]
  {
    var o := Explore(sp, 1, c.partial, [] + [c], EMPTY_OUTCOME);
    assert [] + [c] == [c];
    assert o == Leaf(sp, [c], EMPTY_OUTCOME);
    assert ExploreFrom(sp, 0, 1, 0, [], o) == o;
    assert RemainingMax(sp.choices, 1) == 0;
    assert !Pruned(sp, 0, 0, 0, INT64_MIN);
    assert ExploreFrom(sp, 0, 0, 0, [], EMPTY_OUTCOME) == o;
  }

  /** The one candidate is ranked. */
  lemma OnlyRanked(s: State, limits: Limits, id: U64, unit: U64, trial: U64, q: Requirement)
    requires SlotsPositive(s) && s.resources.Keys == {id} && Ample(limits)
    requires Eligible(s, limits, Wants(unit, trial, q), q, id)
    ensures var found := RankingOf(s, limits, Wants(unit, trial, q));
            found != [] && |Head(found).selection| == 1 && Head(found).selection[0].id == id
  {
    hide Eligible, Run;
    var request := Wants(unit, trial, q);
    var c := CandidateOf(s, request, q, id);
    OnlyChoice(s, limits, request, id);
    NothingWeighs(c.additive, 1, FACTORS);
    assert Acceptable(s, request, [c]);
    OnlyCandidateFound(SearchSpace(s, limits, request), c);
  }

  // ---------------------------------------------------------------- room for one more

  lemma SubsetSize<T>(part: set<T>, whole: set<T>)
    requires part <= whole
    ensures |part| <= |whole|
  {
    assert whole == part + (whole - part);
  }

  lemma RoomLeft(limits: Limits, s: State)
    requires Ample(limits) && |s.placements| <= 2 && |s.reservations| <= 2
    ensures HasCapacity(s, limits)
  {
    SubsetSize(LivePlacements(s), s.placements.Keys);
    SubsetSize(ActiveReservations(s), s.reservations.Keys);
  }
}
