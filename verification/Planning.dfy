/** From a request and the engine state to a placement problem: candidate lists, the collapse of
    interchangeable candidates, and the acceptance test of whole selections
    (src/engine_scheduling.cpp:103-124, 444-501, 651-713, 958-1072). */
module Planning {
  import opened Prelude
  import opened Records
  import opened Eligibility
  import opened Ranking
  import opened Canonical
  import opened Search

  // ---------------------------------------------------------------- candidate lists

  predicate IsLeast(ids: set<U64>, m: U64) {
    m in ids && forall x :: x in ids ==> m <= x
  }

  lemma {:induction false} SetMinimum(ids: set<U64>)
    requires ids != {}
    ensures exists m :: IsLeast(ids, m)
  {
    var y :| y in ids;
    var rest := ids - {y};
    if rest == {} {
      assert ids == {y};
      assert IsLeast(ids, y);
    } else {
      SetMinimum(rest);
      var m :| IsLeast(rest, m);
      assert forall x :: x in ids ==> x == y || x in rest;
      assert IsLeast(ids, if y < m then y else m);
    }
  }

  /** The iteration order of the ordered maps: ascending identities. */
  function SortedKeys(ids: set<U64>): seq<U64> {
    if ids == {} then []
    else
      SetMinimum(ids);
      var m :| m in ids && IsLeast(ids, m);
      [m] + SortedKeys(ids - {m})
  }

  lemma SortedKeysHead(ids: set<U64>) returns (m: U64)
    requires ids != {}
    ensures IsLeast(ids, m) && SortedKeys(ids) == [m] + SortedKeys(ids - {m})
  {
    SetMinimum(ids);
    m :| m in ids && IsLeast(ids, m) && SortedKeys(ids) == [m] + SortedKeys(ids - {m});
  }

  lemma {:induction false} SortedKeysExact(ids: set<U64>, x: U64)
    ensures x in SortedKeys(ids) <==> x in ids
  {
    if ids != {} {
      var m := SortedKeysHead(ids);
      SortedKeysExact(ids - {m}, x);
    }
  }

  /** Another live placement of the same experiment holds an active claim on the resource. */
  predicate ReservedByOther(s: State, experiment: U64, resource: U64, exclude: U64) {
    exists id :: id in s.placements && HoldsForExperiment(s, s.placements[id], experiment, resource, exclude)
  }

  predicate HoldsForExperiment(s: State, p: Placement, experiment: U64, resource: U64, exclude: U64) {
    && p.experiment == experiment && p.request != exclude
    && Live(p.state)
    && p.reservation in s.reservations && s.reservations[p.reservation].state.Active?
    && exists c :: c in s.reservations[p.reservation].claims && c.resource == resource
  }

  ghost predicate SlotsPositive(s: State) {
    forall id :: id in s.resources ==> s.resources[id].ad.slots >= 1
  }

  function CandidateOf(s: State, request: Request, q: Requirement, id: U64): Candidate
    requires id in s.resources && s.resources[id].ad.slots >= 1 && |request.weights| == FACTORS
  {
    var r := s.resources[id];
    var slots, exclusive := ClaimSize(request, q, r), ClaimsExclusively(request, q, r);
    var reused := ReservedByOther(s, request.experiment, id, request.id);
    var additive := AdditiveValues(q, r, slots, exclusive, reused);
    Candidate(id, slots, exclusive, additive, PartialScore(additive, request.weights, FACTORS))
  }

  predicate Eligible(s: State, limits: Limits, request: Request, q: Requirement, id: U64) {
    id in s.resources && Evaluate(request, q, s.resources[id], limits.maxRejectionReasons).eligible
  }

  /** The eligible candidates among `ids`, in the order of `ids`. */
  function Eligibles(s: State, limits: Limits, request: Request, q: Requirement, ids: seq<U64>): seq<Candidate>
    requires SlotsPositive(s) && |request.weights| == FACTORS
  {
    if ids == [] then []
    else
      var rest := Eligibles(s, limits, request, q, ids[..|ids| - 1]);
      var id := ids[|ids| - 1];
      if Eligible(s, limits, request, q, id) then rest + [CandidateOf(s, request, q, id)] else rest
  }

  predicate Precedes(a: Candidate, b: Candidate) {
    a.partial > b.partial || (a.partial == b.partial && a.id < b.id)
  }

  function InsertCandidate(c: Candidate, cs: seq<Candidate>): seq<Candidate> {
    if cs == [] || !Precedes(cs[0], c) then [c] + cs else [cs[0]] + InsertCandidate(c, cs[1..])
  }

  function SortCandidates(cs: seq<Candidate>): seq<Candidate> {
    if cs == [] then [] else InsertCandidate(cs[0], SortCandidates(cs[1..]))
  }

  /** interchangeability_key, part by part. */
  function KeyParts(c: Candidate, r: Resource): seq<string>
    requires |c.additive| == FACTORS
  {
    seq(FACTORS, f requires 0 <= f < FACTORS => DecimalSigned(c.additive[f]))
    + [Decimal(c.slots), if c.exclusive then "1" else "0",
       Decimal(r.ad.topology.host), Decimal(r.ad.topology.rack), Decimal(r.ad.topology.cluster),
       Decimal(r.ad.worker), Decimal(r.ad.boot), Decimal(r.generation)]
  }

  function InterchangeKey(s: State, c: Candidate): string {
    if c.id in s.resources && |c.additive| == FACTORS then Joined(KeyParts(c, s.resources[c.id])) else ""
  }

  predicate KeySeen(cs: seq<Candidate>, key: Candidate -> string, text: string) {
    exists i :: 0 <= i < |cs| && key(cs[i]) == text
  }

  /** Keeps the first candidate of every key. */
  function FirstOfEach(cs: seq<Candidate>, key: Candidate -> string): seq<Candidate> {
    if cs == [] then []
    else
      var n := |cs| - 1;
      var rest := FirstOfEach(cs[..n], key);
      if KeySeen(cs[..n], key, key(cs[n])) then rest else rest + [cs[n]]
  }

  function KeyIn(s: State): Candidate -> string {
    c => InterchangeKey(s, c)
  }

  /** Interchangeable candidates collapse to the first of them. */
  function Collapse(s: State, cs: seq<Candidate>): seq<Candidate> {
    FirstOfEach(cs, KeyIn(s))
  }

  function AllCandidates(s: State, limits: Limits, request: Request, q: Requirement): seq<Candidate>
    requires SlotsPositive(s) && |request.weights| == FACTORS
  {
    SortCandidates(Eligibles(s, limits, request, q, SortedKeys(s.resources.Keys)))
  }

  function Truncated(cs: seq<Candidate>, limit: nat): seq<Candidate> {
    if |cs| > limit then cs[..limit] else cs
  }

  /** The candidates of one requirement that the search explores. */
  function Choices(s: State, limits: Limits, request: Request, q: Requirement): seq<Candidate>
    requires SlotsPositive(s) && |request.weights| == FACTORS
  {
    Truncated(Collapse(s, AllCandidates(s, limits, request, q)), limits.maxCandidateResources)
  }

  // ---------------------------------------------------------------- whole selections

  function Ids(sel: Selection): seq<U64> {
    seq(|sel|, i requires 0 <= i < |sel| => sel[i].id)
  }

  predicate Found(s: State, sel: Selection) {
    forall i :: 0 <= i < |sel| ==> sel[i].id in s.resources
  }

  predicate SameDomain(a: Topology, b: Topology, scope: Scope) {
    Domain(a, scope) != 0 && Domain(a, scope) == Domain(b, scope)
  }

  predicate DisjointDomain(a: Topology, b: Topology, scope: Scope) {
    Domain(a, scope) != 0 && Domain(b, scope) != 0 && Domain(a, scope) != Domain(b, scope)
  }

  function TopologyAt(s: State, sel: Selection, i: nat): Topology
    requires i < |sel| && sel[i].id in s.resources
  {
    s.resources[sel[i].id].ad.topology
  }

  predicate AffinityHolds(s: State, request: Request, sel: Selection, c: GroupConstraint)
    requires Found(s, sel) && |sel| == |request.requirements|
  {
    forall i, j :: 0 <= i < |sel| && 0 <= j < |sel|
      && request.requirements[i].affinityGroup == c.groupA && request.requirements[j].affinityGroup == c.groupB
      ==> SameDomain(TopologyAt(s, sel, i), TopologyAt(s, sel, j), c.scope)
  }

  predicate AntiAffinityHolds(s: State, request: Request, sel: Selection, c: GroupConstraint)
    requires Found(s, sel) && |sel| == |request.requirements|
  {
    forall i, j :: 0 <= i < |sel| && 0 <= j < |sel|
      && request.requirements[i].affinityGroup == c.groupA && request.requirements[j].affinityGroup == c.groupB
      ==> DisjointDomain(TopologyAt(s, sel, i), TopologyAt(s, sel, j), c.scope)
  }

  /** What makes a selection acceptable as a unit. */
  predicate Acceptable(s: State, request: Request, sel: Selection) {
    && |sel| == |request.requirements| && Found(s, sel)
    && (forall i, j :: 0 <= i < j < |sel| ==> sel[i].id != sel[j].id)
    && (forall c :: c in request.affinity ==> AffinityHolds(s, request, sel, c))
    && (forall c :: c in request.antiAffinity ==> AntiAffinityHolds(s, request, sel, c))
    && (request.experimentAntiAffinity ==> forall i :: 0 <= i < |sel| ==>
          !ReservedByOther(s, request.experiment, sel[i].id, request.id))
    && (request.exclusive ==> forall i :: 0 <= i < |sel| ==> sel[i].exclusive)
  }

  function ViewOf(s: State, q: Requirement, c: Candidate): View {
    if c.id in s.resources then
      var ad := s.resources[c.id].ad;
      View(c.additive, ad.topology.host, ad.topology.rack, ad.topology.cluster,
           q.resourceClass.Dataset?, q.resourceClass.Dataset? && ad.localDatasets != [])
    else View(c.additive, 0, 0, 0, false, false)
  }

  function Views(s: State, request: Request, sel: Selection): seq<View>
    requires |sel| == |request.requirements|
  {
    seq(|sel|, i requires 0 <= i < |sel| => ViewOf(s, request.requirements[i], sel[i]))
  }

  function ContextOf(s: State, request: Request): Context {
    Context(Fairness(s.tenantService, request.tenant), PriorityFactor(request.priority))
  }

  /** The weighted score of a complete selection; 0 for lists the search never scores. */
  function ScoreOf(s: State, request: Request, sel: Selection): int {
    if |sel| == |request.requirements| && |request.weights| == FACTORS
       && (forall i :: 0 <= i < |sel| ==> |sel[i].additive| == FACTORS) then
      RawScore(Views(s, request, sel), ContextOf(s, request), request.weights, FACTORS)
    else 0
  }

  function TieBreak(sel: Selection): seq<int> {
    var ids := Sort(Ids(sel));
    Codes(ResourceKey(seq(|ids|, i requires 0 <= i < |ids| => Wrap64(ids[i]))))
  }

  function SpaceWith(s: State, limits: Limits, request: Request, choices: seq<seq<Candidate>>): Space
    requires |request.weights| == FACTORS
  {
    Space(choices,
          sel => Acceptable(s, request, sel),
          sel => ScoreOf(s, request, sel),
          sel => TieBreak(sel),
          CrossBound(request.weights, |request.requirements|, FACTORS),
          limits.maxCandidatesEvaluated,
          limits.maxCandidatesRanked)
  }

  ghost predicate Plannable(s: State, request: Request) {
    SlotsPositive(s) && |request.weights| == FACTORS
  }

  function ChoiceLists(s: State, limits: Limits, request: Request): seq<seq<Candidate>>
    requires Plannable(s, request)
  {
    seq(|request.requirements|,
        i requires 0 <= i < |request.requirements| => Choices(s, limits, request, request.requirements[i]))
  }

  /** The problem the search runs on. */
  function SearchSpace(s: State, limits: Limits, request: Request): Space
    requires Plannable(s, request)
  {
    SpaceWith(s, limits, request, ChoiceLists(s, limits, request))
  }

  /** The ranking a decision is made from: empty when a requirement has no candidate, or none was found. */
  function RankingOf(s: State, limits: Limits, request: Request): seq<Ranked>
    requires Plannable(s, request)
  {
    if [] in ChoiceLists(s, limits, request) then [] else Run(SearchSpace(s, limits, request)).ranked
  }

  // ---------------------------------------------------------------- candidates are what they claim to be

  /** `c` is the candidate of an eligible resource for requirement `q`. */
  ghost predicate Genuine(s: State, limits: Limits, request: Request, q: Requirement, c: Candidate)
    requires Plannable(s, request)
  {
    Eligible(s, limits, request, q, c.id) && c == CandidateOf(s, request, q, c.id)
  }

  lemma {:induction false} EligiblesExact(
    s: State, limits: Limits, request: Request, q: Requirement, ids: seq<U64>, c: Candidate)
    requires Plannable(s, request)
    ensures c in Eligibles(s, limits, request, q, ids) <==> Genuine(s, limits, request, q, c) && c.id in ids
  {
    if ids != [] {
      var n := |ids| - 1;
      EligiblesExact(s, limits, request, q, ids[..n], c);
      assert ids == ids[..n] + [ids[n]];
    }
  }

  lemma {:induction false} InsertCandidateContents(c: Candidate, cs: seq<Candidate>)
    ensures multiset(InsertCandidate(c, cs)) == multiset(cs) + multiset{c}
  {
    if cs != [] && Precedes(cs[0], c) {
      InsertCandidateContents(c, cs[1..]);
      assert cs == [cs[0]] + cs[1..];
    }
  }

  lemma {:induction false} SortCandidatesContents(cs: seq<Candidate>)
    ensures multiset(SortCandidates(cs)) == multiset(cs)
  {
    if cs != [] {
      SortCandidatesContents(cs[1..]);
      InsertCandidateContents(cs[0], SortCandidates(cs[1..]));
      assert cs == [cs[0]] + cs[1..];
    }
  }

  /** The candidate list of a requirement holds exactly the eligible resources. */
  lemma AllCandidatesExact(s: State, limits: Limits, request: Request, q: Requirement, c: Candidate)
    requires Plannable(s, request)
    ensures c in AllCandidates(s, limits, request, q) <==> Genuine(s, limits, request, q, c)
  {
    var ids := SortedKeys(s.resources.Keys);
    var cs := Eligibles(s, limits, request, q, ids);
    EligiblesExact(s, limits, request, q, ids, c);
    SortedKeysExact(s.resources.Keys, c.id);
    SortCandidatesContents(cs);
    assert c in cs <==> c in multiset(cs);
    assert c in SortCandidates(cs) <==> c in multiset(SortCandidates(cs));
  }

  /** Candidates are in the order (partial descending, identity ascending). */
  ghost predicate Ordered(cs: seq<Candidate>) {
    forall i, j :: 0 <= i < j < |cs| ==> !Precedes(cs[j], cs[i])
  }

  lemma {:induction false} InsertCandidateOrdered(c: Candidate, cs: seq<Candidate>)
    requires Ordered(cs)
    ensures Ordered(InsertCandidate(c, cs))
  {
    if cs != [] && Precedes(cs[0], c) {
      InsertCandidateOrdered(c, cs[1..]);
      var t := InsertCandidate(c, cs[1..]);
      InsertCandidateContents(c, cs[1..]);
      forall k | 0 <= k < |t| ensures !Precedes(t[k], cs[0]) {
        assert t[k] in multiset(t);
        assert t[k] == c || t[k] in cs[1..];
      }
    }
  }

  lemma {:induction false} SortCandidatesOrdered(cs: seq<Candidate>)
    ensures Ordered(SortCandidates(cs))
  {
    if cs != [] {
      SortCandidatesOrdered(cs[1..]);
      InsertCandidateOrdered(cs[0], SortCandidates(cs[1..]));
    }
  }

  lemma {:induction false} FirstOfEachSubset(cs: seq<Candidate>, key: Candidate -> string)
    requires Ordered(cs)
    ensures Ordered(FirstOfEach(cs, key))
    ensures forall c :: c in FirstOfEach(cs, key) ==> c in cs
  {
    if cs != [] {
      var n := |cs| - 1;
      FirstOfEachSubset(cs[..n], key);
      assert cs == cs[..n] + [cs[n]];
      var rest := FirstOfEach(cs[..n], key);
      forall i | 0 <= i < |rest| ensures !Precedes(cs[n], rest[i]) {
        assert rest[i] in cs[..n];
      }
    }
  }

  lemma ChoicesSound(s: State, limits: Limits, request: Request, q: Requirement)
    requires Plannable(s, request)
    ensures Ordered(Choices(s, limits, request, q))
    ensures forall c :: c in Choices(s, limits, request, q) ==> Genuine(s, limits, request, q, c)
  {
    var all := AllCandidates(s, limits, request, q);
    SortCandidatesOrdered(Eligibles(s, limits, request, q, SortedKeys(s.resources.Keys)));
    FirstOfEachSubset(all, KeyIn(s));
    forall c | c in Choices(s, limits, request, q) ensures Genuine(s, limits, request, q, c) {
      assert c in Collapse(s, all);
      AllCandidatesExact(s, limits, request, q, c);
    }
  }

  // ---------------------------------------------------------------- the bound is admissible here

  ghost predicate GenuineLists(s: State, limits: Limits, request: Request, choices: seq<seq<Candidate>>)
    requires Plannable(s, request)
  {
    |choices| == |request.requirements|
    && forall i :: 0 <= i < |choices| ==>
         Ordered(choices[i])
         && forall c :: c in choices[i] ==> Genuine(s, limits, request, request.requirements[i], c)
  }

  /** What the engine guarantees of a request it schedules. */
  ghost predicate Schedulable(s: State, request: Request) {
    Plannable(s, request) && ValidWeights(request.weights) && |request.requirements| <= 16
  }

  lemma {:induction false} PartialSums(sel: Selection, vs: seq<View>, w: seq<int>)
    requires |w| == FACTORS && |sel| == |vs|
    requires forall i :: 0 <= i < |vs| ==> |vs[i].additive| == FACTORS
    requires forall i :: 0 <= i < |sel| ==> sel[i].partial == PartialScore(vs[i].additive, w, FACTORS)
    ensures SumPartial(sel) == PartialTotal(vs, w)
  {
    if sel != [] {
      PartialSums(sel[..|sel| - 1], vs[..|vs| - 1], w);
    }
  }

  lemma GenuineAdditive(s: State, limits: Limits, request: Request, q: Requirement, c: Candidate)
    requires Plannable(s, request) && Genuine(s, limits, request, q, c)
    ensures ValidAdditive(c.additive) && |c.additive| == FACTORS
  {
    var r := s.resources[c.id];
    AdditiveInRange(q, r, ClaimSize(request, q, r), ClaimsExclusively(request, q, r),
                    ReservedByOther(s, request.experiment, c.id, request.id));
  }

  /** Any problem built from genuine candidates is one the search solves exactly. */
  lemma SpaceIsWellPosed(s: State, limits: Limits, request: Request, choices: seq<seq<Candidate>>)
    requires Schedulable(s, request) && limits.maxCandidatesRanked >= 1
    requires GenuineLists(s, limits, request, choices)
    ensures WellPosed(SpaceWith(s, limits, request, choices))
  {
    var sp := SpaceWith(s, limits, request, choices);
    forall i, j, k | 0 <= i < |choices| && 0 <= j <= k < |choices[i]|
      ensures choices[i][k].partial <= choices[i][j].partial
    {
      assert Ordered(choices[i]);
    }
    forall sel {:trigger sp.raw(sel)} | Valid(sp, sel)
      ensures INT64_MIN <= sp.raw(sel) <= SumPartial(sel) + sp.bound
    {
      ScoreIsBounded(s, limits, request, choices, sel);
    }
  }

  lemma ScoreIsBounded(s: State, limits: Limits, request: Request, choices: seq<seq<Candidate>>, sel: Selection)
    requires Schedulable(s, request) && GenuineLists(s, limits, request, choices)
    requires Full(SpaceWith(s, limits, request, choices), sel)
    ensures INT64_MIN <= ScoreOf(s, request, sel)
            <= SumPartial(sel) + CrossBound(request.weights, |request.requirements|, FACTORS)
  {
    var vs, ctx := Views(s, request, sel), ContextOf(s, request);
    forall i | 0 <= i < |sel|
      ensures |sel[i].additive| == FACTORS && vs[i].additive == sel[i].additive && ValidAdditive(vs[i].additive)
      ensures sel[i].partial == PartialScore(vs[i].additive, request.weights, FACTORS)
    {
      assert sel[i] in choices[i];
      GenuineAdditive(s, limits, request, request.requirements[i], sel[i]);
    }
    FairnessInRange(s.tenantService, request.tenant);
    PartialSums(sel, vs, request.weights);
    BoundIsAdmissible(vs, ctx, request.weights);
    RawRange(vs, ctx, request.weights, FACTORS);
    ScoreMagnitude(|vs|);
  }

  lemma ScoreMagnitude(n: nat)
    requires n <= 16
    ensures INT64_MIN <= -(FACTORS * n * 1000 * UNIT)
  {
  }

  lemma ChoiceListsGenuine(s: State, limits: Limits, request: Request)
    requires Plannable(s, request)
    ensures GenuineLists(s, limits, request, ChoiceLists(s, limits, request))
  {
    forall i | 0 <= i < |request.requirements|
      ensures Ordered(ChoiceLists(s, limits, request)[i])
      ensures forall c :: c in ChoiceLists(s, limits, request)[i] ==>
                Genuine(s, limits, request, request.requirements[i], c)
    {
      ChoicesSound(s, limits, request, request.requirements[i]);
    }
  }

  /** The search run by the engine is exact for the candidate lists it explores. */
  lemma PlanningIsExact(s: State, limits: Limits, request: Request)
    requires Schedulable(s, request) && limits.maxCandidatesRanked >= 1
    ensures var sp := SearchSpace(s, limits, request); var o := Run(sp);
            && (o.ranked != [] ==> Valid(sp, Head(o.ranked).selection))
            && (!o.truncated && o.ranked != [] ==>
                  forall sel :: Valid(sp, sel) ==> !Better(Rank(sp, sel), Head(o.ranked)))
            && (!o.truncated ==> (o.ranked == [] <==> forall sel :: !Valid(sp, sel)))
  {
    ChoiceListsGenuine(s, limits, request);
    SpaceIsWellPosed(s, limits, request, ChoiceLists(s, limits, request));
    SearchIsExact(SearchSpace(s, limits, request));
  }
}
