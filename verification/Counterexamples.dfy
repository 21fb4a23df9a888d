/** Where collapsing interchangeable candidates loses placements (src/engine_scheduling.cpp:457-484,
    1011-1025): the key has no identity, so requirements that share their resources may be left with one candidate
    between them; it has no NUMA domain, no root complex and no local dataset versions either. */
module Counterexamples {
  import opened Prelude
  import opened Records
  import opened Eligibility
  import opened Ranking
  import opened Search
  import opened Planning
  import opened Interchange
  import opened Canonical
  import opened Samples

  /** All eligible resources of a requirement look alike to the key. */
  ghost predicate OneKey(s: State, limits: Limits, request: Request, q: Requirement)
    requires Plannable(s, request)
  {
    forall c, d :: Genuine(s, limits, request, q, c) && Genuine(s, limits, request, q, d) ==>
      InterchangeKey(s, c) == InterchangeKey(s, d)
  }

  lemma {:induction false} FirstOfOneKey(cs: seq<Candidate>, key: Candidate -> string)
    requires forall i, j :: 0 <= i < |cs| && 0 <= j < |cs| ==> key(cs[i]) == key(cs[j])
    ensures FirstOfEach(cs, key) == if cs == [] then [] else [cs[0]]
  {
    if |cs| > 1 {
      var n := |cs| - 1;
      FirstOfOneKey(cs[..n], key);
      assert key(cs[..n][0]) == key(cs[n]);
    }
  }

  /** With one key the search is left with the smallest eligible identity. */
  lemma OneKeyLeavesSmallest(s: State, limits: Limits, request: Request, q: Requirement, c: Candidate, id: U64)
    requires Plannable(s, request) && OneKey(s, limits, request, q)
    requires c in Choices(s, limits, request, q) && Eligible(s, limits, request, q, id)
    ensures Eligible(s, limits, request, q, c.id) && c.id <= id
  {
    var all := AllCandidates(s, limits, request, q);
    forall i, j | 0 <= i < |all| && 0 <= j < |all| ensures KeyIn(s)(all[i]) == KeyIn(s)(all[j]) {
      AllCandidatesExact(s, limits, request, q, all[i]);
      AllCandidatesExact(s, limits, request, q, all[j]);
    }
    FirstOfOneKey(all, KeyIn(s));
    AllCandidatesExact(s, limits, request, q, c);
    var d := CandidateOf(s, request, q, id);
    AllCandidatesExact(s, limits, request, q, d);
    var k :| 0 <= k < |all| && all[k] == d;
    SortCandidatesOrdered(Eligibles(s, limits, request, q, SortedKeys(s.resources.Keys)));
    EqualKeysScoreAlike(s, limits, request, q, d, c);
    FirstIsSmallest(all, 0, k);
  }

  /** Two requirements that the same look-alike resources can serve are never placed together, however
      many such resources there are. */
  lemma CollapseLosesPair(s: State, limits: Limits, request: Request, i: nat, j: nat)
    requires Plannable(s, request) && i < j < |request.requirements|
    requires OneKey(s, limits, request, request.requirements[i])
    requires OneKey(s, limits, request, request.requirements[j])
    requires forall id :: Eligible(s, limits, request, request.requirements[i], id)
                     <==> Eligible(s, limits, request, request.requirements[j], id)
    ensures Run(SearchSpace(s, limits, request)).ranked == []
  {
    hide Run, Head, Eligible, OneKey, Choices;
    var sp := SearchSpace(s, limits, request);
    HeadIsValid(sp);
    if Run(sp).ranked != [] {
      var sel := Head(Run(sp).ranked).selection;
      var q, r := request.requirements[i], request.requirements[j];
      assert sel[i] in sp.choices[i] && sel[j] in sp.choices[j];
      ChoicesSound(s, limits, request, q);
      ChoicesSound(s, limits, request, r);
      SmallestTwice(s, limits, request, q, r, sel[i], sel[j]);
    }
  }

  lemma SmallestTwice(s: State, limits: Limits, request: Request, q: Requirement, r: Requirement,
                      c: Candidate, d: Candidate)
    requires Plannable(s, request) && OneKey(s, limits, request, q) && OneKey(s, limits, request, r)
    requires forall id :: Eligible(s, limits, request, q, id) <==> Eligible(s, limits, request, r, id)
    requires c in Choices(s, limits, request, q) && d in Choices(s, limits, request, r)
    ensures c.id == d.id
  {
    hide Choices, OneKey, Eligible;
    ChoiceEligible(s, limits, request, q, c);
    ChoiceEligible(s, limits, request, r, d);
    OneKeyLeavesSmallest(s, limits, request, q, c, d.id);
    OneKeyLeavesSmallest(s, limits, request, r, d, c.id);
  }

  lemma ChoiceEligible(s: State, limits: Limits, request: Request, q: Requirement, c: Candidate)
    requires Plannable(s, request) && c in Choices(s, limits, request, q)
    ensures Eligible(s, limits, request, q, c.id)
  {
    hide Choices, Eligible;
    ChoicesSound(s, limits, request, q);
  }

  /** ... and exactly one candidate of the key is left. */
  lemma OneKeyLeavesOne(s: State, limits: Limits, request: Request, q: Requirement, id: U64)
    requires Plannable(s, request) && OneKey(s, limits, request, q) && limits.maxCandidateResources >= 1
    requires Eligible(s, limits, request, q, id)
    ensures |Choices(s, limits, request, q)| == 1
  {
    hide CandidateOf, InterchangeKey, Evaluate, AllCandidates;
    var all := AllCandidates(s, limits, request, q);
    forall i, j | 0 <= i < |all| && 0 <= j < |all| ensures KeyIn(s)(all[i]) == KeyIn(s)(all[j]) {
      AllCandidatesExact(s, limits, request, q, all[i]);
      AllCandidatesExact(s, limits, request, q, all[j]);
    }
    FirstOfOneKey(all, KeyIn(s));
    var c := CandidateOf(s, request, q, id);
    CandidateNames(s, request, q, id);
    AllCandidatesExact(s, limits, request, q, c);
    assert c in all;
  }

  // ---------------------------------------------------------------- what the key does not see

  /** The resources differ at most in identity, NUMA domain, root complex and local dataset versions. */
  predicate Copies(p: Resource, r: Resource) {
    r == p.(ad := p.ad.(id := r.ad.id, localDatasets := r.ad.localDatasets,
                        topology := p.ad.topology.(numa := r.ad.topology.numa,
                                                   rootComplex := r.ad.topology.rootComplex)))
  }

  /** Copies that no placement holds give candidates that differ in identity only, under one key. */
  lemma CopiesAlike(s: State, request: Request, q: Requirement, a: U64, b: U64)
    requires Plannable(s, request) && s.placements == map[] && a in s.resources && b in s.resources
    requires Copies(s.resources[a], s.resources[b])
    ensures var c, d := CandidateOf(s, request, q, a), CandidateOf(s, request, q, b);
            c.id == a && d == c.(id := b) && InterchangeKey(s, c) == InterchangeKey(s, d)
  {
    hide PartialScore, Decimal, DecimalSigned, Joined;
    var c, d := CandidateOf(s, request, q, a), CandidateOf(s, request, q, b);
    var p, r := s.resources[a], s.resources[b];
    CopiesScoreAlike(q, p, r, ClaimSize(request, q, p), ClaimsExclusively(request, q, p));
    assert !ReservedByOther(s, request.experiment, a, request.id);
    assert !ReservedByOther(s, request.experiment, b, request.id);
    assert KeyParts(c, p) == KeyParts(d, r);
  }

  lemma CopiesScoreAlike(q: Requirement, p: Resource, r: Resource, slots: U32, exclusive: bool)
    requires Copies(p, r) && p.ad.slots >= 1
    ensures AdditiveValues(q, p, slots, exclusive, false) == AdditiveValues(q, r, slots, exclusive, false)
  {
  }

  /** A requirement that only resources 1 and 2 can serve, copies of one another, has one key. */
  lemma TwoCopiesOneKey(s: State, limits: Limits, request: Request, q: Requirement)
    requires Plannable(s, request) && s.placements == map[] && 1 in s.resources && 2 in s.resources
    requires Copies(s.resources[1], s.resources[2])
    requires forall id :: Eligible(s, limits, request, q, id) ==> id == 1 || id == 2
    ensures OneKey(s, limits, request, q)
  {
    hide Eligible, CandidateOf, InterchangeKey;
    CopiesAlike(s, request, q, 1, 2);
  }

  // ---------------------------------------------------------------- requirements that share their resources

  const PAIR_REQUEST :=
    Request(7, 8, 9, 0, "", 0, [GpuRequirement("left"), GpuRequirement("right")], [], [], false, false, false, 0,
            NO_WEIGHTS)

  const TWO_GPUS :=
    State(1, false, map[], map[1 := GpuResource(1), 2 := GpuResource(2)], map[], map[], map[], map[], map[], 1)

  lemma GpusEligible(limits: Limits, name: string, id: U64)
    requires limits.maxRejectionReasons >= 1
    ensures Eligible(TWO_GPUS, limits, PAIR_REQUEST, GpuRequirement(name), id) <==> id == 1 || id == 2
  {
    hide Evaluate;
    if id == 1 || id == 2 {
      var q, r := GpuRequirement(name), TWO_GPUS.resources[id];
      assert r == GpuResource(id);
      GpuMeets(name, id);
      EligibleExactly(PAIR_REQUEST, q, r, limits.maxRejectionReasons);
    }
  }

  lemma GpuMeets(name: string, id: U64)
    ensures Meets(PAIR_REQUEST, GpuRequirement(name), GpuResource(id))
  {
  }

  /** Two identical free resources, two requirements that either of them meets: a valid placement exists,
      and the engine reports that there is none. */
  lemma TwoGpusAreNotPlaced(limits: Limits)
    requires limits.maxRejectionReasons >= 1
    ensures Plannable(TWO_GPUS, PAIR_REQUEST)
    ensures exists sel :: Valid(FullSpace(TWO_GPUS, limits, PAIR_REQUEST), sel)
    ensures Run(SearchSpace(TWO_GPUS, limits, PAIR_REQUEST)).ranked == []
  {
    hide Run, FullSpace, Eligible, CandidateOf, InterchangeKey, OneKey;
    var left, right := GpuRequirement("left"), GpuRequirement("right");
    forall id
      ensures Eligible(TWO_GPUS, limits, PAIR_REQUEST, left, id) <==> id == 1 || id == 2
      ensures Eligible(TWO_GPUS, limits, PAIR_REQUEST, right, id) <==> id == 1 || id == 2
    {
      GpusEligible(limits, "left", id);
      GpusEligible(limits, "right", id);
    }
    TwoCopiesOneKey(TWO_GPUS, limits, PAIR_REQUEST, left);
    TwoCopiesOneKey(TWO_GPUS, limits, PAIR_REQUEST, right);
    CollapseLosesPair(TWO_GPUS, limits, PAIR_REQUEST, 0, 1);
    var a := CandidateOf(TWO_GPUS, PAIR_REQUEST, left, 1);
    var b := CandidateOf(TWO_GPUS, PAIR_REQUEST, right, 2);
    CandidateNames(TWO_GPUS, PAIR_REQUEST, left, 1);
    CandidateNames(TWO_GPUS, PAIR_REQUEST, right, 2);
    PairAcceptable(a, b);
    FullIsGenuine(TWO_GPUS, limits, PAIR_REQUEST, [a, b]);
  }

  lemma CandidateNames(s: State, request: Request, q: Requirement, id: U64)
    requires Plannable(s, request) && id in s.resources
    ensures CandidateOf(s, request, q, id).id == id
  {
  }

  lemma PairAcceptable(a: Candidate, b: Candidate)
    requires a.id == 1 && b.id == 2
    ensures Acceptable(TWO_GPUS, PAIR_REQUEST, [a, b])
  {
  }

  // ---------------------------------------------------------------- an affinity in a scope the key leaves out

  function InDomain(r: Resource, numa: U64): Resource {
    r.(ad := r.ad.(topology := NOWHERE.(numa := numa)))
  }

  function HostCpu(id: U64): Resource {
    GpuResource(id).(ad := GpuAd(id).(resourceClass := WorkerClass, accelerators := []))
  }

  /** Accelerators 1 and 2 are copies in NUMA domains 1 and 2; the processor 3 is in domain 2. */
  const TWO_DOMAINS :=
    State(1, false, map[],
          map[1 := InDomain(GpuResource(1), 1), 2 := InDomain(GpuResource(2), 2), 3 := InDomain(HostCpu(3), 2)],
          map[], map[], map[], map[], map[], 1)

  const NEAR := GpuRequirement("gpu").(affinityGroup := 1)
  const HOST := GpuRequirement("cpu").(resourceClass := WorkerClass, affinityGroup := 2)

  /** An accelerator and a processor in one NUMA domain. */
  const SAME_DOMAIN_REQUEST :=
    PAIR_REQUEST.(requirements := [NEAR, HOST], affinity := [GroupConstraint(1, 2, NumaDomain)])

  lemma DomainEligible(limits: Limits, id: U64)
    requires limits.maxRejectionReasons >= 1
    ensures Eligible(TWO_DOMAINS, limits, SAME_DOMAIN_REQUEST, NEAR, id) <==> id == 1 || id == 2
    ensures Eligible(TWO_DOMAINS, limits, SAME_DOMAIN_REQUEST, HOST, id) <==> id == 3
  {
    hide Evaluate;
    if id in TWO_DOMAINS.resources {
      var r := TWO_DOMAINS.resources[id];
      EligibleExactly(SAME_DOMAIN_REQUEST, NEAR, r, limits.maxRejectionReasons);
      EligibleExactly(SAME_DOMAIN_REQUEST, HOST, r, limits.maxRejectionReasons);
      DomainMeets(r, id);
    }
  }

  lemma DomainMeets(r: Resource, id: U64)
    requires id in TWO_DOMAINS.resources && r == TWO_DOMAINS.resources[id]
    ensures Meets(SAME_DOMAIN_REQUEST, NEAR, r) <==> id == 1 || id == 2
    ensures Meets(SAME_DOMAIN_REQUEST, HOST, r) <==> id == 3
  {
  }

  /** Accelerator 2 and the processor are a valid placement; the collapse keeps accelerator 1 in its place,
      and the engine reports that there is none. Classes are distinct here. */
  lemma SameDomainIsNotPlaced(limits: Limits)
    requires limits.maxRejectionReasons >= 1
    ensures Plannable(TWO_DOMAINS, SAME_DOMAIN_REQUEST)
    ensures DisjointlyServed(TWO_DOMAINS, limits, SAME_DOMAIN_REQUEST)
    ensures exists sel :: Valid(FullSpace(TWO_DOMAINS, limits, SAME_DOMAIN_REQUEST), sel)
    ensures Run(SearchSpace(TWO_DOMAINS, limits, SAME_DOMAIN_REQUEST)).ranked == []
  {
    hide Run, Head, FullSpace, Eligible, CandidateOf, InterchangeKey, OneKey, Choices;
    var s, request := TWO_DOMAINS, SAME_DOMAIN_REQUEST;
    DistinctClassesAreDisjoint(s, limits, request);
    forall id
      ensures Eligible(s, limits, request, NEAR, id) <==> id == 1 || id == 2
      ensures Eligible(s, limits, request, HOST, id) <==> id == 3
    {
      DomainEligible(limits, id);
    }
    TwoCopiesOneKey(s, limits, request, NEAR);
    var a, b := CandidateOf(s, request, NEAR, 2), CandidateOf(s, request, HOST, 3);
    CandidateNames(s, request, NEAR, 2);
    CandidateNames(s, request, HOST, 3);
    SecondDomainAcceptable([a, b]);
    FullIsGenuine(s, limits, request, [a, b]);
    var sp := SearchSpace(s, limits, request);
    HeadIsValid(sp);
    if Run(sp).ranked != [] {
      var sel := Head(Run(sp).ranked).selection;
      assert sel[0] in sp.choices[0] && sel[1] in sp.choices[1];
      ChoiceEligible(s, limits, request, HOST, sel[1]);
      OneKeyLeavesSmallest(s, limits, request, NEAR, sel[0], 1);
      FirstDomainUnacceptable(sel);
    }
  }

  lemma SecondDomainAcceptable(sel: Selection)
    requires |sel| == 2 && sel[0].id == 2 && sel[1].id == 3
    ensures Acceptable(TWO_DOMAINS, SAME_DOMAIN_REQUEST, sel)
  {
  }

  lemma FirstDomainUnacceptable(sel: Selection)
    requires |sel| == 2 && sel[0].id == 1 && sel[1].id == 3
    ensures !Acceptable(TWO_DOMAINS, SAME_DOMAIN_REQUEST, sel)
  {
    var c := GroupConstraint(1, 2, NumaDomain);
    assert c in SAME_DOMAIN_REQUEST.affinity;
    if Found(TWO_DOMAINS, sel) {
      assert !SameDomain(TopologyAt(TWO_DOMAINS, sel, 0), TopologyAt(TWO_DOMAINS, sel, 1), NumaDomain);
      assert !AffinityHolds(TWO_DOMAINS, SAME_DOMAIN_REQUEST, sel, c);
    }
  }

  // ---------------------------------------------------------------- datasets that disagree on local versions

  function DatasetCopy(id: U64, versions: seq<U64>): Resource {
    GpuResource(id).(ad := GpuAd(id).(resourceClass := Dataset, accelerators := [], localDatasets := versions,
                                      dataset := Some(DatasetDescriptor(5, 1))))
  }

  /** Two dataset resources, of which only the second has a local version. */
  const TWO_DATASETS :=
    State(1, false, map[], map[1 := DatasetCopy(1, []), 2 := DatasetCopy(2, [1])],
          map[], map[], map[], map[], map[], 1)

  const READS := GpuRequirement("data").(resourceClass := Dataset)

  /** A request of one dataset that weighs dataset locality only. */
  const LOCAL_REQUEST := Wants(7, 0, READS).(weights := NO_WEIGHTS[5 := 1])

  lemma DatasetsEligible(limits: Limits, id: U64)
    requires limits.maxRejectionReasons >= 1
    ensures Eligible(TWO_DATASETS, limits, LOCAL_REQUEST, READS, id) <==> id == 1 || id == 2
  {
    hide Evaluate;
    if id == 1 || id == 2 {
      var r := TWO_DATASETS.resources[id];
      assert Meets(LOCAL_REQUEST, READS, r);
      EligibleExactly(LOCAL_REQUEST, READS, r, limits.maxRejectionReasons);
    }
  }

  lemma {:induction false} LocalityWeighs(additive: seq<int>, k: nat)
    requires |additive| == FACTORS && k <= FACTORS
    ensures PartialScore(additive, LOCAL_REQUEST.weights, k) == 0
    ensures CrossBound(LOCAL_REQUEST.weights, 1, k) == if k > 5 then UNIT else 0
  {
    if k > 0 {
      LocalityWeighs(additive, k - 1);
    }
  }

  lemma {:induction false} LocalityScores(v: View, ctx: Context, k: nat)
    requires |v.additive| == FACTORS && k <= FACTORS && v.dataset
    ensures RawScore([v], ctx, LOCAL_REQUEST.weights, k)
         == if k <= 5 then 0 else if v.local then UNIT / 2 else UNIT / 4
  {
    if k > 0 {
      LocalityScores(v, ctx, k - 1);
      assert DatasetTotal([v], 1) == DatasetTotal([v], 0) + DatasetValue([v], 0);
      assert DatasetCount([v], 1) == DatasetCount([v], 0) + 1;
      assert !Colocated([v], 0);
    }
  }

  lemma DatasetScore(c: Candidate)
    requires (c.id == 1 || c.id == 2) && |c.additive| == FACTORS
    ensures ScoreOf(TWO_DATASETS, LOCAL_REQUEST, [c]) == if c.id == 1 then UNIT / 4 else UNIT / 2
  {
    hide RawScore, Fairness, PriorityFactor;
    var v := ViewOf(TWO_DATASETS, READS, c);
    assert Views(TWO_DATASETS, LOCAL_REQUEST, [c]) == [v];
    LocalityScores(v, ContextOf(TWO_DATASETS, LOCAL_REQUEST), FACTORS);
  }

  /** The collapse keeps the dataset without a local version, and the search returns a placement that
      another valid one beats. One requirement, nothing truncated. */
  lemma RemoteDatasetIsChosen(limits: Limits)
    requires Ample(limits)
    ensures Plannable(TWO_DATASETS, LOCAL_REQUEST)
    ensures var full := FullSpace(TWO_DATASETS, limits, LOCAL_REQUEST);
            var found := Run(SearchSpace(TWO_DATASETS, limits, LOCAL_REQUEST)).ranked;
            found != [] && exists sel :: Valid(full, sel) && Better(Search.Rank(full, sel), Head(found))
  {
    hide Run, Eligible, CandidateOf, InterchangeKey, OneKey, Choices, ScoreOf, TieBreak;
    var s, request := TWO_DATASETS, LOCAL_REQUEST;
    forall id ensures Eligible(s, limits, request, READS, id) <==> id == 1 || id == 2 {
      DatasetsEligible(limits, id);
    }
    TwoCopiesOneKey(s, limits, request, READS);
    OneKeyLeavesOne(s, limits, request, READS, 1);
    var c, d := Choices(s, limits, request, READS)[0], CandidateOf(s, request, READS, 2);
    ChoicesSound(s, limits, request, READS);
    OneKeyLeavesSmallest(s, limits, request, READS, c, 1);
    CandidateNames(s, request, READS, 2);
    GenuineAdditive(s, limits, request, READS, c);
    GenuineAdditive(s, limits, request, READS, d);
    LocalityWeighs(c.additive, FACTORS);
    OnlyPartial(s, request, READS, c.id);
    assert Acceptable(s, request, [c]) && Acceptable(s, request, [d]);
    assert Choices(s, limits, request, READS) == [c];
    assert ChoiceLists(s, limits, request) == [[c]];
    OnlyCandidateFound(SearchSpace(s, limits, request), c);
    DatasetScore(c);
    DatasetScore(d);
    FullIsGenuine(s, limits, request, [d]);
  }

  lemma OnlyPartial(s: State, request: Request, q: Requirement, id: U64)
    requires Plannable(s, request) && id in s.resources
    ensures var c := CandidateOf(s, request, q, id);
            |c.additive| == FACTORS && c.partial == PartialScore(c.additive, request.weights, FACTORS)
  {
  }
}
