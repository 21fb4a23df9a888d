/** Collapsing interchangeable candidates does not change the optimum
    (src/engine_scheduling.cpp:457-484, 1011-1025) when the hypotheses below hold, and loses placements
    when two requirements share an eligible resource. */
module Interchange {
  import opened Prelude
  import opened Records
  import opened Eligibility
  import opened Ranking
  import opened Canonical
  import opened Search
  import opened Planning

  // ---------------------------------------------------------------- what an equal key means

  lemma NoColonInDecimal(v: int)
    ensures NoColon(DecimalSigned(v)) && (v >= 0 ==> NoColon(Decimal(v)))
  {
    if v >= 0 {
      DecimalShape(v);
    } else {
      DecimalShape(-(v + 1) + 1);
    }
  }

  lemma KeyPartsClean(c: Candidate, r: Resource)
    requires |c.additive| == FACTORS
    ensures |KeyParts(c, r)| == FACTORS + 8
    ensures forall i :: 0 <= i < |KeyParts(c, r)| ==> NoColon(KeyParts(c, r)[i])
  {
    forall i | 0 <= i < |KeyParts(c, r)| ensures NoColon(KeyParts(c, r)[i]) {
      if i < FACTORS {
        NoColonInDecimal(c.additive[i]);
      } else {
        NoColonInDecimal(c.slots);
        NoColonInDecimal(r.ad.topology.host);
        NoColonInDecimal(r.ad.topology.rack);
        NoColonInDecimal(r.ad.topology.cluster);
        NoColonInDecimal(r.ad.worker);
        NoColonInDecimal(r.ad.boot);
        NoColonInDecimal(r.generation);
      }
    }
  }

  /** The key text separates everything it lists. */
  lemma EqualKeys(s: State, a: Candidate, b: Candidate)
    requires a.id in s.resources && b.id in s.resources && |a.additive| == |b.additive| == FACTORS
    requires InterchangeKey(s, a) == InterchangeKey(s, b)
    ensures a.additive == b.additive && a.slots == b.slots && a.exclusive == b.exclusive
    ensures var t, u := s.resources[a.id].ad.topology, s.resources[b.id].ad.topology;
            t.host == u.host && t.rack == u.rack && t.cluster == u.cluster
    ensures var p, q := s.resources[a.id], s.resources[b.id];
            p.ad.worker == q.ad.worker && p.ad.boot == q.ad.boot && p.generation == q.generation
  {
    var r, t := s.resources[a.id], s.resources[b.id];
    var p, q := KeyParts(a, r), KeyParts(b, t);
    KeyPartsClean(a, r);
    KeyPartsClean(b, t);
    JoinedInjective(p, q);
    forall f | 0 <= f < FACTORS ensures a.additive[f] == b.additive[f] {
      assert p[f] == q[f];
      DecimalSignedInjective(a.additive[f], b.additive[f]);
    }
    assert p[12] == q[12] && p[13] == q[13] && p[14] == q[14] && p[15] == q[15];
    assert p[16] == q[16] && p[17] == q[17] && p[18] == q[18] && p[19] == q[19];
    DecimalInjective(a.slots, b.slots);
    DecimalInjective(r.ad.topology.host, t.ad.topology.host);
    DecimalInjective(r.ad.topology.rack, t.ad.topology.rack);
    DecimalInjective(r.ad.topology.cluster, t.ad.topology.cluster);
    DecimalInjective(r.ad.worker, t.ad.worker);
    DecimalInjective(r.ad.boot, t.ad.boot);
    DecimalInjective(r.generation, t.generation);
  }

  // ---------------------------------------------------------------- every candidate has a representative

  /** Every candidate shares its key with a kept one at the same or an earlier position. */
  lemma {:induction false} KeptForEachKey(cs: seq<Candidate>, key: Candidate -> string, i: nat) returns (j: nat)
    requires i < |cs|
    ensures j <= i && cs[j] in FirstOfEach(cs, key) && key(cs[j]) == key(cs[i])
  {
    var n := |cs| - 1;
    var prefix := cs[..n];
    if i < n {
      j := KeptForEachKey(prefix, key, i);
    } else if KeySeen(prefix, key, key(cs[n])) {
      var k :| 0 <= k < |prefix| && key(prefix[k]) == key(cs[n]);
      j := KeptForEachKey(prefix, key, k);
    } else {
      j := n;
    }
  }

  /** `d` stands in for `c`: same key, and an identity that is not larger. */
  ghost predicate StandsFor(s: State, d: Candidate, c: Candidate) {
    InterchangeKey(s, d) == InterchangeKey(s, c) && d.id <= c.id
  }

  lemma EqualKeysScoreAlike(s: State, limits: Limits, request: Request, q: Requirement, c: Candidate, d: Candidate)
    requires Plannable(s, request) && Genuine(s, limits, request, q, c) && Genuine(s, limits, request, q, d)
    requires InterchangeKey(s, d) == InterchangeKey(s, c)
    ensures d.partial == c.partial
  {
    GenuineAdditive(s, limits, request, q, c);
    GenuineAdditive(s, limits, request, q, d);
    EqualKeys(s, d, c);
  }

  /** The kept candidate of a key comes first in the order, so its identity is not larger. */
  lemma FirstIsSmallest(cs: seq<Candidate>, j: nat, i: nat)
    requires Ordered(cs) && j <= i < |cs| && cs[j].partial == cs[i].partial
    ensures cs[j].id <= cs[i].id
  {
    if j < i {
      assert !Precedes(cs[i], cs[j]);
    }
  }

  lemma Representative(s: State, limits: Limits, request: Request, q: Requirement, c: Candidate) returns (d: Candidate)
    requires Plannable(s, request) && Genuine(s, limits, request, q, c)
    ensures d in Collapse(s, AllCandidates(s, limits, request, q))
    ensures Genuine(s, limits, request, q, d) && StandsFor(s, d, c)
  {
    var all := AllCandidates(s, limits, request, q);
    AllCandidatesExact(s, limits, request, q, c);
    d := RepresentativeIn(s, all, c);
    AllCandidatesExact(s, limits, request, q, d);
    EqualKeysScoreAlike(s, limits, request, q, c, d);
    var i, j :| 0 <= j <= i < |all| && all[i] == c && all[j] == d;
    SortCandidatesOrdered(Eligibles(s, limits, request, q, SortedKeys(s.resources.Keys)));
    FirstIsSmallest(all, j, i);
  }

  lemma RepresentativeIn(s: State, all: seq<Candidate>, c: Candidate) returns (d: Candidate)
    requires c in all
    ensures d in Collapse(s, all) && d in all && InterchangeKey(s, d) == InterchangeKey(s, c)
    ensures exists i, j :: 0 <= j <= i < |all| && all[i] == c && all[j] == d
  {
    var i :| 0 <= i < |all| && all[i] == c;
    var j := KeptForEachKey(all, KeyIn(s), i);
    d := all[j];
    assert KeyIn(s)(d) == KeyIn(s)(c);
  }

  // ---------------------------------------------------------------- exchanging one candidate

  predicate KeyedScope(scope: Scope) { scope.Host? || scope.Rack? || scope.Cluster? }

  /** No resource is eligible for two requirements. */
  predicate DisjointlyServed(s: State, limits: Limits, request: Request) {
    forall i, j, id :: 0 <= i < j < |request.requirements| && Eligible(s, limits, request, request.requirements[i], id)
      ==> !Eligible(s, limits, request, request.requirements[j], id)
  }

  /** So it is when every requirement asks for another class. */
  lemma DistinctClassesAreDisjoint(s: State, limits: Limits, request: Request)
    requires forall i, j :: 0 <= i < j < |request.requirements| ==>
               request.requirements[i].resourceClass != request.requirements[j].resourceClass
    ensures DisjointlyServed(s, limits, request)
  {
    hide Reasons, Capped;
  }

  /** The hypotheses of the collapse. */
  ghost predicate Collapsible(s: State, limits: Limits, request: Request)
    requires Plannable(s, request)
  {
    && DisjointlyServed(s, limits, request)
    && (forall c :: c in request.affinity || c in request.antiAffinity ==> KeyedScope(c.scope))
    && (forall i, c, d :: 0 <= i < |request.requirements| && request.requirements[i].resourceClass.Dataset?
          && Genuine(s, limits, request, request.requirements[i], c)
          && Genuine(s, limits, request, request.requirements[i], d) && StandsFor(s, d, c)
          ==> (s.resources[c.id].ad.localDatasets == [] <==> s.resources[d.id].ad.localDatasets == []))
    && (forall i :: 0 <= i < |request.requirements| ==>
          |Collapse(s, AllCandidates(s, limits, request, request.requirements[i]))| <= limits.maxCandidateResources)
  }

  ghost predicate AllGenuine(s: State, limits: Limits, request: Request, sel: Selection)
    requires Plannable(s, request)
  {
    |sel| == |request.requirements|
    && forall i :: 0 <= i < |sel| ==> Genuine(s, limits, request, request.requirements[i], sel[i])
  }

  /** What the exchange needs of an equal key. */
  ghost predicate Twin(s: State, request: Request, c: Candidate, d: Candidate) {
    && c.id in s.resources && d.id in s.resources
    && c.additive == d.additive && c.exclusive == d.exclusive
    && (var t, u := s.resources[c.id].ad.topology, s.resources[d.id].ad.topology;
        t.host == u.host && t.rack == u.rack && t.cluster == u.cluster)
    && (ReservedByOther(s, request.experiment, c.id, request.id)
        <==> ReservedByOther(s, request.experiment, d.id, request.id))
  }

  lemma StandInIsTwin(s: State, limits: Limits, request: Request, q: Requirement, c: Candidate, d: Candidate)
    requires Plannable(s, request) && Genuine(s, limits, request, q, c) && Genuine(s, limits, request, q, d)
    requires StandsFor(s, d, c)
    ensures Twin(s, request, c, d) && |c.additive| == FACTORS
    ensures s.resources[c.id].ad.resourceClass == s.resources[d.id].ad.resourceClass == q.resourceClass
  {
    GenuineAdditive(s, limits, request, q, c);
    GenuineAdditive(s, limits, request, q, d);
    EqualKeys(s, d, c);
    assert c.additive[9] == d.additive[9];
  }

  /** Resources of different requirements are different resources. */
  lemma ServedApart(s: State, limits: Limits, request: Request, sel: Selection, i: nat, d: Candidate)
    requires Plannable(s, request) && AllGenuine(s, limits, request, sel) && i < |sel|
    requires DisjointlyServed(s, limits, request) && Genuine(s, limits, request, request.requirements[i], d)
    ensures forall j :: 0 <= j < |sel| && j != i ==> sel[j].id != d.id
  {
    hide Eligible, CandidateOf;
    forall j | 0 <= j < |sel| && j != i ensures sel[j].id != d.id {
      assert Genuine(s, limits, request, request.requirements[j], sel[j]);
    }
  }

  lemma ExchangeAccepted(s: State, request: Request, sel: Selection, i: nat, d: Candidate)
    requires Acceptable(s, request, sel) && i < |sel| && Twin(s, request, sel[i], d)
    requires forall c :: c in request.affinity || c in request.antiAffinity ==> KeyedScope(c.scope)
    requires forall j :: 0 <= j < |sel| && j != i ==> sel[j].id != d.id
    ensures Acceptable(s, request, sel[i := d])
  {
    var sel' := sel[i := d];
    forall k, scope | 0 <= k < |sel| && KeyedScope(scope)
      ensures Domain(TopologyAt(s, sel', k), scope) == Domain(TopologyAt(s, sel, k), scope)
    {
    }
    forall g | g in request.affinity ensures AffinityHolds(s, request, sel', g) {
      assert AffinityHolds(s, request, sel, g);
    }
    forall g | g in request.antiAffinity ensures AntiAffinityHolds(s, request, sel', g) {
      assert AntiAffinityHolds(s, request, sel, g);
    }
  }

  lemma ExchangeScore(s: State, request: Request, sel: Selection, i: nat, d: Candidate)
    requires |sel| == |request.requirements| && i < |sel| && Twin(s, request, sel[i], d)
    requires request.requirements[i].resourceClass.Dataset? ==>
               (s.resources[sel[i].id].ad.localDatasets == [] <==> s.resources[d.id].ad.localDatasets == [])
    ensures ScoreOf(s, request, sel[i := d]) == ScoreOf(s, request, sel)
  {
    var sel' := sel[i := d];
    assert ViewOf(s, request.requirements[i], d) == ViewOf(s, request.requirements[i], sel[i]);
    assert Views(s, request, sel') == Views(s, request, sel);
    assert forall k :: 0 <= k < |sel| ==> |sel'[k].additive| == |sel[k].additive|;
  }

  function Wrapped(ids: seq<int>): seq<U64> {
    seq(|ids|, i requires 0 <= i < |ids| => Wrap64(ids[i]))
  }

  lemma SortedIdsFit(sel: Selection)
    ensures Wrapped(Sort(Ids(sel))) == Sort(Ids(sel)) && |Sort(Ids(sel))| == |sel|
  {
    var ids := Sort(Ids(sel));
    SortContents(Ids(sel));
    forall k | 0 <= k < |ids| ensures 0 <= ids[k] < TWO_64 {
      assert ids[k] in multiset(Ids(sel));
    }
  }

  /** The text tie-break orders equally long selections like their sorted identity vectors. */
  lemma TieBreakOrder(a: Selection, b: Selection)
    requires |a| == |b|
    ensures LexLess(TieBreak(a), TieBreak(b)) <==> LexLess(Sort(Ids(a)), Sort(Ids(b)))
  {
    SortedIdsFit(a);
    SortedIdsFit(b);
    ResourceKeyOrder(Wrapped(Sort(Ids(a))), Wrapped(Sort(Ids(b))));
  }

  lemma ExchangeTie(sel: Selection, i: nat, d: Candidate)
    requires i < |sel| && d.id < sel[i].id
    requires forall j :: 0 <= j < |sel| && j != i ==> sel[j].id != d.id
    ensures LexLess(TieBreak(sel[i := d]), TieBreak(sel))
  {
    var ids := Ids(sel);
    assert Ids(sel[i := d]) == ids[i := d.id];
    assert d.id !in ids;
    SortMonotone(ids, i, d.id);
    TieBreakOrder(sel[i := d], sel);
  }

  // ---------------------------------------------------------------- the collapse keeps the optimum

  /** The problem over every eligible resource. */
  function FullSpace(s: State, limits: Limits, request: Request): Space
    requires Plannable(s, request)
  {
    SpaceWith(s, limits, request,
              seq(|request.requirements|, i requires 0 <= i < |request.requirements| =>
                    AllCandidates(s, limits, request, request.requirements[i])))
  }

  ghost predicate NotWorse(sp: Space, a: Selection, b: Selection) {
    !Better(Rank(sp, b), Rank(sp, a))
  }

  lemma ExchangeNotWorse(s: State, limits: Limits, request: Request, sel: Selection, next: Selection)
    requires Plannable(s, request) && ScoreOf(s, request, next) == ScoreOf(s, request, sel)
    requires next == sel || LexLess(TieBreak(next), TieBreak(sel))
    ensures NotWorse(FullSpace(s, limits, request), next, sel)
  {
    LexIrreflexive(TieBreak(sel));
    if LexLess(TieBreak(next), TieBreak(sel)) && LexLess(TieBreak(sel), TieBreak(next)) {
      LexTransitive(TieBreak(sel), TieBreak(next), TieBreak(sel));
    }
  }

  /** Exchanging one candidate for its stand-in keeps a placement valid and never makes it worse. */
  lemma ExchangeStep(s: State, limits: Limits, request: Request, sel: Selection, i: nat, d: Candidate)
    requires Plannable(s, request) && Collapsible(s, limits, request)
    requires AllGenuine(s, limits, request, sel) && Acceptable(s, request, sel) && i < |sel|
    requires Genuine(s, limits, request, request.requirements[i], d) && StandsFor(s, d, sel[i])
    ensures Acceptable(s, request, sel[i := d])
    ensures NotWorse(FullSpace(s, limits, request), sel[i := d], sel)
  {
    hide Acceptable, Eligible, CandidateOf, ScoreOf, TieBreak, DisjointlyServed;
    var q, c := request.requirements[i], sel[i];
    assert Genuine(s, limits, request, q, c);
    StandInIsTwin(s, limits, request, q, c, d);
    ServedApart(s, limits, request, sel, i, d);
    ExchangeAccepted(s, request, sel, i, d);
    ExchangeScore(s, request, sel, i, d);
    if d.id == c.id {
      SameIdentity(s, limits, request, q, c, d);
      assert sel[i := d] == sel;
    } else {
      ExchangeTie(sel, i, d);
    }
    ExchangeNotWorse(s, limits, request, sel, sel[i := d]);
  }

  lemma SameIdentity(s: State, limits: Limits, request: Request, q: Requirement, c: Candidate, d: Candidate)
    requires Plannable(s, request) && Genuine(s, limits, request, q, c) && Genuine(s, limits, request, q, d)
    requires c.id == d.id
    ensures c == d
  {
  }

  lemma ExchangeGenuine(s: State, limits: Limits, request: Request, sel: Selection, i: nat, d: Candidate)
    requires Plannable(s, request) && AllGenuine(s, limits, request, sel) && i < |sel|
    requires Genuine(s, limits, request, request.requirements[i], d)
    ensures AllGenuine(s, limits, request, sel[i := d])
  {
    forall k | 0 <= k < |sel| ensures Genuine(s, limits, request, request.requirements[k], sel[i := d][k]) {
      assert Genuine(s, limits, request, request.requirements[k], sel[k]);
    }
  }

  lemma KeptIsExplored(s: State, limits: Limits, request: Request, k: nat, d: Candidate)
    requires Plannable(s, request) && Collapsible(s, limits, request) && k < |request.requirements|
    requires d in Collapse(s, AllCandidates(s, limits, request, request.requirements[k]))
    ensures d in ChoiceLists(s, limits, request)[k]
  {
  }

  lemma NotWorseTransitive(sp: Space, a: Selection, b: Selection, c: Selection)
    requires NotWorse(sp, a, b) && NotWorse(sp, b, c)
    ensures NotWorse(sp, a, c)
  {
    NotBetterTransitive(Rank(sp, c), Rank(sp, b), Rank(sp, a));
  }

  lemma NotWorseReflexive(sp: Space, a: Selection)
    ensures NotWorse(sp, a, a)
  {
    LexIrreflexive(sp.tie(a));
  }

  lemma MoveOne(s: State, limits: Limits, request: Request, sel: Selection, k: nat) returns (next: Selection)
    requires Plannable(s, request) && Collapsible(s, limits, request)
    requires AllGenuine(s, limits, request, sel) && Acceptable(s, request, sel) && k < |sel|
    ensures AllGenuine(s, limits, request, next) && Acceptable(s, request, next)
    ensures |next| == |sel| && next[..k] == sel[..k] && next[k] in ChoiceLists(s, limits, request)[k]
    ensures NotWorse(FullSpace(s, limits, request), next, sel)
  {
    assert Genuine(s, limits, request, request.requirements[k], sel[k]);
    var d := Representative(s, limits, request, request.requirements[k], sel[k]);
    ExchangeStep(s, limits, request, sel, k, d);
    ExchangeGenuine(s, limits, request, sel, k, d);
    KeptIsExplored(s, limits, request, k, d);
    next := sel[k := d];
  }

  ghost predicate Moves(good: Selection -> bool, lists: seq<seq<Candidate>>, sp: Space, sel: Selection, k: nat,
                        next: Selection)
    requires k < |sel| == |lists|
  {
    good(next) && |next| == |sel| && next[..k] == sel[..k] && next[k] in lists[k] && NotWorse(sp, next, sel)
  }

  ghost predicate CanMove(good: Selection -> bool, lists: seq<seq<Candidate>>, sp: Space, sel: Selection, k: nat) {
    good(sel) && k < |sel| == |lists| ==> exists next :: Moves(good, lists, sp, sel, k, next)
  }

  /** Requirement by requirement, a selection moves into the given lists without getting worse. */
  lemma {:induction false} MoveAll(
    good: Selection -> bool, lists: seq<seq<Candidate>>, sp: Space, sel: Selection, k: nat) returns (out: Selection)
    requires forall t, j: nat :: CanMove(good, lists, sp, t, j)
    requires good(sel) && k <= |sel| == |lists|
    ensures good(out) && |out| == |sel| && out[..k] == sel[..k] && NotWorse(sp, out, sel)
    ensures forall i :: k <= i < |out| ==> out[i] in lists[i]
    decreases |sel| - k
  {
    if k == |sel| {
      out := sel;
      NotWorseReflexive(sp, sel);
    } else {
      assert CanMove(good, lists, sp, sel, k);
      var next :| Moves(good, lists, sp, sel, k, next);
      out := MoveAll(good, lists, sp, next, k + 1);
      assert out[k] == out[..k + 1][k] == next[..k + 1][k] == next[k];
      assert out[..k] == out[..k + 1][..k] && next[..k] == next[..k + 1][..k];
      NotWorseTransitive(sp, out, next, sel);
    }
  }

  /** Every valid placement can be moved into the collapsed lists without getting worse. */
  lemma MoveIntoCollapsed(s: State, limits: Limits, request: Request, sel: Selection) returns (out: Selection)
    requires Plannable(s, request) && Collapsible(s, limits, request)
    requires AllGenuine(s, limits, request, sel) && Acceptable(s, request, sel)
    ensures |out| == |sel| && Acceptable(s, request, out)
    ensures forall i :: 0 <= i < |out| ==> out[i] in ChoiceLists(s, limits, request)[i]
    ensures NotWorse(FullSpace(s, limits, request), out, sel)
  {
    var lists, sp := ChoiceLists(s, limits, request), FullSpace(s, limits, request);
    var good := t => AllGenuine(s, limits, request, t) && Acceptable(s, request, t);
    forall t, j: nat ensures CanMove(good, lists, sp, t, j) {
      if good(t) && j < |t| == |lists| {
        var next := MoveOne(s, limits, request, t, j);
        assert Moves(good, lists, sp, t, j, next);
      }
    }
    out := MoveAll(good, lists, sp, sel, 0);
  }

  lemma FullIsGenuine(s: State, limits: Limits, request: Request, sel: Selection)
    requires Plannable(s, request)
    ensures Valid(FullSpace(s, limits, request), sel) <==>
            AllGenuine(s, limits, request, sel) && Acceptable(s, request, sel)
  {
    var sp := FullSpace(s, limits, request);
    if |sel| == |request.requirements| {
      forall i | 0 <= i < |sel|
        ensures sel[i] in sp.choices[i] <==> Genuine(s, limits, request, request.requirements[i], sel[i])
      {
        AllCandidatesExact(s, limits, request, request.requirements[i], sel[i]);
      }
    }
  }

  lemma CollapsedIsGenuine(s: State, limits: Limits, request: Request, sel: Selection)
    requires Plannable(s, request) && Valid(SearchSpace(s, limits, request), sel)
    ensures Valid(FullSpace(s, limits, request), sel)
  {
    ChoiceListsGenuine(s, limits, request);
    var lists := ChoiceLists(s, limits, request);
    assert AllGenuine(s, limits, request, sel) by {
      forall i | 0 <= i < |sel| ensures Genuine(s, limits, request, request.requirements[i], sel[i]) {
        assert sel[i] in lists[i];
      }
    }
    FullIsGenuine(s, limits, request, sel);
  }

  /** The engine's search over collapsed lists finds an optimum over all eligible resources: its head is
      a valid whole placement that no valid placement beats under score and tie-break, and it reports
      none only when none exists. */
  lemma CollapseKeepsOptimum(s: State, limits: Limits, request: Request)
    requires Schedulable(s, request) && limits.maxCandidatesRanked >= 1
    requires Collapsible(s, limits, request) && !Run(SearchSpace(s, limits, request)).truncated
    ensures var full := FullSpace(s, limits, request); var found := Run(SearchSpace(s, limits, request)).ranked;
            && (found == [] <==> forall sel :: !Valid(full, sel))
            && (found != [] ==> Valid(full, Head(found).selection))
            && (found != [] ==> forall sel :: Valid(full, sel) ==> !Better(Rank(full, sel), Head(found)))
  {
    var full, sp := FullSpace(s, limits, request), SearchSpace(s, limits, request);
    var found := Run(sp).ranked;
    PlanningIsExact(s, limits, request);
    forall sel | Valid(full, sel)
      ensures found != [] && !Better(Rank(full, sel), Head(found))
    {
      FullIsGenuine(s, limits, request, sel);
      var out := MoveIntoCollapsed(s, limits, request, sel);
      assert Valid(sp, out);
      NotBetterTransitive(Rank(full, sel), Rank(full, out), Head(found));
    }
    if found != [] {
      CollapsedIsGenuine(s, limits, request, Head(found).selection);
      assert Valid(full, Head(found).selection);
    }
  }
}
