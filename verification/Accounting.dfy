/** build_ledger and validate_invariants (src/engine_accounting.cpp:13-32, 78-279): the engine's own
    checks of its state, what each of them decides, why seven of the nine cannot fail, and when the other two
    pass. */
module Accounting {
  import opened Prelude
  import opened Records
  import opened Planning
  import opened Transitions
  import opened Ledger
  import opened Invariants
  import opened Durability
  import opened Recovery
  import opened Exclusivity
  import opened Evidence
  import opened Waivers
  import opened Steps
  import opened Runs
  import Engine

  // ---------------------------------------------------------------- the ledger

  datatype Entry = Entry(claimed: U32, claims: U32)

  function EntryAt(ledger: map<U64, Entry>, id: U64): Entry {
    if id in ledger then ledger[id] else Entry(0, 0)
  }

  function ClaimCount(claims: seq<Claim>, resource: U64): nat {
    if claims == [] then 0
    else ClaimCount(claims[..|claims| - 1], resource) + (if claims[|claims| - 1].resource == resource then 1 else 0)
  }

  /** How many active claims a list of reservations has on one resource. */
  function ActiveCount(rvs: seq<Reservation>, resource: U64): nat {
    if rvs == [] then 0
    else
      var rv := rvs[|rvs| - 1];
      ActiveCount(rvs[..|rvs| - 1], resource) + (if rv.state.Active? then ClaimCount(rv.claims, resource) else 0)
  }

  /** What the active claims on a resource come to, in 32-bit arithmetic. */
  function Claims(rvs: seq<Reservation>, resource: U64): Entry {
    Entry(Wrap32(ActiveTotal(rvs, resource)), Wrap32(ActiveCount(rvs, resource)))
  }

  ghost predicate LedgerOf(ledger: map<U64, Entry>, rvs: seq<Reservation>) {
    forall id :: EntryAt(ledger, id) == Claims(rvs, id)
  }

  ghost predicate LedgerWith(ledger: map<U64, Entry>, rvs: seq<Reservation>, claims: seq<Claim>) {
    forall id :: EntryAt(ledger, id)
              == Entry(Wrap32(ActiveTotal(rvs, id) + ClaimSlots(claims, id)),
                       Wrap32(ActiveCount(rvs, id) + ClaimCount(claims, id)))
  }

  method AddClaims(before: map<U64, Entry>, claims: seq<Claim>, ghost rvs: seq<Reservation>)
    returns (ledger: map<U64, Entry>)
    requires LedgerOf(before, rvs)
    ensures LedgerWith(ledger, rvs, claims)
  {
    hide Wrap32, LedgerWith, EntryAt;
    ledger := before;
    LedgerStart(before, rvs, claims);
    for i := 0 to |claims|
      invariant LedgerWith(ledger, rvs, claims[..i])
    {
      LedgerStep(ledger, rvs, claims, i);
      var e := EntryAt(ledger, claims[i].resource);
      ledger := ledger[claims[i].resource := Entry(Wrap32(e.claimed + claims[i].slots), Wrap32(e.claims + 1))];
    }
    assert claims[..|claims|] == claims;
  }

  lemma LedgerStart(ledger: map<U64, Entry>, rvs: seq<Reservation>, claims: seq<Claim>)
    requires LedgerOf(ledger, rvs)
    ensures LedgerWith(ledger, rvs, claims[..0])
  {
    hide Wrap32;
  }

  lemma WrapAdds(a: int, b: int)
    ensures Wrap32(Wrap32(a) + b) == Wrap32(a + b)
  {
  }

  lemma LedgerStep(ledger: map<U64, Entry>, rvs: seq<Reservation>, claims: seq<Claim>, i: nat)
    requires i < |claims| && LedgerWith(ledger, rvs, claims[..i])
    ensures var c := claims[i]; var e := EntryAt(ledger, c.resource);
            LedgerWith(ledger[c.resource := Entry(Wrap32(e.claimed + c.slots), Wrap32(e.claims + 1))], rvs,
                       claims[..i + 1])
  {
    hide Wrap32, ActiveTotal, ActiveCount;
    var c := claims[i];
    assert claims[..i + 1][..i] == claims[..i];
    WrapAdds(ActiveTotal(rvs, c.resource) + ClaimSlots(claims[..i], c.resource), c.slots);
    WrapAdds(ActiveCount(rvs, c.resource) + ClaimCount(claims[..i], c.resource), 1);
  }

  method BuildLedger(s: State) returns (ledger: map<U64, Entry>)
    ensures LedgerOf(ledger, Values(s.reservations))
  {
    hide ClaimSlots, ClaimCount, Wrap32;
    var rvs := Engine.ListValues(s.reservations);
    ledger := map[];
    assert Wrap32(0) == 0 by { ZeroWraps(); }
    for i := 0 to |rvs|
      invariant LedgerOf(ledger, rvs[..i])
    {
      LedgerNext(rvs, i);
      if rvs[i].state.Active? {
        ledger := AddClaims(ledger, rvs[i].claims, rvs[..i]);
      }
    }
    assert rvs[..|rvs|] == rvs;
  }

  lemma ZeroWraps()
    ensures Wrap32(0) == 0
  {
  }

  lemma LedgerNext(rvs: seq<Reservation>, i: nat)
    requires i < |rvs|
    ensures forall id :: ActiveTotal(rvs[..i + 1], id) == ActiveTotal(rvs[..i], id) + Held(rvs[i], id)
    ensures forall id :: ActiveCount(rvs[..i + 1], id)
                      == ActiveCount(rvs[..i], id) + (if rvs[i].state.Active? then ClaimCount(rvs[i].claims, id) else 0)
  {
    assert rvs[..i + 1][..i] == rvs[..i];
  }

  // ---------------------------------------------------------------- the nine checks

  predicate WithinSlots(r: Resource) {
    r.ad.occupancy + r.reserved <= r.ad.slots
  }

  predicate MirrorMatches(r: Resource, e: Entry) {
    e.claimed == r.reserved
  }

  predicate ExclusiveOnce(r: Resource, e: Entry) {
    && !(r.ad.sharing.Exclusive? && e.claims > 1)
    && !(e.claims > 1 && e.claimed > r.ad.slots)
  }

  predicate Backed(p: Placement, reservations: map<U64, Reservation>) {
    Live(p.state) ==>
      && p.reservation in reservations
      && reservations[p.reservation].state.Active?
      && reservations[p.reservation].placement == p.id
      && reservations[p.reservation].placementGeneration == p.generation
  }

  predicate Backs(rv: Reservation, placements: map<U64, Placement>) {
    rv.state.Active? ==>
      && rv.placement in placements
      && Live(placements[rv.placement].state)
      && placements[rv.placement].generation == rv.placementGeneration
      && rv.claims != []
  }

  /** The sorted identities have no two equal neighbours. */
  predicate NoRepeat(xs: seq<int>) {
    forall i :: 0 <= i < |xs| - 1 ==> xs[i] != xs[i + 1]
  }

  predicate Refers(p: Placement, resources: map<U64, Resource>, requests: map<U64, StoredRequest>) {
    && p.resources != [] && p.request in requests
    && (forall x :: x in p.resources ==> x.resource in resources && x.slots != 0)
    && NoRepeat(Sort(SelectedIds(p)))
  }

  predicate PointsAtLive(id: U64, placements: map<U64, Placement>) {
    id in placements && Live(placements[id].state)
  }

  predicate CountersSane(r: Resource) {
    r.generation != 0 && r.healthGeneration != 0 && r.capacityGeneration != 0
    && !(r.lifecycle.Retired? && r.reserved != 0)
  }

  predicate NotStale(r: Resource) {
    r.authoritative || r.reserved == 0
  }

  function ReservedOf(r: Resource): nat { r.reserved }
  function SlotsOf(r: Resource): nat { r.ad.slots }

  /** A 64-bit running total over the resources. */
  function Total(rs: seq<Resource>, part: Resource -> nat): U64 {
    if rs == [] then 0 else Wrap64(Total(rs[..|rs| - 1], part) + part(rs[|rs| - 1]))
  }

  method AllHold<V>(m: map<U64, V>, test: V -> bool) returns (ok: bool)
    ensures ok <==> forall k :: k in m ==> test(m[k])
  {
    var keys := SortedKeys(m.Keys);
    ok := true;
    for i := 0 to |keys|
      invariant ok <==> forall j :: 0 <= j < i && keys[j] in m ==> test(m[keys[j]])
    {
      SortedKeysExact(m.Keys, keys[i]);
      if !test(m[keys[i]]) {
        ok := false;
      }
    }
    forall k | k in m ensures k in keys { SortedKeysExact(m.Keys, k); }
  }

  method SumUp(rs: seq<Resource>) returns (reserved: U64, slots: U64)
    ensures reserved == Total(rs, ReservedOf) && slots == Total(rs, SlotsOf)
  {
    reserved, slots := 0, 0;
    for i := 0 to |rs|
      invariant reserved == Total(rs[..i], ReservedOf) && slots == Total(rs[..i], SlotsOf)
    {
      assert rs[..i + 1][..i] == rs[..i];
      reserved := Wrap64(reserved as int + rs[i].reserved);
      slots := Wrap64(slots as int + rs[i].ad.slots);
    }
    assert rs[..|rs|] == rs;
  }

  datatype Report = Report(
    capacity: bool, mirrors: bool, exclusive: bool, backed: bool, backs: bool, refers: bool, units: bool,
    counters: bool, stale: bool)

  /** What the checks of the resources decide. */
  ghost predicate ResourceChecks(report: Report, s: State) {
    var rvs := Values(s.reservations);
    && (report.capacity <==> forall id :: id in s.resources ==> WithinSlots(s.resources[id]))
    && (report.mirrors <==>
          forall id :: id in s.resources ==> MirrorMatches(s.resources[id], Claims(rvs, s.resources[id].ad.id)))
    && (report.exclusive <==>
          forall id :: id in s.resources ==> ExclusiveOnce(s.resources[id], Claims(rvs, s.resources[id].ad.id)))
    && (report.counters <==>
          (forall id :: id in s.resources ==> CountersSane(s.resources[id]))
          && Total(Values(s.resources), ReservedOf) <= Total(Values(s.resources), SlotsOf))
    && (report.stale <==> forall id :: id in s.resources ==> NotStale(s.resources[id]))
  }

  /** What the checks of placements, reservations and units decide. */
  ghost predicate RecordChecks(report: Report, s: State) {
    && (report.backed <==> forall id :: id in s.placements ==> Backed(s.placements[id], s.reservations))
    && (report.backs <==> forall id :: id in s.reservations ==> Backs(s.reservations[id], s.placements))
    && (report.refers <==> forall id :: id in s.placements ==> Refers(s.placements[id], s.resources, s.requests))
    && (report.units <==> forall key :: key in s.unitCurrent ==> PointsAtLive(s.unitCurrent[key], s.placements))
  }

  ghost predicate Reports(report: Report, s: State) {
    ResourceChecks(report, s) && RecordChecks(report, s)
  }

  method CheckUnits(s: State) returns (ok: bool)
    ensures ok <==> forall key :: key in s.unitCurrent ==> PointsAtLive(s.unitCurrent[key], s.placements)
  {
    var rest := s.unitCurrent.Keys;
    ok := true;
    while rest != {}
      invariant rest <= s.unitCurrent.Keys
      invariant ok <==> forall key :: key in s.unitCurrent && key !in rest ==>
                          PointsAtLive(s.unitCurrent[key], s.placements)
    {
      var key :| key in rest;
      rest := rest - {key};
      if !PointsAtLive(s.unitCurrent[key], s.placements) {
        ok := false;
      }
    }
  }

  /** The checks of the resources against the ledger. */
  method CheckResources(s: State) returns (report: Report)
    ensures ResourceChecks(report, s)
  {
    hide Claims, Values, Total, MirrorMatches, ExclusiveOnce, CountersSane, NotStale, WithinSlots, EntryAt;
    var ledger := BuildLedger(s);
    var capacity := AllHold(s.resources, WithinSlots);
    var mirrors := AllHold(s.resources, (r: Resource) => MirrorMatches(r, EntryAt(ledger, r.ad.id)));
    var exclusive := AllHold(s.resources, (r: Resource) => ExclusiveOnce(r, EntryAt(ledger, r.ad.id)));
    var counters := AllHold(s.resources, CountersSane);
    var rs := Engine.ListValues(s.resources);
    var reserved, slots := SumUp(rs);
    var stale := AllHold(s.resources, NotStale);
    report := Report(capacity, mirrors, exclusive, true, true, true, true, counters && reserved <= slots, stale);
  }

  /** validate_invariants: the nine checks. */
  method ValidateInvariants(s: State) returns (report: Report)
    ensures Reports(report, s)
  {
    hide Claims, Values, Total, MirrorMatches, ExclusiveOnce, CountersSane, NotStale, WithinSlots, Backed, Backs,
         Refers, PointsAtLive;
    report := CheckResources(s);
    var backed := AllHold(s.placements, (p: Placement) => Backed(p, s.reservations));
    var backs := AllHold(s.reservations, (rv: Reservation) => Backs(rv, s.placements));
    var refers := AllHold(s.placements, (p: Placement) => Refers(p, s.resources, s.requests));
    var units := CheckUnits(s);
    report := report.(backed := backed, backs := backs, refers := refers, units := units);
  }

  // ---------------------------------------------------------------- what the checks mean

  predicate InForce(state: PlacementState) { state == Reserved || state == Assigned || state == Running }

  /** The placement's own reservation is active and names it back. */
  ghost predicate Supported(s: State, id: U64)
    requires id in s.placements
  {
    var p := s.placements[id];
    && p.reservation in s.reservations
    && var rv := s.reservations[p.reservation];
       rv.state == Active && rv.placement == p.id && rv.placementGeneration == p.generation
  }

  /** The claims belong to a placement in force of the same generation. */
  ghost predicate Owned(s: State, v: U64)
    requires v in s.reservations
  {
    var rv := s.reservations[v];
    && |rv.claims| > 0 && rv.placement in s.placements && InForce(s.placements[rv.placement].state)
    && s.placements[rv.placement].generation == rv.placementGeneration
  }

  /** The placement selects known resources, no one twice, for a known request. */
  ghost predicate Selects(s: State, id: U64)
    requires id in s.placements
  {
    var p := s.placements[id];
    && |p.resources| > 0 && p.request in s.requests
    && (forall i :: 0 <= i < |p.resources| ==> p.resources[i].resource in s.resources && p.resources[i].slots > 0)
    && (forall i, j :: 0 <= i < j < |p.resources| ==> p.resources[i].resource != p.resources[j].resource)
  }

  /** Each check of the resources passes exactly when this holds of every resource. */
  lemma ResourceChecksMean(report: Report, s: State)
    requires ResourceChecks(report, s)
    ensures var rvs := Values(s.reservations);
            && (report.capacity <==>
                  forall id :: id in s.resources ==>
                    s.resources[id].ad.occupancy + s.resources[id].reserved <= s.resources[id].ad.slots)
            && (report.mirrors <==>
                  forall id :: id in s.resources ==>
                    s.resources[id].reserved == Wrap32(ActiveTotal(rvs, s.resources[id].ad.id)))
            && (report.exclusive <==>
                  forall id :: id in s.resources && Wrap32(ActiveCount(rvs, s.resources[id].ad.id)) >= 2 ==>
                    s.resources[id].ad.sharing == Shared
                    && Wrap32(ActiveTotal(rvs, s.resources[id].ad.id)) <= s.resources[id].ad.slots)
            && (report.stale <==>
                  forall id :: id in s.resources && s.resources[id].reserved > 0 ==> s.resources[id].authoritative)
            && (report.counters <==>
                  (forall id :: id in s.resources ==>
                     && s.resources[id].generation > 0 && s.resources[id].healthGeneration > 0
                     && s.resources[id].capacityGeneration > 0
                     && (s.resources[id].lifecycle == Retired ==> s.resources[id].reserved == 0))
                  && Total(Values(s.resources), ReservedOf) <= Total(Values(s.resources), SlotsOf))
  {
    hide ActiveTotal, ActiveCount, Values, Total;
  }

  /** Each check of placements, reservations and units passes exactly when this holds of every one of them. */
  lemma RecordChecksMean(report: Report, s: State)
    requires RecordChecks(report, s)
    ensures report.backed <==> forall id :: id in s.placements && InForce(s.placements[id].state) ==> Supported(s, id)
    ensures report.backs <==> forall v :: v in s.reservations && s.reservations[v].state == Active ==> Owned(s, v)
    ensures report.refers <==> forall id :: id in s.placements ==> Selects(s, id)
    ensures report.units <==>
              forall key :: key in s.unitCurrent ==>
                s.unitCurrent[key] in s.placements && InForce(s.placements[s.unitCurrent[key]].state)
  {
    hide Refers, Selects;
    forall id | id in s.placements
      ensures Refers(s.placements[id], s.resources, s.requests) <==> Selects(s, id)
    {
      RefersMeans(s, id);
    }
  }

  lemma RefersMeans(s: State, id: U64)
    requires id in s.placements
    ensures Refers(s.placements[id], s.resources, s.requests) <==> Selects(s, id)
  {
    hide Sort, NoRepeat;
    var p := s.placements[id];
    var ids := SelectedIds(p);
    DistinctShows(ids);
    assert |ids| == |p.resources| && forall i :: 0 <= i < |ids| ==> ids[i] == p.resources[i].resource;
    if Refers(p, s.resources, s.requests) {
      forall i | 0 <= i < |p.resources| ensures p.resources[i].resource in s.resources && p.resources[i].slots > 0 {
        assert p.resources[i] in p.resources;
      }
      forall i, j | 0 <= i < j < |p.resources| ensures p.resources[i].resource != p.resources[j].resource {
        assert ids[i] != ids[j];
      }
    }
    if Selects(s, id) {
      forall x | x in p.resources ensures x.resource in s.resources && x.slots != 0 {
        var i :| 0 <= i < |p.resources| && p.resources[i] == x;
      }
    }
  }

  /** Sorting brings equal identities together. */
  lemma DistinctShows(xs: seq<int>)
    ensures NoRepeat(Sort(xs)) <==> forall i, j :: 0 <= i < j < |xs| ==> xs[i] != xs[j]
  {
    hide Sort, NoRepeat;
    if NoRepeat(Sort(xs)) {
      SortContents(xs);
      SortSorted(xs);
      Strictly(Sort(xs));
      forall i, j | 0 <= i < j < |xs| ensures xs[i] != xs[j] {
        OnceOnly(Sort(xs), xs[i]);
        CountedTwice(xs, i, j);
      }
    } else if forall i, j :: 0 <= i < j < |xs| ==> xs[i] != xs[j] {
      SortedApart(xs);
    }
  }

  lemma CountedTwice(xs: seq<int>, i: nat, j: nat)
    requires i < j < |xs|
    ensures xs[i] == xs[j] ==> multiset(xs)[xs[i]] >= 2
  {
    assert xs == xs[..i] + [xs[i]] + xs[i + 1..j] + [xs[j]] + xs[j + 1..];
  }

  lemma Strictly(t: seq<int>)
    requires Weakly(t) && NoRepeat(t)
    ensures forall i, j :: 0 <= i < j < |t| ==> t[i] != t[j]
  {
    forall i, j | 0 <= i < j < |t| ensures t[i] != t[j] {
      assert t[i] <= t[i + 1] <= t[j] && t[i] != t[i + 1];
    }
  }

  // ---------------------------------------------------------------- why no check fails

  lemma {:induction false} TotalsOrdered(rs: seq<Resource>)
    requires |rs| <= TWO_32 && forall r :: r in rs ==> r.reserved <= r.ad.slots
    ensures Total(rs, ReservedOf) <= Total(rs, SlotsOf) <= |rs| * (TWO_32 - 1)
  {
    if rs != [] {
      TotalsOrdered(rs[..|rs| - 1]);
    }
  }

  lemma MirrorsHold(limits: Limits, s: State, id: U64)
    requires Inv(limits, s) && id in s.resources
    ensures WithinSlots(s.resources[id])
    ensures MirrorMatches(s.resources[id], Claims(Values(s.reservations), s.resources[id].ad.id))
  {
    hide Linked, Grounded, Recorded, Indexed, Numbered, Authority, Claimed, ActiveTotal, ActiveCount, Values;
    ActiveTotalExact(s.reservations, id);
  }

  lemma {:induction false} ClaimsCounted(claims: seq<Claim>, id: U64, k: nat)
    requires forall c :: c in claims && c.resource == id ==> c.slots == k
    ensures ClaimSlots(claims, id) == ClaimCount(claims, id) * k
  {
    if claims != [] {
      ClaimsCounted(claims[..|claims| - 1], id, k);
    }
  }

  /** When every active claim on a resource has the same size, the total is that many times the size. */
  lemma {:induction false} ActiveCounted(rvs: seq<Reservation>, id: U64, k: nat)
    requires forall rv, c :: rv in rvs && rv.state.Active? && c in rv.claims && c.resource == id ==> c.slots == k
    ensures ActiveTotal(rvs, id) == ActiveCount(rvs, id) * k
  {
    hide ClaimSlots, ClaimCount;
    if rvs != [] {
      var rv := rvs[|rvs| - 1];
      ActiveCounted(rvs[..|rvs| - 1], id, k);
      if rv.state.Active? {
        ClaimsCounted(rv.claims, id, k);
        Distributes(ActiveCount(rvs[..|rvs| - 1], id), ClaimCount(rv.claims, id), k);
      }
    }
  }

  lemma Distributes(a: nat, b: nat, k: nat)
    ensures (a + b) * k == a * k + b * k
  {
  }

  lemma ExclusiveHolds(limits: Limits, s: State, id: U64)
    requires Inv(limits, s) && id in s.resources && Covering(s.resources, s.reservations)
    ensures ExclusiveOnce(s.resources[id], Claims(Values(s.reservations), s.resources[id].ad.id))
  {
    hide Inv, ActiveTotal, ActiveCount, Values, Balanced, Authority;
    MirrorsHold(limits, s, id);
    var r := s.resources[id];
    var rvs := Values(s.reservations);
    ResourceFacts(limits, s, id);
    if r.ad.sharing.Exclusive? {
      ValuesExact(s.reservations);
      forall rv, c | rv in rvs && rv.state.Active? && c in rv.claims && c.resource == id ensures c.slots == r.ad.slots {
        var v :| v in s.reservations && s.reservations[v] == rv;
        var i :| 0 <= i < |rv.claims| && rv.claims[i] == c;
        assert ClaimFits(s.reservations[v].claims[i], s.resources);
      }
      ActiveCounted(rvs, id, r.ad.slots);
      AtMostOne(ActiveCount(rvs, id), r.ad.slots);
    }
  }

  lemma ResourceFacts(limits: Limits, s: State, id: U64)
    requires Inv(limits, s) && id in s.resources
    ensures s.resources[id].ad.id == id && s.resources[id].ad.slots >= 1
    ensures s.resources[id].reserved == ActiveTotal(Values(s.reservations), id) <= s.resources[id].ad.slots
  {
    hide Linked, Grounded, Recorded, Indexed, Numbered, Claimed, ActiveTotal, Values;
    ActiveTotalExact(s.reservations, id);
    assert Trusted(s.resources[id]);
  }

  lemma AtMostOne(n: nat, k: nat)
    requires k >= 1 && n * k <= k
    ensures n <= 1
  {
    if n >= 2 {
      MulMonotone(k, 2, n);
    }
  }

  lemma LinksHold(limits: Limits, s: State)
    requires Inv(limits, s)
    ensures forall id :: id in s.placements ==> Backed(s.placements[id], s.reservations)
    ensures forall id :: id in s.reservations ==> Backs(s.reservations[id], s.placements)
  {
    hide Recorded, Indexed, Numbered, Authority, Balanced;
    forall id | id in s.placements ensures Backed(s.placements[id], s.reservations) {
      assert Bound(id, s.placements[id], s.reservations[s.placements[id].reservation]);
    }
    forall v | v in s.reservations ensures Backs(s.reservations[v], s.placements) {
      var k := s.reservations[v].placement;
      assert Bound(k, s.placements[k], s.reservations[s.placements[k].reservation]);
      assert WellFounded(s.placements[k], s.resources.Keys, s.requests);
    }
  }

  /** Distinct identities stay apart when sorted. */
  lemma SortedApart(xs: seq<int>)
    requires forall i, j :: 0 <= i < j < |xs| ==> xs[i] != xs[j]
    ensures NoRepeat(Sort(xs))
  {
    hide Sort;
    SortContents(xs);
    var t := Sort(xs);
    forall i | 0 <= i < |t| - 1 ensures t[i] != t[i + 1] {
      OnceOnly(xs, t[i]);
      TwiceCounts(t, i);
    }
  }

  lemma TwiceCounts(t: seq<int>, i: nat)
    requires i + 1 < |t|
    ensures t[i] == t[i + 1] ==> multiset(t)[t[i]] >= 2
  {
    assert t == t[..i] + ([t[i]] + [t[i + 1]]) + t[i + 2..];
    assert multiset(t) == multiset(t[..i]) + multiset([t[i]] + [t[i + 1]]) + multiset(t[i + 2..]);
  }

  lemma {:induction false} OnceOnly(xs: seq<int>, x: int)
    requires forall i, j :: 0 <= i < j < |xs| ==> xs[i] != xs[j]
    ensures multiset(xs)[x] <= 1
  {
    if xs != [] {
      var n := |xs| - 1;
      assert xs == xs[..n] + [xs[n]];
      OnceOnly(xs[..n], x);
      if xs[n] == x {
        assert x !in xs[..n];
      }
    }
  }

  lemma RefersHold(limits: Limits, s: State, id: U64)
    requires Inv(limits, s) && id in s.placements
    ensures Refers(s.placements[id], s.resources, s.requests)
  {
    hide Inv, Sort, NoRepeat;
    PlacementFacts(limits, s, id);
    SortedApart(SelectedIds(s.placements[id]));
  }

  lemma CountersHold(limits: Limits, s: State)
    requires Inv(limits, s) && |s.resources| <= TWO_32
    ensures forall id :: id in s.resources ==> CountersSane(s.resources[id])
    ensures Total(Values(s.resources), ReservedOf) <= Total(Values(s.resources), SlotsOf)
  {
    hide Linked, Grounded, Recorded, Indexed, Numbered, Claimed, Total, Values, ValidAdvertisement, Filed;
    InvFiled(limits, s);
    ValuesUnique(s.resources, ResourceId);
    ValuesExact(s.resources);
    TotalsOrdered(Values(s.resources));
    forall id | id in s.resources ensures CountersSane(s.resources[id]) {
      assert Trusted(s.resources[id]);
    }
  }

  /** Every consistent state passes seven of the nine checks; the check on exclusive resources passes if
      claims cover their resources, and the last one passes exactly when no resource without authority is
      reserved. */
  lemma ChecksPass(limits: Limits, s: State, report: Report)
    requires Inv(limits, s) && |s.resources| <= TWO_32 && Reports(report, s)
    ensures report.capacity && report.mirrors && report.backed && report.backs && report.refers && report.units
            && report.counters
    ensures Covering(s.resources, s.reservations) ==> report.exclusive
    ensures report.stale <==> StaleFree(s.resources)
  {
    hide Inv, Claims, Covering, Values, Total, Refers, Backed, Backs, ExclusiveOnce, MirrorMatches, WithinSlots,
         CountersSane;
    var rvs := Values(s.reservations);
    forall id | id in s.resources
      ensures WithinSlots(s.resources[id]) && MirrorMatches(s.resources[id], Claims(rvs, s.resources[id].ad.id))
      ensures Covering(s.resources, s.reservations) ==>
                ExclusiveOnce(s.resources[id], Claims(rvs, s.resources[id].ad.id))
    {
      MirrorsHold(limits, s, id);
      if Covering(s.resources, s.reservations) {
        ExclusiveHolds(limits, s, id);
      }
    }
    LinksHold(limits, s);
    forall id | id in s.placements ensures Refers(s.placements[id], s.resources, s.requests) {
      RefersHold(limits, s, id);
    }
    CountersHold(limits, s);
    UnitsHold(limits, s);
  }

  lemma UnitsHold(limits: Limits, s: State)
    requires Inv(limits, s)
    ensures forall key :: key in s.unitCurrent ==> PointsAtLive(s.unitCurrent[key], s.placements)
  {
    hide Linked, Grounded, Recorded, Numbered, Authority, Balanced, Filed;
  }

  /** All nine checks pass at the end of every run whose publications suit the claims that stay and in which
      nothing strays. */
  lemma RunsPassEveryCheck(limits: Limits, s: State, ops: seq<Op>, t: State, report: Report)
    requires Inv(limits, s) && Roomy(s, |ops|) && limits.maxRejectionReasons >= 1
    requires Covering(s.resources, s.reservations) && StaleFree(s.resources)
    requires Guarded(limits, s, ops, PublishesFitting) && Guarded(limits, s, ops, NeverStrays(limits))
    requires t == Exec(limits, s, ops) && |t.resources| <= TWO_32 && Reports(report, t)
    ensures report == Report(true, true, true, true, true, true, true, true, true)
  {
    hide Inv, Exec, Guarded, Reports, Throughout, NeverStrays, PublishesFitting, Covering, StaleFree;
    RunExclusive(limits, s, ops);
    EndsGood(limits, s, ops, ClaimsCovering());
    RunStale(limits, s, ops);
    EndsGood(limits, s, ops, StaleResourcesFree());
    ChecksPass(limits, t, report);
  }
}
