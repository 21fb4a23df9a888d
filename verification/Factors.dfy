/** What the twelve ranking factors measure (src/engine_scheduling.cpp:367-442, 511-635): their values over the
    fields of resources, requests and tenants, where they reach 0 and the unit, and in which direction they
    move. */
module Factors {
  import opened Prelude
  import opened Records
  import opened Eligibility
  import opened Ranking
  import opened Search
  import opened Planning

  const FULL: int := 1000000

  // ---------------------------------------------------------------- factor 0, locality

  /** The selected resources `among` are known to share one host. */
  ghost predicate ShareHost(vs: seq<View>, among: set<nat>) {
    exists h :: h != 0 && OnHost(vs, among, h)
  }

  ghost predicate OnHost(vs: seq<View>, among: set<nat>, h: U64) {
    forall i :: i in among ==> i < |vs| && vs[i].host == h
  }

  /** At most `m` of them share one, and `m` do unless it is 1. */
  ghost predicate LargestShare(vs: seq<View>, m: nat) {
    && 1 <= m <= |vs|
    && (forall among: set<nat> :: ShareHost(vs, among) ==> |among| <= m)
    && (m == 1 || exists among: set<nat> :: ShareHost(vs, among) && |among| == m)
  }

  function Where(ids: seq<U64>, id: U64): set<nat> {
    set i: nat | i < |ids| && ids[i] == id
  }

  lemma {:induction false} CountIsSize(ids: seq<U64>, id: U64)
    ensures Count(ids, id) == |Where(ids, id)|
  {
    if ids != [] {
      var n := |ids| - 1;
      CountIsSize(ids[..n], id);
      assert Where(ids, id) == Where(ids[..n], id) + (if ids[n] == id then {n} else {});
    }
  }

  lemma {:induction false} DominantCovers(hosts: seq<U64>, h: U64)
    requires h != 0
    ensures Count(hosts, h) <= Dominant(hosts)
  {
    if hosts != [] {
      DominantCovers(hosts[..|hosts| - 1], h);
    }
  }

  lemma {:induction false} DominantReached(hosts: seq<U64>)
    requires hosts != []
    ensures 1 <= Dominant(hosts)
    ensures Dominant(hosts) == 1 || exists h :: h != 0 && Count(hosts, h) == Dominant(hosts)
  {
    var n := |hosts| - 1;
    if n > 0 {
      DominantReached(hosts[..n]);
      if Dominant(hosts) == Dominant(hosts[..n]) > 1 {
        var h :| h != 0 && Count(hosts[..n], h) == Dominant(hosts[..n]);
        DominantCovers(hosts, h);
      }
    }
    if Dominant(hosts) > 1 && hosts[n] != 0 {
      DominantCovers(hosts, hosts[n]);
    }
  }

  lemma SubsetSize<T>(part: set<T>, whole: set<T>)
    requires part <= whole
    ensures |part| <= |whole| && (|part| == |whole| ==> part == whole)
  {
    assert whole == part + (whole - part);
  }

  function Below(n: nat): set<nat> {
    if n == 0 then {} else Below(n - 1) + {n - 1}
  }

  lemma {:induction false} BelowExact(n: nat)
    ensures |Below(n)| == n && forall i: nat :: i in Below(n) <==> i < n
  {
    if n > 0 {
      BelowExact(n - 1);
    }
  }

  lemma DominantIsLargest(vs: seq<View>)
    requires vs != []
    ensures LargestShare(vs, Dominant(Hosts(vs))) && Dominant(Hosts(vs)) <= |vs|
  {
    var hosts := Hosts(vs);
    DominantReached(hosts);
    forall among: set<nat> | ShareHost(vs, among) ensures |among| <= Dominant(hosts) {
      var h :| h != 0 && OnHost(vs, among, h);
      assert among <= Where(hosts, h);
      SubsetSize(among, Where(hosts, h));
      CountIsSize(hosts, h);
      DominantCovers(hosts, h);
    }
    if Dominant(hosts) > 1 {
      var h :| h != 0 && Count(hosts, h) == Dominant(hosts);
      CountIsSize(hosts, h);
      var among := Where(hosts, h);
      assert OnHost(vs, among, h);
      assert ShareHost(vs, among) && |among| == Dominant(hosts);
      BelowExact(|vs|);
      SubsetSize(among, Below(|vs|));
    }
  }

  /** `a` of `n` parts of the unit, rounded down. */
  function Part(a: nat, n: nat): int
    requires n >= 1
  {
    a * FULL / n
  }

  lemma Quotient(x: nat, n: nat) returns (q: nat)
    requires n >= 1
    ensures q == x / n && n * q <= x < n * q + n
  {
    q := x / n;
  }

  lemma QuotientReaches(a: nat, n: nat)
    requires n >= 1 && a <= n
    ensures 0 <= Part(a, n) <= FULL
    ensures Part(a, n) == FULL <==> a == n
    ensures n <= FULL ==> (Part(a, n) == 0 <==> a == 0)
  {
    var q := Quotient(a * FULL, n);
    if q > FULL {
      MulMonotone(n, FULL + 1, q);
    }
    if a == n && q < FULL {
      MulMonotone(n, q, FULL - 1);
    }
  }

  /** Locality is the share of the largest group known to be on one host. */
  lemma LocalityMeasures(vs: seq<View>, ctx: Context)
    ensures |vs| <= 1 ==> Cross(vs, ctx, 0) == FULL
    ensures |vs| > 1 ==> exists m: nat :: m >= 1 && LargestShare(vs, m) && Cross(vs, ctx, 0) == Part(m - 1, |vs| - 1)
  {
    hide Dominant, LargestShare;
    if |vs| > 1 {
      DominantIsLargest(vs);
      var m := Dominant(Hosts(vs));
      ShareRange(vs, m);
      QuotientReaches(m - 1, |vs| - 1);
      assert Cross(vs, ctx, 0) == Part(m - 1, |vs| - 1);
    }
  }

  lemma ShareRange(vs: seq<View>, m: nat)
    requires LargestShare(vs, m)
    ensures 1 <= m <= |vs|
  {
  }

  ghost predicate OneHost(vs: seq<View>) {
    forall i :: 0 <= i < |vs| ==> vs[i].host != 0 && vs[i].host == vs[0].host
  }

  ghost predicate NoSharedHost(vs: seq<View>) {
    forall i, j :: 0 <= i < j < |vs| ==> !(vs[i].host != 0 && vs[i].host == vs[j].host)
  }

  lemma PairShares(vs: seq<View>, i: nat, j: nat)
    requires i < j < |vs|
    ensures vs[i].host != 0 && vs[i].host == vs[j].host ==> exists pair: set<nat> :: ShareHost(vs, pair) && |pair| == 2
  {
    var pair: set<nat> := {i, j};
    if vs[i].host != 0 && vs[i].host == vs[j].host {
      assert OnHost(vs, pair, vs[i].host);
      assert ShareHost(vs, pair) && |pair| == 2;
    }
  }

  lemma WholeShare(vs: seq<View>, m: nat)
    requires LargestShare(vs, m) && |vs| > 1
    ensures m == |vs| <==> OneHost(vs)
    ensures m == 1 <==> NoSharedHost(vs)
  {
    var all := Below(|vs|);
    BelowExact(|vs|);
    if OneHost(vs) {
      assert OnHost(vs, all, vs[0].host);
      assert ShareHost(vs, all);
    }
    if m == |vs| {
      var among: set<nat> :| ShareHost(vs, among) && |among| == m;
      var h :| h != 0 && OnHost(vs, among, h);
      assert among <= all;
      SubsetSize(among, all);
      assert forall i :: 0 <= i < |vs| ==> i in among;
    }
    if m == 1 {
      forall i, j | 0 <= i < j < |vs| ensures !(vs[i].host != 0 && vs[i].host == vs[j].host) {
        PairShares(vs, i, j);
      }
    } else {
      var among: set<nat> :| ShareHost(vs, among) && |among| == m;
      var h :| h != 0 && OnHost(vs, among, h);
      var i :| i in among;
      assert |among - {i}| == m - 1;
      var j :| j in among - {i};
      var a, b := if i < j then i else j, if i < j then j else i;
      assert 0 <= a < b < |vs| && vs[a].host != 0 && vs[a].host == vs[b].host;
    }
  }

  /** It is full when all are known to be on one host, and zero when no two are. */
  lemma LocalityEnds(vs: seq<View>, ctx: Context)
    requires 1 < |vs| <= FULL
    ensures Cross(vs, ctx, 0) == FULL <==> OneHost(vs)
    ensures Cross(vs, ctx, 0) == 0 <==> NoSharedHost(vs)
  {
    hide LargestShare, OneHost, NoSharedHost, Cross, Part;
    LocalityMeasures(vs, ctx);
    var m: nat :| m >= 1 && LargestShare(vs, m) && Cross(vs, ctx, 0) == Part(m - 1, |vs| - 1);
    ShareRange(vs, m);
    WholeShare(vs, m);
    QuotientReaches(m - 1, |vs| - 1);
  }

  // ---------------------------------------------------------------- factor 7, topology distance

  /** Known domains count once, unknown ones each. */
  ghost predicate Spans(ids: seq<U64>, n: nat) {
    n == |KnownIn(ids)| + |UnknownIn(ids)|
  }

  function KnownIn(ids: seq<U64>): set<U64> { set id | id in ids && id != 0 }

  function UnknownIn(ids: seq<U64>): set<nat> { set i: nat | i < |ids| && ids[i] == 0 }

  lemma SpreadIs(ids: seq<U64>)
    ensures Spans(ids, Spread(ids))
  {
    CountIsSize(ids, 0);
    assert UnknownIn(ids) == Where(ids, 0);
    assert KnownIn(ids) == set id | id in ids && id != 0;
  }

  function HostIds(vs: seq<View>): seq<U64> { seq(|vs|, i requires 0 <= i < |vs| => vs[i].host) }

  function RackIds(vs: seq<View>): seq<U64> { seq(|vs|, i requires 0 <= i < |vs| => vs[i].rack) }

  function ClusterIds(vs: seq<View>): seq<U64> { seq(|vs|, i requires 0 <= i < |vs| => vs[i].cluster) }

  function Bounded(v: int): int { if v < 0 then 0 else if v > FULL then FULL else v }

  /** One further host costs a quarter of the unit, one rack an eighth, one cluster a sixteenth. */
  lemma DistanceMeasures(vs: seq<View>, ctx: Context)
    ensures exists h: nat, r: nat, c: nat ::
              Spans(HostIds(vs), h) && Spans(RackIds(vs), r) && Spans(ClusterIds(vs), c)
              && Cross(vs, ctx, 7) == Bounded(FULL - (h - 1) * 250000 - (r - 1) * 125000 - (c - 1) * 62500)
  {
    hide Spread, Spans;
    SpreadIs(Hosts(vs));
    SpreadIs(Racks(vs));
    SpreadIs(Clusters(vs));
    assert Hosts(vs) == HostIds(vs) && Racks(vs) == RackIds(vs) && Clusters(vs) == ClusterIds(vs);
  }

  ghost predicate OneDomain(ids: seq<U64>) {
    |ids| == 1 || forall i :: 0 <= i < |ids| ==> ids[i] != 0 && ids[i] == ids[0]
  }

  lemma SpansOne(ids: seq<U64>, n: nat)
    requires ids != [] && Spans(ids, n)
    ensures n >= 1 && (n == 1 <==> OneDomain(ids))
  {
    hide OneDomain;
    assert ids[0] in KnownIn(ids) || 0 in UnknownIn(ids);
    if OneDomain(ids) {
      OneDomainSpans(ids);
    }
    if n == 1 && |ids| > 1 {
      OneKnown(ids);
    }
    if |ids| == 1 {
      OneDomainSpans(ids);
    }
  }

  lemma OneDomainSpans(ids: seq<U64>)
    requires ids != [] && (OneDomain(ids) || |ids| == 1)
    ensures |KnownIn(ids)| + |UnknownIn(ids)| == 1 && OneDomain(ids)
  {
    if ids[0] == 0 {
      assert UnknownIn(ids) == {0} && KnownIn(ids) == {};
    } else {
      assert KnownIn(ids) == {ids[0]} && UnknownIn(ids) == {};
    }
  }

  lemma TwoInside(whole: set<nat>, a: nat, b: nat)
    requires a in whole && b in whole && a != b
    ensures |whole| >= 2
  {
    SubsetSize({a, b}, whole);
  }

  lemma OneKnown(ids: seq<U64>)
    requires |ids| > 1 && |KnownIn(ids)| + |UnknownIn(ids)| == 1
    ensures OneDomain(ids)
  {
    var known, unknown := KnownIn(ids), UnknownIn(ids);
    assert forall i :: 0 <= i < |ids| ==> ids[i] in known || i in unknown;
    if known == {} {
      TwoInside(unknown, 0, 1);
    } else {
      var d :| d in known;
      SubsetSize({d}, known);
      assert known == {d} && unknown == {};
    }
  }

  /** It is full when at most one host, rack and cluster is involved. */
  lemma DistanceEnds(vs: seq<View>, ctx: Context)
    requires vs != []
    ensures Cross(vs, ctx, 7) == FULL
            <==> OneDomain(HostIds(vs)) && OneDomain(RackIds(vs)) && OneDomain(ClusterIds(vs))
  {
    hide Cross, Spans, OneDomain;
    DistanceMeasures(vs, ctx);
    var h: nat, r: nat, c: nat :| Spans(HostIds(vs), h) && Spans(RackIds(vs), r) && Spans(ClusterIds(vs), c)
      && Cross(vs, ctx, 7) == Bounded(FULL - (h - 1) * 250000 - (r - 1) * 125000 - (c - 1) * 62500);
    SpansOne(HostIds(vs), h);
    SpansOne(RackIds(vs), r);
    SpansOne(ClusterIds(vs), c);
  }

  // ---------------------------------------------------------------- factor 5, dataset locality

  /** Dataset `i` is known to share its host with a selected resource that is no dataset. */
  ghost predicate Accompanied(vs: seq<View>, i: nat)
    requires i < |vs|
  {
    exists j :: 0 <= j < |vs| && !vs[j].dataset && vs[j].host != 0 && vs[j].host == vs[i].host
  }

  ghost function Near(vs: seq<View>, k: nat): set<nat>
    requires k <= |vs|
  {
    set i: nat | i < k && vs[i].dataset && Accompanied(vs, i)
  }

  ghost function Stored(vs: seq<View>, k: nat): set<nat>
    requires k <= |vs|
  {
    set i: nat | i < k && vs[i].dataset && !Accompanied(vs, i) && vs[i].local
  }

  ghost function Remote(vs: seq<View>, k: nat): set<nat>
    requires k <= |vs|
  {
    set i: nat | i < k && vs[i].dataset && !Accompanied(vs, i) && !vs[i].local
  }

  lemma {:induction false} DatasetsCounted(vs: seq<View>, k: nat)
    requires k <= |vs|
    ensures DatasetCount(vs, k) == |Near(vs, k)| + |Stored(vs, k)| + |Remote(vs, k)|
    ensures DatasetTotal(vs, k) == |Near(vs, k)| * 1000000 + |Stored(vs, k)| * 500000 + |Remote(vs, k)| * 250000
  {
    hide Near, Stored, Remote, Colocated;
    if k == 0 {
      NoneCounted(vs);
    } else {
      DatasetsCounted(vs, k - 1);
      OneCounted(vs, k - 1);
      if vs[k - 1].dataset {
        ColocatedIsAccompanied(vs, k - 1);
      }
    }
  }

  lemma NoneCounted(vs: seq<View>)
    ensures Near(vs, 0) == Stored(vs, 0) == Remote(vs, 0) == {}
  {
  }

  lemma OneCounted(vs: seq<View>, i: nat)
    requires i < |vs|
    ensures |Near(vs, i + 1)| == |Near(vs, i)| + if vs[i].dataset && Accompanied(vs, i) then 1 else 0
    ensures |Stored(vs, i + 1)|
         == |Stored(vs, i)| + if vs[i].dataset && !Accompanied(vs, i) && vs[i].local then 1 else 0
    ensures |Remote(vs, i + 1)|
         == |Remote(vs, i)| + if vs[i].dataset && !Accompanied(vs, i) && !vs[i].local then 1 else 0
  {
    hide Accompanied, Near, Stored, Remote;
    NearNext(vs, i);
    StoredNext(vs, i);
    RemoteNext(vs, i);
  }

  lemma NearNext(vs: seq<View>, i: nat)
    requires i < |vs|
    ensures i !in Near(vs, i)
            && Near(vs, i + 1) == Near(vs, i) + (if vs[i].dataset && Accompanied(vs, i) then {i} else {})
  {
    hide Accompanied;
  }

  lemma StoredNext(vs: seq<View>, i: nat)
    requires i < |vs|
    ensures i !in Stored(vs, i)
            && Stored(vs, i + 1)
            == Stored(vs, i) + (if vs[i].dataset && !Accompanied(vs, i) && vs[i].local then {i} else {})
  {
    hide Accompanied;
  }

  lemma RemoteNext(vs: seq<View>, i: nat)
    requires i < |vs|
    ensures i !in Remote(vs, i)
            && Remote(vs, i + 1)
            == Remote(vs, i) + (if vs[i].dataset && !Accompanied(vs, i) && !vs[i].local then {i} else {})
  {
    hide Accompanied;
  }

  lemma ColocatedIsAccompanied(vs: seq<View>, i: nat)
    requires i < |vs| && vs[i].dataset
    ensures Colocated(vs, i) <==> Accompanied(vs, i)
  {
  }

  /** The average over the datasets: the unit beside a consumer, half of it with a local version, else a
      quarter; the unit without datasets. */
  lemma DatasetsMeasure(vs: seq<View>, ctx: Context)
    ensures var near, stored, remote := |Near(vs, |vs|)|, |Stored(vs, |vs|)|, |Remote(vs, |vs|)|;
            Cross(vs, ctx, 5)
            == if near + stored + remote == 0 then FULL
               else (near * 1000000 + stored * 500000 + remote * 250000) / (near + stored + remote)
  {
    hide Near, Stored, Remote, DatasetCount, DatasetTotal;
    DatasetsCounted(vs, |vs|);
  }

  // ---------------------------------------------------------------- factors 10 and 11, fairness and priority

  ghost predicate MostServed(service: map<string, nat>, most: nat) {
    most >= 1 && (forall t :: t in service ==> service[t] <= most)
    && (most == 1 || exists t :: t in service && service[t] == most)
  }

  lemma ServiceIsMost(service: map<string, nat>)
    ensures MostServed(service, MaxService(service.Values))
  {
    var values := service.Values;
    assert forall u :: u in service ==> service[u] in values;
    if values != {} {
      SetMaximum(values);
      var m :| m in values && (forall v :: v in values ==> v <= m) && MaxService(values) == Max(1, m);
      var t :| t in service && service[t] == m;
    }
  }

  /** A tenant loses the share of the unit that its placements are of the most served tenant's; the product is
      taken modulo 2^64. */
  lemma FairnessMeasures(s: State, request: Request, vs: seq<View>)
    ensures request.tenant == "" ==> Cross(vs, ContextOf(s, request), 10) == FULL
    ensures request.tenant != "" ==>
              var served := if request.tenant in s.tenantService then s.tenantService[request.tenant] else 0;
              exists most: nat :: most >= 1 && MostServed(s.tenantService, most)
                && Cross(vs, ContextOf(s, request), 10) == FULL - served * FULL % 0x1_0000_0000_0000_0000 / most
                && (served * FULL < 0x1_0000_0000_0000_0000 ==>
                      Cross(vs, ContextOf(s, request), 10) == FULL - Part(served, most))
  {
    hide MostServed, MaxService, Fairness;
    ServiceIsMost(s.tenantService);
    var most := MaxService(s.tenantService.Values);
    assert most >= 1 by { MostIsPositive(s.tenantService, most); }
    FairnessIs(s.tenantService, request.tenant);
    if request.tenant != "" {
      var served := if request.tenant in s.tenantService then s.tenantService[request.tenant] else 0;
      assert Wrap64(served * FULL) == served * FULL % 0x1_0000_0000_0000_0000;
      if served * FULL < TWO_64 {
        WrapsNothing(served, most);
      }
    }
  }

  lemma FairnessIs(service: map<string, nat>, tenant: string)
    ensures var served := if tenant in service then service[tenant] else 0; var most := MaxService(service.Values);
            && most >= 1
            && Fairness(service, tenant) == if tenant == "" then FULL else FULL - Wrap64(served * FULL) / most
  {
    hide MostServed, MaxService;
    var served := if tenant in service then service[tenant] else 0;
    var most := MaxService(service.Values);
    ServiceIsMost(service);
    assert most >= 1 by { MostIsPositive(service, most); }
    ServedIsBelow(service, most, served, tenant);
    ShareInUnit(served, most);
  }

  lemma WrapsNothing(a: nat, n: nat)
    requires n >= 1 && a * FULL < TWO_64
    ensures Wrap64(a * FULL) / n == Part(a, n)
  {
    assert Wrap64(a * FULL) == a * FULL;
  }

  lemma ShareInUnit(served: nat, most: nat)
    requires most >= 1 && served <= most
    ensures 0 <= Wrap64(served * FULL) / most <= FULL
  {
    assert served * FULL <= most * FULL;
    assert Wrap64(served * FULL) <= served * FULL;
    QuotientBound(Wrap64(served * FULL), most, FULL);
  }

  lemma MostIsPositive(service: map<string, nat>, most: nat)
    requires MostServed(service, most)
    ensures most >= 1
  {
  }

  lemma ServedIsBelow(service: map<string, nat>, most: nat, served: nat, tenant: string)
    requires MostServed(service, most) && served == if tenant in service then service[tenant] else 0
    ensures served <= most
  {
  }

  /** An unserved tenant keeps the whole unit, and the most served one nothing. */
  lemma FairnessEnds(s: State, request: Request, vs: seq<View>)
    requires request.tenant != ""
    requires forall t :: t in s.tenantService ==> s.tenantService[t] * FULL < TWO_64
    ensures request.tenant !in s.tenantService || s.tenantService[request.tenant] == 0 ==>
              Cross(vs, ContextOf(s, request), 10) == FULL
    ensures request.tenant in s.tenantService && s.tenantService[request.tenant] >= 1
            && (forall t :: t in s.tenantService ==> s.tenantService[t] <= s.tenantService[request.tenant]) ==>
              Cross(vs, ContextOf(s, request), 10) == 0
  {
    hide MostServed, Cross, Part;
    FairnessMeasures(s, request, vs);
    var served := if request.tenant in s.tenantService then s.tenantService[request.tenant] else 0;
    var most: nat :| most >= 1 && MostServed(s.tenantService, most)
      && (served * FULL < TWO_64 ==> Cross(vs, ContextOf(s, request), 10) == FULL - Part(served, most));
    ServedIsBelow(s.tenantService, most, served, request.tenant);
    QuotientReaches(served, most);
    MostIsReached(s.tenantService, most);
    if served == 0 {
      assert Part(0, most) == 0 by { NothingIsNone(most); }
    }
  }

  lemma NothingIsNone(n: nat)
    requires n >= 1
    ensures Part(0, n) == 0
  {
  }

  lemma MostIsReached(service: map<string, nat>, most: nat)
    requires MostServed(service, most)
    ensures most == 1 || exists t :: t in service && service[t] == most
  {
  }

  /** The more a tenant was served, the less it gets. */
  lemma FairnessFalls(service: map<string, nat>, a: string, b: string)
    requires a != "" && b != "" && a in service && b in service && service[a] <= service[b]
    requires service[b] * FULL < TWO_64
    ensures Fairness(service, b) <= Fairness(service, a)
  {
    hide MostServed, MaxService, Fairness, Part, Wrap64;
    FairnessIs(service, a);
    FairnessIs(service, b);
    WrapsNothing(service[a], MaxService(service.Values));
    WrapsNothing(service[b], MaxService(service.Values));
    PartRises(service[a], service[b], MaxService(service.Values));
  }

  /** Beyond that the product wraps: a tenant served more than eighteen times as often gets more. */
  lemma FairnessWraps()
    ensures var service := map["a" := 1_000_000_000_000, "b" := 18_446_744_073_710];
            Fairness(service, "a") == 945790 && Fairness(service, "b") == FULL
  {
    var service := map["a" := 1_000_000_000_000, "b" := 18_446_744_073_710];
    hide MaxService;
    ServiceIsMost(service);
    var most := MaxService(service.Values);
    assert "a" in service && "b" in service && service["a"] == 1_000_000_000_000;
    assert most == 18_446_744_073_710;
    assert service["a"] * FULL == 1_000_000_000_000_000_000;
    assert Wrap64(service["b"] * FULL) == 448_384;
    assert 1_000_000_000_000_000_000 / most == 54_210;
    assert 448_384 / most == 0;
  }

  lemma PartRises(a: nat, b: nat, n: nat)
    requires n >= 1 && a <= b
    ensures Part(a, n) <= Part(b, n)
  {
    var p := Quotient(a * FULL, n);
    var q := Quotient(b * FULL, n);
    if q < p {
      MulMonotone(n, q + 1, p);
    }
  }

  /** Priority -1000 gives nothing, 1000 the unit, and each step of one as much more. */
  lemma PriorityMeasures(s: State, request: Request, vs: seq<View>)
    requires -1000 <= request.priority <= 1000
    ensures Cross(vs, ContextOf(s, request), 11) == (request.priority + 1000) * 500
  {
  }

  // ---------------------------------------------------------------- factors of one resource

  /** What is occupied once the claim is made. */
  function UsedAfter(r: Resource, slots: U32): nat { r.ad.occupancy + r.reserved + slots }

  /** Factor 1 falls with what is used, to zero on a full resource; factor 2 rises with what is left. */
  lemma RoomMeasures(q: Requirement, r: Resource, slots: U32, exclusive: bool, reused: bool)
    requires 1 <= r.ad.slots && UsedAfter(r, slots) <= r.ad.slots
    ensures var a := AdditiveValues(q, r, slots, exclusive, reused); var used := UsedAfter(r, slots);
            && a[1] == FULL - Part(used, r.ad.slots) && a[2] == Part(r.ad.slots - used, r.ad.slots)
            && (a[1] == 0 <==> used == r.ad.slots) && (a[2] == FULL <==> used == 0)
  {
    hide AdditiveValues, Part;
    var used := UsedAfter(r, slots);
    RoomValues(q, r, slots, exclusive, reused);
    QuotientReaches(used, r.ad.slots);
    QuotientReaches(r.ad.slots - used, r.ad.slots);
  }

  lemma RoomValues(q: Requirement, r: Resource, slots: U32, exclusive: bool, reused: bool)
    requires 1 <= r.ad.slots && UsedAfter(r, slots) <= r.ad.slots
    ensures var a := AdditiveValues(q, r, slots, exclusive, reused); var used := UsedAfter(r, slots);
            && |a| == 12 && a[1] == ClampUnit(FULL - Part(used, r.ad.slots))
            && a[2] == ClampUnit(Part(r.ad.slots - used, r.ad.slots))
  {
    hide AcceleratorFit, ModelWarmth, SimulatorReadiness, Fragmentation, ClampUnit;
    var used := UsedAfter(r, slots);
    assert OccupancyAfter(r, slots) == used && Residual(r, slots) == r.ad.slots - used;
  }

  /** Of two equally large resources the emptier one is ahead in both. */
  lemma RoomPrefersEmpty(q: Requirement, a: Resource, b: Resource, slots: U32, exclusive: bool, reused: bool)
    requires 1 <= a.ad.slots == b.ad.slots && UsedAfter(a, slots) <= UsedAfter(b, slots) <= b.ad.slots
    ensures var x, y := AdditiveValues(q, a, slots, exclusive, reused), AdditiveValues(q, b, slots, exclusive, reused);
            y[1] <= x[1] && y[2] <= x[2]
  {
    hide AdditiveValues;
    RoomMeasures(q, a, slots, exclusive, reused);
    RoomMeasures(q, b, slots, exclusive, reused);
    PartRises(UsedAfter(a, slots), UsedAfter(b, slots), a.ad.slots);
    PartRises(a.ad.slots - UsedAfter(b, slots), a.ad.slots - UsedAfter(a, slots), a.ad.slots);
  }

  ghost predicate LargestAccelerator(r: Resource, memory: nat) {
    && (forall a :: a in r.ad.accelerators ==> a.memory <= memory)
    && (memory == 0 || exists a :: a in r.ad.accelerators && a.memory == memory)
  }

  lemma {:induction false} MaxMemoryIsLargest(xs: seq<Accelerator>, floor: U64)
    ensures (forall a :: a in xs ==> a.memory <= MaxMemory(xs, floor)) && floor <= MaxMemory(xs, floor)
    ensures MaxMemory(xs, floor) == floor || exists a :: a in xs && a.memory == MaxMemory(xs, floor)
  {
    if xs != [] {
      var n := |xs| - 1;
      MaxMemoryIsLargest(xs[..n], floor);
      assert xs == xs[..n] + [xs[n]];
      assert xs[n] in xs;
    }
  }

  /** Factor 3: the less memory of the largest accelerator is left over, the better the fit; an exact fit and
      everything the factor does not apply to get the unit. The product is taken modulo 2^64. */
  lemma FitMeasures(q: Requirement, r: Resource, slots: U32, exclusive: bool, reused: bool, memory: nat)
    requires 1 <= r.ad.slots && LargestAccelerator(r, memory)
    ensures var fit := AdditiveValues(q, r, slots, exclusive, reused)[3];
            && (r.ad.resourceClass != Gpu || q.minMemory == 0 || memory <= q.minMemory ==> fit == FULL)
            && (r.ad.resourceClass == Gpu && 1 <= q.minMemory <= memory ==>
                  fit == FULL - (memory - q.minMemory) * FULL % 0x1_0000_0000_0000_0000 / memory
                  && ((memory - q.minMemory) * FULL < 0x1_0000_0000_0000_0000 ==>
                        fit == FULL - Part(memory - q.minMemory, memory)))
  {
    hide OccupancyAfter, Residual, ModelWarmth, SimulatorReadiness, Fragmentation;
    MaxMemoryIsLargest(r.ad.accelerators, 0);
    assert memory == MaxMemory(r.ad.accelerators, 0);
    if r.ad.resourceClass == Gpu && 1 <= q.minMemory <= memory {
      ShareInUnit(memory - q.minMemory, memory);
    }
  }

  /** Factors 4 and 6 by readiness: a model is warm when resident, half warm when ready; a simulator is ready,
      not ready, or worth a quarter when that is unknown or unsupported. Other classes get the unit. */
  lemma ReadinessMeasures(q: Requirement, r: Resource, slots: U32, exclusive: bool, reused: bool)
    requires 1 <= r.ad.slots
    ensures var a := AdditiveValues(q, r, slots, exclusive, reused);
            && a[4] == (if r.ad.resourceClass != Model then 1000000
                        else if r.ad.model.Some? && r.ad.model.value.resident then 1000000
                        else if r.ad.readiness == Ready then 500000 else 0)
            && a[6] == (if r.ad.resourceClass != Simulator || r.ad.readiness == Ready then 1000000
                        else if r.ad.readiness == NotReady then 0 else 250000)
  {
    hide OccupancyAfter, Residual, AcceleratorFit, Fragmentation;
  }

  /** Factor 8 is zero exactly when a shared claim leaves a rest too small for another like it, factor 9 the
      unit exactly when the resource is in use by the experiment already. */
  lemma RestMeasures(q: Requirement, r: Resource, slots: U32, exclusive: bool, reused: bool)
    requires 1 <= r.ad.slots && UsedAfter(r, slots) <= r.ad.slots
    ensures var a := AdditiveValues(q, r, slots, exclusive, reused);
            && a[8] == (if !exclusive && 0 < r.ad.slots - UsedAfter(r, slots) < slots then 0 else 1000000)
            && a[9] == if reused then 1000000 else 0
  {
    hide AcceleratorFit, ModelWarmth, SimulatorReadiness;
    assert OccupancyAfter(r, slots) == UsedAfter(r, slots);
  }

  // ---------------------------------------------------------------- from resources to scores

  /** Another live placement of the experiment has an active claim on the resource. */
  ghost predicate InUse(s: State, request: Request, id: U64) {
    exists p, c ::
      p in s.placements && s.placements[p].experiment == request.experiment && s.placements[p].request != request.id
      && (s.placements[p].state == Reserved || s.placements[p].state == Assigned || s.placements[p].state == Running)
      && s.placements[p].reservation in s.reservations
      && s.reservations[s.placements[p].reservation].state == Active
      && c in s.reservations[s.placements[p].reservation].claims && c.resource == id
  }

  lemma ReservedIsInUse(s: State, request: Request, id: U64)
    ensures ReservedByOther(s, request.experiment, id, request.id) <==> InUse(s, request, id)
  {
  }

  /** A candidate is scored with its own claim, and its use by the experiment. */
  lemma CandidateMeasures(s: State, request: Request, q: Requirement, id: U64)
    requires Plannable(s, request) && id in s.resources
    ensures var c := CandidateOf(s, request, q, id); var r := s.resources[id];
            && c.additive == AdditiveValues(q, r, c.slots, c.exclusive, InUse(s, request, id))
            && |c.additive| == 12
            && var w := request.weights;
               c.partial == c.additive[1] * w[1] + c.additive[2] * w[2] + c.additive[3] * w[3] + c.additive[4] * w[4]
                            + c.additive[6] * w[6] + c.additive[8] * w[8] + c.additive[9] * w[9]
  {
    hide AdditiveValues;
    ReservedIsInUse(s, request, id);
    var c := CandidateOf(s, request, q, id);
    assert |c.additive| == 12 by { TwelveFactors(q, s.resources[id], c.slots, c.exclusive, InUse(s, request, id)); }
    PartialWritten(c.additive, request.weights);
  }

  lemma TwelveFactors(q: Requirement, r: Resource, slots: U32, exclusive: bool, reused: bool)
    requires 1 <= r.ad.slots
    ensures |AdditiveValues(q, r, slots, exclusive, reused)| == 12
  {
  }

  lemma PartialWritten(a: seq<int>, w: seq<int>)
    requires |a| == |w| == 12
    ensures PartialScore(a, w, 12)
         == a[1] * w[1] + a[2] * w[2] + a[3] * w[3] + a[4] * w[4] + a[6] * w[6] + a[8] * w[8] + a[9] * w[9]
  {
    hide PartialScore;
    PartialStep(a, w, 12);
  }

  /** The first `k` terms, unfolded. */
  function PartialUpTo(a: seq<int>, w: seq<int>, k: nat): int
    requires |a| == |w| == 12 && k <= 12
  {
    (if k > 1 then a[1] * w[1] else 0) + (if k > 2 then a[2] * w[2] else 0) + (if k > 3 then a[3] * w[3] else 0)
    + (if k > 4 then a[4] * w[4] else 0) + (if k > 6 then a[6] * w[6] else 0) + (if k > 8 then a[8] * w[8] else 0)
    + (if k > 9 then a[9] * w[9] else 0)
  }

  lemma {:induction false} PartialStep(a: seq<int>, w: seq<int>, k: nat)
    requires |a| == |w| == 12 && k <= 12
    ensures PartialScore(a, w, k) == PartialUpTo(a, w, k)
  {
    if k > 0 {
      PartialStep(a, w, k - 1);
    }
  }

  /** The sum over the selection of one additive factor. */
  function Summed(vs: seq<View>, f: nat): int
    requires f < 12 && forall i :: 0 <= i < |vs| ==> |vs[i].additive| == 12
  {
    if vs == [] then 0 else vs[0].additive[f] + Summed(vs[1..], f)
  }

  lemma {:induction false} SummedSplit(vs: seq<View>, f: nat)
    requires f < 12 && vs != [] && forall i :: 0 <= i < |vs| ==> |vs[i].additive| == 12
    ensures Summed(vs, f) == Summed(vs[..|vs| - 1], f) + vs[|vs| - 1].additive[f]
  {
    if |vs| > 1 {
      SummedSplit(vs[1..], f);
      assert vs[1..][..|vs| - 2] == vs[..|vs| - 1][1..];
    }
  }

  lemma {:induction false} TotalIsSummed(vs: seq<View>, f: nat)
    requires f < 12 && forall i :: 0 <= i < |vs| ==> |vs[i].additive| == 12
    ensures AdditiveTotal(vs, f) == Summed(vs, f)
  {
    if vs != [] {
      TotalIsSummed(vs[..|vs| - 1], f);
      SummedSplit(vs, f);
    }
  }

  /** The raw score: factors 1, 2, 3, 4, 6, 8 and 9 add up over the selection, the other five count once for
      each resource. */
  lemma ScoreWritten(vs: seq<View>, ctx: Context, w: seq<int>)
    requires |w| == 12 && forall i :: 0 <= i < |vs| ==> |vs[i].additive| == 12
    ensures RawScore(vs, ctx, w, 12)
         == |vs| * Cross(vs, ctx, 0) * w[0] + Summed(vs, 1) * w[1] + Summed(vs, 2) * w[2] + Summed(vs, 3) * w[3]
            + Summed(vs, 4) * w[4] + |vs| * Cross(vs, ctx, 5) * w[5] + Summed(vs, 6) * w[6]
            + |vs| * Cross(vs, ctx, 7) * w[7] + Summed(vs, 8) * w[8] + Summed(vs, 9) * w[9]
            + |vs| * Cross(vs, ctx, 10) * w[10] + |vs| * Cross(vs, ctx, 11) * w[11]
  {
    hide RawScore, Cross, Summed;
    RawStep(vs, ctx, w, 12);
  }

  /** The first `k` terms, unfolded. */
  function RawUpTo(vs: seq<View>, ctx: Context, w: seq<int>, k: nat): int
    requires |w| == 12 && k <= 12 && forall i :: 0 <= i < |vs| ==> |vs[i].additive| == 12
  {
    var n := |vs|;
    (if k > 0 then n * Cross(vs, ctx, 0) * w[0] else 0) + (if k > 1 then Summed(vs, 1) * w[1] else 0)
    + (if k > 2 then Summed(vs, 2) * w[2] else 0) + (if k > 3 then Summed(vs, 3) * w[3] else 0)
    + (if k > 4 then Summed(vs, 4) * w[4] else 0) + (if k > 5 then n * Cross(vs, ctx, 5) * w[5] else 0)
    + (if k > 6 then Summed(vs, 6) * w[6] else 0) + (if k > 7 then n * Cross(vs, ctx, 7) * w[7] else 0)
    + (if k > 8 then Summed(vs, 8) * w[8] else 0) + (if k > 9 then Summed(vs, 9) * w[9] else 0)
    + (if k > 10 then n * Cross(vs, ctx, 10) * w[10] else 0) + (if k > 11 then n * Cross(vs, ctx, 11) * w[11] else 0)
  }

  lemma {:induction false} RawStep(vs: seq<View>, ctx: Context, w: seq<int>, k: nat)
    requires |w| == 12 && k <= 12 && forall i :: 0 <= i < |vs| ==> |vs[i].additive| == 12
    ensures RawScore(vs, ctx, w, k) == RawUpTo(vs, ctx, w, k)
  {
    hide Cross, Summed, AdditiveTotal;
    if k > 0 {
      RawStep(vs, ctx, w, k - 1);
      TotalIsSummed(vs, k - 1);
    }
  }

  /** What the score reads of a selection. */
  lemma ViewsShow(s: State, request: Request, sel: Selection, i: nat)
    requires |sel| == |request.requirements| && i < |sel| && sel[i].id in s.resources
    ensures var v := Views(s, request, sel)[i]; var ad := s.resources[sel[i].id].ad;
            && v.additive == sel[i].additive
            && v.host == ad.topology.host && v.rack == ad.topology.rack && v.cluster == ad.topology.cluster
            && (v.dataset <==> request.requirements[i].resourceClass == Dataset)
            && (v.dataset ==> (v.local <==> ad.localDatasets != []))
  {
  }
}
