/** Fixed-point scoring of candidates and whole placements (src/engine_scheduling.cpp:17-45, 367-442,
    511-649). Twelve factors, each in [0, UNIT]; seven are additive per resource, five look at the
    whole selection. */
module Ranking {
  import opened Prelude
  import opened Records
  import opened Eligibility

  const UNIT: int := 1000000
  const FACTORS: nat := 12

  predicate IsAdditive(f: nat) {
    f == 1 || f == 2 || f == 3 || f == 4 || f == 6 || f == 8 || f == 9
  }

  function ClampUnit(v: int): int {
    if v < 0 then 0 else if v > UNIT then UNIT else v
  }

  /** static_cast from std::uint64_t to std::int64_t. */
  function ToInt64(x: U64): int {
    if x >= TWO_63 then x - TWO_64 else x
  }

  // ---------------------------------------------------------------- additive factors

  function OccupancyAfter(r: Resource, slots: U32): U32 {
    Wrap32(TotalOccupancy(r) + slots)
  }

  function Residual(r: Resource, slots: U32): nat {
    if r.ad.slots > OccupancyAfter(r, slots) then r.ad.slots - OccupancyAfter(r, slots) else 0
  }

  function MemoryExcess(memory: U64, wanted: U64): int
    requires 0 < memory && wanted <= memory
  {
    ToInt64(Wrap64((memory - wanted) * UNIT) / memory)
  }

  function AcceleratorFit(q: Requirement, r: Resource): int {
    var memory := MaxMemory(r.ad.accelerators, 0);
    if r.ad.resourceClass.Gpu? && q.minMemory > 0 && memory >= q.minMemory then
      ClampUnit(UNIT - MemoryExcess(memory, q.minMemory))
    else UNIT
  }

  function ModelWarmth(r: Resource): int {
    if !r.ad.resourceClass.Model? || (r.ad.model.Some? && r.ad.model.value.resident) then UNIT
    else if r.ad.readiness.Ready? then UNIT / 2
    else 0
  }

  function SimulatorReadiness(r: Resource): int {
    if !r.ad.resourceClass.Simulator? || r.ad.readiness.Ready? then UNIT
    else if r.ad.readiness.NotReady? then 0
    else UNIT / 4
  }

  function Fragmentation(r: Resource, slots: U32, exclusive: bool): int {
    if !exclusive && 0 < Residual(r, slots) < slots then 0 else UNIT
  }

  /** compute_additive_values; the entries of the five cross factors keep their initial UNIT. */
  function AdditiveValues(q: Requirement, r: Resource, slots: U32, exclusive: bool, reused: bool): seq<int>
    requires r.ad.slots >= 1
  {
    [UNIT,
     ClampUnit(UNIT - OccupancyAfter(r, slots) * UNIT / r.ad.slots),
     ClampUnit(Residual(r, slots) * UNIT / r.ad.slots),
     AcceleratorFit(q, r),
     ModelWarmth(r),
     UNIT,
     SimulatorReadiness(r),
     UNIT,
     Fragmentation(r, slots, exclusive),
     if reused then UNIT else 0,
     UNIT,
     UNIT]
  }

  // ---------------------------------------------------------------- cross factors

  /** What the score of a whole selection reads of one selected resource. */
  datatype View = View(additive: seq<int>, host: U64, rack: U64, cluster: U64, dataset: bool, local: bool)

  function Count(ids: seq<U64>, id: U64): nat {
    if ids == [] then 0
    else Count(ids[..|ids| - 1], id) + (if ids[|ids| - 1] == id then 1 else 0)
  }

  /** Known domains count once each, every UNKNOWN domain counts on its own. */
  function Spread(ids: seq<U64>): nat {
    |set id | id in ids && id != 0| + Count(ids, 0)
  }

  /** The largest number of selected resources proven to share one host. */
  function Dominant(hosts: seq<U64>): nat {
    if hosts == [] then 0
    else
      var h := hosts[|hosts| - 1];
      Max(Dominant(hosts[..|hosts| - 1]), if h == 0 then 1 else Count(hosts, h))
  }

  function Hosts(vs: seq<View>): seq<U64> { seq(|vs|, i requires 0 <= i < |vs| => vs[i].host) }

  function Racks(vs: seq<View>): seq<U64> { seq(|vs|, i requires 0 <= i < |vs| => vs[i].rack) }

  function Clusters(vs: seq<View>): seq<U64> { seq(|vs|, i requires 0 <= i < |vs| => vs[i].cluster) }

  function Locality(vs: seq<View>): int {
    if |vs| > 1 then ClampUnit((Dominant(Hosts(vs)) - 1) * UNIT / (|vs| - 1)) else UNIT
  }

  function TopologyDistance(vs: seq<View>): int {
    ClampUnit(UNIT - (Spread(Hosts(vs)) - 1) * 250000 - (Spread(Racks(vs)) - 1) * 125000
              - (Spread(Clusters(vs)) - 1) * 62500)
  }

  /** Some selected resource that is not a dataset is on the known host of dataset `i`. */
  predicate Colocated(vs: seq<View>, i: nat)
    requires i < |vs|
  {
    exists j :: 0 <= j < |vs| && j != i && !vs[j].dataset && vs[j].host != 0 && vs[j].host == vs[i].host
  }

  function DatasetValue(vs: seq<View>, i: nat): int
    requires i < |vs|
  {
    if Colocated(vs, i) then UNIT else if vs[i].local then UNIT / 2 else UNIT / 4
  }

  function DatasetTotal(vs: seq<View>, k: nat): int
    requires k <= |vs|
  {
    if k == 0 then 0 else DatasetTotal(vs, k - 1) + (if vs[k - 1].dataset then DatasetValue(vs, k - 1) else 0)
  }

  function DatasetCount(vs: seq<View>, k: nat): nat
    requires k <= |vs|
  {
    if k == 0 then 0 else DatasetCount(vs, k - 1) + (if vs[k - 1].dataset then 1 else 0)
  }

  function DatasetLocality(vs: seq<View>): int {
    if DatasetCount(vs, |vs|) == 0 then UNIT else DatasetTotal(vs, |vs|) / DatasetCount(vs, |vs|)
  }

  lemma {:induction false} SetMaximum(values: set<nat>)
    requires values != {}
    ensures exists m :: m in values && forall v :: v in values ==> v <= m
  {
    var x :| x in values;
    var rest := values - {x};
    if rest == {} {
      assert values == {x};
    } else {
      SetMaximum(rest);
      var m :| m in rest && forall v :: v in rest ==> v <= m;
      assert forall v :: v in values ==> v == x || v in rest;
      assert Max(x, m) in values;
    }
  }

  /** The largest service count of any tenant, at least one. */
  function MaxService(values: set<nat>): nat {
    if values == {} then 1
    else
      SetMaximum(values);
      var m :| m in values && forall v :: v in values ==> v <= m;
      Max(1, m)
  }

  function Fairness(service: map<string, nat>, tenant: string): int {
    if tenant == "" then UNIT
    else
      var served := if tenant in service then service[tenant] else 0;
      ClampUnit(UNIT - ToInt64(Wrap64(served * UNIT) / MaxService(service.Values)))
  }

  function PriorityFactor(priority: int): int {
    ClampUnit((priority + 1000) * UNIT / 2000)
  }

  /** The two cross factors that depend on the request and the tenants only. */
  datatype Context = Context(fairness: int, priority: int)

  function Cross(vs: seq<View>, ctx: Context, f: nat): int {
    if f == 0 then Locality(vs)
    else if f == 5 then DatasetLocality(vs)
    else if f == 7 then TopologyDistance(vs)
    else if f == 10 then ctx.fairness
    else ctx.priority
  }

  // ---------------------------------------------------------------- scores

  ghost predicate ValidWeights(w: seq<int>) {
    |w| == FACTORS && forall f :: 0 <= f < FACTORS ==> -1000 <= w[f] <= 1000
  }

  ghost predicate ValidAdditive(a: seq<int>) {
    |a| == FACTORS && forall f :: 0 <= f < FACTORS ==> 0 <= a[f] <= UNIT
  }

  ghost predicate ValidViews(vs: seq<View>) {
    forall i :: 0 <= i < |vs| ==> ValidAdditive(vs[i].additive)
  }

  ghost predicate ValidContext(ctx: Context) {
    0 <= ctx.fairness <= UNIT && 0 <= ctx.priority <= UNIT
  }

  /** candidate.partial: the additive part of one resource's score. */
  function PartialScore(a: seq<int>, w: seq<int>, k: nat): int
    requires |a| == |w| == FACTORS && k <= FACTORS
  {
    if k == 0 then 0
    else PartialScore(a, w, k - 1) + (if IsAdditive(k - 1) then a[k - 1] * w[k - 1] else 0)
  }

  function AdditiveTotal(vs: seq<View>, f: nat): int
    requires f < FACTORS && forall i :: 0 <= i < |vs| ==> |vs[i].additive| == FACTORS
  {
    if vs == [] then 0 else AdditiveTotal(vs[..|vs| - 1], f) + vs[|vs| - 1].additive[f]
  }

  function Contribution(vs: seq<View>, ctx: Context, w: seq<int>, f: nat): int
    requires |w| == FACTORS && f < FACTORS && forall i :: 0 <= i < |vs| ==> |vs[i].additive| == FACTORS
  {
    if IsAdditive(f) then AdditiveTotal(vs, f) * w[f] else |vs| * Cross(vs, ctx, f) * w[f]
  }

  /** score_candidate: the weighted sum of the first `k` factors. */
  function RawScore(vs: seq<View>, ctx: Context, w: seq<int>, k: nat): int
    requires |w| == FACTORS && k <= FACTORS && forall i :: 0 <= i < |vs| ==> |vs[i].additive| == FACTORS
  {
    if k == 0 then 0 else RawScore(vs, ctx, w, k - 1) + Contribution(vs, ctx, w, k - 1)
  }

  /** cross_bound: the most the cross factors can add for `n` resources. */
  function CrossBound(w: seq<int>, n: nat, k: nat): int
    requires |w| == FACTORS && k <= FACTORS
  {
    if k == 0 then 0
    else CrossBound(w, n, k - 1) + (if !IsAdditive(k - 1) && w[k - 1] > 0 then n * w[k - 1] * UNIT else 0)
  }

  // ---------------------------------------------------------------- every factor stays in [0, UNIT]

  lemma QuotientBound(a: int, b: int, c: int)
    requires 0 <= a && 0 < b && 0 <= c && a <= b * c
    ensures 0 <= a / b <= c
  {
  }

  /** The unsigned product of the accelerator-fit factor may wrap, its quotient still is a fraction. */
  lemma ExcessInUnit(memory: U64, wanted: U64)
    requires 0 < memory && wanted <= memory
    ensures 0 <= MemoryExcess(memory, wanted) <= UNIT
  {
    var product := (memory - wanted) * UNIT;
    assert Wrap64(product) <= product;
    assert product <= memory * UNIT;
    QuotientBound(Wrap64(product), memory, UNIT);
  }

  /** Every additive factor of a well-formed resource is in range, for all inputs. */
  lemma AdditiveInRange(q: Requirement, r: Resource, slots: U32, exclusive: bool, reused: bool)
    requires r.ad.slots >= 1
    ensures ValidAdditive(AdditiveValues(q, r, slots, exclusive, reused))
  {
  }

  /** The two divisions of unsigned products never exceed UNIT, so the clamps and the signed casts
      change nothing. */
  lemma FairnessInRange(service: map<string, nat>, tenant: string)
    ensures 0 <= Fairness(service, tenant) <= UNIT
    ensures tenant != "" && tenant in service ==>
              0 <= ToInt64(Wrap64(service[tenant] * UNIT) / MaxService(service.Values)) <= UNIT
  {
    if tenant != "" && tenant in service {
      var served := service[tenant];
      assert served in service.Values;
      var most := MaxService(service.Values);
      SetMaximum(service.Values);
      assert served <= most;
      assert served * UNIT <= most * UNIT;
      assert Wrap64(served * UNIT) <= served * UNIT;
      QuotientBound(Wrap64(served * UNIT), most, UNIT);
    }
  }

  lemma {:induction false} DatasetTotalBound(vs: seq<View>, k: nat)
    requires k <= |vs|
    ensures 0 <= DatasetTotal(vs, k) <= DatasetCount(vs, k) * UNIT
  {
    if k > 0 {
      DatasetTotalBound(vs, k - 1);
    }
  }

  lemma CrossInRange(vs: seq<View>, ctx: Context, f: nat)
    requires ValidContext(ctx)
    ensures 0 <= Cross(vs, ctx, f) <= UNIT
  {
    DatasetTotalBound(vs, |vs|);
    if DatasetCount(vs, |vs|) > 0 {
      QuotientBound(DatasetTotal(vs, |vs|), DatasetCount(vs, |vs|), UNIT);
    }
  }

  // ---------------------------------------------------------------- the bound is admissible

  /** Sum of the additive scores of the selected resources. */
  function PartialTotal(vs: seq<View>, w: seq<int>): int
    requires |w| == FACTORS && forall i :: 0 <= i < |vs| ==> |vs[i].additive| == FACTORS
  {
    if vs == [] then 0
    else PartialTotal(vs[..|vs| - 1], w) + PartialScore(vs[|vs| - 1].additive, w, FACTORS)
  }

  /** The additive part of the first `k` factors, factor by factor. */
  function AdditivePart(vs: seq<View>, w: seq<int>, k: nat): int
    requires |w| == FACTORS && k <= FACTORS && forall i :: 0 <= i < |vs| ==> |vs[i].additive| == FACTORS
  {
    if k == 0 then 0
    else AdditivePart(vs, w, k - 1) + (if IsAdditive(k - 1) then AdditiveTotal(vs, k - 1) * w[k - 1] else 0)
  }

  lemma {:induction false} AdditivePartAppend(vs: seq<View>, v: View, w: seq<int>, k: nat)
    requires |w| == FACTORS && k <= FACTORS && |v.additive| == FACTORS
    requires forall i :: 0 <= i < |vs| ==> |vs[i].additive| == FACTORS
    ensures AdditivePart(vs + [v], w, k) == AdditivePart(vs, w, k) + PartialScore(v.additive, w, k)
  {
    if k > 0 {
      AdditivePartAppend(vs, v, w, k - 1);
      assert (vs + [v])[..|vs|] == vs;
      var t, a, x := AdditiveTotal(vs, k - 1), v.additive[k - 1], w[k - 1];
      assert AdditiveTotal(vs + [v], k - 1) == t + a;
      assert (t + a) * x == t * x + a * x;
    }
  }

  lemma {:induction false} AdditivePartEmpty(w: seq<int>, k: nat)
    requires |w| == FACTORS && k <= FACTORS
    ensures AdditivePart([], w, k) == 0
  {
    if k > 0 {
      AdditivePartEmpty(w, k - 1);
    }
  }

  /** Summing by factor and summing by resource agree. */
  lemma {:induction false} AdditivePartIsPartialTotal(vs: seq<View>, w: seq<int>)
    requires |w| == FACTORS && forall i :: 0 <= i < |vs| ==> |vs[i].additive| == FACTORS
    ensures AdditivePart(vs, w, FACTORS) == PartialTotal(vs, w)
  {
    if vs == [] {
      AdditivePartEmpty(w, FACTORS);
    } else {
      var n := |vs| - 1;
      AdditivePartIsPartialTotal(vs[..n], w);
      AdditivePartAppend(vs[..n], vs[n], w, FACTORS);
      assert vs == vs[..n] + [vs[n]];
    }
  }

  lemma WeightedBound(n: nat, c: int, w: int)
    requires 0 <= c <= UNIT && -1000 <= w <= 1000
    ensures n * c * w <= (if w > 0 then n * w * UNIT else 0)
    ensures -(n * 1000 * UNIT) <= n * c * w <= n * 1000 * UNIT
  {
    MulMonotone(n, 0, c);
    MulMonotone(n, c, UNIT);
    var p := n * c;
    assert 0 <= p <= n * UNIT;
    if w > 0 {
      MulMonotone(w, p, n * UNIT);
      assert w * (n * UNIT) == n * w * UNIT;
      MulMonotone(n * UNIT, w, 1000);
    } else {
      MulMonotone(-w, 0, p);
      MulMonotone(-w, p, n * UNIT);
      MulMonotone(n * UNIT, -w, 1000);
      assert (-w) * p == -(p * w);
    }
  }

  lemma {:induction false} RawBound(vs: seq<View>, ctx: Context, w: seq<int>, k: nat)
    requires ValidWeights(w) && ValidViews(vs) && ValidContext(ctx) && k <= FACTORS
    ensures RawScore(vs, ctx, w, k) <= AdditivePart(vs, w, k) + CrossBound(w, |vs|, k)
  {
    if k > 0 {
      RawBound(vs, ctx, w, k - 1);
      CrossInRange(vs, ctx, k - 1);
      WeightedBound(|vs|, Cross(vs, ctx, k - 1), w[k - 1]);
    }
  }

  /** Admissibility: a whole placement scores at most its partial scores plus `cross_bound`. */
  lemma BoundIsAdmissible(vs: seq<View>, ctx: Context, w: seq<int>)
    requires ValidWeights(w) && ValidViews(vs) && ValidContext(ctx)
    ensures RawScore(vs, ctx, w, FACTORS) <= PartialTotal(vs, w) + CrossBound(w, |vs|, FACTORS)
  {
    RawBound(vs, ctx, w, FACTORS);
    AdditivePartIsPartialTotal(vs, w);
  }

  // ---------------------------------------------------------------- no int64 overflow

  lemma {:induction false} AdditiveTotalRange(vs: seq<View>, f: nat)
    requires ValidViews(vs) && f < FACTORS
    ensures 0 <= AdditiveTotal(vs, f) <= |vs| * UNIT
  {
    if vs != [] {
      AdditiveTotalRange(vs[..|vs| - 1], f);
    }
  }

  lemma ProductRange(t: int, w: int, n: nat)
    requires 0 <= t <= n * UNIT && -1000 <= w <= 1000
    ensures -(n * 1000 * UNIT) <= t * w <= n * 1000 * UNIT
  {
    if w > 0 {
      MulMonotone(w, t, n * UNIT);
      MulMonotone(n * UNIT, w, 1000);
    } else {
      MulMonotone(-w, t, n * UNIT);
      MulMonotone(n * UNIT, -w, 1000);
      assert (-w) * t == -(t * w);
    }
  }

  /** Every running value of the scoring loop is at most `k` factors of 10^9 per resource. */
  lemma {:induction false} RawRange(vs: seq<View>, ctx: Context, w: seq<int>, k: nat)
    requires ValidWeights(w) && ValidViews(vs) && ValidContext(ctx) && k <= FACTORS
    ensures -(k * |vs| * 1000 * UNIT) <= RawScore(vs, ctx, w, k) <= k * |vs| * 1000 * UNIT
  {
    if k > 0 {
      RawRange(vs, ctx, w, k - 1);
      AdditiveTotalRange(vs, k - 1);
      ProductRange(AdditiveTotal(vs, k - 1), w[k - 1], |vs|);
      CrossInRange(vs, ctx, k - 1);
      WeightedBound(|vs|, Cross(vs, ctx, k - 1), w[k - 1]);
      var m := |vs| * 1000 * UNIT;
      assert k * m == (k - 1) * m + m;
      assert k * |vs| * 1000 * UNIT == k * m && (k - 1) * |vs| * 1000 * UNIT == (k - 1) * m;
    }
  }

  function AdditiveFactorsBelow(k: nat): nat {
    if k == 0 then 0 else AdditiveFactorsBelow(k - 1) + (if IsAdditive(k - 1) then 1 else 0)
  }

  lemma {:induction false} PartialRange(a: seq<int>, w: seq<int>, k: nat)
    requires ValidWeights(w) && ValidAdditive(a) && k <= FACTORS
    ensures -(AdditiveFactorsBelow(k) * 1000 * UNIT) <= PartialScore(a, w, k) <= AdditiveFactorsBelow(k) * 1000 * UNIT
  {
    if k > 0 {
      PartialRange(a, w, k - 1);
      ProductRange(a[k - 1], w[k - 1], 1);
    }
  }

  lemma {:induction false} CrossBoundRange(w: seq<int>, n: nat, k: nat)
    requires ValidWeights(w) && k <= FACTORS
    ensures 0 <= CrossBound(w, n, k) <= (k - AdditiveFactorsBelow(k)) * n * 1000 * UNIT
  {
    if k > 0 {
      CrossBoundRange(w, n, k - 1);
      OneMoreFactor(k - 1 - AdditiveFactorsBelow(k - 1), n);
      if w[k - 1] > 0 {
        PositiveTerm(n, w[k - 1]);
      }
    }
  }

  lemma OneMoreFactor(c: int, n: nat)
    ensures (c + 1) * n * 1000 * UNIT == c * n * 1000 * UNIT + n * 1000 * UNIT
  {
    assert (c + 1) * n == c * n + n;
  }

  lemma PositiveTerm(n: nat, w: int)
    requires 0 < w <= 1000
    ensures 0 <= n * w * UNIT <= n * 1000 * UNIT
  {
    MulMonotone(n, w, 1000);
    MulMonotone(n, 0, w);
  }

  /** For at most 16 requirements raw scores, partial sums and pruning expressions stay within
      12 * 16 * 10^9, far inside a signed 64-bit integer. */
  lemma ScoresFitInt64(vs: seq<View>, ctx: Context, w: seq<int>, parts: seq<seq<int>>)
    requires ValidWeights(w) && ValidViews(vs) && ValidContext(ctx) && |vs| <= 16 && |parts| <= 16
    requires forall i :: 0 <= i < |parts| ==> |parts[i]| == FACTORS && ValidAdditive(parts[i])
    ensures -192000000000 <= RawScore(vs, ctx, w, FACTORS) <= 192000000000
    ensures -192000000000 <= PartsTotal(parts, w) <= 192000000000
    ensures -192000000000 <= PartsTotal(parts, w) + CrossBound(w, 16, FACTORS) <= 192000000000
    ensures 192000000000 < TWO_63
  {
    RawRange(vs, ctx, w, FACTORS);
    PartsRange(parts, w);
    CrossBoundRange(w, 16, FACTORS);
    assert AdditiveFactorsBelow(FACTORS) == 7 by {
      assert AdditiveFactorsBelow(4) == 3;
      assert AdditiveFactorsBelow(8) == 5;
    }
  }

  function PartsTotal(parts: seq<seq<int>>, w: seq<int>): int
    requires |w| == FACTORS && forall i :: 0 <= i < |parts| ==> |parts[i]| == FACTORS
  {
    if parts == [] then 0 else PartsTotal(parts[..|parts| - 1], w) + PartialScore(parts[|parts| - 1], w, FACTORS)
  }

  lemma {:induction false} PartsRange(parts: seq<seq<int>>, w: seq<int>)
    requires ValidWeights(w) && forall i :: 0 <= i < |parts| ==> |parts[i]| == FACTORS && ValidAdditive(parts[i])
    ensures -(|parts| * 7000 * UNIT) <= PartsTotal(parts, w) <= |parts| * 7000 * UNIT
  {
    if parts != [] {
      PartsRange(parts[..|parts| - 1], w);
      PartialRange(parts[|parts| - 1], w, FACTORS);
      assert AdditiveFactorsBelow(FACTORS) == 7 by {
        assert AdditiveFactorsBelow(4) == 3;
        assert AdditiveFactorsBelow(8) == 5;
      }
    }
  }

  // ---------------------------------------------------------------- scoring as the source runs it

  lemma CountAppend(ids: seq<U64>, k: nat, id: U64)
    requires k < |ids|
    ensures Count(ids[..k + 1], id) == Count(ids[..k], id) + (if ids[k] == id then 1 else 0)
    ensures Dominant(ids[..k + 1])
         == Max(Dominant(ids[..k]), if ids[k] == 0 then 1 else Count(ids[..k + 1], ids[k]))
  {
    assert ids[..k + 1][..k] == ids[..k];
  }

  /** Counts known and UNKNOWN domains with a map of shares. */
  method CountDomains(ids: seq<U64>) returns (spread: nat, dominant: nat)
    ensures spread == Spread(ids) && dominant == Dominant(ids)
  {
    var shares: map<U64, nat> := map[];
    var unknown := 0;
    dominant := 0;
    for k := 0 to |ids|
      invariant shares.Keys == set id | id in ids[..k] && id != 0
      invariant forall id :: id in shares ==> shares[id] == Count(ids[..k], id)
      invariant unknown == Count(ids[..k], 0)
      invariant dominant == Dominant(ids[..k])
    {
      var id := ids[k];
      CountAppend(ids, k, id);
      CountAppend(ids, k, 0);
      assert ids[..k + 1] == ids[..k] + [id];
      if id == 0 {
        unknown := unknown + 1;
        dominant := Max(dominant, 1);
      } else {
        if id !in shares {
          CountAbsent(ids[..k], id);
        }
        var share := (if id in shares then shares[id] else 0) + 1;
        forall other | other in shares && other != id
          ensures Count(ids[..k + 1], other) == shares[other]
        {
          CountAppend(ids, k, other);
        }
        shares := shares[id := share];
        dominant := Max(dominant, share);
      }
    }
    assert ids[..|ids|] == ids;
    spread := |shares.Keys| + unknown;
  }

  lemma {:induction false} CountAbsent(ids: seq<U64>, id: U64)
    requires id !in ids
    ensures Count(ids, id) == 0
  {
    if ids != [] {
      CountAbsent(ids[..|ids| - 1], id);
    }
  }

  method ScoreDatasets(vs: seq<View>) returns (locality: int)
    ensures locality == DatasetLocality(vs)
  {
    var total, datasets := 0, 0;
    for i := 0 to |vs|
      invariant total == DatasetTotal(vs, i) && datasets == DatasetCount(vs, i)
    {
      if vs[i].dataset {
        var colocated := false;
        var j := 0;
        while j < |vs| && !colocated
          invariant j <= |vs|
          invariant colocated <==>
            exists k :: 0 <= k < j && k != i && !vs[k].dataset && vs[k].host != 0 && vs[k].host == vs[i].host
        {
          colocated := j != i && !vs[j].dataset && vs[j].host != 0 && vs[j].host == vs[i].host;
          j := j + 1;
        }
        assert colocated <==> Colocated(vs, i);
        datasets := datasets + 1;
        total := total + (if colocated then UNIT else if vs[i].local then UNIT / 2 else UNIT / 4);
      }
    }
    locality := if datasets == 0 then UNIT else total / datasets;
  }

  method MostServed(service: map<string, nat>) returns (most: nat)
    ensures most == MaxService(service.Values)
  {
    most := 1;
    var rest := service.Keys;
    while rest != {}
      invariant rest <= service.Keys && most >= 1
      invariant forall t :: t in service && t !in rest ==> service[t] <= most
      invariant most == 1 || most in service.Values
    {
      var t :| t in rest;
      rest := rest - {t};
      most := Max(most, service[t]);
    }
    MaxServiceIs(service.Values, most);
  }

  method ScoreFairness(service: map<string, nat>, tenant: string) returns (fairness: int)
    ensures fairness == Fairness(service, tenant)
  {
    if tenant == "" {
      return UNIT;
    }
    var served := if tenant in service then service[tenant] else 0;
    var most := MostServed(service);
    fairness := ClampUnit(UNIT - ToInt64(Wrap64(served * UNIT) / most));
  }

  lemma MaxServiceIs(values: set<nat>, most: nat)
    requires forall v :: v in values ==> v <= most
    requires most >= 1 && (most == 1 || most in values)
    ensures MaxService(values) == most
  {
    if values != {} {
      SetMaximum(values);
    }
  }

  lemma AdditiveTotalAppend(vs: seq<View>, i: nat, f: nat)
    requires i < |vs| && f < FACTORS && forall k :: 0 <= k < |vs| ==> |vs[k].additive| == FACTORS
    ensures AdditiveTotal(vs[..i + 1], f) == AdditiveTotal(vs[..i], f) + vs[i].additive[f]
  {
    assert vs[..i + 1][..i] == vs[..i];
  }

  /** Accumulates the additive totals of the selection in an array of factors. */
  method SumAdditive(vs: seq<View>) returns (totals: array<int>)
    requires forall k :: 0 <= k < |vs| ==> |vs[k].additive| == FACTORS
    ensures fresh(totals) && totals.Length == FACTORS
    ensures forall f :: 0 <= f < FACTORS ==> totals[f] == AdditiveTotal(vs, f)
  {
    totals := new int[FACTORS](i => 0);
    for i := 0 to |vs|
      invariant forall f :: 0 <= f < FACTORS ==> totals[f] == AdditiveTotal(vs[..i], f)
    {
      for f := 0 to FACTORS
        invariant forall g :: 0 <= g < f ==> totals[g] == AdditiveTotal(vs[..i + 1], g)
        invariant forall g :: f <= g < FACTORS ==> totals[g] == AdditiveTotal(vs[..i], g)
      {
        AdditiveTotalAppend(vs, i, f);
        totals[f] := totals[f] + vs[i].additive[f];
      }
    }
    assert vs[..|vs|] == vs;
  }

  /** The cross factors of a selection; the entries of the additive factors stay zero. */
  method CrossFactors(vs: seq<View>, service: map<string, nat>, tenant: string, priority: int)
    returns (cross: array<int>)
    ensures fresh(cross) && cross.Length == FACTORS
    ensures var ctx := Context(Fairness(service, tenant), PriorityFactor(priority));
            forall g :: 0 <= g < FACTORS && !IsAdditive(g) ==> cross[g] == Cross(vs, ctx, g)
  {
    hide Fairness, DatasetLocality, Spread, Dominant;
    var hosts: int, share: int := CountDomains(Hosts(vs));
    var racks: int, _ := CountDomains(Racks(vs));
    var clusters: int, _ := CountDomains(Clusters(vs));
    var fairness := ScoreFairness(service, tenant);
    var datasets := ScoreDatasets(vs);
    cross := new int[FACTORS](i => 0);
    cross[0] := if |vs| > 1 then ClampUnit((share - 1) * UNIT / (|vs| - 1)) else UNIT;
    cross[5] := datasets;
    cross[7] := ClampUnit(UNIT - (hosts - 1) * 250000 - (racks - 1) * 125000 - (clusters - 1) * 62500);
    cross[10] := fairness;
    cross[11] := ClampUnit((priority + 1000) * UNIT / 2000);
  }

  /** score_candidate. */
  method ScoreCandidate(vs: seq<View>, service: map<string, nat>, tenant: string, priority: int, w: seq<int>)
    returns (raw: int)
    requires |w| == FACTORS && forall i :: 0 <= i < |vs| ==> |vs[i].additive| == FACTORS
    ensures raw == RawScore(vs, Context(Fairness(service, tenant), PriorityFactor(priority)), w, FACTORS)
  {
    hide Cross, AdditiveTotal, RawScore, Fairness, PriorityFactor, IsAdditive;
    var totals := SumAdditive(vs);
    var cross := CrossFactors(vs, service, tenant, priority);
    ghost var ctx := Context(Fairness(service, tenant), PriorityFactor(priority));
    raw := WeighFactors(totals[..], cross[..], |vs|, w, vs, ctx);
  }

  method WeighFactors(totals: seq<int>, cross: seq<int>, n: nat, w: seq<int>, ghost vs: seq<View>, ghost ctx: Context)
    returns (raw: int)
    requires |w| == |totals| == |cross| == FACTORS && n == |vs|
    requires forall i :: 0 <= i < |vs| ==> |vs[i].additive| == FACTORS
    requires forall g :: 0 <= g < FACTORS ==> totals[g] == AdditiveTotal(vs, g)
    requires forall g :: 0 <= g < FACTORS && !IsAdditive(g) ==> cross[g] == Cross(vs, ctx, g)
    ensures raw == RawScore(vs, ctx, w, FACTORS)
  {
    raw := 0;
    for f := 0 to FACTORS
      invariant raw == RawScore(vs, ctx, w, f)
    {
      raw := raw + (if IsAdditive(f) then totals[f] * w[f] else n * cross[f] * w[f]);
    }
  }

  method ComputeCrossBound(w: seq<int>, n: nat) returns (bound: int)
    requires |w| == FACTORS
    ensures bound == CrossBound(w, n, FACTORS)
  {
    bound := 0;
    for f := 0 to FACTORS
      invariant bound == CrossBound(w, n, f)
    {
      if !IsAdditive(f) && w[f] > 0 {
        bound := bound + n * w[f] * UNIT;
      }
    }
  }
}
