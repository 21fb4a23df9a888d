/** The reservation ledger: what active claims hold on each resource, and how releasing and acquiring
    claims moves the mirrored counters (src/engine_state.cpp:53-73, src/engine_accounting.cpp:13-32,
    src/engine_scheduling.cpp:1144-1175). */
module Ledger {
  import opened Prelude
  import opened Records
  import opened Search
  import opened Planning
  import opened Transitions

  // ---------------------------------------------------------------- sums over finite sets

  ghost function SumOver(keys: set<U64>, f: U64 -> nat): nat {
    if keys == {} then 0
    else
      var k :| k in keys;
      f(k) + SumOver(keys - {k}, f)
  }

  lemma {:induction false} SumSplit(keys: set<U64>, f: U64 -> nat, k: U64)
    requires k in keys
    ensures SumOver(keys, f) == f(k) + SumOver(keys - {k}, f)
  {
    var j :| j in keys && SumOver(keys, f) == f(j) + SumOver(keys - {j}, f);
    if j != k {
      SumSplit(keys - {j}, f, k);
      SumSplit(keys - {k}, f, j);
      assert keys - {j} - {k} == keys - {k} - {j};
    }
  }

  lemma {:induction false} SumCongruent(keys: set<U64>, f: U64 -> nat, g: U64 -> nat)
    requires forall k :: k in keys ==> f(k) == g(k)
    ensures SumOver(keys, f) == SumOver(keys, g)
  {
    if keys != {} {
      var k :| k in keys;
      SumSplit(keys, f, k);
      SumSplit(keys, g, k);
      SumCongruent(keys - {k}, f, g);
    }
  }

  lemma {:induction false} SumAtLeast(keys: set<U64>, f: U64 -> nat, k: U64)
    requires k in keys
    ensures f(k) <= SumOver(keys, f)
  {
    SumSplit(keys, f, k);
  }

  lemma {:induction false} SumZero(keys: set<U64>, f: U64 -> nat)
    requires forall k :: k in keys ==> f(k) == 0
    ensures SumOver(keys, f) == 0
  {
    if keys != {} {
      var k :| k in keys;
      SumSplit(keys, f, k);
      SumZero(keys - {k}, f);
    }
  }

  /** Keys that contribute nothing may be left out. */
  lemma {:induction false} SumRestrict(keys: set<U64>, part: set<U64>, f: U64 -> nat)
    requires part <= keys && forall k :: k in keys - part ==> f(k) == 0
    ensures SumOver(keys, f) == SumOver(part, f)
  {
    hide SumOver;
    if keys != part {
      assert keys - part != {} by {
        assert keys == part + (keys - part);
      }
      var k :| k in keys - part;
      SumSplit(keys, f, k);
      SumRestrict(keys - {k}, part, f);
    }
  }

  // ---------------------------------------------------------------- claims

  /** Slots a list of claims holds on one resource. */
  function ClaimSlots(claims: seq<Claim>, resource: U64): nat {
    if claims == [] then 0
    else ClaimSlots(claims[..|claims| - 1], resource)
         + (if claims[|claims| - 1].resource == resource then claims[|claims| - 1].slots else 0)
  }

  function Held(rv: Reservation, resource: U64): nat {
    if rv.state.Active? then ClaimSlots(rv.claims, resource) else 0
  }

  function HeldBy(reservations: map<U64, Reservation>, resource: U64): U64 -> nat {
    (v: U64) => if v in reservations then Held(reservations[v], resource) else 0
  }

  /** Slots all active reservations hold on one resource. */
  ghost function Claimed(reservations: map<U64, Reservation>, resource: U64): nat {
    SumOver(reservations.Keys, HeldBy(reservations, resource))
  }

  lemma ClaimedUpdate(reservations: map<U64, Reservation>, v: U64, rv: Reservation, resource: U64)
    requires v in reservations
    ensures Claimed(reservations[v := rv], resource) + Held(reservations[v], resource)
         == Claimed(reservations, resource) + Held(rv, resource)
  {
    var after := reservations[v := rv];
    var f, g := HeldBy(reservations, resource), HeldBy(after, resource);
    assert after.Keys == reservations.Keys;
    SumSplit(reservations.Keys, f, v);
    SumSplit(reservations.Keys, g, v);
    SumCongruent(reservations.Keys - {v}, f, g);
  }

  lemma ClaimedInsert(reservations: map<U64, Reservation>, v: U64, rv: Reservation, resource: U64)
    requires v !in reservations
    ensures Claimed(reservations[v := rv], resource) == Claimed(reservations, resource) + Held(rv, resource)
  {
    var after := reservations[v := rv];
    var f, g := HeldBy(reservations, resource), HeldBy(after, resource);
    assert after.Keys - {v} == reservations.Keys;
    SumSplit(after.Keys, g, v);
    SumCongruent(reservations.Keys, f, g);
  }

  lemma HeldIsClaimed(reservations: map<U64, Reservation>, v: U64, resource: U64)
    requires v in reservations
    ensures Held(reservations[v], resource) <= Claimed(reservations, resource)
  {
    SumAtLeast(reservations.Keys, HeldBy(reservations, resource), v);
  }

  /** Two different reservations' claims on a resource add up within the ledger. */
  lemma TwoHeldAreClaimed(reservations: map<U64, Reservation>, v: U64, w: U64, resource: U64)
    requires v in reservations && w in reservations && v != w
    ensures Held(reservations[v], resource) + Held(reservations[w], resource) <= Claimed(reservations, resource)
  {
    var f := HeldBy(reservations, resource);
    SumSplit(reservations.Keys, f, v);
    SumAtLeast(reservations.Keys - {v}, f, w);
  }

  lemma {:induction false} ClaimSlotsOfMember(claims: seq<Claim>, i: nat)
    requires i < |claims|
    ensures claims[i].slots <= ClaimSlots(claims, claims[i].resource)
  {
    var n := |claims| - 1;
    if i < n {
      ClaimSlotsOfMember(claims[..n], i);
    }
  }

  lemma {:induction false} ClaimSlotsAbsent(claims: seq<Claim>, resource: U64)
    requires forall c :: c in claims ==> c.resource != resource
    ensures ClaimSlots(claims, resource) == 0
  {
    if claims != [] {
      ClaimSlotsAbsent(claims[..|claims| - 1], resource);
    }
  }

  // ---------------------------------------------------------------- releasing

  /** When every resource holds at least what the list claims on it, releasing subtracts exactly the
      claims: the clamp never acts, and nothing else of any record changes. */
  lemma {:induction false} ReleaseExact(resources: map<U64, Resource>, claims: seq<Claim>)
    requires forall id :: id in resources ==> ClaimSlots(claims, id) <= resources[id].reserved
    ensures var after := ReleaseClaims(resources, claims);
            after.Keys == resources.Keys
            && forall id :: id in resources ==>
                 after[id] == resources[id].(reserved := resources[id].reserved - ClaimSlots(claims, id))
  {
    if claims != [] {
      var n := |claims| - 1;
      assert forall id :: id in resources ==> ClaimSlots(claims[..n], id) <= ClaimSlots(claims, id);
      ReleaseExact(resources, claims[..n]);
    }
  }

  // ---------------------------------------------------------------- acquiring

  /** Room for every candidate of a selection of distinct resources. */
  ghost predicate RoomFor(resources: map<U64, Resource>, sel: Selection) {
    && (forall i :: 0 <= i < |sel| ==> sel[i].id in resources && RoomAt(resources[sel[i].id], sel[i]))
    && (forall i, j :: 0 <= i < j < |sel| ==> sel[i].id != sel[j].id)
  }

  ghost predicate RoomAt(r: Resource, c: Candidate) {
    r.reserved + c.slots <= r.ad.slots
  }

  function SelectionSlots(sel: Selection, resource: U64): nat {
    if sel == [] then 0
    else SelectionSlots(sel[..|sel| - 1], resource)
         + (if sel[|sel| - 1].id == resource then sel[|sel| - 1].slots else 0)
  }

  lemma {:induction false} SelectionSlotsAbsent(sel: Selection, resource: U64)
    requires forall i :: 0 <= i < |sel| ==> sel[i].id != resource
    ensures SelectionSlots(sel, resource) == 0
  {
    if sel != [] {
      SelectionSlotsAbsent(sel[..|sel| - 1], resource);
    }
  }

  ghost predicate Added(before: map<U64, Resource>, after: map<U64, Resource>, sel: Selection) {
    after.Keys == before.Keys
    && forall id :: id in before ==>
         before[id].reserved + SelectionSlots(sel, id) < TWO_32
         && after[id] == before[id].(reserved := before[id].reserved + SelectionSlots(sel, id))
  }

  lemma AcquireOneExact(mid: map<U64, Resource>, c: Candidate)
    requires c.id in mid && RoomAt(mid[c.id], c)
    ensures AcquireOne(mid, c) == Acquired(mid[c.id := mid[c.id].(reserved := mid[c.id].reserved + c.slots)])
  {
    var r := mid[c.id];
    assert Wrap32(r.ad.slots - c.slots) == r.ad.slots - c.slots;
    assert Wrap32(r.reserved + c.slots) == r.reserved + c.slots;
  }

  lemma SelectionSlotsAppend(sel: Selection, c: Candidate, id: U64)
    ensures SelectionSlots(sel + [c], id) == SelectionSlots(sel, id) + (if c.id == id then c.slots else 0)
  {
    assert (sel + [c])[..|sel|] == sel;
  }

  lemma AcquireStep(resources: map<U64, Resource>, mid: map<U64, Resource>, sel: Selection, c: Candidate)
    requires Added(resources, mid, sel) && c.id in resources && RoomAt(resources[c.id], c)
    requires SelectionSlots(sel, c.id) == 0
    ensures AcquireOne(mid, c).Acquired?
    ensures Added(resources, AcquireOne(mid, c).resources, sel + [c])
  {
    assert mid[c.id] == resources[c.id];
    AcquireOneExact(mid, c);
    var after := AcquireOne(mid, c).resources;
    forall id | id in resources
      ensures resources[id].reserved + SelectionSlots(sel + [c], id) < TWO_32
      ensures after[id] == resources[id].(reserved := resources[id].reserved + SelectionSlots(sel + [c], id))
    {
      SelectionSlotsAppend(sel, c, id);
    }
  }

  /** The commit loop cannot fail half-way: with room in the pre-state and distinct resources, every
      iteration succeeds and the counters grow by exactly the selected slots. */
  lemma {:induction false} AcquireExact(resources: map<U64, Resource>, sel: Selection)
    requires RoomFor(resources, sel)
    ensures Acquire(resources, sel).Acquired?
    ensures Added(resources, Acquire(resources, sel).resources, sel)
  {
    if sel != [] {
      var n := |sel| - 1;
      AcquireExact(resources, sel[..n]);
      SelectionSlotsAbsent(sel[..n], sel[n].id);
      AcquireStep(resources, Acquire(resources, sel[..n]).resources, sel[..n], sel[n]);
      assert sel == sel[..n] + [sel[n]];
    }
  }

  lemma {:induction false} ClaimListSlots(s: State, sel: Selection, resource: U64)
    requires Found(s, sel)
    ensures ClaimSlots(ClaimList(s, sel), resource) == SelectionSlots(sel, resource)
  {
    if sel != [] {
      var n := |sel| - 1;
      ClaimListSlots(s, sel[..n], resource);
      assert ClaimList(s, sel)[..n] == ClaimList(s, sel[..n]);
    }
  }
}
