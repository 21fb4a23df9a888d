/** Recovery is total: the export of every consistent state is sound, importing it into a vacant engine
    succeeds, and the recovered engine is consistent again with no live placement, no active reservation
    and no reserved slot, issuing only identities it has never seen. */
module Recovery {
  import opened Prelude
  import opened Records
  import opened Planning
  import opened Transitions
  import opened Ledger
  import opened Invariants
  import opened Durability

  // ---------------------------------------------------------------- listing a map

  lemma {:induction false} SortedKeysAscend(ids: set<U64>)
    ensures Ascending(SortedKeys(ids))
  {
    hide SortedKeys;
    if ids == {} {
      SortedKeysNone();
    } else {
      var m := SortedKeysHead(ids);
      var rest := SortedKeys(ids - {m});
      SortedKeysAscend(ids - {m});
      forall k | 0 <= k < |rest| ensures m < rest[k] {
        SortedKeysExact(ids - {m}, rest[k]);
      }
    }
  }

  lemma SortedKeysNone()
    ensures SortedKeys({}) == []
  {
  }

  /** The listing of a map: one value per key, in the order of the keys. */
  lemma {:induction false} ValuesAtExact<V>(m: map<U64, V>, ids: seq<U64>)
    requires forall k :: k in ids ==> k in m
    ensures |ValuesAt(m, ids)| == |ids|
    ensures forall i :: 0 <= i < |ids| ==> ValuesAt(m, ids)[i] == m[ids[i]]
  {
    if ids != [] {
      ValuesAtExact(m, ids[..|ids| - 1]);
    }
  }

  lemma ValuesExact<V>(m: map<U64, V>)
    ensures |Values(m)| == |SortedKeys(m.Keys)|
    ensures forall i :: 0 <= i < |Values(m)| ==> SortedKeys(m.Keys)[i] in m && Values(m)[i] == m[SortedKeys(m.Keys)[i]]
    ensures forall k :: k in m ==> m[k] in Values(m)
    ensures forall v :: v in Values(m) ==> exists k :: k in m && m[k] == v
  {
    var ids := SortedKeys(m.Keys);
    forall k ensures k in ids <==> k in m { SortedKeysExact(m.Keys, k); }
    ValuesAtExact(m, ids);
    forall k | k in m ensures m[k] in Values(m) {
      var i :| 0 <= i < |ids| && ids[i] == k;
      assert Values(m)[i] == m[k];
    }
    forall v | v in Values(m) ensures exists k :: k in m && m[k] == v {
      var i :| 0 <= i < |ids| && Values(m)[i] == v;
      assert ids[i] in m;
    }
  }

  ghost predicate FiledBy<V>(m: map<U64, V>, id: V -> U64) {
    forall k :: k in m ==> k != 0 && id(m[k]) == k
  }

  lemma ValuesUnique<V>(m: map<U64, V>, id: V -> U64)
    requires FiledBy(m, id)
    ensures Unique(Values(m), id) && IdsOf(Values(m), id) == m.Keys && |Values(m)| == |m|
  {
    ValuesExact(m);
    SortedKeysAscend(m.Keys);
    SortedKeysCount(m.Keys);
    forall k | k in m ensures k in IdsOf(Values(m), id) {
      assert m[k] in Values(m);
    }
  }

  lemma {:induction false} SortedKeysCount(ids: set<U64>)
    ensures |SortedKeys(ids)| == |ids|
  {
    hide SortedKeys;
    if ids == {} {
      SortedKeysNone();
    } else {
      var m := SortedKeysHead(ids);
      SortedKeysCount(ids - {m});
    }
  }

  // ---------------------------------------------------------------- restoring a listing

  /** Emplacing distinct records rebuilds the map: every emplace inserts. */
  lemma {:induction false} EmplacedExact<V>(xs: seq<V>, id: V -> U64, restore: V -> V)
    requires Unique(xs, id)
    ensures var m := Emplaced(map[], xs, id, restore);
            m.Keys == IdsOf(xs, id) && forall i :: 0 <= i < |xs| ==> m[id(xs[i])] == restore(xs[i])
  {
    if xs != [] {
      var n := |xs| - 1;
      EmplacedExact(xs[..n], id, restore);
      assert xs == xs[..n] + [xs[n]];
      var before := Emplaced(map[], xs[..n], id, restore);
      assert id(xs[n]) !in before;
      assert IdsOf(xs, id) == IdsOf(xs[..n], id) + {id(xs[n])};
    }
  }

  lemma RestoreListing<V>(m: map<U64, V>, id: V -> U64, restore: V -> V)
    requires FiledBy(m, id)
    ensures Emplaced(map[], Values(m), id, restore) == map k | k in m :: restore(m[k])
  {
    hide Values, Emplaced, Unique, IdsOf;
    ValuesUnique(m, id);
    EmplacedExact(Values(m), id, restore);
    ListedIndex(m);
    var after := Emplaced(map[], Values(m), id, restore);
    forall k | k in m ensures after[k] == restore(m[k]) {
      var i :| 0 <= i < |Values(m)| && Values(m)[i] == m[k];
    }
  }

  lemma ListedIndex<V>(m: map<U64, V>)
    ensures forall k :: k in m ==> exists i :: 0 <= i < |Values(m)| && Values(m)[i] == m[k]
  {
    hide Values;
    ValuesExact(m);
    forall k | k in m ensures exists i :: 0 <= i < |Values(m)| && Values(m)[i] == m[k] {
      assert m[k] in Values(m);
    }
  }

  // ---------------------------------------------------------------- the export is sound

  function Members(ids: seq<U64>): set<U64> { set k | k in ids }

  /** Listing the reservations does not change what they hold. */
  lemma {:induction false} ActiveTotalAt(rs: map<U64, Reservation>, ids: seq<U64>, resource: U64)
    requires (forall k :: k in ids ==> k in rs) && Ascending(ids)
    ensures ActiveTotal(ValuesAt(rs, ids), resource) == SumOver(Members(ids), HeldBy(rs, resource))
  {
    hide Held, SumOver, Members;
    var f := HeldBy(rs, resource);
    if ids == [] {
      assert Members(ids) == {} by { NoMembers(); }
      SumZero(Members(ids), f);
    } else {
      var n := |ids| - 1;
      ActiveTotalAt(rs, ids[..n], resource);
      LastMember(ids);
      SumSplit(Members(ids), f, ids[n]);
      assert ValuesAt(rs, ids)[..|ValuesAt(rs, ids)| - 1] == ValuesAt(rs, ids[..n]);
    }
  }

  lemma NoMembers()
    ensures Members([]) == {}
  {
  }

  lemma LastMember(ids: seq<U64>)
    requires Ascending(ids) && ids != []
    ensures var last := ids[|ids| - 1]; last in Members(ids) && Members(ids) - {last} == Members(ids[..|ids| - 1])
  {
    var n := |ids| - 1;
    assert ids == ids[..n] + [ids[n]];
  }

  lemma SortedKeysMembers(ids: set<U64>)
    ensures Members(SortedKeys(ids)) == ids
  {
    hide SortedKeys;
    forall k ensures k in SortedKeys(ids) <==> k in ids { SortedKeysExact(ids, k); }
  }

  lemma ActiveTotalExact(rs: map<U64, Reservation>, resource: U64)
    ensures ActiveTotal(Values(rs), resource) == Claimed(rs, resource)
  {
    hide SortedKeys, ActiveTotal, SumOver, ValuesAt, Ascending;
    var ids := SortedKeys(rs.Keys);
    SortedKeysAscend(rs.Keys);
    SortedKeysMembers(rs.Keys);
    assert forall k :: k in ids ==> k in Members(ids);
    ActiveTotalAt(rs, ids, resource);
  }

  lemma ResourceIsValid(limits: Limits, s: State, id: U64)
    requires Inv(limits, s) && id in s.resources
    ensures ValidResource(s.resources[id]) && s.resources[id].reserved <= s.resources[id].ad.slots
  {
    hide ValidAdvertisement, Filed, Linked, Grounded, Numbered, Indexed, Recorded, Claimed;
    assert Trusted(s.resources[id]);
    assert TotalOccupancy(s.resources[id]) == s.resources[id].ad.occupancy + s.resources[id].reserved;
  }

  lemma PlacementIsSound(limits: Limits, s: State, id: U64)
    requires Inv(limits, s) && id in s.placements
    ensures SoundPlacement(s.placements[id], s.requests.Keys, s.resources.Keys)
  {
    hide Inv;
    PlacementFacts(limits, s, id);
  }

  lemma ReservationIsSound(limits: Limits, s: State, v: U64)
    requires Inv(limits, s) && v in s.reservations
    ensures SoundReservation(s.reservations[v], s.placements.Keys, s.resources.Keys)
  {
    hide Filed, Balanced, Authority, Indexed, Recorded;
    var rv := s.reservations[v];
    var p := s.placements[rv.placement];
    assert Bound(rv.placement, p, s.reservations[p.reservation]);
    assert WellFounded(p, s.resources.Keys, s.requests);
    forall c | c in rv.claims ensures c.resource in s.resources && c.slots != 0 {
      var i :| 0 <= i < |rv.claims| && rv.claims[i] == c;
      assert p.resources[i].resource == c.resource;
    }
  }

  ghost predicate Storable(limits: Limits, s: State) {
    && |s.resources| <= limits.maxPersistenceRecords && |s.requests| <= limits.maxPersistenceRecords
    && |s.placements| <= limits.maxPersistenceRecords && |s.reservations| <= limits.maxPersistenceRecords
  }

  lemma InvFiled(limits: Limits, s: State)
    requires Inv(limits, s)
    ensures FiledBy(s.resources, ResourceId) && FiledBy(s.requests, RequestId)
    ensures FiledBy(s.placements, PlacementId) && FiledBy(s.reservations, ReservationId)
  {
    hide Linked, Grounded, Balanced, Authority, Indexed, Recorded;
  }

  lemma BalancedExport(limits: Limits, s: State, r: Resource)
    requires Inv(limits, s) && r in Values(s.resources)
    ensures ValidResource(r) && r.reserved == ActiveTotal(Values(s.reservations), r.ad.id) && r.reserved <= r.ad.slots
  {
    hide ValidResource, Linked, Grounded, Numbered, Indexed, Recorded, Claimed, Authority, Values;
    ValuesExact(s.resources);
    var k :| k in s.resources && s.resources[k] == r;
    ResourceIsValid(limits, s, k);
    ActiveTotalExact(s.reservations, k);
  }

  lemma RequestIsValid(limits: Limits, s: State, q: StoredRequest)
    requires Inv(limits, s) && q in Values(s.requests)
    ensures ValidRequest(q.request, limits)
  {
    hide ValidRequest, Linked, Grounded, Numbered, Indexed, Balanced, Authority, Filed, Values;
    ValuesExact(s.requests);
  }

  /** Resources and requests of an export are sound one by one. */
  lemma ExportedInventory(limits: Limits, s: State, d: Durable)
    requires Inv(limits, s) && d == Export(limits, s)
    ensures Unique(d.resources, ResourceId) && Unique(d.requests, RequestId)
    ensures forall r :: r in d.resources ==> ValidResource(r)
    ensures forall r :: r in d.resources ==>
              r.reserved == ActiveTotal(d.reservations, r.ad.id) && r.reserved <= r.ad.slots
    ensures forall q :: q in d.requests ==> ValidRequest(q.request, limits)
  {
    hide Inv, ValidResource, ValidRequest, Values, Unique, ActiveTotal;
    InvFiled(limits, s);
    ValuesUnique(s.resources, ResourceId);
    ValuesUnique(s.requests, RequestId);
    forall r | r in d.resources
      ensures ValidResource(r) && r.reserved == ActiveTotal(d.reservations, r.ad.id) && r.reserved <= r.ad.slots
    {
      BalancedExport(limits, s, r);
    }
    forall q | q in d.requests ensures ValidRequest(q.request, limits) {
      RequestIsValid(limits, s, q);
    }
  }

  /** So are its placements, by the identities it lists. */
  lemma ExportedPlacements(limits: Limits, s: State, d: Durable)
    requires Inv(limits, s) && d == Export(limits, s)
    ensures Unique(d.placements, PlacementId)
    ensures forall p :: p in d.placements ==>
              SoundPlacement(p, IdsOf(d.requests, RequestId), IdsOf(d.resources, ResourceId))
  {
    hide Inv, SoundPlacement, Values, Unique, IdsOf;
    InvFiled(limits, s);
    ValuesUnique(s.resources, ResourceId);
    ValuesUnique(s.requests, RequestId);
    ValuesUnique(s.placements, PlacementId);
    ValuesExact(s.placements);
    forall p | p in d.placements ensures SoundPlacement(p, s.requests.Keys, s.resources.Keys) {
      var k :| k in s.placements && s.placements[k] == p;
      PlacementIsSound(limits, s, k);
    }
  }

  /** And its reservations. */
  lemma ExportedReservations(limits: Limits, s: State, d: Durable)
    requires Inv(limits, s) && d == Export(limits, s)
    ensures Unique(d.reservations, ReservationId)
    ensures forall rv :: rv in d.reservations ==>
              SoundReservation(rv, IdsOf(d.placements, PlacementId), IdsOf(d.resources, ResourceId))
  {
    hide Inv, SoundReservation, Values, Unique, IdsOf;
    InvFiled(limits, s);
    ValuesUnique(s.resources, ResourceId);
    ValuesUnique(s.placements, PlacementId);
    ValuesUnique(s.reservations, ReservationId);
    ValuesExact(s.reservations);
    forall rv | rv in d.reservations ensures SoundReservation(rv, s.placements.Keys, s.resources.Keys) {
      var k :| k in s.reservations && s.reservations[k] == rv;
      ReservationIsSound(limits, s, k);
    }
  }

  lemma ExportedCounts(limits: Limits, s: State)
    requires Inv(limits, s)
    ensures WithinBounds(Export(limits, s)) <==> Storable(limits, s)
  {
    hide Inv, Values;
    InvFiled(limits, s);
    ValuesUnique(s.resources, ResourceId);
    ValuesUnique(s.requests, RequestId);
    ValuesUnique(s.placements, PlacementId);
    ValuesUnique(s.reservations, ReservationId);
  }

  /** Every reachable state exports a sound image, as long as its record counts stay within bounds. */
  lemma ExportIsSound(limits: Limits, s: State)
    requires Inv(limits, s)
    ensures SoundDurable(Export(limits, s)) <==> Storable(limits, s)
  {
    hide Inv, ValidResource, ValidRequest, SoundPlacement, SoundReservation, Values, Unique, ActiveTotal, WithinBounds,
         Storable, IdsOf;
    InvEpoch(limits, s);
    ExportedInventory(limits, s, Export(limits, s));
    ExportedPlacements(limits, s, Export(limits, s));
    ExportedReservations(limits, s, Export(limits, s));
    ExportedCounts(limits, s);
  }

  lemma InvEpoch(limits: Limits, s: State)
    requires Inv(limits, s)
    ensures s.epoch >= 1
  {
    hide Filed, Linked, Grounded, Numbered, Indexed, Balanced, Authority, Recorded;
  }

  // ---------------------------------------------------------------- the recovered state

  /** What recovery makes of a consistent state, map by map. */
  ghost predicate Reborn(s: State, t: State) {
    && t.epoch == s.epoch + 1 && t.unitCurrent == map[]
    && t.resources == (map k | k in s.resources :: Restored(s.resources[k], s.epoch + 1))
    && t.requests == (map k | k in s.requests :: RestoredRequest(s.requests[k]))
    && t.placements == (map k | k in s.placements :: RestoredPlacement(s.placements[k]))
    && t.reservations == (map k | k in s.reservations :: RestoredReservation(s.reservations[k]))
  }

  lemma RecoveredReborn(limits: Limits, s: State, blank: State)
    requires Inv(limits, s) && Vacant(blank) && blank.unitCurrent == map[]
    ensures Reborn(s, Recovered(blank, Export(limits, s)))
  {
    hide Inv, Restored, RestoredRequest, RestoredPlacement, RestoredReservation, Values, Emplaced, Marks, Highest,
         RestoredWorkers;
    InvFiled(limits, s);
    RestoreListing(s.resources, ResourceId, (r: Resource) => Restored(r, s.epoch + 1));
    RestoreListing(s.requests, RequestId, RestoredRequest);
    RestoreListing(s.placements, PlacementId, RestoredPlacement);
    RestoreListing(s.reservations, ReservationId, RestoredReservation);
  }

  /** Nothing the previous incarnation granted is still in force. */
  ghost predicate Quiescent(s: State) {
    && (forall id :: id in s.placements ==> !Live(s.placements[id].state))
    && (forall v :: v in s.reservations ==> !s.reservations[v].state.Active?)
    && (forall id :: id in s.resources ==> s.resources[id].reserved == 0)
    && (forall id :: id in s.requests ==> s.requests[id].current == 0 && !s.requests[id].state.Placed?)
    && s.unitCurrent == map[]
  }

  lemma RebornQuiescent(s: State, t: State)
    requires Reborn(s, t)
    ensures Quiescent(t)
  {
  }

  lemma QuiescentClaims(rs: map<U64, Reservation>, id: U64)
    requires forall v :: v in rs ==> !rs[v].state.Active?
    ensures Claimed(rs, id) == 0
  {
    SumZero(rs.Keys, HeldBy(rs, id));
  }

  lemma RestoredTrusted(r: Resource, epoch: nat)
    requires Trusted(r)
    ensures Trusted(Restored(r, epoch)) && Restored(r, epoch).ad == r.ad
  {
    hide ValidAdvertisement;
  }

  lemma RebornResources(s: State, t: State)
    requires Reborn(s, t) && Authority(s.resources) && Balanced(s.resources, s.reservations)
    ensures Authority(t.resources) && Balanced(t.resources, t.reservations)
  {
    hide Trusted, Claimed;
    forall id | id in t.resources ensures Trusted(t.resources[id]) && Claimed(t.reservations, id) == 0 {
      RestoredTrusted(s.resources[id], s.epoch + 1);
      QuiescentClaims(t.reservations, id);
    }
  }

  lemma RebornLinked(s: State, t: State)
    requires Reborn(s, t) && Linked(s.placements, s.reservations)
    ensures Linked(t.placements, t.reservations)
  {
    forall id | id in t.placements
      ensures t.placements[id].reservation in t.reservations
              && Bound(id, t.placements[id], t.reservations[t.placements[id].reservation])
    {
      assert Bound(id, s.placements[id], s.reservations[s.placements[id].reservation]);
    }
  }

  lemma RebornGrounded(s: State, t: State)
    requires Reborn(s, t) && Grounded(s.placements, s.resources.Keys, s.requests)
    ensures Grounded(t.placements, t.resources.Keys, t.requests)
  {
    hide Restored;
    assert t.resources.Keys == s.resources.Keys;
    forall id | id in t.placements ensures WellFounded(t.placements[id], t.resources.Keys, t.requests) {
      assert WellFounded(s.placements[id], s.resources.Keys, s.requests);
    }
  }

  lemma RebornRecords(limits: Limits, s: State, t: State)
    requires Reborn(s, t) && Recorded(limits, s.requests, s.placements) && Filed(s)
    ensures Recorded(limits, t.requests, t.placements) && Filed(t) && Indexed(t.unitCurrent, t.placements)
  {
    hide ValidRequest;
  }

  lemma RebornNumbered(s: State, t: State)
    requires Reborn(s, t) && Numbered(s.placements, s.reservations, s.lastId) && s.lastId <= t.lastId
    ensures Numbered(t.placements, t.reservations, t.lastId)
  {
    hide Restored;
  }

  lemma RebornInv(limits: Limits, s: State, t: State)
    requires Inv(limits, s) && Reborn(s, t) && s.lastId <= t.lastId
    ensures Inv(limits, t)
  {
    hide Filed, Numbered, Linked, Grounded, Balanced, Authority, Indexed, Recorded, Reborn;
    RebornEpoch(s, t);
    RebornResources(s, t);
    RebornLinked(s, t);
    RebornGrounded(s, t);
    RebornRecords(limits, s, t);
    RebornNumbered(s, t);
  }

  lemma RebornEpoch(s: State, t: State)
    requires Reborn(s, t)
    ensures t.epoch == s.epoch + 1
  {
  }

  // ---------------------------------------------------------------- identities after recovery

  /** The identities the image mentions leave room for a larger one. */
  ghost predicate RoomAbove(blank: State, d: Durable) {
    Highest(Marks(blank.workers, d)) + 1 < TWO_64
  }

  /** The counter passes every persisted identity exactly when adding one to the largest does not wrap. */
  lemma FreshAfterRecovery(blank: State, d: Durable)
    ensures (forall x :: x in Marks(blank.workers, d) ==> x < Recovered(blank, d).lastId) <==> RoomAbove(blank, d)
  {
    var marks := Marks(blank.workers, d);
    HighestIsMaximum(marks);
    assert marks[0] == d.idCounter;
    if !RoomAbove(blank, d) {
      assert Wrap64(Highest(marks) + 1) == 0;
      assert Highest(marks) in marks;
    }
  }

  /** Crash and recovery: the export is accepted, the recovered engine is consistent, nothing granted
      before is in force, the epoch moved on, and new identities are larger than every persisted one. */
  lemma RecoveryIsTotal(limits: Limits, s: State, blank: State)
    requires Inv(limits, s) && Storable(limits, s) && Vacant(blank) && blank.unitCurrent == map[]
    requires RoomAbove(blank, Export(limits, s))
    ensures var d := Export(limits, s); var o := ImportState(blank, d);
            && o == Done(Recovered(blank, d), s.epoch + 1)
            && Inv(limits, o.state) && Quiescent(o.state) && o.state.epoch == s.epoch + 1
            && s.lastId < o.state.lastId
            && forall x :: x in Marks(blank.workers, d) ==> x < o.state.lastId
  {
    hide Inv, SoundDurable, Recovered, Quiescent, Reborn, Marks;
    var d := Export(limits, s);
    ExportIsSound(limits, s);
    RecoveredReborn(limits, s, blank);
    FreshAfterRecovery(blank, d);
    CounterIsMarked(blank.workers, d);
    RebornInv(limits, s, Recovered(blank, d));
    RebornQuiescent(s, Recovered(blank, d));
    RebornEpoch(s, Recovered(blank, d));
  }

  lemma CounterIsMarked(workers: map<U64, WorkerRecord>, d: Durable)
    ensures d.idCounter in Marks(workers, d)
  {
    assert Marks(workers, d)[0] == d.idCounter;
  }
}
