/** Inputs on which properties fail, each in a consistent state: publications that break exclusivity
    (src/engine_resources.cpp:125-148), a reassignment that leaves two live placements of one unit
    (src/engine_lifecycle.cpp:396-423), and a waived requirement that reserves a restored resource
    (src/engine_scheduling.cpp:249-265). */
module Breaches {
  import opened Prelude
  import opened Records
  import opened Eligibility
  import opened Search
  import opened Planning
  import opened Transitions
  import opened Ledger
  import opened Invariants
  import opened Commitment
  import opened Steps
  import opened Units
  import opened Publications
  import opened Exclusivity
  import opened Evidence
  import opened Waivers
  import opened Durability
  import opened Recovery
  import opened Samples

  const GPU := GpuRequirement("gpu")

  /** The accelerator of the states below, with `slots` slots of which `reserved` are reserved. */
  function Accelerated(slots: U32, reserved: U32): Resource
    requires slots >= 1
  {
    GpuResource(1).(ad := GpuAd(1).(slots := slots), reserved := reserved)
  }

  lemma AcceleratedTrusted(slots: U32, reserved: U32)
    requires 1 <= slots
    ensures Trusted(Accelerated(slots, reserved))
  {
  }

  // ---------------------------------------------------------------- a publication turns a shared resource exclusive

  /** Two live placements share one accelerator, one slot each. */
  const SHARING := TwoGrants(Accelerated(2, 2), false, 2, Reserved, Reserved)

  /** The same accelerator, published as exclusive. */
  const NOW_EXCLUSIVE := GpuAd(1).(slots := 2, sharing := Exclusive)

  lemma SharingConsistent(limits: Limits)
    requires Ample(limits)
    ensures Inv(limits, SHARING) && UnitExact(SHARING.placements, SHARING.unitCurrent)
    ensures Covering(SHARING.resources, SHARING.reservations) && Staying(SHARING, NOW_EXCLUSIVE) == SHARING.reservations
  {
    hide Inv, Trusted;
    AcceleratedTrusted(2, 2);
    GrantsInv(limits, Accelerated(2, 2), false, 2, Reserved, Reserved);
  }

  /** Whatever two staying claims share may be published as exclusive. */
  lemma SharedTurnsExclusive(limits: Limits, s: State, ad: Advertisement)
    requires Inv(limits, s) && Covering(s.resources, s.reservations) && limits.maxRejectionReasons >= 1
    requires s.lastId + 4 < TWO_64
    requires Accepts(s, ad) && ad.sharing.Exclusive? && !AtMostOneClaim(Staying(s, ad), ad.id)
    ensures var o := PublishResource(s, ad);
            && o.Done? && Inv(limits, o.state)
            && !Covering(o.state.resources, o.state.reservations) && !Sole(o.state)
  {
    hide Inv, Covering, Sole, Staying, PublishResource, Accepts, AtMostOneClaim, Reschedulable;
    var t := PublishResource(s, ad).state;
    PublicationAccepted(limits, s, ad);
    StepInv(limits, s, Publish(ad));
    CoveringIsSole(limits, s);
    PublishSole(limits, s, ad);
    if Covering(t.resources, t.reservations) {
      CoveringIsSole(limits, t);
    }
  }

  /** The publication is accepted, and the two claims that were made to share now sit on an exclusive
      resource. */
  lemma SharingBreach(limits: Limits)
    requires Ample(limits)
    ensures Inv(limits, SHARING) && Covering(SHARING.resources, SHARING.reservations)
    ensures var o := PublishResource(SHARING, NOW_EXCLUSIVE);
            && o.Done? && Inv(limits, o.state)
            && !Covering(o.state.resources, o.state.reservations) && !Sole(o.state)
  {
    hide Inv, Covering, Sole, Staying, PublishResource, AtMostOneClaim, Claimed;
    SharingConsistent(limits);
    GrantsClaimed(Accelerated(2, 2), false, 2, Reserved, Reserved);
    TwoClaims(SHARING.reservations);
    SharedTurnsExclusive(limits, SHARING, NOW_EXCLUSIVE);
  }

  lemma TwoClaims(reservations: map<U64, Reservation>)
    requires reservations == SHARING.reservations
    ensures !AtMostOneClaim(reservations, 1)
  {
    assert reservations[3].claims[0].resource == reservations[7].claims[0].resource == 1;
  }

  // ---------------------------------------------------------------- a publication adds slots beside an exclusive claim

  /** A live placement holds the whole accelerator, which has one slot. */
  const WHOLE := TwoGrants(Accelerated(1, 1), true, 2, Reserved, Completed)

  /** The same accelerator, published with a second slot. */
  const GROWN := GpuAd(1).(slots := 2)

  const LATECOMER := Wants(23, 3, Asks(true))

  function Published(): State {
    var r := WHOLE.resources[1];
    WHOLE.(resources := map[1 := Publication(r, GROWN, 1)])
  }

  lemma WholeConsistent(limits: Limits)
    requires Ample(limits)
    ensures Inv(limits, WHOLE) && Covering(WHOLE.resources, WHOLE.reservations)
    ensures WHOLE.lastId + 4 < TWO_64 && Accepts(WHOLE, GROWN) && !Suits(Staying(WHOLE, GROWN), GROWN)
  {
    hide Inv, Trusted, Claimed;
    AcceleratedTrusted(1, 1);
    GrantsInv(limits, Accelerated(1, 1), true, 2, Reserved, Completed);
    GrantsClaimed(Accelerated(1, 1), true, 2, Reserved, Completed);
    var stay := Staying(WHOLE, GROWN);
    StayingHeld(limits, WHOLE, GROWN, 1);
    assert stay[3].claims[0].resource == 1;
  }

  /** A publication that does not suit the staying claims is accepted all the same. */
  lemma UnsuitedIsAccepted(limits: Limits, s: State, ad: Advertisement)
    requires Inv(limits, s) && Covering(s.resources, s.reservations) && limits.maxRejectionReasons >= 1
    requires s.lastId + 4 < TWO_64
    requires Accepts(s, ad) && !ad.sharing.Exclusive? && !Suits(Staying(s, ad), ad)
    ensures var o := PublishResource(s, ad);
            o.Done? && Inv(limits, o.state) && Sole(o.state) && !Covering(o.state.resources, o.state.reservations)
  {
    hide Inv, Covering, Sole, Staying, PublishResource, Accepts, Suits, Reschedulable;
    PublicationAccepted(limits, s, ad);
    StepInv(limits, s, Publish(ad));
    CoveringIsSole(limits, s);
    PublishSole(limits, s, ad);
    PublishCovers(limits, s, ad);
  }

  lemma GrownState()
    ensures PublishResource(WHOLE, GROWN).state == Published()
  {
  }

  /** What one slot of accelerator 1 is granted for. */
  predicate Spare(r: Resource) {
    && r.ad == GpuAd(1).(slots := r.ad.slots, worker := r.ad.worker, boot := r.ad.boot)
    && r.reserved < r.ad.slots && (r.lifecycle.Current? || r.lifecycle.Registered?)
  }

  function Asks(evidence: bool): Requirement {
    GPU.(requireCurrentEvidence := evidence)
  }

  lemma SpareServes(limits: Limits, s: State, id: U64, trial: U64, evidence: bool)
    requires Ample(limits) && 1 in s.resources && Spare(s.resources[1])
    requires evidence ==> s.resources[1].authoritative
    ensures Eligible(s, limits, Wants(id, trial, Asks(evidence)), Asks(evidence), 1)
  {
    hide Evaluate;
    SpareMeets(Wants(id, trial, Asks(evidence)), s.resources[1], evidence);
    EligibleExactly(Wants(id, trial, Asks(evidence)), Asks(evidence), s.resources[1], limits.maxRejectionReasons);
  }

  lemma SpareMeets(request: Request, r: Resource, evidence: bool)
    requires Spare(r) && (evidence ==> r.authoritative) && request.tenant == "" && !request.exclusive
    ensures Meets(request, Asks(evidence), r)
  {
  }

  /** A spare slot of the only resource places a request of one accelerator. */
  lemma SparePlaces(limits: Limits, s: State, id: U64, trial: U64, evidence: bool)
    requires Ample(limits) && SlotsPositive(s) && s.resources.Keys == {1} && Spare(s.resources[1])
    requires evidence ==> s.resources[1].authoritative
    requires |s.placements| <= 2 && |s.reservations| <= 2
    ensures var request := Wants(id, trial, Asks(evidence));
            && Places(limits, s, request)
            && var sel := Head(RankingOf(s, limits, request)).selection; |sel| == 1 && sel[0].id == 1
  {
    hide Eligible, RankingOf, Head, HasCapacity;
    SpareServes(limits, s, id, trial, evidence);
    OnlyRanked(s, limits, 1, id, trial, Asks(evidence));
    RoomLeft(limits, s);
  }

  lemma AskedIsValid(limits: Limits, id: U64, trial: U64, evidence: bool)
    requires Ample(limits) && id != 0
    ensures ValidRequest(Wants(id, trial, Asks(evidence)), limits)
  {
  }

  /** A request for a unit that nothing holds passes the checks of a submission. */
  lemma AskedIsAdmitted(limits: Limits, s: State, id: U64, trial: U64, evidence: bool)
    requires Ample(limits) && id != 0 && id !in s.requests && |s.requests| <= 2 && !s.shuttingDown
    requires UnitKey(8, 9, trial) !in s.unitCurrent
    ensures SubmitChecks(limits, s, Wants(id, trial, Asks(evidence)))
  {
    hide ValidRequest;
    AskedIsValid(limits, id, trial, evidence);
    SubsetSize(ActiveRequests(s), s.requests.Keys);
  }

  /** It is scheduled in a consistent state. */
  lemma AskedIsScheduled(limits: Limits, s: State, id: U64, trial: U64, evidence: bool, request: Request, t: State)
    requires Inv(limits, s) && Ample(limits) && |s.requests| <= 2 && !s.shuttingDown
    requires id != 0 && id !in s.requests && UnitKey(8, 9, trial) !in s.unitCurrent
    requires request == Wants(id, trial, Asks(evidence)) && t == Admitted(s, request)
    ensures SlotsPositive(s) && SubmitChecks(limits, s, request) && Inv(limits, t) && id in t.requests
    ensures Plannable(t, t.requests[id].request) && SubmitRequest(s, limits, request) == Schedule(t, limits, id, 0, 0)
  {
    hide Inv, Schedule, ValidRequest, UnitBusy;
    PlanReady(limits, s, 0);
    AskedIsAdmitted(limits, s, id, trial, evidence);
    RequestAdded(limits, s, request);
  }

  /** Submitting it places it on the spare slot. */
  lemma AskedIsPlaced(limits: Limits, s: State, id: U64, trial: U64, evidence: bool, request: Request)
    requires Inv(limits, s) && Ample(limits) && s.lastId + 4 < TWO_64 && |s.requests| <= 2 && !s.shuttingDown
    requires id != 0 && id !in s.requests && UnitKey(8, 9, trial) !in s.unitCurrent
    requires s.resources.Keys == {1} && Spare(s.resources[1]) && (evidence ==> s.resources[1].authoritative)
    requires |s.placements| <= 2 && |s.reservations| <= 2 && request == Wants(id, trial, Asks(evidence))
    ensures SlotsPositive(s) && SubmitChecks(limits, s, request) && Places(limits, Admitted(s, request), request)
    ensures SubmitRequest(s, limits, request).Done? && SubmitRequest(s, limits, request).value.PlacedAt?
    ensures var sel := Head(RankingOf(Admitted(s, request), limits, request)).selection; |sel| == 1 && sel[0].id == 1
  {
    hide Inv, Schedule, Places, RankingOf, Head, Spare, ValidRequest, HasCapacity, UnitBusy, SubmitRequest, Wants;
    AskedIsScheduled(limits, s, id, trial, evidence, request, Admitted(s, request));
    SparePlaces(limits, Admitted(s, request), id, trial, evidence);
    WantsOne(id, trial, Asks(evidence));
    PlacesExactly(limits, Admitted(s, request), id, 0, 0);
  }

  lemma WantsOne(id: U64, trial: U64, q: Requirement)
    ensures Wants(id, trial, q).id == id && Wants(id, trial, q).maxReassignments == 2
  {
  }

  lemma GrownIsSpare()
    ensures var s := Published();
            && s.resources.Keys == {1} && Spare(s.resources[1]) && s.resources[1].authoritative && s.lastId + 4 < TWO_64
            && |s.placements| <= 2 && |s.reservations| <= 2 && |s.requests| <= 2 && !s.shuttingDown
            && 23 !in s.requests && UnitKey(8, 9, 3) !in s.unitCurrent && Barred(s.reservations, 1)
  {
    assert WHOLE.reservations[3].claims[0].exclusive;
  }

  /** Growth beside an exclusive claim is accepted and leaves the claim alone, until the next request is
      placed on the new slot. */
  lemma CapacityBreach(limits: Limits)
    requires Ample(limits)
    ensures Inv(limits, WHOLE) && Covering(WHOLE.resources, WHOLE.reservations)
    ensures var o := PublishResource(WHOLE, GROWN);
            && o.Done? && Inv(limits, o.state) && SlotsPositive(o.state)
            && Sole(o.state) && !Covering(o.state.resources, o.state.reservations)
            && SubmitRequest(o.state, limits, LATECOMER).Done?
            && SubmitRequest(o.state, limits, LATECOMER).value.PlacedAt?
            && !Sole(SubmitRequest(o.state, limits, LATECOMER).state)
  {
    hide Inv, Covering, Sole, Staying, PublishResource, Accepts, Suits, SubmitRequest, Schedule, Spare, Barred, Wants,
         TwoGrants, RankingOf, Head, Places, Published;
    WholeConsistent(limits);
    UnsuitedIsAccepted(limits, WHOLE, GROWN);
    GrownState();
    GrownIsSpare();
    AskedIsPlaced(limits, Published(), 23, 3, true, LATECOMER);
    JoinsBarred(limits, Published(), LATECOMER);
  }

  /** A request that is placed beside an exclusive claim ends its exclusivity. */
  lemma JoinsBarred(limits: Limits, s: State, request: Request)
    requires Inv(limits, s) && Sole(s) && s.lastId + 4 < TWO_64 && limits.maxRejectionReasons >= 1
    requires SubmitChecks(limits, s, request) && Places(limits, Admitted(s, request), request)
    requires var sel := Head(RankingOf(Admitted(s, request), limits, request)).selection;
             |sel| == 1 && Barred(s.reservations, sel[0].id)
    ensures SlotsPositive(s) && !Sole(SubmitRequest(s, limits, request).state)
  {
    hide Inv, Sole, Schedule, RankingOf, Head, Places, ValidRequest, HasCapacity, UnitBusy, Barred;
    PlanReady(limits, s, 0);
    RequestAdded(limits, s, request);
    QuietSole(s, Admitted(s, request));
    ScheduleSole(limits, Admitted(s, request), request.id, 0, 0);
  }

  // ---------------------------------------------------------------- a reassignment doubles a unit

  /** Placement 2 of unit (8, 9, 1) waits for reassignment; meanwhile request 22 placed the same unit. */
  const TWICE := TwoGrants(Accelerated(2, 1), false, 1, ReassignmentRequired, Reserved)

  lemma TwiceConsistent(limits: Limits)
    requires Ample(limits)
    ensures Inv(limits, TWICE) && UnitExact(TWICE.placements, TWICE.unitCurrent)
    ensures Doubles(limits, TWICE, 2, 1, 1) && TWICE.lastId + 4 < TWO_64
  {
    hide Inv, Trusted, Places;
    AcceleratedTrusted(2, 1);
    GrantsInv(limits, Accelerated(2, 1), false, 1, ReassignmentRequired, Reserved);
    assert TWICE.requests[21].request == Wants(21, 1, Asks(true));
    SparePlaces(limits, TWICE, 21, 1, true);
  }

  /** Reassigning placement 2 leaves two live placements of one unit. */
  lemma UnitBreach(limits: Limits)
    requires Ample(limits)
    ensures Inv(limits, TWICE) && UnitExact(TWICE.placements, TWICE.unitCurrent) && Reschedulable(TWICE)
    ensures var t := ReassignPlacement(TWICE, limits, 2, 1, 1).state;
            !UnitExact(t.placements, t.unitCurrent) && TwoLive(t.placements, UnitKey(8, 9, 1))
  {
    hide Inv, UnitExact, Doubles, ReassignPlacement, TwoLive;
    TwiceConsistent(limits);
    assert UnitOf(TWICE.placements[2]) == UnitKey(8, 9, 1);
    ReassignUnits(limits, TWICE, 2, 1, 1);
  }

  // ---------------------------------------------------------------- a waived requirement reserves a restored resource

  /** An incarnation that has one published accelerator of worker 3. */
  const PUBLISHED :=
    State(1, false, map[3 := WorkerRecord(10, true)], map[1 := OWNED], map[], map[], map[], map[], map[], 4)

  const OWNED := GpuResource(1).(ad := GpuAd(1).(worker := 3, boot := 10))

  function Reloaded(limits: Limits): State {
    ImportState(EMPTY_STATE, Export(limits, PUBLISHED)).state
  }

  lemma OwnedInv(limits: Limits)
    ensures Inv(limits, PUBLISHED)
  {
    EmptyInv(limits, PUBLISHED.(resources := map[]));
    ResourceAdded(limits, PUBLISHED.(resources := map[]), OWNED);
    assert PUBLISHED.(resources := map[][1 := OWNED]) == PUBLISHED;
  }

  lemma NoValues<V>(m: map<U64, V>)
    requires m == map[]
    ensures Values(m) == []
  {
    assert m.Keys == {};
  }

  lemma OneValue<V>(m: map<U64, V>, id: U64)
    requires m.Keys == {id}
    ensures Values(m) == [m[id]]
  {
    OnlyKey(id);
    assert [id][..0] == [];
    assert ValuesAt(m, []) == [];
  }

  lemma OwnedMarks(limits: Limits)
    ensures Marks(EMPTY_STATE.workers, Export(limits, PUBLISHED)) == [4] + [1, 3, 10]
    ensures Highest([4] + [1, 3, 10]) == 10
  {
    OneValue(PUBLISHED.resources, 1);
    NoValues(PUBLISHED.requests);
    NoValues(PUBLISHED.placements);
    NoValues(PUBLISHED.reservations);
    assert [OWNED][..0] == [];
    assert ResourceMarks(map[], [OWNED]) == ResourceMarks(map[], []) + [1] + [3, 10];
    var xs := [4] + [1, 3, 10];
    assert xs[..3] == [4, 1, 3] && xs[..3][..2] == [4, 1] && xs[..3][..2][..1] == [4] && xs[..3][..2][..1][..0] == [];
    assert Highest([4]) == 4 && Highest([4, 1]) == 4 && Highest([4, 1, 3]) == 4;
  }

  lemma OwnedCounter(limits: Limits)
    ensures RoomAbove(EMPTY_STATE, Export(limits, PUBLISHED))
    ensures var t := Recovered(EMPTY_STATE, Export(limits, PUBLISHED)); t.lastId == 11 && !t.shuttingDown
  {
    hide Marks, Highest, Export, Emplaced, RestoredWorkers;
    OwnedMarks(limits);
  }

  lemma ReloadedState(limits: Limits)
    requires Ample(limits)
    ensures var t := Reloaded(limits);
            && Inv(limits, t) && Quiescent(t) && t.resources == map[1 := Restored(OWNED, 2)]
            && t.requests == map[] && t.placements == map[] && t.reservations == map[] && !t.shuttingDown
            && t.lastId == 11
  {
    hide Inv, Marks, Recovered, Quiescent, Restored, Values, Highest;
    OwnedInv(limits);
    OwnedMarks(limits);
    OwnedCounter(limits);
    RecoveryIsTotal(limits, PUBLISHED, EMPTY_STATE);
    RecoveredReborn(limits, PUBLISHED, EMPTY_STATE);
  }

  /** A request that waives current evidence. */
  const WAIVING := Wants(21, 1, Asks(false))

  lemma RestoredIsSpare()
    ensures Spare(Restored(OWNED, 2)) && !Restored(OWNED, 2).authoritative && Restored(OWNED, 2).lifecycle.Registered?
  {
  }

  /** After a restart the accelerator is registered, without authority and free; a request that waives
      evidence is placed on it before its worker has published anything. */
  lemma WaiverBreach(limits: Limits)
    requires Ample(limits)
    ensures var t := Reloaded(limits);
            && Inv(limits, t) && StaleFree(t.resources) && SlotsPositive(t)
            && SubmitRequest(t, limits, WAIVING).Done? && SubmitRequest(t, limits, WAIVING).value.PlacedAt?
            && !StaleFree(SubmitRequest(t, limits, WAIVING).state.resources)
  {
    hide Inv, StaleFree, SubmitRequest, Schedule, Spare, Wants, Reloaded, Restored, RankingOf, Head, Places;
    ReloadedState(limits);
    RestoredIsSpare();
    var t := Reloaded(limits);
    QuiescentIsFree(t);
    AskedIsPlaced(limits, t, 21, 1, false, WAIVING);
    SubmitStale(limits, t, WAIVING);
  }

  lemma QuiescentIsFree(s: State)
    ensures Quiescent(s) ==> StaleFree(s.resources) && s.unitCurrent == map[]
  {
  }

  // ---------------------------------------------------------------- a refused publication adopts an incarnation

  /** Worker 3 with a new boot publishes its accelerator as something else. */
  const RECAST := GpuAd(1).(worker := 3, boot := 20, resourceClass := WorkerClass)

  lemma LostAccelerator()
    ensures Invalidate(PUBLISHED, 3, 10)
         == PUBLISHED.(resources := map[1 := Invalidated(OWNED)], workers := map[3 := WorkerRecord(10, false)])
    ensures var r := Invalidated(OWNED); r.lifecycle.Lost? && !r.authoritative && r.ad.resourceClass.Gpu?
  {
    assert AffectedResources(PUBLISHED, 3, 10) == {1};
    assert InvalidateResources(PUBLISHED.resources, 3, 10) == map[1 := Invalidated(OWNED)];
    assert PUBLISHED.placements.Keys == {};
  }

  /** The publication is refused, and the accelerator is lost all the same. */
  lemma AdoptionBreach(limits: Limits)
    ensures Inv(limits, PUBLISHED)
    ensures var o := PublishResource(PUBLISHED, RECAST);
            && o.Refused? && o.code == InvalidArgument
            && o.state.workers == map[3 := WorkerRecord(20, true)]
            && 1 in o.state.resources && o.state.resources[1].lifecycle.Lost? && !o.state.resources[1].authoritative
  {
    hide Inv, Invalidate, Invalidated;
    OwnedInv(limits);
    LostAccelerator();
  }
}
