/** Exclusive claims (src/engine_scheduling.cpp:292-302, src/engine_resources.cpp:125-148,
    src/engine_accounting.cpp:118-132). An exclusive claim is the whole capacity, so the ledger leaves no
    room beside it, for exactly as long as accepted publications suit the claims that stay through them. */
module Exclusivity {
  import opened Prelude
  import opened Records
  import opened Eligibility
  import opened Search
  import opened Planning
  import opened Transitions
  import opened Ledger
  import opened Invariants
  import opened Endings
  import opened Commitment
  import opened Steps
  import opened Phases
  import opened Runs
  import opened Publications

  /** An exclusive claim covers the resource, and an exclusive resource is claimed exclusively. */
  ghost predicate ClaimFits(c: Claim, resources: map<U64, Resource>) {
    c.resource in resources
    && (c.exclusive ==> c.slots == resources[c.resource].ad.slots)
    && (resources[c.resource].ad.sharing.Exclusive? ==> c.exclusive)
  }

  ghost predicate Covering(resources: map<U64, Resource>, reservations: map<U64, Reservation>) {
    forall v, i :: v in reservations && reservations[v].state.Active? && 0 <= i < |reservations[v].claims| ==>
      ClaimFits(reservations[v].claims[i], resources)
  }

  /** Claim `i` of the active reservation `v` shares its resource with no other active claim. */
  ghost predicate Alone(s: State, v: U64, i: nat)
    requires v in s.reservations && i < |s.reservations[v].claims|
  {
    forall w, j :: w in s.reservations && s.reservations[w].state.Active? && 0 <= j < |s.reservations[w].claims|
      && s.reservations[w].claims[j].resource == s.reservations[v].claims[i].resource
      ==> w == v && j == i
  }

  lemma ReservationFacts(limits: Limits, s: State, v: U64)
    requires Inv(limits, s) && v in s.reservations
    ensures var cs := s.reservations[v].claims;
            && (forall i :: 0 <= i < |cs| ==> cs[i].slots >= 1 && cs[i].resource in s.resources)
            && (forall i, j :: 0 <= i < j < |cs| ==> cs[i].resource != cs[j].resource)
  {
    hide Inv, Linked, Grounded;
    InvLinked(limits, s);
    ReservationOwner(s, v);
    var rv := s.reservations[v];
    var p := s.placements[rv.placement];
    assert WellFounded(p, s.resources.Keys, s.requests) by { PlacementFacts(limits, s, rv.placement); }
    forall i | 0 <= i < |rv.claims| ensures rv.claims[i].slots >= 1 && rv.claims[i].resource in s.resources {
      assert p.resources[i].resource == rv.claims[i].resource;
    }
  }

  lemma ReservationOwner(s: State, v: U64)
    requires Linked(s.placements, s.reservations) && v in s.reservations
    ensures var rv := s.reservations[v];
            rv.placement in s.placements && Bound(rv.placement, s.placements[rv.placement], rv)
  {
    assert s.placements[s.reservations[v].placement].reservation == v;
  }

  /** An exclusive claim, or any claim on an exclusive resource, is the only active claim on it. */
  lemma ExclusiveIsAlone(limits: Limits, s: State, v: U64, i: nat)
    requires Inv(limits, s) && Covering(s.resources, s.reservations)
    requires v in s.reservations && s.reservations[v].state.Active? && i < |s.reservations[v].claims|
    requires var c := s.reservations[v].claims[i];
             c.exclusive || (c.resource in s.resources && s.resources[c.resource].ad.sharing.Exclusive?)
    ensures Alone(s, v, i)
  {
    hide Inv, Linked, Grounded, ClaimSlots, Claimed;
    var c := s.reservations[v].claims[i];
    assert ClaimFits(c, s.resources);
    InvLinked(limits, s);
    ReservationFacts(limits, s, v);
    ClaimSlotsOfMember(s.reservations[v].claims, i);
    forall w, j | w in s.reservations && s.reservations[w].state.Active? && 0 <= j < |s.reservations[w].claims|
      && s.reservations[w].claims[j].resource == c.resource
      ensures w == v && j == i
    {
      if w != v {
        ReservationFacts(limits, s, w);
        ClaimSlotsOfMember(s.reservations[w].claims, j);
        TwoHeldAreClaimed(s.reservations, v, w, c.resource);
      }
    }
  }

  // ---------------------------------------------------------------- what keeps claims covering

  /** No active claim is new, and claimed resources keep their capacity and sharing mode. */
  ghost predicate KeepsClaims(s: State, t: State) {
    && t.resources.Keys == s.resources.Keys
    && (forall id :: id in s.resources ==>
          t.resources[id].ad.slots == s.resources[id].ad.slots
          && t.resources[id].ad.sharing == s.resources[id].ad.sharing
          && t.resources[id].reserved <= s.resources[id].reserved
          && (t.resources[id].authoritative ==> s.resources[id].authoritative))
    && (forall v :: v in t.reservations && t.reservations[v].state.Active? ==>
          v in s.reservations && s.reservations[v].state.Active?
          && t.reservations[v].claims == s.reservations[v].claims)
  }

  lemma KeepsCovering(s: State, t: State)
    requires KeepsClaims(s, t) && Covering(s.resources, s.reservations)
    ensures Covering(t.resources, t.reservations)
  {
    forall v, i | v in t.reservations && t.reservations[v].state.Active? && 0 <= i < |t.reservations[v].claims|
      ensures ClaimFits(t.reservations[v].claims[i], t.resources)
    {
      assert ClaimFits(s.reservations[v].claims[i], s.resources);
    }
  }

  lemma KeepsTransitive(s: State, t: State, u: State)
    requires KeepsClaims(s, t) && KeepsClaims(t, u)
    ensures KeepsClaims(s, u)
  {
  }

  lemma SameKeeps(s: State, t: State)
    requires t.resources == s.resources && t.reservations == s.reservations
    ensures KeepsClaims(s, t)
  {
  }

  lemma EndsKeep(s: State, t: State)
    requires Relieved(s.resources, t.resources) && Progress(s, t) && t.reservations.Keys == s.reservations.Keys
    ensures KeepsClaims(s, t)
  {
    forall v | v in t.reservations && t.reservations[v].state.Active?
      ensures s.reservations[v].state.Active? && t.reservations[v].claims == s.reservations[v].claims
    {
      assert Settles(s.reservations[v], t.reservations[v]);
    }
  }

  lemma EndKeeps(limits: Limits, s: State, id: U64, target: PlacementState)
    requires Inv(limits, s) && !Live(target)
    ensures KeepsClaims(s, Terminate(s, id, target))
  {
    hide Inv, Terminate, Linked, Progress, Relieved, Moved, KeepsClaims;
    InvLinked(limits, s);
    TerminateInv(limits, s, id, target);
    TerminateProgress(s, id, target);
    EndsKeep(s, Terminate(s, id, target));
  }

  lemma SweepKeeps(limits: Limits, s: State, ids: seq<U64>, pick: Placement -> bool, target: PlacementState)
    requires Inv(limits, s) && !Live(target)
    ensures KeepsClaims(s, TerminateWhere(s, ids, pick, target))
  {
    hide Inv, TerminateWhere, Progress, Relieved, Moved, KeepsClaims;
    SweepInv(limits, s, ids, pick, target);
    SweepProgress(limits, s, ids, pick, target);
    EndsKeep(s, TerminateWhere(s, ids, pick, target));
  }

  lemma DisownedKeeps(s: State, worker: U64, boot: U64)
    ensures KeepsClaims(s, Disowned(s, worker, boot))
  {
  }

  lemma LoseKeeps(limits: Limits, s: State, worker: U64, boot: U64)
    requires Inv(limits, s)
    ensures KeepsClaims(s, Invalidate(s, worker, boot))
  {
    hide Inv, TerminateWhere, KeepsClaims, Disowned;
    DisownedInv(limits, s, worker, boot);
    DisownedKeeps(s, worker, boot);
    var d, u := Disowned(s, worker, boot), LossSweep(s, worker, boot);
    SweepKeeps(limits, d, SortedKeys(s.placements.Keys),
               TouchedBy(worker, boot, AffectedResources(s, worker, boot)), ReassignmentRequired);
    KeepsTransitive(s, d, u);
    LoseWorkers(s, worker, boot);
    SameKeeps(u, Invalidate(s, worker, boot));
    KeepsTransitive(s, u, Invalidate(s, worker, boot));
  }

  lemma LoseWorkers(s: State, worker: U64, boot: U64)
    ensures Invalidate(s, worker, boot) == LossSweep(s, worker, boot).(workers := Invalidate(s, worker, boot).workers)
  {
    hide Invalidate, LossSweep;
    InvalidateIsSweep(s, worker, boot);
  }

  lemma FinishKeeps(limits: Limits, s: State, c: CompletionClaim)
    requires Inv(limits, s) && CheckCompletion(s, c) == Ok
    ensures KeepsClaims(s, ReportCompletion(s, c).state)
  {
    hide Inv, Terminate, KeepsClaims;
    var p := s.placements[c.placement].(completionRecorded := true);
    var recorded := s.(placements := s.placements[c.placement := p]);
    PlacementEdited(limits, s, c.placement, p);
    EndKeeps(limits, recorded, c.placement, if c.succeeded then Completed else Failed);
    SameKeeps(s, recorded);
    KeepsTransitive(s, recorded, ReportCompletion(s, c).state);
  }

  /** Every phase but a publication and a commit keeps the claims. */
  lemma PhaseKeeps(limits: Limits, s: State, ph: Phase, t: State)
    requires Inv(limits, s) && Does(limits, s, ph, t) && !ph.Put? && !ph.Place?
    ensures KeepsClaims(s, t)
  {
    hide Inv, Terminate, TerminateWhere, Invalidate, ReportCompletion, CheckCompletion, KeepsClaims;
    match ph
    case End(id, target) => EndKeeps(limits, s, id, target);
    case Finish(claim) => FinishKeeps(limits, s, claim);
    case Sweep(requestId) =>
      SweepKeeps(limits, s, SortedKeys(s.placements.Keys), BelongsTo(requestId), Cancelled);
    case Lose(worker, boot) => LoseKeeps(limits, s, worker, boot);
    case Mark(id, state) => SameKeeps(s, t);
    case Aside => SameKeeps(s, t);
    case Admit(request) => SameKeeps(s, t);
  }

  /** The claims of a commit cover. */
  lemma PlaceCovers(limits: Limits, s: State, requestId: U64, generation: nat, count: nat, sel: Selection)
    requires Inv(limits, s) && CanPlace(limits, s, requestId, generation, count, sel)
    requires Covering(s.resources, s.reservations)
    ensures var t := Commit(s, requestId, generation, count, sel).state; Covering(t.resources, t.reservations)
  {
    hide Inv, Commit, RoomFor, TotalRoom, Covering, SoundSelection, Added, Committed;
    var p, rv := PlaceShape(limits, s, requestId, generation, count, sel);
    var t := Commit(s, requestId, generation, count, sel).state;
    CommittedResources(s, t, requestId, p, rv, sel);
    var request := s.requests[requestId].request;
    forall i | 0 <= i < |sel| ensures ClaimFits(rv.claims[i], s.resources) {
      SoundClaim(s, request, sel, i);
    }
    CoversMore(s, t, rv);
  }

  lemma CommittedResources(s: State, t: State, requestId: U64, p: Placement, rv: Reservation, sel: Selection)
    requires requestId in s.requests && Committed(s, t, requestId, p, rv, sel)
    ensures SameAdvertisements(t.resources, s.resources) && t.reservations == s.reservations[rv.id := rv]
  {
  }

  lemma SoundClaim(s: State, request: Request, sel: Selection, i: nat)
    requires SoundSelection(s, request, sel) && i < |sel|
    ensures sel[i].id in s.resources && ClaimFits(ClaimOf(sel[i], s.resources[sel[i].id]), s.resources)
  {
    hide Meets;
  }

  lemma CoversMore(s: State, t: State, rv: Reservation)
    requires Covering(s.resources, s.reservations) && SameAdvertisements(t.resources, s.resources)
    requires t.reservations == s.reservations[rv.id := rv]
    requires forall i :: 0 <= i < |rv.claims| ==> ClaimFits(rv.claims[i], s.resources)
    ensures Covering(t.resources, t.reservations)
  {
    forall v, i | v in t.reservations && t.reservations[v].state.Active? && 0 <= i < |t.reservations[v].claims|
      ensures ClaimFits(t.reservations[v].claims[i], t.resources)
    {
      assert ClaimFits(t.reservations[v].claims[i], s.resources);
    }
  }

  // ---------------------------------------------------------------- publications

  /** The active claims of `reservations` on a resource suit an advertisement of it: exclusive ones are the
      advertised capacity, and all are exclusive if the advertised mode is. */
  ghost predicate Suits(reservations: map<U64, Reservation>, ad: Advertisement) {
    forall v, i :: v in reservations && reservations[v].state.Active? && 0 <= i < |reservations[v].claims|
      && reservations[v].claims[i].resource == ad.id
      ==> SuitsClaim(reservations[v].claims[i], ad)
  }

  predicate SuitsClaim(c: Claim, ad: Advertisement) {
    (c.exclusive ==> c.slots == ad.slots) && (ad.sharing.Exclusive? ==> c.exclusive)
  }

  /** Replacing a record keeps claims covering if and only if the claims on it suit the new one. */
  lemma PutCoversExactly(resources: map<U64, Resource>, reservations: map<U64, Reservation>, r: Resource)
    requires Covering(resources, reservations)
    ensures Covering(resources[r.ad.id := r], reservations) <==> Suits(reservations, r.ad)
  {
    var after := resources[r.ad.id := r];
    if Suits(reservations, r.ad) {
      forall v, i | v in reservations && reservations[v].state.Active? && 0 <= i < |reservations[v].claims|
        ensures ClaimFits(reservations[v].claims[i], after)
      {
        assert ClaimFits(reservations[v].claims[i], resources);
      }
    }
    if Covering(after, reservations) {
      forall v, i | v in reservations && reservations[v].state.Active? && 0 <= i < |reservations[v].claims|
        && reservations[v].claims[i].resource == r.ad.id
        ensures SuitsClaim(reservations[v].claims[i], r.ad)
      {
        assert ClaimFits(reservations[v].claims[i], after);
      }
    }
  }

  ghost predicate Unclaimed(reservations: map<U64, Reservation>, resource: U64) {
    forall v, i :: v in reservations && reservations[v].state.Active? && 0 <= i < |reservations[v].claims|
      ==> reservations[v].claims[i].resource != resource
  }

  /** Nobody claims a resource without reserved slots. */
  lemma FreeUnclaimed(limits: Limits, s: State, id: U64)
    requires Inv(limits, s) && (id in s.resources ==> s.resources[id].reserved == 0)
    ensures Unclaimed(s.reservations, id)
  {
    hide Inv, Linked, Grounded, ClaimSlots, Claimed;
    InvLinked(limits, s);
    forall v, i | v in s.reservations && s.reservations[v].state.Active? && 0 <= i < |s.reservations[v].claims|
      ensures s.reservations[v].claims[i].resource != id
    {
      var c := s.reservations[v].claims[i];
      ReservationFacts(limits, s, v);
      ClaimSlotsOfMember(s.reservations[v].claims, i);
      HeldIsClaimed(s.reservations, v, c.resource);
      MirrorIs(limits, s, c.resource);
    }
  }

  /** Anything suits a resource that nothing holds. */
  lemma FreeSuits(limits: Limits, s: State, ad: Advertisement)
    requires Inv(limits, s) && (ad.id in s.resources ==> s.resources[ad.id].reserved == 0)
    ensures Suits(s.reservations, ad)
  {
    hide Inv;
    FreeUnclaimed(limits, s, ad.id);
  }

  lemma PlaceDoes(limits: Limits, s: State, ph: Phase, t: State)
    requires ph.Place? && Does(limits, s, ph, t)
    ensures CanPlace(limits, s, ph.requestId, ph.generation, ph.count, ph.sel)
    ensures t == Commit(s, ph.requestId, ph.generation, ph.count, ph.sel).state
  {
    hide CanPlace, Commit, Committable;
  }

  lemma PutDoes(limits: Limits, s: State, r: Resource, t: State)
    requires Does(limits, s, Put(r), t)
    ensures t == s.(resources := s.resources[r.ad.id := r]) && (r.authoritative || r.reserved == 0)
    ensures r.reserved == if r.ad.id in s.resources then s.resources[r.ad.id].reserved else 0
  {
    hide Trusted;
  }

  lemma PhaseCovers(limits: Limits, s: State, ph: Phase, t: State)
    requires Inv(limits, s) && Does(limits, s, ph, t) && Covering(s.resources, s.reservations)
    requires ph.Put? ==> ph.r.reserved == 0
    ensures Covering(t.resources, t.reservations)
  {
    hide Inv, Does, Covering, KeepsClaims, Suits, Commit, CanPlace;
    if ph.Put? {
      PutDoes(limits, s, ph.r, t);
      FreeSuits(limits, s, ph.r.ad);
      PutCoversExactly(s.resources, s.reservations, ph.r);
    } else if ph.Place? {
      PlaceDoes(limits, s, ph, t);
      PlaceCovers(limits, s, ph.requestId, ph.generation, ph.count, ph.sel);
    } else {
      PhaseKeeps(limits, s, ph, t);
      KeepsCovering(s, t);
    }
  }

  lemma AdoptedKeeps(limits: Limits, s: State, ad: Advertisement)
    requires Inv(limits, s)
    ensures KeepsClaims(s, Adopted(s, ad))
  {
    hide Inv, Invalidate, KeepsClaims, ChangesIncarnation;
    if Displaces(s, ad) {
      var lost := Invalidate(s, ad.worker, s.workers[ad.worker].boot);
      LoseKeeps(limits, s, ad.worker, s.workers[ad.worker].boot);
      SameKeeps(lost, Adopted(s, ad));
      KeepsTransitive(s, lost, Adopted(s, ad));
    } else {
      SameKeeps(s, Adopted(s, ad));
    }
  }

  /** A publication keeps claims covering if and only if it is refused, or the claims that stay through it
      suit the advertisement. All of it can be told before the call. */
  lemma PublishCovers(limits: Limits, s: State, ad: Advertisement)
    requires Inv(limits, s) && Covering(s.resources, s.reservations)
    ensures var t := PublishResource(s, ad).state;
            Covering(t.resources, t.reservations) <==> (Accepts(s, ad) ==> Suits(Staying(s, ad), ad))
  {
    hide Inv, Covering, Suits, KeepsClaims, Accepts, Adopted, Staying, PublishResource, Publication;
    var t := Adopted(s, ad);
    AdoptedKeeps(limits, s, ad);
    KeepsCovering(s, t);
    PublicationAccepted(limits, s, ad);
    StayingSuits(limits, s, ad);
    if Accepts(s, ad) {
      var r := Publication(t.resources[ad.id], ad, t.epoch);
      PublicationNames(t.resources[ad.id], ad, t.epoch);
      PutCoversExactly(t.resources, t.reservations, r);
    }
  }

  lemma PublicationNames(r: Resource, ad: Advertisement, epoch: nat)
    ensures Publication(r, ad, epoch).ad == ad
  {
  }

  lemma StayingSuits(limits: Limits, s: State, ad: Advertisement)
    requires Inv(limits, s)
    ensures Suits(Adopted(s, ad).reservations, ad) <==> Suits(Staying(s, ad), ad)
  {
    hide Inv, Adopted, Staying;
    forall v
      ensures var t := Adopted(s, ad);
              (v in Staying(s, ad) <==> v in t.reservations && t.reservations[v].state.Active?)
              && (v in Staying(s, ad) ==> Staying(s, ad)[v] == t.reservations[v])
    {
      StayingExact(limits, s, ad, v);
    }
  }

  // ---------------------------------------------------------------- every step, every run

  /** An accepted publication suits the claims that stay. */
  ghost predicate PublishesFitting(s: State, op: Op) {
    op.Publish? && Accepts(s, op.ad) ==> Suits(Staying(s, op.ad), op.ad)
  }

  ghost function ClaimsCovering(): State -> bool {
    (s: State) => Covering(s.resources, s.reservations)
  }

  /** A publication of a reserved resource keeps its capacity and sharing mode. */
  predicate PublishesSame(s: State, op: Op) {
    op.Publish? && op.ad.id in s.resources && s.resources[op.ad.id].reserved > 0 ==>
      op.ad.slots == s.resources[op.ad.id].ad.slots && op.ad.sharing == s.resources[op.ad.id].ad.sharing
  }

  /** Publications of the same shape suit whatever is claimed. */
  lemma SameFits(limits: Limits, s: State, op: Op)
    requires Inv(limits, s) && Covering(s.resources, s.reservations) && PublishesSame(s, op)
    ensures PublishesFitting(s, op)
  {
    hide Inv;
    if op.Publish? && Accepts(s, op.ad) {
      StaysCovered(limits, s, op.ad);
    }
  }

  lemma StaysCovered(limits: Limits, s: State, ad: Advertisement)
    requires Inv(limits, s) && Covering(s.resources, s.reservations) && ad.id in s.resources
    requires s.resources[ad.id].reserved > 0 ==>
               ad.slots == s.resources[ad.id].ad.slots && ad.sharing == s.resources[ad.id].ad.sharing
    ensures Suits(Staying(s, ad), ad)
  {
    hide Inv;
    if s.resources[ad.id].reserved == 0 {
      FreeSuits(limits, s, ad);
    }
    forall v, i | v in Staying(s, ad) && 0 <= i < |s.reservations[v].claims|
      && s.reservations[v].claims[i].resource == ad.id
      ensures SuitsClaim(s.reservations[v].claims[i], ad)
    {
      assert ClaimFits(s.reservations[v].claims[i], s.resources);
    }
  }

  /** Before its last phase an operation leaves every claim and its resource as they were. */
  lemma PrefixKeeps(limits: Limits, s: State, op: Op, trace: Trace, t: State)
    requires Inv(limits, s) && Follows(limits, s, trace, t) && Fit(op, trace)
    ensures KeepsClaims(s, trace.s2)
  {
    hide Inv, Does, KeepsClaims;
    PhaseKeeps(limits, s, trace.a, trace.s1);
    PhaseKeeps(limits, trace.s1, trace.b, trace.s2);
    KeepsTransitive(s, trace.s1, trace.s2);
  }

  lemma StepsWithoutPublication(limits: Limits, s: State, op: Op)
    requires Inv(limits, s) && s.lastId + 4 < TWO_64 && limits.maxRejectionReasons >= 1
    requires Covering(s.resources, s.reservations) && !op.Publish?
    ensures Reschedulable(s)
    ensures var t := Step(limits, s, op); Covering(t.resources, t.reservations)
  {
    hide Inv, Does, Covering, Step;
    var trace := StepPhases(limits, s, op);
    var t := Step(limits, s, op);
    PrefixKeeps(limits, s, op, trace, t);
    KeepsCovering(s, trace.s2);
    PhaseCovers(limits, trace.s2, trace.c, t);
  }

  /** One operation keeps claims covering if and only if it is no publication that does not suit them. */
  lemma StepCovers(limits: Limits, s: State, op: Op)
    requires Inv(limits, s) && s.lastId + 4 < TWO_64 && limits.maxRejectionReasons >= 1
    requires Covering(s.resources, s.reservations)
    ensures Reschedulable(s)
    ensures var t := Step(limits, s, op); Covering(t.resources, t.reservations) <==> PublishesFitting(s, op)
  {
    hide Inv, Covering, Suits, Accepts, Staying, PublishResource, Reschedulable;
    PlanReady(limits, s, 0);
    if op.Publish? {
      PublishCovers(limits, s, op.ad);
    } else {
      StepsWithoutPublication(limits, s, op);
    }
  }

  /** Claims cover their resources throughout a run if and only if its publications suit the claims that
      stay. */
  lemma {:induction false} RunExclusive(limits: Limits, s: State, ops: seq<Op>)
    requires Inv(limits, s) && Roomy(s, |ops|) && limits.maxRejectionReasons >= 1
    requires Covering(s.resources, s.reservations)
    ensures Throughout(limits, s, ops, ClaimsCovering()) <==> Guarded(limits, s, ops, PublishesFitting)
    decreases |ops|
  {
    hide Inv, Step, Covering, PublishesFitting;
    if ops != [] {
      StepInv(limits, s, ops[0]);
      StepCovers(limits, s, ops[0]);
      var t := Step(limits, s, ops[0]);
      StartsGood(limits, t, ops[1..], ClaimsCovering());
      if Covering(t.resources, t.reservations) {
        RunExclusive(limits, t, ops[1..]);
      }
    }
  }

  // ---------------------------------------------------------------- exclusivity itself

  /** Every exclusive claim, and every claim on an exclusive resource, is alone. */
  ghost predicate Sole(s: State) {
    forall v, i :: v in s.reservations && s.reservations[v].state.Active? && 0 <= i < |s.reservations[v].claims|
      && SetsApart(s, s.reservations[v].claims[i])
      ==> Alone(s, v, i)
  }

  predicate SetsApart(s: State, c: Claim) {
    c.exclusive || (c.resource in s.resources && s.resources[c.resource].ad.sharing.Exclusive?)
  }

  lemma CoveringIsSole(limits: Limits, s: State)
    requires Inv(limits, s) && Covering(s.resources, s.reservations)
    ensures Sole(s)
  {
    hide Inv, Covering, Alone;
    forall v, i | v in s.reservations && s.reservations[v].state.Active? && 0 <= i < |s.reservations[v].claims|
      && SetsApart(s, s.reservations[v].claims[i])
      ensures Alone(s, v, i)
    {
      ExclusiveIsAlone(limits, s, v, i);
    }
  }

  ghost function ClaimsSole(): State -> bool {
    (s: State) => Sole(s)
  }

  /** While publications keep the shape of reserved resources, an exclusive claim, or any claim on an
      exclusive resource, is always the only active claim on that resource. */
  lemma {:induction false} SameRunSole(limits: Limits, s: State, ops: seq<Op>)
    requires Inv(limits, s) && Roomy(s, |ops|) && limits.maxRejectionReasons >= 1
    requires Covering(s.resources, s.reservations) && Guarded(limits, s, ops, PublishesSame)
    ensures Throughout(limits, s, ops, ClaimsSole())
    decreases |ops|
  {
    hide Inv, Step, Covering, Sole, PublishesFitting, PublishesSame;
    CoveringIsSole(limits, s);
    if ops != [] {
      StepInv(limits, s, ops[0]);
      SameFits(limits, s, ops[0]);
      StepCovers(limits, s, ops[0]);
      SameRunSole(limits, Step(limits, s, ops[0]), ops[1..]);
    }
  }

  /** No two active claims on the resource. */
  ghost predicate AtMostOneClaim(reservations: map<U64, Reservation>, resource: U64) {
    forall v, i, w, j ::
      v in reservations && reservations[v].state.Active? && 0 <= i < |reservations[v].claims|
      && w in reservations && reservations[w].state.Active? && 0 <= j < |reservations[w].claims|
      && reservations[v].claims[i].resource == resource && reservations[w].claims[j].resource == resource
      ==> v == w && i == j
  }

  lemma KeepsSole(s: State, t: State)
    requires KeepsClaims(s, t) && Sole(s)
    ensures Sole(t)
  {
    forall v, i | v in t.reservations && t.reservations[v].state.Active? && 0 <= i < |t.reservations[v].claims|
      && SetsApart(t, t.reservations[v].claims[i])
      ensures Alone(t, v, i)
    {
      assert Alone(s, v, i);
    }
  }

  lemma PutSole(s: State, r: Resource)
    requires Sole(s)
    ensures Sole(s.(resources := s.resources[r.ad.id := r]))
            <==> (r.ad.sharing.Exclusive? ==> AtMostOneClaim(s.reservations, r.ad.id))
  {
    var t := s.(resources := s.resources[r.ad.id := r]);
    if r.ad.sharing.Exclusive? && Sole(t) {
      forall v, i, w, j |
        v in s.reservations && s.reservations[v].state.Active? && 0 <= i < |s.reservations[v].claims|
        && w in s.reservations && s.reservations[w].state.Active? && 0 <= j < |s.reservations[w].claims|
        && s.reservations[v].claims[i].resource == r.ad.id && s.reservations[w].claims[j].resource == r.ad.id
        ensures v == w && i == j
      {
        assert SetsApart(t, t.reservations[v].claims[i]) && Alone(t, v, i);
      }
    }
    if r.ad.sharing.Exclusive? ==> AtMostOneClaim(s.reservations, r.ad.id) {
      forall v, i | v in t.reservations && t.reservations[v].state.Active? && 0 <= i < |t.reservations[v].claims|
        && SetsApart(t, t.reservations[v].claims[i])
        ensures Alone(t, v, i)
      {
        var c := t.reservations[v].claims[i];
        if c.exclusive || c.resource != r.ad.id {
          assert SetsApart(s, s.reservations[v].claims[i]) && Alone(s, v, i);
        }
      }
    }
  }

  /** An accepted publication keeps exclusivity itself if and only if it does not turn a resource with two
      claims that stay into an exclusive one. */
  lemma PublishSole(limits: Limits, s: State, ad: Advertisement)
    requires Inv(limits, s) && Sole(s) && Accepts(s, ad)
    ensures Sole(PublishResource(s, ad).state)
            <==> (ad.sharing.Exclusive? ==> AtMostOneClaim(Staying(s, ad), ad.id))
  {
    hide Inv, Sole, KeepsClaims, Accepts, Adopted, Staying, PublishResource, Publication, AtMostOneClaim;
    var t := Adopted(s, ad);
    AdoptedKeeps(limits, s, ad);
    KeepsSole(s, t);
    PublicationAccepted(limits, s, ad);
    PublicationNames(t.resources[ad.id], ad, t.epoch);
    PutSole(t, Publication(t.resources[ad.id], ad, t.epoch));
    StayingCounts(limits, s, ad);
  }

  lemma StayingCounts(limits: Limits, s: State, ad: Advertisement)
    requires Inv(limits, s)
    ensures AtMostOneClaim(Adopted(s, ad).reservations, ad.id) <==> AtMostOneClaim(Staying(s, ad), ad.id)
  {
    hide Inv, Adopted, Staying;
    forall v
      ensures var t := Adopted(s, ad);
              (v in Staying(s, ad) <==> v in t.reservations && t.reservations[v].state.Active?)
              && (v in Staying(s, ad) ==> Staying(s, ad)[v] == t.reservations[v])
    {
      StayingExact(limits, s, ad, v);
    }
  }

  /** The resource carries an active exclusive claim. */
  ghost predicate Barred(reservations: map<U64, Reservation>, resource: U64) {
    exists v, i :: v in reservations && reservations[v].state.Active? && 0 <= i < |reservations[v].claims|
      && reservations[v].claims[i].resource == resource && reservations[v].claims[i].exclusive
  }

  ghost predicate NewClaims(s: State, rv: Reservation, sel: Selection) {
    && |rv.claims| == |sel| && rv.state.Active? && rv.id !in s.reservations
    && (forall i :: 0 <= i < |sel| ==> sel[i].id in s.resources && rv.claims[i].resource == sel[i].id)
    && (forall i, j :: 0 <= i < j < |sel| ==> sel[i].id != sel[j].id)
    && (forall i :: 0 <= i < |sel| && SetsApart(s, rv.claims[i]) ==> Unclaimed(s.reservations, sel[i].id))
  }

  /** A claim that must be alone is only made on a resource nobody claims. */
  lemma SoundApart(limits: Limits, s: State, request: Request, sel: Selection, i: nat)
    requires Inv(limits, s) && SoundSelection(s, request, sel) && i < |sel|
    ensures sel[i].id in s.resources
    ensures SetsApart(s, ClaimOf(sel[i], s.resources[sel[i].id])) ==> Unclaimed(s.reservations, sel[i].id)
  {
    hide Inv, Fits, Authorised, Unclaimed;
    var r, q := s.resources[sel[i].id], request.requirements[i];
    ResourceTrusted(limits, s, sel[i].id);
    assert Meets(request, q, r);
    assert TotalOccupancy(r) == r.ad.occupancy + r.reserved;
    if r.reserved == 0 {
      FreeUnclaimed(limits, s, sel[i].id);
    }
  }

  lemma AddSole(s: State, t: State, rv: Reservation, sel: Selection)
    requires Sole(s) && NewClaims(s, rv, sel)
    requires t.reservations == s.reservations[rv.id := rv] && SameAdvertisements(t.resources, s.resources)
    ensures Sole(t) <==> forall i :: 0 <= i < |sel| ==> !Barred(s.reservations, sel[i].id)
  {
    hide Sole, Barred;
    forall i | 0 <= i < |sel| && Barred(s.reservations, sel[i].id) ensures !Sole(t) {
      BarredBreaks(s, t, rv, sel, i);
    }
    if forall i :: 0 <= i < |sel| ==> !Barred(s.reservations, sel[i].id) {
      UnbarredSole(s, t, rv, sel);
    }
  }

  lemma BarredBreaks(s: State, t: State, rv: Reservation, sel: Selection, i: nat)
    requires NewClaims(s, rv, sel) && t.reservations == s.reservations[rv.id := rv] && i < |sel|
    requires Barred(s.reservations, sel[i].id)
    ensures !Sole(t)
  {
    hide Unclaimed;
    var v, k :| v in s.reservations && s.reservations[v].state.Active? && 0 <= k < |s.reservations[v].claims|
      && s.reservations[v].claims[k].resource == sel[i].id && s.reservations[v].claims[k].exclusive;
    var w := rv.id;
    assert SetsApart(t, t.reservations[v].claims[k]);
    assert t.reservations[w].claims[i].resource == t.reservations[v].claims[k].resource;
    assert !Alone(t, v, k);
  }

  lemma UnbarredSole(s: State, t: State, rv: Reservation, sel: Selection)
    requires Sole(s) && NewClaims(s, rv, sel)
    requires t.reservations == s.reservations[rv.id := rv] && SameAdvertisements(t.resources, s.resources)
    requires forall i :: 0 <= i < |sel| ==> !Barred(s.reservations, sel[i].id)
    ensures Sole(t)
  {
    forall v, i | v in t.reservations && t.reservations[v].state.Active? && 0 <= i < |t.reservations[v].claims|
      && SetsApart(t, t.reservations[v].claims[i])
      ensures Alone(t, v, i)
    {
      assert SetsApart(s, t.reservations[v].claims[i]);
      if v == rv.id {
        assert Unclaimed(s.reservations, sel[i].id);
      } else {
        assert Alone(s, v, i);
        forall k | 0 <= k < |sel| ensures sel[k].id != t.reservations[v].claims[i].resource {
          assert !Barred(s.reservations, sel[k].id);
          if sel[k].id == t.reservations[v].claims[i].resource && !s.reservations[v].claims[i].exclusive {
            assert SetsApart(s, rv.claims[k]);
          }
        }
      }
    }
  }

  /** A commit keeps exclusivity itself if and only if it selects no resource with an active exclusive
      claim, which covering claims leave no room for. */
  lemma CommitSole(limits: Limits, s: State, requestId: U64, generation: nat, count: nat, sel: Selection)
    requires Inv(limits, s) && CanPlace(limits, s, requestId, generation, count, sel) && Sole(s)
    ensures Sole(Commit(s, requestId, generation, count, sel).state)
            <==> forall i :: 0 <= i < |sel| ==> !Barred(s.reservations, sel[i].id)
  {
    hide Inv, Commit, RoomFor, TotalRoom, Sole, SoundSelection, Added, Barred, Unclaimed;
    var p, rv := PlaceShape(limits, s, requestId, generation, count, sel);
    var t := Commit(s, requestId, generation, count, sel).state;
    CommittedResources(s, t, requestId, p, rv, sel);
    var request := s.requests[requestId].request;
    forall i | 0 <= i < |sel|
      ensures sel[i].id in s.resources && rv.claims[i].resource == sel[i].id
      ensures SetsApart(s, rv.claims[i]) ==> Unclaimed(s.reservations, sel[i].id)
    {
      SoundApart(limits, s, request, sel, i);
    }
    SoundDistinct(s, request, sel);
    AddSole(s, t, rv, sel);
  }

  /** The placement that scheduling would make names a resource with an active exclusive claim. */
  ghost predicate Crowds(limits: Limits, s: State, request: Request) {
    && Places(limits, s, request)
    && var sel := Head(RankingOf(s, limits, request)).selection;
       exists i :: 0 <= i < |sel| && Barred(s.reservations, sel[i].id)
  }

  /** Scheduling lets a claim join an exclusive one exactly when the best placement crowds. */
  lemma ScheduleSole(limits: Limits, s: State, requestId: U64, forced: nat, count: nat)
    requires Inv(limits, s) && requestId in s.requests && s.lastId + 4 < TWO_64 && limits.maxRejectionReasons >= 1
    requires (if forced == 0 then 1 else forced) == count + 1 && Sole(s)
    requires count <= s.requests[requestId].request.maxReassignments
    ensures Plannable(s, s.requests[requestId].request)
    ensures Sole(Schedule(s, limits, requestId, forced, count).state)
            <==> !Crowds(limits, s, s.requests[requestId].request)
  {
    hide Inv, Run, Head, SearchSpace, Commit, ValidRequest, Plannable, HasCapacity, ChoiceLists, Schedule, RankingOf,
         SoundSelection, CanPlace, Found, Sole, Barred, KeepsClaims;
    var request := s.requests[requestId].request;
    PlanReady(limits, s, requestId);
    var t := s.(lastId := s.lastId + 1);
    assert NextId(s.lastId) == s.lastId + 1;
    CountedInv(limits, s, s.lastId + 1);
    ScheduleCases(limits, s, t, requestId, forced, count);
    SameCapacity(limits, s, t);
    SameKeeps(s, t);
    KeepsSole(s, t);
    if RankingOf(s, limits, request) != [] {
      var sel := Head(RankingOf(s, limits, request)).selection;
      RankingSound(s, limits, request);
      FoundCanPlace(limits, s, t, requestId, count, sel);
      CommitSole(limits, t, requestId, count + 1, count, sel);
    }
    QuietSole(s, Schedule(s, limits, requestId, forced, count).state);
  }

  lemma QuietSole(s: State, t: State)
    ensures t.resources == s.resources && t.reservations == s.reservations && Sole(s) ==> Sole(t)
  {
    if t.resources == s.resources && t.reservations == s.reservations && Sole(s) {
      SameKeeps(s, t);
      KeepsSole(s, t);
    }
  }
}
