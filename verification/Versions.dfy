/** Generations of resources (src/engine_resources.cpp:143-155, 165-193, src/engine_state.cpp:145-158,
    src/engine_lifecycle.cpp:248-262): a generation names one version of a record, so that a completion that shows
    the generations a placement was granted proves that its resources are the ones it was granted. */
module Versions {
  import opened Prelude
  import opened Records
  import opened Transitions
  import opened Ledger
  import opened Invariants
  import opened Endings
  import opened Commitment
  import opened Steps
  import opened Phases
  import opened Runs
  import opened Publications
  import opened Exclusivity
  import opened Evidence
  import opened Acceptance
  import opened Aftermath
  import opened Effects

  /** Later the record has a larger generation, or is the same but for its reserved slots. */
  predicate Later(r: Resource, l: Resource) {
    l.generation > r.generation || l == r.(reserved := l.reserved)
  }

  ghost predicate Versioned(s: State, t: State) {
    forall id :: id in s.resources ==> id in t.resources && Later(s.resources[id], t.resources[id])
  }

  lemma VersionedTransitive(s: State, t: State, u: State)
    requires Versioned(s, t) && Versioned(t, u)
    ensures Versioned(s, u)
  {
    forall id | id in s.resources ensures id in u.resources && Later(s.resources[id], u.resources[id]) {
      assert Later(s.resources[id], t.resources[id]) && Later(t.resources[id], u.resources[id]);
    }
  }

  lemma SameVersions(s: State, t: State)
    requires SameAdvertisements(t.resources, s.resources)
    ensures Versioned(s, t)
  {
  }

  lemma RelievedVersions(s: State, t: State)
    requires Relieved(s.resources, t.resources)
    ensures Versioned(s, t)
  {
  }

  lemma EndsVersions(
    s: State, t: State, gone: set<U64>, state: PlacementState, settled: ReservationState, outcome: RequestState)
    requires Ends(s, t, gone, state, settled, outcome)
    ensures Versioned(s, t)
  {
  }

  lemma DisownsVersions(s: State, d: State, worker: U64, boot: U64)
    requires Disowns(s, d, worker, boot)
    ensures Versioned(s, d)
  {
    hide HeldByIncarnation;
  }

  lemma LossVersions(limits: Limits, s: State, worker: U64, boot: U64)
    requires Inv(limits, s)
    ensures Versioned(s, Invalidate(s, worker, boot))
  {
    hide Inv, Invalidate, Ends, Disowns, Versioned;
    LossEffect(limits, s, worker, boot);
    var d, t :| Disowns(s, d, worker, boot)
      && Ends(d, t, LiveOn(s, worker, boot), ReassignmentRequired, Revoked, Submitted)
      && Invalidate(s, worker, boot) == t.(workers := Invalidate(s, worker, boot).workers);
    DisownsVersions(s, d, worker, boot);
    EndsVersions(d, t, LiveOn(s, worker, boot), ReassignmentRequired, Revoked, Submitted);
    VersionedTransitive(s, d, t);
    WorkersVersions(s, t, Invalidate(s, worker, boot));
  }

  lemma WorkersVersions(s: State, t: State, u: State)
    requires Versioned(s, t) && u.resources == t.resources
    ensures Versioned(s, u)
  {
  }

  lemma AdoptVersions(limits: Limits, s: State, worker: U64, boot: U64)
    requires Inv(limits, s)
    ensures Versioned(s, Adopt(s, worker, boot))
  {
    hide Inv, Invalidate, Versioned;
    SameResources(s, s);
    if worker in s.workers && s.workers[worker].boot != boot {
      LossVersions(limits, s, worker, s.workers[worker].boot);
      WorkersVersions(s, Invalidate(s, worker, s.workers[worker].boot), Adopt(s, worker, boot));
    } else {
      WorkersVersions(s, s, Adopt(s, worker, boot));
    }
  }

  lemma SameResources(s: State, t: State)
    requires t.resources == s.resources
    ensures Versioned(s, t)
  {
  }

  /** A phase that replaces no record makes versions only. */
  lemma PhaseVersions(limits: Limits, s: State, ph: Phase, t: State)
    requires Inv(limits, s) && Does(limits, s, ph, t) && !ph.Put?
    ensures Versioned(s, t)
  {
    hide Inv, Terminate, TerminateWhere, Invalidate, ReportCompletion, CheckCompletion, CanPlace, Commit, Versioned,
         Relieved, Ends, SameAdvertisements, SameRequests;
    match ph
    case End(id, target) => TerminateInv(limits, s, id, target); RelievedVersions(s, t);
    case Finish(claim) => FinishRelieves(limits, s, claim); RelievedVersions(s, t);
    case Sweep(requestId) =>
      var ids := Planning.SortedKeys(s.placements.Keys);
      SweepEnds(limits, s, ids, BelongsTo(requestId), Cancelled);
      EndsVersions(s, t, GoneAmong(s, ids, BelongsTo(requestId)), Cancelled, Released, RequestCancelled);
    case Lose(worker, boot) => LossVersions(limits, s, worker, boot);
    case Mark(id, state) => SameResources(s, t);
    case Aside => SameResources(s, t);
    case Admit(request) => SameResources(s, t);
    case Place(requestId, generation, count, sel) => PlaceVersions(limits, s, requestId, generation, count, sel);
  }

  lemma PlaceVersions(limits: Limits, s: State, requestId: U64, generation: nat, count: nat, sel: Search.Selection)
    requires Inv(limits, s) && CanPlace(limits, s, requestId, generation, count, sel)
    ensures Versioned(s, Commit(s, requestId, generation, count, sel).state)
  {
    hide Inv, Commit, SoundSelection, Added, Committed, Versioned, SameAdvertisements;
    var p, rv := PlaceShape(limits, s, requestId, generation, count, sel);
    var t := Commit(s, requestId, generation, count, sel).state;
    CommittedResources(s, t, requestId, p, rv, sel);
    SameVersions(s, t);
  }

  lemma PutVersions(s: State, t: State, id: U64, r: Resource)
    requires t.resources == s.resources[id := r] && (id in s.resources ==> r.generation > s.resources[id].generation)
    ensures Versioned(s, t)
  {
  }

  lemma ResourceStepVersions(limits: Limits, s: State, op: Op)
    requires Inv(limits, s) && (op.Register? || op.Publish? || op.Retire?)
    ensures Reschedulable(s) && Versioned(s, Step(limits, s, op))
  {
    hide Inv, Versioned, Adopt, RegisterResource, PublishResource, RetireResource, Reschedulable, Republished, Adopted;
    PlanReady(limits, s, 0);
    SameResources(s, s);
    match op
    case Register(ad) =>
      RegisterEffect(s, limits, ad);
      var t := if ad.worker != 0 then Adopt(s, ad.worker, ad.boot) else s;
      if RegisterResource(s, limits, ad).Done? {
        AdoptVersions(limits, s, ad.worker, ad.boot);
        AdoptedKeys(limits, s, ad.worker, ad.boot);
        PutVersions(t, Step(limits, s, op), ad.id, RegisterResource(s, limits, ad).value);
        VersionedTransitive(s, t, Step(limits, s, op));
      }
    case Publish(ad) =>
      var t := Adopted(s, ad);
      AdoptedVersions(limits, s, ad);
      if PublishResource(s, ad).Done? {
        PublishEffect(limits, s, ad);
        Newer(t.resources[ad.id], PublishResource(s, ad).value, ad, s.epoch);
        PutVersions(t, Step(limits, s, op), ad.id, PublishResource(s, ad).value);
        VersionedTransitive(s, t, Step(limits, s, op));
      } else {
        PublicationAccepted(limits, s, ad);
      }
    case Retire(id, expected) =>
      RetireEffect(s, id, expected);
      if RetireResource(s, id, expected).Done? {
        PutVersions(s, Step(limits, s, op), id, RetireResource(s, id, expected).value);
      }
  }

  lemma Newer(before: Resource, after: Resource, ad: Advertisement, epoch: nat)
    requires Republished(before, after, ad, epoch)
    ensures after.generation == before.generation + 1
  {
  }

  lemma AdoptedKeys(limits: Limits, s: State, worker: U64, boot: U64)
    requires Inv(limits, s)
    ensures Adopt(s, worker, boot).resources.Keys == s.resources.Keys
  {
    hide Inv, Adopt;
    AdoptKeepsClasses(limits, s, worker, boot);
  }

  lemma AdoptedVersions(limits: Limits, s: State, ad: Advertisement)
    requires Inv(limits, s)
    ensures Versioned(s, Adopted(s, ad))
  {
    hide Inv, Adopt, Versioned, ChangesIncarnation;
    SameResources(s, s);
    AdoptVersions(limits, s, ad.worker, ad.boot);
  }

  lemma QuietStepVersions(limits: Limits, s: State, op: Op)
    requires Inv(limits, s) && s.lastId + 4 < TWO_64 && limits.maxRejectionReasons >= 1
    requires !op.Register? && !op.Publish? && !op.Retire?
    ensures Reschedulable(s) && Versioned(s, Step(limits, s, op))
  {
    hide Inv, Does, Versioned, Step;
    var trace := StepPhases(limits, s, op);
    var t := Step(limits, s, op);
    PhaseVersions(limits, s, trace.a, trace.s1);
    PhaseVersions(limits, trace.s1, trace.b, trace.s2);
    PhaseVersions(limits, trace.s2, trace.c, t);
    VersionedTransitive(s, trace.s1, trace.s2);
    VersionedTransitive(s, trace.s2, t);
  }

  /** No operation changes a record under its generation, reserved slots apart. */
  lemma StepVersions(limits: Limits, s: State, op: Op)
    requires Inv(limits, s) && s.lastId + 4 < TWO_64 && limits.maxRejectionReasons >= 1
    ensures Reschedulable(s) && Versioned(s, Step(limits, s, op))
  {
    hide Inv, Versioned, Step;
    if op.Register? || op.Publish? || op.Retire? {
      ResourceStepVersions(limits, s, op);
    } else {
      QuietStepVersions(limits, s, op);
    }
  }

  lemma {:induction false} RunVersions(limits: Limits, s: State, ops: seq<Op>)
    requires Inv(limits, s) && Roomy(s, |ops|) && limits.maxRejectionReasons >= 1
    ensures Versioned(s, Exec(limits, s, ops))
    decreases |ops|
  {
    hide Inv, Versioned, Step;
    if ops == [] {
      SameResources(s, s);
    } else {
      StepInv(limits, s, ops[0]);
      StepVersions(limits, s, ops[0]);
      RunVersions(limits, Step(limits, s, ops[0]), ops[1..]);
      VersionedTransitive(s, Step(limits, s, ops[0]), Exec(limits, s, ops));
    }
  }

  // ---------------------------------------------------------------- what a completion proves

  /** A completion that is right but for its generations, one of which is out of date, is refused as stale. */
  lemma OldGenerationIsStale(limits: Limits, s: State, c: CompletionClaim, i: nat)
    requires Inv(limits, s) && Authorises(s, c.(resourceGenerations := []))
    requires var p := s.placements[c.placement];
             i < |p.resources| == |c.resourceGenerations|
             && p.resources[i].resource in s.resources
             && c.resourceGenerations[i] != s.resources[p.resources[i].resource].generation
    ensures ReportCompletion(s, c) == Refused(s, StaleResource)
  {
    hide Inv, Prelude.Sort, SelectedIds, Terminate;
    var p := s.placements[c.placement];
    InvLinkedOnly(limits, s);
    LiveReservation(s, c.placement);
    SortComparesContents(c.resources, SelectedIds(p));
    PlacementFacts(limits, s, c.placement);
    StaleFound(s, p, c.resourceGenerations, 0, i);
  }

  lemma {:induction false} StaleFound(s: State, p: Placement, generations: seq<nat>, k: nat, i: nat)
    requires k <= i < |p.resources| == |generations|
    requires forall x :: x in p.resources ==> x.resource in s.resources
    requires generations[i] != s.resources[p.resources[i].resource].generation
    ensures CheckGenerations(s, p, generations, k) == Fail(StaleResource)
    decreases i - k
  {
    assert p.resources[k] in p.resources;
    if k < i && s.resources[p.resources[k].resource].generation == generations[k] {
      StaleFound(s, p, generations, k + 1, i);
    }
  }

  /** After a publication was accepted, so is a completion that shows the generation from before it. */
  lemma StaleAfterPublication(limits: Limits, s: State, ad: Advertisement, c: CompletionClaim, i: nat)
    requires Inv(limits, s) && PublishResource(s, ad).Done? && ad.id in s.resources
    requires Authorises(PublishResource(s, ad).state, c.(resourceGenerations := []))
    requires var p := PublishResource(s, ad).state.placements[c.placement];
             i < |p.resources| == |c.resourceGenerations| && p.resources[i].resource == ad.id
             && c.resourceGenerations[i] == s.resources[ad.id].generation
    ensures ReportCompletion(PublishResource(s, ad).state, c) == Refused(PublishResource(s, ad).state, StaleResource)
  {
    hide Inv, PublishResource, Authorises, ReportCompletion, Adopted, Versioned, Republished;
    var t := PublishResource(s, ad).state;
    PublishEffect(limits, s, ad);
    AdoptedVersions(limits, s, ad);
    NeverFalls(s, Adopted(s, ad), ad.id);
    Newer(Adopted(s, ad).resources[ad.id], PublishResource(s, ad).value, ad, s.epoch);
    PublishedInv(limits, s, ad);
    OldGenerationIsStale(limits, t, c, i);
  }

  lemma NeverFalls(s: State, t: State, id: U64)
    requires Versioned(s, t) && id in s.resources
    ensures id in t.resources && s.resources[id].generation <= t.resources[id].generation
  {
  }

  lemma PublishedInv(limits: Limits, s: State, ad: Advertisement)
    requires Inv(limits, s)
    ensures Inv(limits, PublishResource(s, ad).state)
  {
    hide Inv, PublishResource;
    PublishInv(limits, s, ad);
  }

  /** A completion accepted after any run, showing the generations its resources had before it, proves that
      none of them was published, retired or lost meanwhile. */
  lemma CompletionProvesVersions(limits: Limits, s: State, ops: seq<Op>, t: State, c: CompletionClaim)
    requires Inv(limits, s) && Roomy(s, |ops|) && limits.maxRejectionReasons >= 1 && t == Exec(limits, s, ops)
    requires ReportCompletion(t, c).Done? && c.resourceGenerations != []
    requires c.placement in t.placements && |c.resourceGenerations| == |t.placements[c.placement].resources|
    requires forall i :: 0 <= i < |c.resourceGenerations| ==>
               var id := t.placements[c.placement].resources[i].resource;
               id in s.resources && c.resourceGenerations[i] == s.resources[id].generation
    ensures forall x :: x in t.placements[c.placement].resources ==>
              x.resource in s.resources && x.resource in t.resources
              && t.resources[x.resource] == s.resources[x.resource].(reserved := t.resources[x.resource].reserved)
  {
    hide Inv, Exec, ReportCompletion;
    RunVersions(limits, s, ops);
    CompletionExact(limits, t, c);
    var xs := t.placements[c.placement].resources;
    forall x | x in xs
      ensures x.resource in s.resources && x.resource in t.resources
              && t.resources[x.resource] == s.resources[x.resource].(reserved := t.resources[x.resource].reserved)
    {
      var i :| 0 <= i < |xs| && xs[i] == x;
      assert Later(s.resources[x.resource], t.resources[x.resource]);
    }
  }
}
