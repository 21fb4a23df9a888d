/** Reserved slots and current evidence (src/engine_scheduling.cpp:260, src/engine_resources.cpp:66-76,
    143-148, 182-190, src/engine_state.cpp:145-158). While no requirement waives current evidence, a
    resource without authority holds no reserved slots. */
module Evidence {
  import opened Prelude
  import opened Records
  import opened Eligibility
  import opened Search
  import opened Planning
  import opened Transitions
  import opened Ledger
  import opened Invariants
  import opened Endings
  import opened Commitment
  import opened Steps
  import opened Phases
  import opened Runs
  import opened Exclusivity

  ghost predicate StaleFree(resources: map<U64, Resource>) {
    forall id :: id in resources && !resources[id].authoritative ==> resources[id].reserved == 0
  }

  predicate NeedsEvidence(request: Request) {
    forall q :: q in request.requirements ==> q.requireCurrentEvidence
  }

  ghost predicate Evidenced(requests: map<U64, StoredRequest>) {
    forall id :: id in requests ==> NeedsEvidence(requests[id].request)
  }

  /** A new request waives nothing. */
  predicate SubmitsEvidenced(s: State, op: Op) {
    op.Submit? ==> NeedsEvidence(op.request)
  }

  lemma RelievedStale(before: map<U64, Resource>, after: map<U64, Resource>)
    requires StaleFree(before) && Relieved(before, after)
    ensures StaleFree(after)
  {
  }

  lemma LoseStale(limits: Limits, s: State, worker: U64, boot: U64)
    requires Inv(limits, s) && StaleFree(s.resources)
    ensures StaleFree(Invalidate(s, worker, boot).resources)
  {
    hide Inv, LossSweep, Invalidate, InvalidateResources;
    var d, u, t := Disowned(s, worker, boot), LossSweep(s, worker, boot), Invalidate(s, worker, boot);
    LossSweepInv(limits, s, worker, boot);
    LossIsComplete(limits, s, worker, boot);
    LoseWorkers(s, worker, boot);
    DisownedAuthority(s, worker, boot);
    forall id | id in t.resources && !t.resources[id].authoritative ensures t.resources[id].reserved == 0 {
      if id !in AffectedResources(s, worker, boot) {
        assert u.resources[id].reserved <= d.resources[id].reserved;
      }
    }
  }

  lemma DisownedAuthority(s: State, worker: U64, boot: U64)
    ensures var d := Disowned(s, worker, boot);
            d.resources.Keys == s.resources.Keys
            && forall id :: id in s.resources && id !in AffectedResources(s, worker, boot) ==>
                 d.resources[id] == s.resources[id]
  {
  }

  lemma FinishRelieves(limits: Limits, s: State, c: CompletionClaim)
    requires Inv(limits, s) && CheckCompletion(s, c) == Ok
    ensures Relieved(s.resources, ReportCompletion(s, c).state.resources)
  {
    hide Inv, Terminate, Relieved;
    var p := s.placements[c.placement].(completionRecorded := true);
    var recorded := s.(placements := s.placements[c.placement := p]);
    PlacementEdited(limits, s, c.placement, p);
    TerminateInv(limits, recorded, c.placement, if c.succeeded then Completed else Failed);
  }

  /** A commit leaves every resource without authority free if and only if it selects none. */
  lemma PlaceStale(limits: Limits, s: State, requestId: U64, generation: nat, count: nat, sel: Selection)
    requires Inv(limits, s) && CanPlace(limits, s, requestId, generation, count, sel) && StaleFree(s.resources)
    ensures Found(s, sel)
    ensures StaleFree(Commit(s, requestId, generation, count, sel).state.resources)
            <==> forall i :: 0 <= i < |sel| ==> s.resources[sel[i].id].authoritative
  {
    hide Inv, Commit, SoundSelection, RoomFor, TotalRoom, StaleFree, Added;
    var p, rv := PlaceShape(limits, s, requestId, generation, count, sel);
    AddedStale(s.resources, Commit(s, requestId, generation, count, sel).state.resources, sel);
  }

  lemma AddedStale(before: map<U64, Resource>, after: map<U64, Resource>, sel: Selection)
    requires Added(before, after, sel) && StaleFree(before)
    requires forall i :: 0 <= i < |sel| ==> sel[i].id in before && sel[i].slots >= 1
    ensures StaleFree(after) <==> forall i :: 0 <= i < |sel| ==> before[sel[i].id].authoritative
  {
    if forall i :: 0 <= i < |sel| ==> before[sel[i].id].authoritative {
      forall id | id in after && !after[id].authoritative ensures after[id].reserved == 0 {
        SelectionSlotsAbsent(sel, id);
      }
    } else {
      var i :| 0 <= i < |sel| && !before[sel[i].id].authoritative;
      SelectionSlotsOfMember(sel, i);
      assert after[sel[i].id].reserved >= 1;
    }
  }

  lemma {:induction false} SelectionSlotsOfMember(sel: Selection, i: nat)
    requires i < |sel|
    ensures sel[i].slots <= SelectionSlots(sel, sel[i].id)
  {
    var n := |sel| - 1;
    if i < n {
      SelectionSlotsOfMember(sel[..n], i);
    }
  }

  /** Requirements that ask for current evidence select only resources with authority. */
  lemma EvidencedSelection(s: State, request: Request, sel: Selection)
    requires SoundSelection(s, request, sel) && NeedsEvidence(request)
    ensures Found(s, sel) && forall i :: 0 <= i < |sel| ==> s.resources[sel[i].id].authoritative
  {
    hide Fits, HasRoom;
    forall i | 0 <= i < |sel| ensures s.resources[sel[i].id].authoritative {
      assert request.requirements[i] in request.requirements;
      assert Meets(request, request.requirements[i], s.resources[sel[i].id]);
    }
  }

  /** Every phase but a commit leaves resources without authority free. */
  lemma PhaseFrees(limits: Limits, s: State, ph: Phase, t: State)
    requires Inv(limits, s) && Does(limits, s, ph, t) && StaleFree(s.resources) && !ph.Place?
    ensures StaleFree(t.resources)
  {
    hide Inv, Terminate, TerminateWhere, Invalidate, ReportCompletion, CheckCompletion, Trusted, Moved, Refreed;
    match ph
    case End(id, target) => TerminateInv(limits, s, id, target); RelievedStale(s.resources, t.resources);
    case Finish(claim) => FinishRelieves(limits, s, claim); RelievedStale(s.resources, t.resources);
    case Sweep(requestId) =>
      SweepInv(limits, s, SortedKeys(s.placements.Keys), BelongsTo(requestId), Cancelled);
      RelievedStale(s.resources, t.resources);
    case Lose(worker, boot) => LoseStale(limits, s, worker, boot);
    case Mark(id, state) =>
    case Aside =>
    case Admit(request) =>
    case Put(r) =>
  }

  lemma PhaseStale(limits: Limits, s: State, ph: Phase, t: State)
    requires Inv(limits, s) && Does(limits, s, ph, t) && StaleFree(s.resources) && Evidenced(s.requests)
    ensures StaleFree(t.resources)
  {
    hide Inv, Commit, Committable, SoundSelection, NeedsEvidence, StaleFree;
    if ph.Place? {
      PlaceDoes(limits, s, ph, t);
      EvidencedSelection(s, s.requests[ph.requestId].request, ph.sel);
      PlaceStale(limits, s, ph.requestId, ph.generation, ph.count, ph.sel);
    } else {
      PhaseFrees(limits, s, ph, t);
    }
  }

  lemma FinishRequests(s: State, c: CompletionClaim)
    requires CheckCompletion(s, c) == Ok
    ensures SameRequests(ReportCompletion(s, c).state.requests, s.requests)
  {
    hide Terminate;
    var p := s.placements[c.placement].(completionRecorded := true);
    var recorded := s.(placements := s.placements[c.placement := p]);
    TerminateFrame(recorded, c.placement, if c.succeeded then Completed else Failed);
  }

  /** The texts of the requests an operation leaves behind. */
  lemma PhaseRequests(limits: Limits, s: State, ph: Phase, t: State)
    requires Inv(limits, s) && Does(limits, s, ph, t) && Evidenced(s.requests)
    requires ph.Admit? ==> NeedsEvidence(ph.request)
    ensures Evidenced(t.requests)
  {
    hide Inv, Terminate, TerminateWhere, Invalidate, CheckCompletion, Commit, Committable, Trusted, SoundSelection,
         NeedsEvidence, CanPlace;
    match ph
    case End(id, target) => TerminateFrame(s, id, target);
    case Finish(claim) => FinishRequests(s, claim);
    case Sweep(requestId) =>
      SweepInv(limits, s, SortedKeys(s.placements.Keys), BelongsTo(requestId), Cancelled);
    case Lose(worker, boot) => LossFrame(limits, s, worker, boot);
    case Mark(id, state) =>
    case Aside =>
    case Admit(request) =>
    case Put(r) =>
    case Place(requestId, generation, count, sel) => PlaceRequests(limits, s, requestId, generation, count, sel);
  }

  lemma PlaceRequests(limits: Limits, s: State, requestId: U64, generation: nat, count: nat, sel: Selection)
    requires Inv(limits, s) && CanPlace(limits, s, requestId, generation, count, sel)
    ensures SameRequests(Commit(s, requestId, generation, count, sel).state.requests, s.requests)
  {
    hide Inv, Commit, SoundSelection, RoomFor, TotalRoom, Added;
    var p, rv := PlaceShape(limits, s, requestId, generation, count, sel);
  }

  lemma StepEvidence(limits: Limits, s: State, op: Op)
    requires Inv(limits, s) && s.lastId + 4 < TWO_64 && limits.maxRejectionReasons >= 1
    requires StaleFree(s.resources) && Evidenced(s.requests) && SubmitsEvidenced(s, op)
    ensures Reschedulable(s)
    ensures var t := Step(limits, s, op); StaleFree(t.resources) && Evidenced(t.requests)
  {
    hide Inv, Does, StaleFree, Evidenced, NeedsEvidence, Step;
    var trace := StepPhases(limits, s, op);
    PhaseStale(limits, s, trace.a, trace.s1);
    PhaseRequests(limits, s, trace.a, trace.s1);
    PhaseStale(limits, trace.s1, trace.b, trace.s2);
    PhaseRequests(limits, trace.s1, trace.b, trace.s2);
    PhaseStale(limits, trace.s2, trace.c, Step(limits, s, op));
    PhaseRequests(limits, trace.s2, trace.c, Step(limits, s, op));
  }

  /** In every run in which no requirement waives current evidence, a resource without authority, and so
      every retired or lost one, holds no reserved slots. */
  lemma {:induction false} RunEvidence(limits: Limits, s: State, ops: seq<Op>)
    requires Inv(limits, s) && Roomy(s, |ops|) && limits.maxRejectionReasons >= 1
    requires StaleFree(s.resources) && Evidenced(s.requests) && Guarded(limits, s, ops, SubmitsEvidenced)
    ensures var t := Exec(limits, s, ops); StaleFree(t.resources) && Evidenced(t.requests)
    decreases |ops|
  {
    hide Inv, Step, StaleFree, Evidenced, SubmitsEvidenced;
    if ops != [] {
      StepInv(limits, s, ops[0]);
      StepEvidence(limits, s, ops[0]);
      RunEvidence(limits, Step(limits, s, ops[0]), ops[1..]);
    }
  }
}
