/** At most one live placement per unit (src/engine_lifecycle.cpp:60-67, 396-423,
    src/engine_scheduling.cpp:1216-1220, 1289-1301). The index is exact throughout a run if and only if no
    reassignment of it doubles: none places a unit again whose old target is dead while another placement of
    it is live. */
module Units {
  import opened Prelude
  import opened Records
  import opened Search
  import opened Planning
  import opened Transitions
  import opened Ledger
  import opened Invariants
  import opened Endings
  import opened Commitment
  import opened Steps
  import opened Phases
  import opened Runs

  /** The index knows every live placement; with `Indexed` it is exactly the live placements by unit. */
  ghost predicate UnitExact(placements: map<U64, Placement>, units: map<UnitKey, U64>) {
    forall id :: id in placements && Live(placements[id].state) ==>
      UnitOf(placements[id]) in units && units[UnitOf(placements[id])] == id
  }

  /** Two live placements of one unit. */
  ghost predicate TwoLive(placements: map<U64, Placement>, unit: UnitKey) {
    exists a, b :: a in placements && b in placements && a != b
                   && Live(placements[a].state) && Live(placements[b].state)
                   && UnitOf(placements[a]) == unit && UnitOf(placements[b]) == unit
  }

  lemma OneLivePerUnit(placements: map<U64, Placement>, units: map<UnitKey, U64>)
    requires UnitExact(placements, units)
    ensures forall unit :: !TwoLive(placements, unit)
  {
  }

  lemma TerminateUnits(s: State, id: U64, target: PlacementState)
    requires Linked(s.placements, s.reservations) && UnitExact(s.placements, s.unitCurrent) && !Live(target)
    ensures UnitExact(Terminate(s, id, target).placements, Terminate(s, id, target).unitCurrent)
    ensures id in s.placements && Live(s.placements[id].state) ==>
              UnitOf(s.placements[id]) !in Terminate(s, id, target).unitCurrent
  {
    hide Terminate, Linked;
    if id in s.placements && Live(s.placements[id].state) {
      TerminateShape(s, id, target);
    } else {
      TerminateDead(s, id, target);
    }
  }

  lemma {:induction false} SweepUnits(
    limits: Limits, s: State, ids: seq<U64>, pick: Placement -> bool, target: PlacementState)
    requires Inv(limits, s) && UnitExact(s.placements, s.unitCurrent) && !Live(target)
    ensures var t := TerminateWhere(s, ids, pick, target); UnitExact(t.placements, t.unitCurrent)
  {
    hide Inv, Terminate, UnitExact, Linked;
    if ids != [] {
      var n := |ids| - 1;
      var t := TerminateWhere(s, ids[..n], pick, target);
      SweepUnits(limits, s, ids[..n], pick, target);
      SweepInv(limits, s, ids[..n], pick, target);
      InvLinked(limits, t);
      TerminateUnits(t, ids[n], target);
    }
  }

  lemma LoseUnits(limits: Limits, s: State, worker: U64, boot: U64)
    requires Inv(limits, s) && UnitExact(s.placements, s.unitCurrent)
    ensures var t := Invalidate(s, worker, boot); UnitExact(t.placements, t.unitCurrent)
  {
    hide Inv, UnitExact, TerminateWhere, InvalidateResources;
    InvalidateResourcesInv(limits, s, worker, boot);
    SweepUnits(limits, Disowned(s, worker, boot), SortedKeys(s.placements.Keys),
               TouchedBy(worker, boot, AffectedResources(s, worker, boot)), ReassignmentRequired);
    InvalidateIsSweep(s, worker, boot);
  }

  /** A commit keeps the index exact if and only if the unit was free; otherwise the unit is live twice. */
  lemma PlaceUnits(limits: Limits, s: State, requestId: U64, generation: nat, count: nat, sel: Selection)
    requires Inv(limits, s) && CanPlace(limits, s, requestId, generation, count, sel)
    requires UnitExact(s.placements, s.unitCurrent)
    ensures var t := Commit(s, requestId, generation, count, sel).state;
            UnitExact(t.placements, t.unitCurrent)
            <==> UnitOfRequest(s.requests[requestId].request) !in s.unitCurrent
    ensures UnitOfRequest(s.requests[requestId].request) in s.unitCurrent ==>
              TwoLive(Commit(s, requestId, generation, count, sel).state.placements,
                      UnitOfRequest(s.requests[requestId].request))
  {
    hide Inv, Commit, Added, SoundSelection, RoomFor, TotalRoom, UnitExact, Linked, Grounded, Balanced, Numbered,
         Authority, Filed, Recorded, TwoLive;
    var p, rv := PlaceShape(limits, s, requestId, generation, count, sel);
    InvLinked(limits, s);
    UnitTaken(s.placements, s.unitCurrent, p);
  }

  lemma UnitTaken(ps: map<U64, Placement>, units: map<UnitKey, U64>, p: Placement)
    requires UnitExact(ps, units) && Indexed(units, ps) && p.id !in ps && Live(p.state)
    ensures UnitExact(ps[p.id := p], units[UnitOf(p) := p.id]) <==> UnitOf(p) !in units
    ensures UnitOf(p) in units ==> TwoLive(ps[p.id := p], UnitOf(p))
  {
    if UnitOf(p) in units {
      var q := units[UnitOf(p)];
      var after := ps[p.id := p];
      assert q in after && q != p.id && Live(after[q].state) && UnitOf(after[q]) == UnitOf(p);
      assert after[p.id] == p;
    }
  }

  lemma FinishUnits(s: State, c: CompletionClaim)
    requires Linked(s.placements, s.reservations) && UnitExact(s.placements, s.unitCurrent)
    requires CheckCompletion(s, c) == Ok
    ensures var t := ReportCompletion(s, c).state; UnitExact(t.placements, t.unitCurrent)
  {
    hide Linked, Terminate;
    var p := s.placements[c.placement].(completionRecorded := true);
    var recorded := s.(placements := s.placements[c.placement := p]);
    EditedLinked(s.placements, s.reservations, c.placement, p);
    TerminateUnits(recorded, c.placement, if c.succeeded then Completed else Failed);
  }

  lemma MarkUnits(s: State, id: U64, state: PlacementState)
    requires id in s.placements && Live(s.placements[id].state) && UnitExact(s.placements, s.unitCurrent)
    ensures UnitExact(s.placements[id := s.placements[id].(state := state)], s.unitCurrent)
  {
  }

  lemma PhaseUnits(limits: Limits, s: State, ph: Phase, t: State)
    requires Inv(limits, s) && Does(limits, s, ph, t) && UnitExact(s.placements, s.unitCurrent)
    requires ph.Place? ==> ph.requestId in s.requests
                           && UnitOfRequest(s.requests[ph.requestId].request) !in s.unitCurrent
    ensures UnitExact(t.placements, t.unitCurrent)
  {
    hide Inv, Terminate, TerminateWhere, Invalidate, ReportCompletion, CheckCompletion, CanPlace, Commit, Linked,
         Trusted, UnitExact, Grounded, Balanced, Numbered, Authority, Filed, Recorded, Indexed;
    InvLinked(limits, s);
    match ph
    case End(id, target) => TerminateUnits(s, id, target);
    case Finish(claim) => FinishUnits(s, claim);
    case Mark(id, state) => MarkUnits(s, id, state);
    case Sweep(requestId) =>
      SweepUnits(limits, s, SortedKeys(s.placements.Keys), BelongsTo(requestId), Cancelled);
    case Lose(worker, boot) => LoseUnits(limits, s, worker, boot);
    case Put(r) =>
    case Aside =>
    case Admit(request) =>
    case Place(requestId, generation, count, sel) => PlaceUnits(limits, s, requestId, generation, count, sel);
  }

  // ---------------------------------------------------------------- every step, every run

  /** A reassignment that its checks let through although its target is dead and another live placement
      holds the unit, with budget, log capacity and a ranking left to place it. */
  ghost predicate Doubles(limits: Limits, s: State, id: U64, generation: nat, epoch: nat) {
    && ReassignChecks(s, id, generation, epoch)
    && var p := s.placements[id];
       && !Live(p.state) && UnitOf(p) in s.unitCurrent
       && p.request in s.requests && p.reassignmentCount < s.requests[p.request].request.maxReassignments
       && Places(limits, s, s.requests[p.request].request)
  }

  /** Every reassignment of the run keeps units apart. */
  ghost function KeepsApart(limits: Limits): (State, Op) -> bool {
    (s: State, op: Op) => op.Reassign? ==> !Doubles(limits, s, op.id, op.generation, op.epoch)
  }

  ghost function UnitsExact(): State -> bool {
    (s: State) => UnitExact(s.placements, s.unitCurrent)
  }

  /** No unit has two live placements. */
  ghost function UnitsApart(): State -> bool {
    (s: State) => forall unit :: !TwoLive(s.placements, unit)
  }

  /** A reassignment names a live placement, or one whose unit nothing holds. */
  predicate ReassignsFree(s: State, op: Op) {
    op.Reassign? && op.id in s.placements ==>
      Live(s.placements[op.id].state) || UnitOf(s.placements[op.id]) !in s.unitCurrent
  }

  lemma FreeKeepsApart(limits: Limits, s: State, op: Op)
    requires ReassignsFree(s, op)
    ensures KeepsApart(limits)(s, op)
  {
  }

  lemma AsideUnits(limits: Limits, s: State, ph: Phase, t: State)
    requires Does(limits, s, ph, t) && (ph.Aside? || ph.Admit?)
    ensures t.unitCurrent == s.unitCurrent && t.placements == s.placements
    ensures forall k :: k in s.requests ==> k in t.requests && t.requests[k].request == s.requests[k].request
  {
  }

  /** A trace whose last phase may place keeps the index exact if the unit is free by then. */
  lemma TraceUnits(limits: Limits, s: State, trace: Trace, t: State)
    requires Inv(limits, s) && Follows(limits, s, trace, t) && UnitExact(s.placements, s.unitCurrent)
    requires !trace.a.Place? && !trace.b.Place?
    requires trace.c.Place? ==>
               trace.c.requestId in trace.s2.requests
               && UnitOfRequest(trace.s2.requests[trace.c.requestId].request) !in trace.s2.unitCurrent
    ensures UnitExact(t.placements, t.unitCurrent)
  {
    hide Inv, Does, UnitExact;
    PhaseUnits(limits, s, trace.a, trace.s1);
    PhaseUnits(limits, trace.s1, trace.b, trace.s2);
    PhaseUnits(limits, trace.s2, trace.c, t);
  }

  lemma SubmitUnits(limits: Limits, s: State, request: Request)
    requires Inv(limits, s) && s.lastId + 4 < TWO_64 && limits.maxRejectionReasons >= 1
    requires UnitExact(s.placements, s.unitCurrent)
    ensures Reschedulable(s)
    ensures var t := SubmitRequest(s, limits, request).state; UnitExact(t.placements, t.unitCurrent)
  {
    hide Inv, UnitExact, Does, SubmitRequest, Linked, Grounded, Balanced, Numbered, Authority, Filed, Recorded;
    var trace := SubmitPhases(limits, s, request);
    if trace.c.Place? {
      InvLinked(limits, s);
      AsideUnits(limits, s, trace.a, trace.s1);
      AsideUnits(limits, trace.s1, trace.b, trace.s2);
    }
    TraceUnits(limits, s, trace, SubmitRequest(s, limits, request).state);
  }

  lemma PreemptUnits(limits: Limits, s: State, id: U64, generation: nat, epoch: nat)
    requires Inv(limits, s) && s.lastId + 4 < TWO_64 && limits.maxRejectionReasons >= 1
    requires UnitExact(s.placements, s.unitCurrent)
    ensures Reschedulable(s)
    ensures var t := PreemptPlacement(s, limits, id, generation, epoch).state; UnitExact(t.placements, t.unitCurrent)
  {
    hide Inv, UnitExact, PreemptPlacement, Terminate, CanPlace;
    var trace := PreemptPhases(limits, s, id, generation, epoch);
    if trace.c.Place? {
      EndedUnit(limits, s, id, Preempted);
    }
    TraceUnits(limits, s, trace, PreemptPlacement(s, limits, id, generation, epoch).state);
  }

  /** Ending a live placement frees its unit; a dead one leaves the index alone. */
  lemma EndedUnit(limits: Limits, s: State, id: U64, target: PlacementState)
    requires Inv(limits, s) && UnitExact(s.placements, s.unitCurrent) && id in s.placements && !Live(target)
    ensures var p := s.placements[id]; var t := Terminate(s, id, target);
            && p.request in t.requests && UnitOfRequest(t.requests[p.request].request) == UnitOf(p)
            && UnitExact(t.placements, t.unitCurrent)
            && (UnitOf(p) in t.unitCurrent <==> !Live(p.state) && UnitOf(p) in s.unitCurrent)
  {
    hide Inv, UnitExact, Terminate, Linked, Grounded, Balanced, Numbered, Authority, Filed, Recorded, Indexed;
    InvLinked(limits, s);
    PlacementBudget(limits, s, id);
    TerminateFrame(s, id, target);
    TerminateUnits(s, id, target);
    if !Live(s.placements[id].state) {
      TerminateDead(s, id, target);
    }
  }

  /** Whether a reassignment that passed its checks places is decided by what is there before it. */
  lemma ReassignPlaces(limits: Limits, s: State, id: U64, generation: nat, epoch: nat)
    requires Inv(limits, s) && s.lastId + 4 < TWO_64 && limits.maxRejectionReasons >= 1
    requires id in s.placements && !Live(s.placements[id].state)
    ensures Reschedulable(s) && s.placements[id].request in s.requests
    ensures var o := ReassignPlacement(s, limits, id, generation, epoch); var p := s.placements[id];
            o.Done? && o.value.PlacedAt? <==>
              ReassignChecks(s, id, generation, epoch)
              && p.reassignmentCount < s.requests[p.request].request.maxReassignments
              && Places(limits, s, s.requests[p.request].request)
  {
    hide Inv, ReassignPlacement, Schedule, Terminate, Plannable, Reschedulable, Places, ReassignChecks;
    PlanReady(limits, s, 0);
    PlacementBudget(limits, s, id);
    TerminateDead(s, id, ReassignmentRequired);
    ReassignUnfolds(limits, s, id, generation, epoch);
    var p := s.placements[id];
    if p.reassignmentCount < s.requests[p.request].request.maxReassignments {
      PlacesExactly(limits, s, p.request, p.generation + 1, p.reassignmentCount + 1);
    }
  }

  /** A reassignment leaves two live placements of one unit exactly when it doubles, which can be told
      before the call. */
  lemma ReassignUnits(limits: Limits, s: State, id: U64, generation: nat, epoch: nat)
    requires Inv(limits, s) && s.lastId + 4 < TWO_64 && limits.maxRejectionReasons >= 1
    requires UnitExact(s.placements, s.unitCurrent)
    ensures Reschedulable(s)
    ensures var o := ReassignPlacement(s, limits, id, generation, epoch);
            UnitExact(o.state.placements, o.state.unitCurrent) <==> !Doubles(limits, s, id, generation, epoch)
    ensures Doubles(limits, s, id, generation, epoch) ==>
              id in s.placements
              && TwoLive(ReassignPlacement(s, limits, id, generation, epoch).state.placements,
                         UnitOf(s.placements[id]))
  {
    hide Inv, TwoLive, UnitExact, ReassignPlacement, Terminate, CanPlace, Commit, Places, Does, ReassignChecks;
    var trace := ReassignPhases(limits, s, id, generation, epoch);
    var t := ReassignPlacement(s, limits, id, generation, epoch).state;
    if id in s.placements && !Live(s.placements[id].state) {
      ReassignPlaces(limits, s, id, generation, epoch);
    }
    CheckedTarget(s, id, generation, epoch);
    if trace.c.Place? {
      EndsThenPlaces(limits, s, id, trace, t);
    } else {
      TraceUnits(limits, s, trace, t);
    }
  }

  lemma CheckedTarget(s: State, id: U64, generation: nat, epoch: nat)
    ensures ReassignChecks(s, id, generation, epoch) ==> id in s.placements
  {
  }

  lemma EndsThenPlaces(limits: Limits, s: State, id: U64, trace: Trace, t: State)
    requires Inv(limits, s) && UnitExact(s.placements, s.unitCurrent) && id in s.placements
    requires Follows(limits, s, trace, t) && trace.a == End(id, ReassignmentRequired) && trace.b.Aside?
    requires trace.c.Place? && trace.c.requestId == s.placements[id].request
    ensures UnitExact(t.placements, t.unitCurrent)
            <==> Live(s.placements[id].state) || UnitOf(s.placements[id]) !in s.unitCurrent
    ensures !Live(s.placements[id].state) && UnitOf(s.placements[id]) in s.unitCurrent ==>
              TwoLive(t.placements, UnitOf(s.placements[id]))
  {
    hide Inv, TwoLive, UnitExact, Terminate, CanPlace, Commit;
    EndedUnit(limits, s, id, ReassignmentRequired);
    AsideUnits(limits, trace.s1, trace.b, trace.s2);
    PlaceUnits(limits, trace.s2, trace.c.requestId, trace.c.generation, trace.c.count, trace.c.sel);
  }

  /** One operation keeps the index exact if and only if it is not a doubling reassignment. */
  lemma StepUnits(limits: Limits, s: State, op: Op)
    requires Inv(limits, s) && s.lastId + 4 < TWO_64 && limits.maxRejectionReasons >= 1
    requires UnitExact(s.placements, s.unitCurrent)
    ensures Reschedulable(s)
    ensures var t := Step(limits, s, op);
            && (UnitExact(t.placements, t.unitCurrent) <==> KeepsApart(limits)(s, op))
            && (UnitsApart()(t) <==> KeepsApart(limits)(s, op))
  {
    hide Inv, UnitExact, TwoLive, Follows, Doubles, SubmitRequest, ReassignPlacement, PreemptPlacement;
    var trace := StepPhases(limits, s, op);
    match op {
      case Submit(request) => SubmitUnits(limits, s, request);
      case Reassign(id, generation, epoch) => ReassignUnits(limits, s, id, generation, epoch);
      case Preempt(id, generation, epoch) => PreemptUnits(limits, s, id, generation, epoch);
      case _ => TraceUnits(limits, s, trace, Step(limits, s, op));
    }
    if KeepsApart(limits)(s, op) {
      OneLivePerUnit(Step(limits, s, op).placements, Step(limits, s, op).unitCurrent);
    }
  }

  /** No unit ever has two live placements in a run, and the index is exact throughout it, if and only if no
      reassignment of it doubles. */
  lemma {:induction false} RunUnits(limits: Limits, s: State, ops: seq<Op>)
    requires Inv(limits, s) && Roomy(s, |ops|) && limits.maxRejectionReasons >= 1
    requires UnitExact(s.placements, s.unitCurrent)
    ensures Throughout(limits, s, ops, UnitsExact()) <==> Guarded(limits, s, ops, KeepsApart(limits))
    ensures Throughout(limits, s, ops, UnitsApart()) <==> Guarded(limits, s, ops, KeepsApart(limits))
    decreases |ops|
  {
    hide Inv, Step, UnitExact, KeepsApart, TwoLive;
    OneLivePerUnit(s.placements, s.unitCurrent);
    if ops != [] {
      StepInv(limits, s, ops[0]);
      StepUnits(limits, s, ops[0]);
      var t := Step(limits, s, ops[0]);
      StartsGood(limits, t, ops[1..], UnitsExact());
      StartsGood(limits, t, ops[1..], UnitsApart());
      if UnitExact(t.placements, t.unitCurrent) {
        RunUnits(limits, t, ops[1..]);
      }
    }
  }

  /** In particular the index stays exact when reassignments name live placements or free units only. */
  lemma {:induction false} FreeRunUnits(limits: Limits, s: State, ops: seq<Op>)
    requires Inv(limits, s) && Roomy(s, |ops|) && limits.maxRejectionReasons >= 1
    requires UnitExact(s.placements, s.unitCurrent) && Guarded(limits, s, ops, ReassignsFree)
    ensures Throughout(limits, s, ops, UnitsExact()) && Throughout(limits, s, ops, UnitsApart())
    decreases |ops|
  {
    hide Inv, Step, UnitExact, KeepsApart, ReassignsFree, TwoLive;
    OneLivePerUnit(s.placements, s.unitCurrent);
    if ops != [] {
      StepInv(limits, s, ops[0]);
      FreeKeepsApart(limits, s, ops[0]);
      StepUnits(limits, s, ops[0]);
      FreeRunUnits(limits, Step(limits, s, ops[0]), ops[1..]);
    }
  }
}
