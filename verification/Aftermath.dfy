/** What ends many placements at once leaves behind, record by record (src/engine_lifecycle.cpp:11-68, 340-372,
    src/engine_state.cpp:132-248): placements, their reservations, requests and units, and the resources of a
    lost incarnation. */
module Aftermath {
  import opened Prelude
  import opened Records
  import opened Planning
  import opened Transitions
  import opened Ledger
  import opened Invariants
  import opened Endings
  import opened Acceptance

  /** The live placements `gone` end as `state`, and whatever leads to them lets go; nothing else changes but
      the slots that come back. */
  ghost predicate Ends(
    s: State, t: State, gone: set<U64>, state: PlacementState, settled: ReservationState, outcome: RequestState)
  {
    && t == s.(placements := t.placements, reservations := t.reservations, requests := t.requests,
               unitCurrent := t.unitCurrent, resources := t.resources)
    && t.placements.Keys == s.placements.Keys
    && (forall id :: id in s.placements ==>
          t.placements[id] == if id in gone then s.placements[id].(state := state) else s.placements[id])
    && t.reservations.Keys == s.reservations.Keys
    && (forall v :: v in s.reservations ==>
          t.reservations[v] == if s.reservations[v].placement in gone then s.reservations[v].(state := settled)
                               else s.reservations[v])
    && t.requests.Keys == s.requests.Keys
    && (forall q :: q in s.requests ==>
          t.requests[q] == if s.requests[q].current in gone then s.requests[q].(current := 0, state := outcome)
                           else s.requests[q])
    && (forall key :: key in t.unitCurrent <==> key in s.unitCurrent && s.unitCurrent[key] !in gone)
    && (forall key :: key in t.unitCurrent ==> t.unitCurrent[key] == s.unitCurrent[key])
    && t.resources.Keys == s.resources.Keys
    && (forall r :: r in s.resources ==>
          t.resources[r] == s.resources[r].(reserved := t.resources[r].reserved)
          && t.resources[r].reserved == Claimed(t.reservations, r))
  }

  function GoneAmong(s: State, ids: seq<U64>, pick: Placement -> bool): set<U64> {
    set id | id in s.placements && id in ids && Live(s.placements[id].state) && pick(s.placements[id])
  }

  ghost predicate LetGo(s: State, t: State, gone: set<U64>, outcome: RequestState) {
    && t.requests.Keys == s.requests.Keys
    && (forall q :: q in s.requests ==>
          t.requests[q] == if s.requests[q].current in gone then s.requests[q].(current := 0, state := outcome)
                           else s.requests[q])
    && (forall key :: key in t.unitCurrent <==> key in s.unitCurrent && s.unitCurrent[key] !in gone)
    && (forall key :: key in t.unitCurrent ==> t.unitCurrent[key] == s.unitCurrent[key])
  }

  lemma InvPointers(limits: Limits, s: State)
    requires Inv(limits, s)
    ensures forall id :: id in s.placements ==> id != 0
    ensures forall q :: q in s.requests && s.requests[q].current != 0 ==>
              s.requests[q].current in s.placements && s.placements[s.requests[q].current].request == q
    ensures Indexed(s.unitCurrent, s.placements)
  {
    hide Filed, Linked, Grounded, Balanced, Authority, Indexed;
  }

  /** One ending lets go of its request and its unit only. */
  lemma EndLetsGo(limits: Limits, s: State, id: U64, target: PlacementState)
    requires Inv(limits, s) && id in s.placements && Live(s.placements[id].state) && !Live(target)
    ensures LetGo(s, Terminate(s, id, target), {id}, OutcomeOf(target))
  {
    hide Inv, Terminate, Linked;
    InvLinkedOnly(limits, s);
    InvPointers(limits, s);
    TerminateShape(s, id, target);
    forall q | q in s.requests
      ensures Terminate(s, id, target).requests[q]
           == if s.requests[q].current == id then s.requests[q].(current := 0, state := OutcomeOf(target))
              else s.requests[q]
    {
    }
  }

  lemma LetGoTwice(s: State, t: State, u: State, gone: set<U64>, id: U64, outcome: RequestState)
    requires LetGo(s, t, gone, outcome) && LetGo(t, u, {id}, outcome) && id != 0 && 0 !in gone
    ensures LetGo(s, u, gone + {id}, outcome)
  {
  }

  lemma NobodyLetsGo(s: State, outcome: RequestState)
    ensures LetGo(s, s, {}, outcome)
  {
  }

  lemma {:induction false} SweepLetsGo(
    limits: Limits, s: State, ids: seq<U64>, pick: Placement -> bool, target: PlacementState)
    requires Inv(limits, s) && !Live(target)
    ensures LetGo(s, TerminateWhere(s, ids, pick, target), GoneAmong(s, ids, pick), OutcomeOf(target))
  {
    hide Inv, Terminate, LetGo;
    if ids == [] {
      assert GoneAmong(s, ids, pick) == {};
      NobodyLetsGo(s, OutcomeOf(target));
    } else {
      var n := |ids| - 1;
      var id := ids[n];
      var t := TerminateWhere(s, ids[..n], pick, target);
      SweepLetsGo(limits, s, ids[..n], pick, target);
      SweepInv(limits, s, ids[..n], pick, target);
      SweepExact(s, ids[..n], pick, target);
      GoneNext(s, t, ids, pick, target);
      InvPointers(limits, s);
      if id in t.placements && Live(t.placements[id].state) && pick(t.placements[id]) {
        EndLetsGo(limits, t, id, target);
        LetGoTwice(s, t, Terminate(t, id, target), GoneAmong(s, ids[..n], pick), id, OutcomeOf(target));
      }
    }
  }

  lemma GoneNext(s: State, t: State, ids: seq<U64>, pick: Placement -> bool, target: PlacementState)
    requires ids != [] && !Live(target) && Swept(s.placements, t.placements, ids[..|ids| - 1], pick, target)
    ensures var id := ids[|ids| - 1]; var before := GoneAmong(s, ids[..|ids| - 1], pick);
            GoneAmong(s, ids, pick)
            == if id in t.placements && Live(t.placements[id].state) && pick(t.placements[id]) then before + {id}
               else before
  {
    var n := |ids| - 1;
    assert ids == ids[..n] + [ids[n]];
  }

  /** A sweep, record by record. */
  lemma SweepEnds(limits: Limits, s: State, ids: seq<U64>, pick: Placement -> bool, target: PlacementState)
    requires Inv(limits, s) && !Live(target)
    ensures Inv(limits, TerminateWhere(s, ids, pick, target))
    ensures Ends(s, TerminateWhere(s, ids, pick, target), GoneAmong(s, ids, pick), target, SettlementOf(target),
                 OutcomeOf(target))
  {
    hide Inv, TerminateWhere, LetGo, Swept, SweptReservations, OnlyEnded, GoneAmong;
    var t := TerminateWhere(s, ids, pick, target);
    SweepInv(limits, s, ids, pick, target);
    SweepExact(s, ids, pick, target);
    SweepSettles(limits, s, ids, pick, target);
    SweepLetsGo(limits, s, ids, pick, target);
    InvBalanced(limits, t);
    SweptIsEnds(s, t, ids, pick, target);
  }

  lemma SweptIsEnds(s: State, t: State, ids: seq<U64>, pick: Placement -> bool, target: PlacementState)
    requires Swept(s.placements, t.placements, ids, pick, target) && !Live(target) && OnlyEnded(s, t)
    requires SweptReservations(s, t.reservations, ids, pick, target)
    requires LetGo(s, t, GoneAmong(s, ids, pick), OutcomeOf(target)) && Balanced(t.resources, t.reservations)
    ensures Ends(s, t, GoneAmong(s, ids, pick), target, SettlementOf(target), OutcomeOf(target))
  {
    hide Claimed, Moved, Refreed, SameRequests;
  }

  // ---------------------------------------------------------------- cancelling a request

  /** The live placements of a request. */
  ghost function LiveOf(s: State, request: U64): set<U64> {
    set id | id in s.placements && s.placements[id].request == request
             && (s.placements[id].state == Reserved || s.placements[id].state == Assigned
                 || s.placements[id].state == Running)
  }

  lemma AllKeys(s: State, pick: Placement -> bool)
    ensures GoneAmong(s, SortedKeys(s.placements.Keys), pick)
         == set id | id in s.placements && Live(s.placements[id].state) && pick(s.placements[id])
  {
    forall id ensures id in SortedKeys(s.placements.Keys) <==> id in s.placements {
      SortedKeysExact(s.placements.Keys, id);
    }
  }

  /** Cancelling a known request ends its live placements as cancelled, releases what they held, and leaves the
      request cancelled without a current placement. */
  lemma CancelRequestEffect(limits: Limits, s: State, request: U64)
    requires Inv(limits, s)
    ensures var o := CancelRequest(s, request);
            && (o.Done? <==> request != 0 && request in s.requests)
            && (o.Refused? ==> o.state == s && o.code == if request == 0 then InvalidIdentity else NotFound)
            && (o.Done? ==>
                  exists t :: Ends(s, t, LiveOf(s, request), Cancelled, Released, RequestCancelled)
                    && request in t.requests
                    && o.state == t.(requests := t.requests[request :=
                                       s.requests[request].(state := RequestCancelled, current := 0)]))
  {
    hide Inv, TerminateWhere, Ends;
    if request != 0 && request in s.requests {
      var ids := SortedKeys(s.placements.Keys);
      var t := TerminateWhere(s, ids, BelongsTo(request), Cancelled);
      SweepEnds(limits, s, ids, BelongsTo(request), Cancelled);
      AllKeys(s, BelongsTo(request));
      assert GoneAmong(s, ids, BelongsTo(request)) == LiveOf(s, request);
      EndsKeepRequests(s, t, LiveOf(s, request), Cancelled, Released, RequestCancelled, request);
    }
  }

  lemma EndsKeepRequests(s: State, t: State, gone: set<U64>, state: PlacementState, settled: ReservationState,
                         outcome: RequestState, request: U64)
    requires Ends(s, t, gone, state, settled, outcome) && request in s.requests
    ensures request in t.requests
            && t.requests[request].(state := outcome, current := 0)
            == s.requests[request].(state := outcome, current := 0)
  {
  }

  // ---------------------------------------------------------------- losing an incarnation

  /** The resources an incarnation has authority over. */
  ghost function HeldByIncarnation(s: State, worker: U64, boot: U64): set<U64> {
    set id | id in s.resources && s.resources[id].ad.worker == worker && s.resources[id].ad.boot == boot
             && (s.resources[id].authoritative || s.resources[id].lifecycle == Current)
  }

  /** The live placements bound to it or to one of them. */
  ghost function LiveOn(s: State, worker: U64, boot: U64): set<U64> {
    set id | id in s.placements
             && (s.placements[id].state == Reserved || s.placements[id].state == Assigned
                 || s.placements[id].state == Running)
             && ((s.placements[id].worker == worker && s.placements[id].workerBoot == boot)
                 || exists x :: x in s.placements[id].resources && x.resource in HeldByIncarnation(s, worker, boot))
  }

  /** A lost resource: no authority, unknown health and readiness, and a new version of everything but its
      advertised state sequence. */
  ghost predicate LostRecord(r: Resource, l: Resource) {
    && l == r.(ad := l.ad, authoritative := false, lifecycle := Lost, generation := r.generation + 1,
               healthGeneration := r.healthGeneration + 1, capacityGeneration := r.capacityGeneration + 1,
               validatedEpoch := 0)
    && l.ad == r.ad.(health := HealthUnknown, readiness := ReadyUnknown)
  }

  /** The resources of the incarnation are lost, everything else is as it was. */
  ghost predicate Disowns(s: State, d: State, worker: U64, boot: U64) {
    && d == s.(resources := d.resources) && d.resources.Keys == s.resources.Keys
    && forall id :: id in s.resources ==>
         if id in HeldByIncarnation(s, worker, boot) then LostRecord(s.resources[id], d.resources[id])
         else d.resources[id] == s.resources[id]
  }

  lemma DisownedDisowns(s: State, worker: U64, boot: U64)
    ensures Disowns(s, Disowned(s, worker, boot), worker, boot)
  {
  }

  /** Losing an incarnation takes its resources, sends the placements on them back for reassignment, revokes
      what they held, and disconnects the worker if the incarnation was the recorded one. */
  lemma LossEffect(limits: Limits, s: State, worker: U64, boot: U64)
    requires Inv(limits, s)
    ensures exists d, t ::
              Disowns(s, d, worker, boot)
              && Ends(d, t, LiveOn(s, worker, boot), ReassignmentRequired, Revoked, Submitted)
              && Invalidate(s, worker, boot)
                 == t.(workers := if worker in s.workers && s.workers[worker].boot == boot
                                  then s.workers[worker := s.workers[worker].(connected := false)] else s.workers)
  {
    hide Inv, TerminateWhere, Ends, Disowned, Invalidate, Disowns;
    var d, t := Disowned(s, worker, boot), LossSweep(s, worker, boot);
    DisownedInv(limits, s, worker, boot);
    DisownedDisowns(s, worker, boot);
    var pick := TouchedBy(worker, boot, AffectedResources(s, worker, boot));
    var ids := SortedKeys(s.placements.Keys);
    SweepEnds(limits, d, ids, pick, ReassignmentRequired);
    DisownsPlacements(s, d, worker, boot);
    AllKeys(d, pick);
    TouchedIsLiveOn(s, d, worker, boot);
    InvalidateIsSweep(s, worker, boot);
  }

  lemma DisownsPlacements(s: State, d: State, worker: U64, boot: U64)
    requires Disowns(s, d, worker, boot)
    ensures d.placements == s.placements && d.workers == s.workers
  {
  }

  lemma TouchedIsLiveOn(s: State, d: State, worker: U64, boot: U64)
    requires d.placements == s.placements
    ensures (set id | id in d.placements && Live(d.placements[id].state)
                      && TouchedBy(worker, boot, AffectedResources(s, worker, boot))(d.placements[id]))
         == LiveOn(s, worker, boot)
  {
    assert AffectedResources(s, worker, boot) == HeldByIncarnation(s, worker, boot);
  }

  /** Adopting an incarnation loses another one of the worker if that was recorded, and connects the new one. */
  lemma AdoptionEffect(limits: Limits, s: State, worker: U64, boot: U64)
    requires Inv(limits, s)
    ensures worker !in s.workers || s.workers[worker].boot == boot ==>
              Adopt(s, worker, boot) == s.(workers := s.workers[worker := WorkerRecord(boot, true)])
    ensures worker in s.workers && s.workers[worker].boot != boot ==>
              exists d, t ::
                Disowns(s, d, worker, s.workers[worker].boot)
                && Ends(d, t, LiveOn(s, worker, s.workers[worker].boot), ReassignmentRequired, Revoked, Submitted)
                && Adopt(s, worker, boot) == t.(workers := s.workers[worker := WorkerRecord(boot, true)])
  {
    hide Inv, Invalidate, Ends, Disowns;
    if worker in s.workers && s.workers[worker].boot != boot {
      LossEffect(limits, s, worker, s.workers[worker].boot);
      var lost, found := s.workers[worker].(connected := false), WorkerRecord(boot, true);
      assert s.workers[worker := lost][worker := found] == s.workers[worker := found];
    }
  }
}
