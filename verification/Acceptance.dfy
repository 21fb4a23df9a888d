/** Which reports about a placement are accepted, and what an accepted one changes
    (src/engine_lifecycle.cpp:70-338). The chains of checks are compared with the authority a report has to
    show; the two agree for every report. */
module Acceptance {
  import opened Prelude
  import opened Records
  import opened Transitions
  import opened Ledger
  import opened Invariants
  import opened Endings
  import opened Steps

  // ---------------------------------------------------------------- assignment and start

  /** The report names this placement, its generation and the current epoch, from its worker if it says so. */
  predicate Addressed(s: State, id: U64, generation: nat, epoch: nat, boot: U64) {
    && id != 0 && generation != 0 && epoch != 0 && epoch == s.epoch
    && id in s.placements && s.placements[id].generation == generation
    && (boot == 0 || s.placements[id].workerBoot == boot)
  }

  /** A live placement may be assigned until it runs, and started at any time; only its state changes. */
  lemma MarksExact(s: State, id: U64, generation: nat, epoch: nat, boot: U64)
    ensures var o := MarkAssigned(s, id, generation, epoch, boot);
            && (o.Done? <==> Addressed(s, id, generation, epoch, boot)
                             && (s.placements[id].state.Reserved? || s.placements[id].state.Assigned?))
            && (o.Done? ==> o.value == s.placements[id].(state := Assigned)
                            && o.state == s.(placements := s.placements[id := o.value]))
            && (o.Refused? ==> o.state == s)
    ensures var o := MarkRunning(s, id, generation, epoch, boot);
            && (o.Done? <==> Addressed(s, id, generation, epoch, boot) && Live(s.placements[id].state))
            && (o.Done? ==> o.value == s.placements[id].(state := Running)
                            && o.state == s.(placements := s.placements[id := o.value]))
            && (o.Refused? ==> o.state == s)
  {
  }

  // ---------------------------------------------------------------- completion

  lemma {:induction false} SortedAgree(a: seq<int>, b: seq<int>)
    requires Weakly(a) && Weakly(b) && multiset(a) == multiset(b)
    ensures a == b
  {
    SameLength(a, b);
    if a != [] {
      HeadsAgree(a, b);
      TailsAgree(a, b);
      SortedAgree(a[1..], b[1..]);
      assert a == [a[0]] + a[1..] && b == [b[0]] + b[1..];
    }
  }

  lemma SameLength(a: seq<int>, b: seq<int>)
    requires multiset(a) == multiset(b)
    ensures |a| == |b|
  {
    assert |multiset(a)| == |a| && |multiset(b)| == |b|;
  }

  lemma HeadsAgree(a: seq<int>, b: seq<int>)
    requires Weakly(a) && Weakly(b) && multiset(a) == multiset(b) && |a| == |b| > 0
    ensures a[0] == b[0]
  {
    hide Weakly;
    assert a[0] in multiset(a) && b[0] in multiset(b);
    HeadIsLeast(b, a[0]);
    HeadIsLeast(a, b[0]);
  }

  lemma TailsAgree(a: seq<int>, b: seq<int>)
    requires multiset(a) == multiset(b) && |a| == |b| > 0 && a[0] == b[0]
    ensures multiset(a[1..]) == multiset(b[1..])
  {
    assert a == [a[0]] + a[1..] && b == [b[0]] + b[1..];
    assert multiset(a[1..]) == multiset(a) - multiset{a[0]};
    assert multiset(b[1..]) == multiset(b) - multiset{b[0]};
  }

  lemma HeadIsLeast(s: seq<int>, x: int)
    requires Weakly(s) && x in s
    ensures s[0] <= x
  {
    var i :| 0 <= i < |s| && s[i] == x;
    if i > 0 {
      assert s[0] <= s[i];
    }
  }

  /** Sorting before comparing compares the contents. */
  lemma SortComparesContents(a: seq<int>, b: seq<int>)
    ensures Sort(a) == Sort(b) <==> multiset(a) == multiset(b)
  {
    SortContents(a);
    SortContents(b);
    SortSorted(a);
    SortSorted(b);
    if multiset(a) == multiset(b) {
      SortedAgree(Sort(a), Sort(b));
    }
  }

  /** Every bound resource is registered with the generation the claim saw. */
  predicate GenerationsHold(s: State, p: Placement, generations: seq<nat>) {
    |generations| == |p.resources|
    && forall i :: 0 <= i < |generations| ==>
         p.resources[i].resource in s.resources && s.resources[p.resources[i].resource].generation == generations[i]
  }

  lemma {:induction false} GenerationsExact(s: State, p: Placement, generations: seq<nat>, i: nat)
    requires |generations| == |p.resources| && i <= |generations|
    ensures CheckGenerations(s, p, generations, i) == Ok <==>
            forall k :: i <= k < |generations| ==>
              p.resources[k].resource in s.resources
              && s.resources[p.resources[k].resource].generation == generations[k]
    decreases |generations| - i
  {
    if i < |generations| {
      GenerationsExact(s, p, generations, i + 1);
    }
  }

  /** The authority a completion has to show. */
  predicate Authorises(s: State, c: CompletionClaim) {
    && c.placement != 0 && c.placement in s.placements
    && var p := s.placements[c.placement];
       && c.epoch != 0 && c.epoch == s.epoch
       && c.experiment != 0 && c.experiment == p.experiment
       && c.experimentGeneration != 0 && c.experimentGeneration == p.experimentGeneration
       && c.generation == p.generation
       && Live(p.state) && !p.completionRecorded
       && (c.workerBoot == 0 || c.workerBoot == p.workerBoot)
       && (c.resources == [] || multiset(c.resources) == multiset(SelectedIds(p)))
       && (c.resourceGenerations == [] || GenerationsHold(s, p, c.resourceGenerations))
  }

  /** In every consistent state a completion is accepted exactly when it shows that authority: the check of
      the reservation never decides, because a live placement has an active one. */
  lemma CompletionExact(limits: Limits, s: State, c: CompletionClaim)
    requires Inv(limits, s)
    ensures ReportCompletion(s, c).Done? <==> Authorises(s, c)
    ensures ReportCompletion(s, c).Refused? ==> ReportCompletion(s, c).state == s
  {
    hide Inv, Sort, CheckGenerations, SelectedIds, GenerationsHold, Terminate;
    if c.placement in s.placements {
      var p := s.placements[c.placement];
      InvLinkedOnly(limits, s);
      SortComparesContents(c.resources, SelectedIds(p));
      ClaimedGenerations(s, p, c.resourceGenerations);
      if Live(p.state) {
        LiveReservation(s, c.placement);
      }
    }
  }

  lemma ClaimedGenerations(s: State, p: Placement, generations: seq<nat>)
    ensures |generations| == |p.resources| && CheckGenerations(s, p, generations, 0) == Ok
            <==> GenerationsHold(s, p, generations)
  {
    if |generations| == |p.resources| {
      GenerationsExact(s, p, generations, 0);
    }
  }

  // ---------------------------------------------------------------- what an ending changes

  /** The ending of a live placement, record by record: the placement takes its new state, its reservation is
      settled, exactly its slots come back, its request and its unit let go of it, and nothing else changes. */
  ghost predicate EndedAs(
    s: State, t: State, id: U64, ended: Placement, settled: ReservationState, outcome: RequestState)
  {
    && id in s.placements && s.placements[id].reservation in s.reservations
    && var p := s.placements[id]; var rv := s.reservations[p.reservation];
       && t == s.(placements := s.placements[id := ended],
                  reservations := s.reservations[p.reservation := rv.(state := settled)],
                  resources := t.resources, requests := t.requests, unitCurrent := t.unitCurrent)
       && t.resources.Keys == s.resources.Keys
       && (forall r :: r in s.resources ==>
             s.resources[r].reserved >= ClaimSlots(rv.claims, r)
             && t.resources[r] == s.resources[r].(reserved := s.resources[r].reserved - ClaimSlots(rv.claims, r)))
       && t.requests.Keys == s.requests.Keys
       && (forall q :: q in s.requests ==>
             t.requests[q] == if q == p.request && s.requests[q].current == id
                              then s.requests[q].(current := 0, state := outcome) else s.requests[q])
       && (forall key :: key in t.unitCurrent <==>
             key in s.unitCurrent && !(key == UnitOf(p) && s.unitCurrent[key] == id))
       && (forall key :: key in t.unitCurrent ==> t.unitCurrent[key] == s.unitCurrent[key])
  }

  /** What becomes of the request when its placement ends: completions and cancellations finish it, and what
      interrupts the placement only returns it to the queue. */
  function OutcomeOf(target: PlacementState): RequestState
    requires !Live(target)
  {
    if target == Completed then RequestCompleted
    else if target == Failed then RequestFailed
    else if target == Cancelled then RequestCancelled
    else Submitted
  }

  /** A reservation is released by an end and revoked by an interruption. */
  function SettlementOf(target: PlacementState): ReservationState {
    if target == Completed || target == Failed || target == Cancelled then Released else Revoked
  }

  lemma InvBalanced(limits: Limits, s: State)
    requires Inv(limits, s)
    ensures Balanced(s.resources, s.reservations)
  {
    hide Filed, Numbered, Linked, Grounded, Balanced, Authority, Indexed, Recorded;
  }

  /** Slots come back exactly, in every consistent state. */
  lemma SlotsComeBack(limits: Limits, s: State, v: U64)
    requires Inv(limits, s) && v in s.reservations && s.reservations[v].state.Active?
    ensures var claims := s.reservations[v].claims; var after := ReleaseClaims(s.resources, claims);
            after.Keys == s.resources.Keys
            && forall r :: r in s.resources ==>
                 ClaimSlots(claims, r) <= s.resources[r].reserved
                 && after[r] == s.resources[r].(reserved := s.resources[r].reserved - ClaimSlots(claims, r))
  {
    hide ClaimSlots, ReleaseClaims, Inv, Balanced, Relieved;
    InvBalanced(limits, s);
    ReleaseBalanced(s.resources, s.reservations, v, Completed);
    ReleaseExact(s.resources, s.reservations[v].claims);
  }

  lemma EndingExact(limits: Limits, s: State, id: U64, target: PlacementState)
    requires Inv(limits, s) && id in s.placements && Live(s.placements[id].state) && !Live(target)
    ensures EndedAs(s, Terminate(s, id, target), id, s.placements[id].(state := target), SettlementOf(target),
                    OutcomeOf(target))
  {
    hide Inv, Terminate, ClaimSlots, ReleaseClaims, Linked, SameRequests, SameAdvertisements;
    InvLinkedOnly(limits, s);
    TerminateShape(s, id, target);
    TerminateFrame(s, id, target);
    LiveReservation(s, id);
    SlotsComeBack(limits, s, s.placements[id].reservation);
  }

  /** An accepted cancellation ends the placement as cancelled. */
  lemma CancellationEffect(limits: Limits, s: State, id: U64, generation: nat, epoch: nat)
    requires Inv(limits, s) && CancelPlacement(s, id, generation, epoch).Done?
    ensures id in s.placements
    ensures EndedAs(s, CancelPlacement(s, id, generation, epoch).state, id, s.placements[id].(state := Cancelled),
                    Released, RequestCancelled)
  {
    hide Inv, Terminate, EndedAs;
    EndingExact(limits, s, id, Cancelled);
  }

  /** An accepted completion ends the placement as reported, and records that it was. */
  lemma CompletionEffect(limits: Limits, s: State, c: CompletionClaim)
    requires Inv(limits, s) && ReportCompletion(s, c).Done?
    ensures var target := if c.succeeded then Completed else Failed;
            c.placement in s.placements
            && EndedAs(s, ReportCompletion(s, c).state, c.placement,
                       s.placements[c.placement].(state := target, completionRecorded := true), Released,
                       if c.succeeded then RequestCompleted else RequestFailed)
  {
    hide Inv, Terminate, EndedAs;
    CompletionExact(limits, s, c);
    var id, target := c.placement, if c.succeeded then Completed else Failed;
    var p := s.placements[id].(completionRecorded := true);
    var recorded := s.(placements := s.placements[id := p]);
    PlacementEdited(limits, s, id, p);
    EndingExact(limits, recorded, id, target);
    RecordedEnding(s, recorded, Terminate(recorded, id, target), id, p.(state := target), Released, OutcomeOf(target));
  }

  lemma RecordedEnding(s: State, recorded: State, t: State, id: U64, ended: Placement, settled: ReservationState,
                       outcome: RequestState)
    requires id in s.placements
    requires recorded == s.(placements := s.placements[id := s.placements[id].(completionRecorded := true)])
    requires EndedAs(recorded, t, id, ended, settled, outcome)
    ensures EndedAs(s, t, id, ended, settled, outcome)
  {
    hide ClaimSlots;
    assert recorded.placements[id := ended] == s.placements[id := ended];
  }
}
