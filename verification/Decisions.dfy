/** What a scheduling decision means (src/engine_scheduling.cpp:940-1260): a placement that is recorded is
    the best whole placement the search space has, sound in the state it was chosen in; no placement means
    that the space has none. */
module Decisions {
  import opened Prelude
  import opened Records
  import opened Search
  import opened Planning
  import opened Transitions
  import opened Ledger
  import opened Invariants
  import opened Commitment
  import opened Interchange

  /** The placement records the selection: identity, slots and mode of the candidates, class, generation
      and owner of the resources they name. */
  ghost predicate Describes(s: State, request: Request, p: Placement, sel: Selection) {
    && |p.resources| == |sel| == |request.requirements|
    && forall i :: 0 <= i < |sel| ==>
         var x := p.resources[i];
         sel[i].id in s.resources && x.resource == sel[i].id && x.slots == sel[i].slots
         && x.exclusive == sel[i].exclusive && x.requirementName == request.requirements[i].name
         && x.resourceClass == s.resources[sel[i].id].ad.resourceClass
         && x.generation == s.resources[sel[i].id].generation
         && x.worker == s.resources[sel[i].id].ad.worker && x.workerBoot == s.resources[sel[i].id].ad.boot
  }

  ghost predicate Best(sp: Space, sel: Selection) {
    Valid(sp, sel) && forall other :: Valid(sp, other) ==> !Better(Search.Rank(sp, other), Search.Rank(sp, sel))
  }

  predicate Qualifies(x: Selected, skipDatasets: bool) {
    x.worker != 0 && !(skipDatasets && x.resourceClass.Dataset?)
  }

  /** The anchor of a placement is its first owned resource, datasets coming second. */
  lemma {:induction false} FirstOwnedExact(xs: seq<Selected>, skipDatasets: bool)
    ensures match FirstOwned(xs, skipDatasets)
            case Some(x) =>
              exists i :: 0 <= i < |xs| && xs[i] == x && Qualifies(x, skipDatasets)
                          && forall j :: 0 <= j < i ==> !Qualifies(xs[j], skipDatasets)
            case None => forall j :: 0 <= j < |xs| ==> !Qualifies(xs[j], skipDatasets)
  {
    if xs != [] && !Qualifies(xs[0], skipDatasets) {
      FirstOwnedExact(xs[1..], skipDatasets);
      match FirstOwned(xs[1..], skipDatasets)
      case None =>
        forall j | 0 <= j < |xs| ensures !Qualifies(xs[j], skipDatasets) {
          assert j > 0 ==> xs[j] == xs[1..][j - 1];
        }
      case Some(x) =>
        var i :| 0 <= i < |xs[1..]| && xs[1..][i] == x
                 && forall j :: 0 <= j < i ==> !Qualifies(xs[1..][j], skipDatasets);
        forall j | 0 <= j < i + 1 ensures !Qualifies(xs[j], skipDatasets) {
          assert j > 0 ==> xs[j] == xs[1..][j - 1];
        }
        assert xs[i + 1] == x;
    }
  }

  lemma EmptyListHasNone(sp: Space, i: nat, sel: Selection)
    requires i < |sp.choices| && sp.choices[i] == []
    ensures !Valid(sp, sel)
  {
    if |sel| == |sp.choices| {
      assert sel[i] !in sp.choices[i];
    }
  }

  /** The ranking a decision is made from: valid throughout, exact unless truncated. */
  lemma RankingExact(s: State, limits: Limits, request: Request)
    requires Schedulable(s, request) && limits.maxCandidatesRanked >= 1
    ensures var sp := SearchSpace(s, limits, request); var found := RankingOf(s, limits, request);
            && (found != [] ==> Valid(sp, Head(found).selection))
            && (found != [] && !Run(sp).truncated ==> Best(sp, Head(found).selection))
            && (found == [] && !Run(sp).truncated ==> forall sel :: !Valid(sp, sel))
  {
    hide Run, Head, ChoiceLists;
    var sp, lists := SearchSpace(s, limits, request), ChoiceLists(s, limits, request);
    PlanningIsExact(s, limits, request);
    ChoiceListsGenuine(s, limits, request);
    SpaceIsWellPosed(s, limits, request, lists);
    SearchIsExact(sp);
    if [] in lists {
      var i :| 0 <= i < |lists| && lists[i] == [];
      forall sel ensures !Valid(sp, sel) {
        EmptyListHasNone(sp, i, sel);
      }
    }
  }

  lemma RequestSchedulable(limits: Limits, s: State, requestId: U64)
    requires Inv(limits, s) && requestId in s.requests && limits.maxRequirements <= 16
    ensures Schedulable(s, s.requests[requestId].request)
  {
    hide Inv;
    PlanReady(limits, s, requestId);
    assert ValidRequest(s.requests[requestId].request, limits);
  }

  lemma CommitRecords(limits: Limits, s: State, requestId: U64, generation: nat, count: nat, sel: Selection)
    returns (p: Placement)
    requires Inv(limits, s) && requestId in s.requests && FreshIds(s)
    requires Committable(s, s.requests[requestId].request, sel)
    ensures Commit(s, requestId, generation, count, sel).Done?
    ensures Commit(s, requestId, generation, count, sel).value == PlacedAt(p.id)
    ensures p.id in Commit(s, requestId, generation, count, sel).state.placements
    ensures Commit(s, requestId, generation, count, sel).state.placements[p.id] == p
    ensures Describes(s, s.requests[requestId].request, p, sel)
    ensures p.state.Reserved? && p.request == requestId && p.epoch == s.epoch && p.decision == s.lastId
            && p.generation == generation && p.reassignmentCount == count
  {
    hide Inv, RoomFor, TotalRoom, Commit, Added;
    CommitShape(limits, s, requestId, generation, count, sel);
    RequestKnown(limits, s, requestId);
    var request := s.requests[requestId].request;
    p := NewPlacement(s, s.lastId + 1, request, generation, count, SelectedList(s, request, sel));
  }

  /** A decision of schedule_locked in a consistent state, for a request of at most 16 requirements. */
  lemma DecisionExact(limits: Limits, s: State, requestId: U64, forced: nat, count: nat)
    requires Inv(limits, s) && requestId in s.requests && s.lastId + 4 < TWO_64
    requires limits.maxRejectionReasons >= 1 && limits.maxCandidatesRanked >= 1 && limits.maxRequirements <= 16
    requires (if forced == 0 then 1 else forced) == count + 1
    requires count <= s.requests[requestId].request.maxReassignments
    ensures Plannable(s, s.requests[requestId].request)
    ensures var request := s.requests[requestId].request; var sp := SearchSpace(s, limits, request);
            var o := Schedule(s, limits, requestId, forced, count);
            && (o.Done? && o.value.PlacedAt? ==>
                  o.value.placement in o.state.placements
                  && exists sel :: Valid(sp, sel) && SoundSelection(s, request, sel)
                                   && Describes(s, request, o.state.placements[o.value.placement], sel)
                                   && (!Run(sp).truncated ==> Best(sp, sel)))
            && (o.Done? && o.value.NoValidPlacement? && !Run(sp).truncated ==> forall sel :: !Valid(sp, sel))
            && (o.Refused? ==> o.code == ResourceExhausted)
  {
    hide Inv, SoundSelection, Run, Head, SearchSpace, Commit, ValidRequest, Plannable, Schedule, HasCapacity, Best,
         Describes, RankingOf, Valid, Committable, Schedulable, ChoiceLists;
    var request := s.requests[requestId].request;
    PlanReady(limits, s, requestId);
    var sp := SearchSpace(s, limits, request);
    RequestSchedulable(limits, s, requestId);
    ScheduleInv(limits, s, requestId, forced, count);
    RankingExact(s, limits, request);
    var t := s.(lastId := s.lastId + 1);
    assert NextId(s.lastId) == s.lastId + 1;
    CountedInv(limits, s, s.lastId + 1);
    ScheduleCases(limits, s, t, requestId, forced, count);
    var found := RankingOf(s, limits, request);
    if found != [] && HasCapacity(t, limits) {
      var sel := Head(found).selection;
      RankingSound(s, limits, request);
      SoundTransfers(s, t, request, sel);
      SoundIsCommittable(limits, t, request, sel);
      var p := CommitRecords(limits, t, requestId, count + 1, count, sel);
      DescribesTransfers(s, t, request, sel);
    }
  }

  lemma DescribesTransfers(s: State, t: State, request: Request, sel: Selection)
    requires t == s.(lastId := t.lastId)
    ensures forall p :: Describes(t, request, p, sel) ==> Describes(s, request, p, sel)
  {
  }

  /** A best selection of the collapsed lists is best among all eligible resources, and none there means
      none at all. */
  lemma BestOverAll(s: State, limits: Limits, request: Request)
    requires Schedulable(s, request) && Collapsible(s, limits, request)
    ensures var sp := SearchSpace(s, limits, request); var full := FullSpace(s, limits, request);
            && (forall sel :: Best(sp, sel) ==> Best(full, sel))
            && ((forall sel :: !Valid(sp, sel)) ==> forall sel :: !Valid(full, sel))
  {
    hide Collapsible, ChoiceLists, Acceptable, AllGenuine;
    var sp, full := SearchSpace(s, limits, request), FullSpace(s, limits, request);
    forall other | Valid(full, other)
      ensures exists out :: Valid(sp, out)
      ensures forall sel :: Best(sp, sel) ==> !Better(Search.Rank(full, other), Search.Rank(full, sel))
    {
      FullIsGenuine(s, limits, request, other);
      var out := MoveIntoCollapsed(s, limits, request, other);
      assert Valid(sp, out) by { OutIsValid(s, limits, request, out); }
      forall sel | Best(sp, sel) ensures !Better(Search.Rank(full, other), Search.Rank(full, sel)) {
        assert Search.Rank(sp, out) == Search.Rank(full, out) && Search.Rank(sp, sel) == Search.Rank(full, sel);
        NotBetterTransitive(Search.Rank(full, other), Search.Rank(full, out), Search.Rank(full, sel));
      }
    }
    forall sel | Best(sp, sel) ensures Best(full, sel) {
      CollapsedIsGenuine(s, limits, request, sel);
    }
  }

  lemma OutIsValid(s: State, limits: Limits, request: Request, out: Selection)
    requires Plannable(s, request) && |out| == |request.requirements| && Acceptable(s, request, out)
    requires forall i :: 0 <= i < |out| ==> out[i] in ChoiceLists(s, limits, request)[i]
    ensures Valid(SearchSpace(s, limits, request), out)
  {
    hide Acceptable, Choices;
  }

  /** The placement that a scheduling decision records is the best over all eligible resources, and no
      placement means that no eligible resources make a valid one: whenever the collapse is harmless and the
      search was not cut short. */
  lemma DecisionIsOptimal(limits: Limits, s: State, requestId: U64, forced: nat, count: nat)
    requires Inv(limits, s) && requestId in s.requests && s.lastId + 4 < TWO_64
    requires limits.maxRejectionReasons >= 1 && limits.maxCandidatesRanked >= 1 && limits.maxRequirements <= 16
    requires (if forced == 0 then 1 else forced) == count + 1
    requires count <= s.requests[requestId].request.maxReassignments
    requires (PlanReady(limits, s, requestId);
              Collapsible(s, limits, s.requests[requestId].request)
              && !Run(SearchSpace(s, limits, s.requests[requestId].request)).truncated)
    ensures Plannable(s, s.requests[requestId].request)
    ensures var request := s.requests[requestId].request; var full := FullSpace(s, limits, request);
            var o := Schedule(s, limits, requestId, forced, count);
            && (o.Done? && o.value.PlacedAt? ==>
                  o.value.placement in o.state.placements
                  && exists sel :: Best(full, sel) && SoundSelection(s, request, sel)
                                   && Describes(s, request, o.state.placements[o.value.placement], sel))
            && (o.Done? && o.value.NoValidPlacement? ==> forall sel :: !Valid(full, sel))
            && (o.Refused? ==> o.code == ResourceExhausted)
  {
    hide Inv, SoundSelection, Run, SearchSpace, FullSpace, ValidRequest, Plannable, Schedule, Best, Describes, Valid,
         Schedulable, Collapsible;
    var request := s.requests[requestId].request;
    DecisionExact(limits, s, requestId, forced, count);
    RequestSchedulable(limits, s, requestId);
    BestOverAll(s, limits, request);
  }
}
