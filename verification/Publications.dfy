/** What a publication does beside replacing the advertisement (src/engine_resources.cpp:88-163): when it is
    accepted, which claims stay when it changes the incarnation, that it revives a lost resource, and that
    it may fail after a new incarnation was adopted. */
module Publications {
  import opened Prelude
  import opened Records
  import opened Transitions
  import opened Ledger
  import opened Invariants
  import opened Endings
  import opened Steps

  /** The publication comes from another incarnation of the resource's worker. */
  predicate ChangesIncarnation(s: State, ad: Advertisement) {
    && ValidAdvertisement(ad) && !s.shuttingDown && ad.id in s.resources
    && s.resources[ad.id].ad.worker == ad.worker && !s.resources[ad.id].lifecycle.Retired?
    && ad.worker != 0 && s.resources[ad.id].ad.boot != ad.boot
  }

  /** The incarnation is the connected one already. */
  predicate Connected(s: State, worker: U64, boot: U64) {
    worker in s.workers && s.workers[worker] == WorkerRecord(boot, true)
  }

  function Adopted(s: State, ad: Advertisement): State {
    if ChangesIncarnation(s, ad) then Adopt(s, ad.worker, ad.boot) else s
  }

  // ---------------------------------------------------------------- which claims stay

  /** The publication replaces a recorded incarnation, whose placements end. */
  predicate Displaces(s: State, ad: Advertisement) {
    ChangesIncarnation(s, ad) && ad.worker in s.workers && s.workers[ad.worker].boot != ad.boot
  }

  /** The reservation is active and its placement does not touch a displaced incarnation. */
  predicate Stays(s: State, ad: Advertisement, v: U64) {
    && v in s.reservations && s.reservations[v].state.Active? && s.reservations[v].placement in s.placements
    && (Displaces(s, ad) ==>
          var boot := s.workers[ad.worker].boot;
          !Touches(s.placements[s.reservations[v].placement], ad.worker, boot, AffectedResources(s, ad.worker, boot)))
  }

  function Staying(s: State, ad: Advertisement): map<U64, Reservation> {
    map v | v in s.reservations && Stays(s, ad, v) :: s.reservations[v]
  }

  /** The reservations that stay are exactly the active ones after the adoption. */
  lemma StayingExact(limits: Limits, s: State, ad: Advertisement, v: U64)
    requires Inv(limits, s)
    ensures var t := Adopted(s, ad);
            && (v in Staying(s, ad) <==> v in t.reservations && t.reservations[v].state.Active?)
            && (v in Staying(s, ad) ==> Staying(s, ad)[v] == t.reservations[v])
  {
    hide Inv, Invalidate, ChangesIncarnation, Touches, AffectedResources;
    InvLinkedOnly(limits, s);
    if v in s.reservations {
      ActiveOwner(s, v);
    }
    if Displaces(s, ad) {
      var boot := s.workers[ad.worker].boot;
      if v in s.reservations {
        LossRevokesOnce(limits, s, ad.worker, boot, v);
      } else {
        LossAddsNothing(limits, s, ad.worker, boot);
      }
    }
  }

  lemma ActiveOwner(s: State, v: U64)
    requires Linked(s.placements, s.reservations) && v in s.reservations
    ensures s.reservations[v].placement in s.placements
    ensures Live(s.placements[s.reservations[v].placement].state) <==> s.reservations[v].state.Active?
  {
    var id := s.reservations[v].placement;
    assert Bound(id, s.placements[id], s.reservations[s.placements[id].reservation]);
  }

  lemma LossAddsNothing(limits: Limits, s: State, worker: U64, boot: U64)
    requires Inv(limits, s)
    ensures Invalidate(s, worker, boot).reservations.Keys == s.reservations.Keys
  {
    hide Inv, LossSweep, Invalidate, Moved, Relieved, SameRequests;
    InvalidateIsSweep(s, worker, boot);
    LossSweepInv(limits, s, worker, boot);
  }

  /** Slots held after the adoption are the ones of the staying claims. */
  lemma StayingHeld(limits: Limits, s: State, ad: Advertisement, id: U64)
    requires Inv(limits, s)
    ensures Claimed(Adopted(s, ad).reservations, id) == Claimed(Staying(s, ad), id)
  {
    hide Inv, Adopted, Staying, SumOver;
    var rs, stay := Adopted(s, ad).reservations, Staying(s, ad);
    forall v | v in stay.Keys ensures v in rs && HeldBy(rs, id)(v) == HeldBy(stay, id)(v) {
      StayingExact(limits, s, ad, v);
    }
    forall v | v in rs.Keys - stay.Keys ensures HeldBy(rs, id)(v) == 0 {
      StayingExact(limits, s, ad, v);
    }
    SumRestrict(rs.Keys, stay.Keys, HeldBy(rs, id));
    SumCongruent(stay.Keys, HeldBy(rs, id), HeldBy(stay, id));
  }

  // ---------------------------------------------------------------- acceptance

  /** The checks of a publication, in terms of the state before it. */
  ghost predicate Accepts(s: State, ad: Advertisement) {
    && ValidAdvertisement(ad) && !s.shuttingDown && ad.id in s.resources
    && s.resources[ad.id].ad.worker == ad.worker && !s.resources[ad.id].lifecycle.Retired?
    && s.resources[ad.id].ad.resourceClass == ad.resourceClass
    && ad.occupancy + Claimed(Staying(s, ad), ad.id) <= ad.slots
  }

  lemma AdoptedFrame(limits: Limits, s: State, ad: Advertisement)
    requires Inv(limits, s)
    ensures var t := Adopted(s, ad);
            && Inv(limits, t) && t.resources.Keys == s.resources.Keys && t.epoch == s.epoch
            && (ad.id in s.resources ==>
                  t.resources[ad.id].ad.resourceClass == s.resources[ad.id].ad.resourceClass
                  && t.resources[ad.id].reserved == Claimed(Staying(s, ad), ad.id))
  {
    hide Inv, Adopt, ChangesIncarnation, Staying, Claimed;
    AdoptKeeps(limits, s, ad.worker, ad.boot);
    AdoptKeepsClasses(limits, s, ad.worker, ad.boot);
    StayingHeld(limits, s, ad, ad.id);
    if ad.id in s.resources {
      MirrorIs(limits, Adopted(s, ad), ad.id);
    }
  }

  lemma MirrorIs(limits: Limits, s: State, id: U64)
    requires Inv(limits, s) && id in s.resources
    ensures s.resources[id].reserved == Claimed(s.reservations, id)
  {
    hide Filed, Numbered, Linked, Grounded, Authority, Indexed, Recorded, Claimed;
  }

  lemma AdoptKeepsClasses(limits: Limits, s: State, worker: U64, boot: U64)
    requires Inv(limits, s)
    ensures var t := Adopt(s, worker, boot);
            t.resources.Keys == s.resources.Keys
            && forall id :: id in s.resources ==>
                 t.resources[id].ad.resourceClass == s.resources[id].ad.resourceClass
  {
    hide Inv, LossSweep, Invalidate, OnlyEnded, Disowned;
    if worker in s.workers && s.workers[worker].boot != boot {
      var previous := s.workers[worker].boot;
      InvalidateIsSweep(s, worker, previous);
      LossSweepInv(limits, s, worker, previous);
      EndsKeepClasses(Disowned(s, worker, previous), LossSweep(s, worker, previous));
      DisownedKeepsClasses(s, worker, previous);
    }
  }

  lemma EndsKeepClasses(s: State, t: State)
    requires OnlyEnded(s, t)
    ensures t.resources.Keys == s.resources.Keys
    ensures forall id :: id in s.resources ==>
              t.resources[id].ad.resourceClass == s.resources[id].ad.resourceClass
  {
  }

  lemma DisownedKeepsClasses(s: State, worker: U64, boot: U64)
    ensures var t := Disowned(s, worker, boot);
            t.resources.Keys == s.resources.Keys
            && forall id :: id in s.resources ==>
                 t.resources[id].ad.resourceClass == s.resources[id].ad.resourceClass
  {
  }

  /** A publication is accepted exactly when the state before it meets its checks, with the claims that
      stay through a change of incarnation. */
  lemma PublicationAccepted(limits: Limits, s: State, ad: Advertisement)
    requires Inv(limits, s)
    ensures PublishResource(s, ad).Done? <==> Accepts(s, ad)
    ensures Accepts(s, ad) ==>
              var t := Adopted(s, ad);
              ad.id in t.resources
              && PublishResource(s, ad).state
                 == t.(resources := t.resources[ad.id := Publication(t.resources[ad.id], ad, t.epoch)])
    ensures !Accepts(s, ad) ==> PublishResource(s, ad).state == Adopted(s, ad)
  {
    hide Inv, Adopt, ValidAdvertisement, Publication, Staying, Claimed, ValidResource;
    AdoptedFrame(limits, s, ad);
    if ad.id in s.resources && ValidAdvertisement(ad) {
      var t := Adopted(s, ad);
      if ad.occupancy + t.resources[ad.id].reserved <= ad.slots {
        PublicationValid(t.resources[ad.id], ad, t.epoch);
      }
    }
  }

  /** The record check at the end of a publication never fails. */
  lemma PublicationValid(r: Resource, ad: Advertisement, epoch: nat)
    requires ValidAdvertisement(ad) && ad.occupancy + r.reserved <= ad.slots
    ensures ValidResource(Publication(r, ad, epoch))
  {
    hide ValidAdvertisement;
  }

  /** Adoption changes nothing exactly when the incarnation is the connected one already. */
  lemma AdoptExact(s: State, worker: U64, boot: U64)
    ensures Adopt(s, worker, boot) == s <==> Connected(s, worker, boot)
    ensures Connected(Adopt(s, worker, boot), worker, boot)
  {
    hide Invalidate;
    assert Connected(Adopt(s, worker, boot), worker, boot);
    if Connected(s, worker, boot) {
      assert s.workers[worker := WorkerRecord(boot, true)] == s.workers;
    }
  }

  /** A refused publication leaves the state alone if and only if it did not change the incarnation to one
      that was not connected yet; otherwise that incarnation stays adopted and the placements of the one it
      replaced stay ended. */
  lemma RefusedPublication(limits: Limits, s: State, ad: Advertisement)
    requires Inv(limits, s) && PublishResource(s, ad).Refused?
    ensures PublishResource(s, ad).state == s <==>
              !(ChangesIncarnation(s, ad) && !Connected(s, ad.worker, ad.boot))
    ensures PublishResource(s, ad).state == if ChangesIncarnation(s, ad) then Adopt(s, ad.worker, ad.boot) else s
  {
    hide Inv, Adopt, ValidAdvertisement, Accepts, ChangesIncarnation, PublishResource;
    PublicationAccepted(limits, s, ad);
    AdoptExact(s, ad.worker, ad.boot);
  }

  /** An accepted publication makes the resource current again even if it was lost, and with an unchanged
      incarnation it does so without touching the worker records. */
  lemma PublicationRevives(s: State, ad: Advertisement)
    requires PublishResource(s, ad).Done?
    ensures var t := PublishResource(s, ad).state;
            && ad.id in s.resources && ad.id in t.resources
            && t.resources[ad.id].lifecycle.Current? && t.resources[ad.id].authoritative
            && t.resources[ad.id].ad == ad && t.resources[ad.id].validatedEpoch == t.epoch
            && (!ChangesIncarnation(s, ad) ==>
                  t == s.(resources := t.resources) && t.resources[ad.id].reserved == s.resources[ad.id].reserved)
  {
    hide Adopt, ValidAdvertisement;
  }
}
