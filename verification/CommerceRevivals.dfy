/**
 The whole history of one grant: what every transaction does to it, and exactly
 when a grant revoked by hand is active again.
 */
module CommerceRevivals {
  import opened Common
  import opened Commerce
  import opened CommerceInvariant
  import opened CommerceSteps
  import opened CommerceAccess
  import opened CommerceRevisions
  import CommerceTheorems

  // --------------------------------------------------------------- what an event means for a grant

  datatype Fate = Given | Dropped | Ended | Untouched

  /** The event revokes the grant for a reason other than a revision. */
  ghost predicate Ends(db: Db, event: Event, g: GrantId) {
    match event
    case Evidenced(scope, connectionId, deliveries, now) =>
      var r := Reconcile(db, scope, connectionId, deliveries, |deliveries|, now);
      r.Ok? && g.origin.OfPurchase? && g.origin.payment in r.value.payments && Terminal(r.value.payments[g.origin.payment].state)
    case GiftRevoked(owner, gift) => g.origin == OfGift(gift) && gift in db.gifts && gift.scope.owner == owner
    case GrantRevoked(id) => id == g
    case CustomerErasedNow(subject) => EraseCustomer(db, subject).Ok? && g in db.grants && db.grants[g].customerId == Some(subject)
    case RolesExpired(now) => g in db.grants && TimedOut(db.grants[g], now)
    case _ => false
  }

  // The records as a revision finds them: its version is stored first.
  function WithVersion(db: Db, offer: Offer): Db {
    db.(offers := db.offers + [offer])
  }

  ghost function FateOf(db: Db, event: Event, g: GrantId): Fate {
    if !event.Revised? then (if Ends(db, event, g) then Ended else Untouched)
    else if !Applies(WithVersion(db, event.offer), g.origin, event.offer, event.now) then Untouched
    else if g.benefit in AccessFor(WithVersion(db, event.offer), g.origin, event.offer) then Given
    else Dropped
  }

  /** All that decides whether a grant can come back. */
  datatype Standing = Standing(active: bool, removed: bool)

  function StandingOf(g: Grant): Standing {
    Standing(g.state == Active, g.contentRemoved)
  }

  function After(s: Standing, f: Fate): Standing {
    match f
    case Given => Standing(s.active || s.removed, false)
    case Dropped => Standing(false, true)
    case Ended => s.(active := false)
    case Untouched => s
  }

  /** A revision visits what the store lists. */
  ghost predicate Listed(db: Db, event: Event) {
    event.Revised? ==> ListsEach(WithVersion(db, event.offer), event.purchases, event.giftOrder)
  }

  ghost predicate AllListed(db: Db, events: seq<Event>)
    decreases |events|
  {
    events != [] ==> Listed(db, events[0]) && AllListed(Step(db, events[0]), events[1..])
  }

  // --------------------------------------------------------------- evidence

  lemma {:induction false} InsertingKeeps(grants: map<GrantId, Grant>, origin: Origin, benefits: seq<Benefit>, n: nat,
                                          customer: Option<string>, terms: Terms, contents: Offer, now: int, g: GrantId)
    requires n <= |benefits| && InsertGrants(grants, origin, benefits, n, customer, terms, contents, now).Some?
    requires g in grants
    ensures var t := InsertGrants(grants, origin, benefits, n, customer, terms, contents, now).value;
            g in t && t[g] == grants[g]
  {
    hide NewGrant;
    if n > 0 {
      InsertingKeeps(grants, origin, benefits, n - 1, customer, terms, contents, now, g);
    }
  }

  // A grant of the evidence's payment is revoked once that is refunded or reversed; no other changes.
  lemma ApplyingEnds(db: Db, scope: Scope, connectionId: string, e: Evidence, secret: Secret, now: int, g: GrantId)
    requires ApplyEvidence(db, scope, connectionId, e, secret, now).Ok? && g in db.grants
    ensures var id, t := KeyOf(scope, e), ApplyEvidence(db, scope, connectionId, e, secret, now).value;
            && g in t.grants && id in t.payments
            && t.grants[g] == (if Terminal(t.payments[id].state) && db.grants[g].origin == OfPurchase(id)
                               then db.grants[g].(state := Revoked) else db.grants[g])
            && (forall p :: p != id ==> (p in t.payments <==> p in db.payments) && (p in db.payments ==> t.payments[p] == db.payments[p]))
  {
    hide Recorded, Accepted, OfferFor, Disconnected, Purchased, AccessBenefits, CurrentContents, InsertGrants, EndOf, OrderFor;
    var id, after := KeyOf(scope, e), Recorded(db, scope, connectionId, e, now);
    RecordedStates(db, scope, connectionId, e, now);
    RecordingKeepsOffers(db, scope, connectionId, e, now);
    if Paid(after.payments[id].state) && id !in db.purchases {
      var offer := OfferFor(db, scope, e).value;
      var contents := CurrentContents(after.offers, offer);
      var access := AccessBenefits(offer, contents);
      PurchasedIs(after, scope, e, offer, secret, now);
      InsertingKeeps(after.grants, OfPurchase(id), access, |access|, NewPurchase(OrderFor(after, scope, e), offer, contents, e, now).customerId,
                     Terms(now, EndOf(offer, e, now)), contents, now, g);
    }
  }

  ghost predicate Refunded(db: Db, g: GrantId) {
    g.origin.OfPurchase? && g.origin.payment in db.payments && Terminal(db.payments[g.origin.payment].state)
  }

  lemma {:induction false} ReconcilingEnds(db: Db, scope: Scope, connectionId: string, deliveries: seq<Delivery>, n: nat, now: int, g: GrantId)
    requires Inv(db) && n <= |deliveries| && Reconcile(db, scope, connectionId, deliveries, n, now).Ok? && g in db.grants
    ensures var t := Reconcile(db, scope, connectionId, deliveries, n, now).value;
            && g in t.grants && t.grants[g] == (if Refunded(t, g) then db.grants[g].(state := Revoked) else db.grants[g])
  {
    hide ApplyEvidence, Inv, Advances, Terminal;
    if n == 0 {
      RefundedIsRevoked(db, g);
    } else {
      var before, d := Reconcile(db, scope, connectionId, deliveries, n - 1, now).value, deliveries[n - 1];
      ReconcilingEnds(db, scope, connectionId, deliveries, n - 1, now, g);
      ReconcilingIsGood(db, scope, connectionId, deliveries, n - 1, now);
      ApplyingEnds(before, scope, connectionId, d.evidence, d.secret, now, g);
      ApplyingIsGood(before, scope, connectionId, d.evidence, d.secret, now);
      FiledAsNamed(before, g);
      if Refunded(before, g) {
        StaysRefunded(before, ApplyEvidence(before, scope, connectionId, d.evidence, d.secret, now).value, g);
      }
    }
  }

  lemma RefundedIsRevoked(db: Db, g: GrantId)
    requires Inv(db) && g in db.grants
    ensures Refunded(db, g) ==> db.grants[g].state == Revoked
    ensures db.grants[g].origin == g.origin
  {
    assert GrantOk(db, g);
    if g.origin.OfPurchase? {
      assert FinalOk(db, g.origin.payment);
    }
  }

  lemma FiledAsNamed(db: Db, g: GrantId)
    requires Inv(db) && g in db.grants
    ensures db.grants[g].origin == g.origin
  {
    assert GrantOk(db, g);
  }

  lemma StaysRefunded(db: Db, t: Db, g: GrantId)
    requires Advances(db, t) && Refunded(db, g)
    ensures Refunded(t, g)
  {
    assert PaymentMoves(db, t, g.origin.payment);
  }

  // --------------------------------------------------------------- every other transaction

  lemma {:induction false} ClaimingKeepsGrants(db: Db, subject: string, listed: seq<GiftKey>, n: nat, now: int, g: GrantId)
    requires n <= |listed| && subject in db.customers && ClaimGifts(db, subject, listed, n, now).Ok? && g in db.grants
    ensures var t := ClaimGifts(db, subject, listed, n, now).value;
            g in t.grants && t.grants[g] == db.grants[g]
  {
    hide AccessBenefits, InsertGrants, CurrentContents, ClaimedGift, FindOffer;
    if n > 0 {
      ClaimingKeepsGrants(db, subject, listed, n - 1, now, g);
      var before := ClaimGifts(db, subject, listed, n - 1, now).value;
      ClaimingOneKeepsGrants(before, subject, listed[n - 1], now, g);
    }
  }

  lemma ClaimingOneKeepsGrants(db: Db, subject: string, id: GiftKey, now: int, g: GrantId)
    requires subject in db.customers && ClaimGift(db, subject, id, now).Ok? && g in db.grants
    ensures var t := ClaimGift(db, subject, id, now).value;
            g in t.grants && t.grants[g] == db.grants[g]
  {
    hide AccessBenefits, InsertGrants, CurrentContents, ClaimedGift, FindOffer;
    if ClaimGift(db, subject, id, now).value != db {
      var offer := FindOffer(db.offers, db.gifts[id].offerVersionId).value;
      var contents := CurrentContents(db.offers, offer);
      var access := AccessBenefits(offer, contents);
      InsertingKeeps(db.grants, OfGift(id), access, |access|, Some(subject),
                     Terms(now, ClaimedGift(db.gifts[id], subject, contents, now).endsAt), contents, now, g);
    }
  }

  ghost predicate StandsAfter(db: Db, event: Event, g: GrantId)
    requires g in db.grants
  {
    g in Step(db, event).grants && StandingOf(Step(db, event).grants[g]) == After(StandingOf(db.grants[g]), FateOf(db, event, g))
  }

  lemma EvidenceStands(db: Db, event: Event, g: GrantId)
    requires Inv(db) && g in db.grants && event.Evidenced?
    ensures StandsAfter(db, event, g)
  {
    hide Inv, Reconcile;
    if Reconcile(db, event.scope, event.connectionId, event.deliveries, |event.deliveries|, event.now).Ok? {
      ReconcilingEnds(db, event.scope, event.connectionId, event.deliveries, |event.deliveries|, event.now, g);
    }
  }

  lemma SoundWithVersion(db: Db, offer: Offer)
    requires Inv(db)
    ensures Inv(WithVersion(db, offer))
  {
    SameAccessIsGood(db, WithVersion(db, offer));
  }

  lemma RevisionStands(db: Db, event: Event, g: GrantId)
    requires Inv(db) && g in db.grants && event.Revised? && Listed(db, event)
    ensures StandsAfter(db, event, g)
  {
    hide Inv, UpdateAccessContents, Applies, AccessFor, ListsEach;
    var start := WithVersion(db, event.offer);
    SoundWithVersion(db, event.offer);
    if Applies(start, g.origin, event.offer, event.now) {
      AppliesToFiled(start, g, event.offer, event.now);
      RevisionSelectsAccess(start, event.offer, event.purchases, event.giftOrder, event.now, g);
    } else {
      RevisionLeavesOthersAlone(start, event.offer, event.purchases, event.giftOrder, event.now, g.origin);
    }
  }

  lemma AppliesToFiled(db: Db, g: GrantId, revised: Offer, now: int)
    requires Inv(db) && g in db.grants && Applies(db, g.origin, revised, now)
    ensures g.serial == 0
    ensures FindOffer(db.offers, VersionOf(db, g.origin)).Some?
  {
    assert GrantOk(db, g);
  }

  lemma GiftRevocationStands(db: Db, event: Event, g: GrantId)
    requires Inv(db) && g in db.grants && event.GiftRevoked?
    ensures StandsAfter(db, event, g)
  {
    hide Reconcile, UpdateAccessContents, Applies, AccessFor, Updates, ClaimGifts, RedeemClaim, OpenLibrary, EraseCustomer, Revoke, RevokeTimedOut, ManualGrant, GiftOffer;
    hide Inv;
    FiledAsNamed(db, g);
  }

  lemma HandRevocationStands(db: Db, event: Event, g: GrantId)
    requires g in db.grants && event.GrantRevoked?
    ensures StandsAfter(db, event, g)
  {
    hide Reconcile, UpdateAccessContents, Applies, AccessFor, Updates, ClaimGifts, RedeemClaim, OpenLibrary, EraseCustomer, RevokeOf, RevokeTimedOut, ManualGrant, GiftOffer, RevokeGift;
  }

  lemma ExpiryStands(db: Db, event: Event, g: GrantId)
    requires g in db.grants && event.RolesExpired?
    ensures StandsAfter(db, event, g)
  {
    hide Reconcile, UpdateAccessContents, Applies, AccessFor, Updates, ClaimGifts, RedeemClaim, OpenLibrary, EraseCustomer, RevokeOf, Revoke, ManualGrant, GiftOffer, RevokeGift;
  }

  lemma ErasureStands(db: Db, event: Event, g: GrantId)
    requires g in db.grants && event.CustomerErasedNow?
    ensures StandsAfter(db, event, g)
  {
    hide Reconcile, UpdateAccessContents, Applies, AccessFor, Updates, ClaimGifts, RedeemClaim, OpenLibrary, RevokeOf, Revoke, RevokeTimedOut, ManualGrant, GiftOffer, RevokeGift;
    hide ForgetBuyer, DropClaims, ForgetRecipient, Subscribes;
  }

  lemma RedemptionStands(db: Db, event: Event, g: GrantId)
    requires g in db.grants && event.ClaimRedeemed?
    ensures StandsAfter(db, event, g)
  {
    hide Reconcile, UpdateAccessContents, Applies, AccessFor, Updates, ClaimGifts, OpenLibrary, EraseCustomer, RevokeOf, Revoke, RevokeTimedOut, ManualGrant, GiftOffer, RevokeGift;
  }

  lemma OpeningStands(db: Db, event: Event, g: GrantId)
    requires g in db.grants && event.LibraryOpened?
    ensures StandsAfter(db, event, g)
  {
    hide Reconcile, UpdateAccessContents, Applies, AccessFor, Updates, ClaimGifts, RedeemClaim, EraseCustomer, RevokeOf, Revoke, RevokeTimedOut, ManualGrant, GiftOffer, RevokeGift;
    if OpenLibrary(db, event.subject, event.giftOrder, event.now).Ok? {
      ClaimingKeepsGrants(WithCustomer(db, event.subject).value, event.subject, event.giftOrder, |event.giftOrder|, event.now, g);
    }
  }

  lemma OtherStands(db: Db, event: Event, g: GrantId)
    requires g in db.grants && (event.GiftOffered? || event.GrantedByHand? || event.Elsewhere?)
    ensures StandsAfter(db, event, g)
  {
    hide Reconcile, UpdateAccessContents, Applies, AccessFor, Updates, ClaimGifts, RedeemClaim, OpenLibrary, EraseCustomer, RevokeOf, Revoke, RevokeTimedOut, RevokeGift;
  }

  /** What any transaction does to a grant is its fate. */
  lemma GrantsMeetTheirFates(db: Db, event: Event, g: GrantId)
    requires Inv(db) && g in db.grants && Listed(db, event)
    ensures StandsAfter(db, event, g)
  {
    hide Inv, StandsAfter, Listed;
    match event
    case Evidenced(_, _, _, _) => EvidenceStands(db, event, g);
    case Revised(_, _, _, _) => RevisionStands(db, event, g);
    case GiftRevoked(_, _) => GiftRevocationStands(db, event, g);
    case GrantRevoked(_) => HandRevocationStands(db, event, g);
    case CustomerErasedNow(_) => ErasureStands(db, event, g);
    case RolesExpired(_) => ExpiryStands(db, event, g);
    case ClaimRedeemed(_, _, _, _) => RedemptionStands(db, event, g);
    case LibraryOpened(_, _, _) => OpeningStands(db, event, g);
    case _ => OtherStands(db, event, g);
  }

  // --------------------------------------------------------------- whole histories

  ghost function Fates(db: Db, events: seq<Event>, g: GrantId): (fates: seq<Fate>)
    ensures |fates| == |events|
    decreases |events|
  {
    if events == [] then [] else [FateOf(db, events[0], g)] + Fates(Step(db, events[0]), events[1..], g)
  }

  function AfterAll(s: Standing, fates: seq<Fate>): Standing
    decreases |fates|
  {
    if fates == [] then s else AfterAll(After(s, fates[0]), fates[1..])
  }

  lemma {:induction false} HistoriesFollowFates(db: Db, events: seq<Event>, g: GrantId)
    requires Inv(db) && g in db.grants && AllListed(db, events)
    ensures g in Run(db, events).grants
    ensures StandingOf(Run(db, events).grants[g]) == AfterAll(StandingOf(db.grants[g]), Fates(db, events, g))
    decreases |events|
  {
    hide Inv, Step, FateOf, Listed, Advances;
    if events != [] {
      GrantsMeetTheirFates(db, events[0], g);
      StepIsGood(db, events[0]);
      HistoriesFollowFates(Step(db, events[0]), events[1..], g);
      assert Fates(db, events, g)[1..] == Fates(Step(db, events[0]), events[1..], g);
    }
  }

  lemma {:induction false} AfterLast(s: Standing, fates: seq<Fate>, n: nat)
    requires n < |fates|
    ensures AfterAll(s, fates[..n + 1]) == After(AfterAll(s, fates[..n]), fates[n])
    decreases n
  {
    if n > 0 {
      AfterLast(After(s, fates[0]), fates[1..], n - 1);
      assert fates[..n + 1][1..] == fates[1..][..n] && fates[..n][1..] == fates[1..][..n - 1];
    }
  }

  /** The revision at j dropped the grant, the next that concerns it, at i, gave it back, and before n nothing took it again. */
  predicate Revival(fates: seq<Fate>, n: nat, j: nat, i: nat)
    requires n <= |fates|
  {
    && j < i < n && fates[j] == Dropped && fates[i] == Given
    && (forall k :: j < k < i ==> fates[k] == Ended || fates[k] == Untouched)
    && (forall k :: i < k < n ==> fates[k] == Given || fates[k] == Untouched)
  }

  predicate LeftOut(fates: seq<Fate>, n: nat, j: nat)
    requires n <= |fates|
  {
    j < n && fates[j] == Dropped && forall k :: j < k < n ==> fates[k] == Ended || fates[k] == Untouched
  }

  /** Before n the grant was dropped, given back and kept. */
  ghost predicate Revived(fates: seq<Fate>, n: nat)
    requires n <= |fates|
  {
    exists j, i :: Revival(fates, n, j, i)
  }

  ghost predicate Missing(fates: seq<Fate>, n: nat)
    requires n <= |fates|
  {
    exists j :: LeftOut(fates, n, j)
  }

  /** No revision dropped the grant or gave it. */
  predicate Unconcerned(fates: seq<Fate>, n: nat)
    requires n <= |fates|
  {
    forall k :: 0 <= k < n ==> fates[k] == Ended || fates[k] == Untouched
  }

  /** Nothing dropped the grant or revoked it. */
  predicate Kept(fates: seq<Fate>, n: nat)
    requires n <= |fates|
  {
    forall k :: 0 <= k < n ==> fates[k] == Given || fates[k] == Untouched
  }

  /** The first revision that concerns the grant, at i, gives it, and nothing before n took it again. */
  predicate Restoration(fates: seq<Fate>, n: nat, i: nat)
    requires n <= |fates|
  {
    && i < n && fates[i] == Given && Unconcerned(fates, i)
    && forall k :: i < k < n ==> fates[k] == Given || fates[k] == Untouched
  }

  ghost predicate Restored(fates: seq<Fate>, n: nat)
    requires n <= |fates|
  {
    exists i :: Restoration(fates, n, i)
  }

  lemma {:induction false} StandingExactly(start: Standing, fates: seq<Fate>, n: nat)
    requires n <= |fates|
    ensures var s := AfterAll(start, fates[..n]);
            && (s.active <==> Revived(fates, n) || (start.removed && Restored(fates, n)) || (start.active && Kept(fates, n)))
            && (s.removed <==> Missing(fates, n) || (start.removed && Unconcerned(fates, n)))
  {
    if n > 0 {
      hide Revived, Missing, Restored;
      StandingExactly(start, fates, n - 1);
      AfterLast(start, fates, n - 1);
      RevivedAfter(fates, n, n - 1);
      MissingAfter(fates, n, n - 1);
      RestoredAfter(fates, n, n - 1);
    }
  }

  lemma RestoredAfter(fates: seq<Fate>, n: nat, m: nat)
    requires m + 1 == n <= |fates|
    ensures Restored(fates, n) <==>
              (fates[m] == Given && Unconcerned(fates, m)) || ((fates[m] == Given || fates[m] == Untouched) && Restored(fates, m))
  {
    if i: nat :| Restoration(fates, n, i) {
      assert i == m || Restoration(fates, m, i);
    }
    if fates[m] == Given && Unconcerned(fates, m) {
      assert Restoration(fates, n, m);
    }
    if fates[m] == Given || fates[m] == Untouched {
      if i: nat :| Restoration(fates, m, i) {
        assert Restoration(fates, n, i);
      }
    }
  }

  lemma MissingAfter(fates: seq<Fate>, n: nat, m: nat)
    requires m + 1 == n <= |fates|
    ensures Missing(fates, n) <==> fates[m] == Dropped || (fates[m] != Given && Missing(fates, m))
  {
    if j: nat :| LeftOut(fates, n, j) {
      assert fates[m] == Dropped || (fates[m] != Given && LeftOut(fates, m, j));
    }
    if fates[m] == Dropped {
      assert LeftOut(fates, n, m);
    } else if fates[m] != Given {
      if j: nat :| LeftOut(fates, m, j) {
        assert LeftOut(fates, n, j);
      }
    }
  }

  lemma RevivedAfter(fates: seq<Fate>, n: nat, m: nat)
    requires m + 1 == n <= |fates|
    ensures Revived(fates, n) <==>
              (fates[m] == Given && Missing(fates, m)) || ((fates[m] == Given || fates[m] == Untouched) && Revived(fates, m))
  {
    if j: nat, i: nat :| Revival(fates, n, j, i) {
      if i == m {
        assert LeftOut(fates, m, j);
      } else {
        assert Revival(fates, m, j, i);
      }
    }
    if fates[m] == Given {
      if j: nat :| LeftOut(fates, m, j) {
        assert Revival(fates, n, j, m);
      }
    }
    if fates[m] == Given || fates[m] == Untouched {
      if j: nat, i: nat :| Revival(fates, m, j, i) {
        assert Revival(fates, n, j, i);
      }
    }
  }

  /**
   Any grant, from any reachable state and through any further transactions, is
   active in the end if and only if it was active and nothing dropped or revoked
   it, or a revision dropped its benefit and the next that concerned it gave it
   back, or it had been dropped already and the first that concerned it gave it
   back; and nothing after that dropped or revoked it.
   */
  lemma GrantsAreActiveExactly(events: seq<Event>, more: seq<Event>, g: GrantId)
    requires g in Run(EMPTY, events).grants && AllListed(Run(EMPTY, events), more)
    ensures var db, t := Run(EMPTY, events), Run(Run(EMPTY, events), more);
            var fates := Fates(db, more, g);
            && g in t.grants
            && (t.grants[g].state == Active <==>
                  || Revived(fates, |fates|)
                  || (db.grants[g].contentRemoved && Restored(fates, |fates|))
                  || (db.grants[g].state == Active && Kept(fates, |fates|)))
  {
    var db := Run(EMPTY, events);
    hide Run, AllListed, Revived, Restored;
    CommerceTheorems.Reached(events);
    HistoriesFollowFates(db, more, g);
    var fates := Fates(db, more, g);
    StandingExactly(StandingOf(db.grants[g]), fates, |fates|);
    assert fates[..|fates|] == fates;
  }

  /**
   So a grant revoked by hand is active again if and only if some revision had
   dropped its benefit, before or after the revocation, the next that concerned it
   gave the benefit back, and nothing after that dropped or revoked it.
   */
  lemma HandRevocationEndsExactly(events: seq<Event>, more: seq<Event>, g: GrantId)
    requires g in Run(EMPTY, events).grants && Run(EMPTY, events).grants[g].state == Revoked
    requires AllListed(Run(EMPTY, events), more)
    ensures var db, t := Run(EMPTY, events), Run(Run(EMPTY, events), more);
            var fates := Fates(db, more, g);
            && g in t.grants
            && (t.grants[g].state == Active <==>
                  Revived(fates, |fates|) || (db.grants[g].contentRemoved && Restored(fates, |fates|)))
  {
    GrantsAreActiveExactly(events, more, g);
  }

  /**
   If nothing revokes it again: exactly if the last revision that concerned it
   gives its benefit and one had dropped it, before or after the revocation.
   */
  lemma RevisionsReviveExactly(events: seq<Event>, more: seq<Event>, g: GrantId, last: nat)
    requires g in Run(EMPTY, events).grants && Run(EMPTY, events).grants[g].state == Revoked
    requires AllListed(Run(EMPTY, events), more) && last < |more|
    requires forall k :: 0 <= k < |more| ==> Fates(Run(EMPTY, events), more, g)[k] != Ended
    requires Fates(Run(EMPTY, events), more, g)[last] != Untouched
    requires forall k :: last < k < |more| ==> Fates(Run(EMPTY, events), more, g)[k] == Untouched
    ensures var db, t := Run(EMPTY, events), Run(Run(EMPTY, events), more);
            var fates := Fates(db, more, g);
            && g in t.grants
            && (t.grants[g].state == Active <==>
                  fates[last] == Given && (db.grants[g].contentRemoved || exists k :: 0 <= k < last && fates[k] == Dropped))
  {
    var db := Run(EMPTY, events);
    var fates := Fates(db, more, g);
    HandRevocationEndsExactly(events, more, g);
    hide Run, AllListed, Fates;
    LastDecides(fates, last);
  }

  lemma LastDecides(fates: seq<Fate>, last: nat)
    requires last < |fates| && fates[last] != Untouched
    requires forall k :: 0 <= k < |fates| ==> fates[k] != Ended
    requires forall k :: last < k < |fates| ==> fates[k] == Untouched
    ensures Revived(fates, |fates|) <==> fates[last] == Given && exists k :: 0 <= k < last && fates[k] == Dropped
    ensures Restored(fates, |fates|) ==> fates[last] == Given
    ensures fates[last] == Given ==> Restored(fates, |fates|) || Revived(fates, |fates|)
  {
    if fates[last] == Given {
      if exists k :: 0 <= k < last && fates[k] == Dropped {
        LastDrop(fates, last);
      } else {
        FirstGift(fates, last);
      }
    }
  }

  lemma {:induction false} FirstGift(fates: seq<Fate>, i: nat)
    requires i < |fates| && fates[i] == Given
    requires forall k :: 0 <= k < |fates| ==> fates[k] == Given || fates[k] == Untouched
    ensures Restored(fates, |fates|)
    decreases i
  {
    if k :| 0 <= k < i && fates[k] == Given {
      FirstGift(fates, k);
    } else {
      assert Restoration(fates, |fates|, i);
    }
  }

  lemma {:induction false} LastDrop(fates: seq<Fate>, last: nat)
    requires last < |fates| && fates[last] == Given
    requires forall k :: 0 <= k < |fates| ==> fates[k] != Ended
    requires forall k :: last < k < |fates| ==> fates[k] == Untouched || fates[k] == Given
    requires exists k :: 0 <= k < last && fates[k] == Dropped
    ensures Revived(fates, |fates|)
    decreases last
  {
    var m := last - 1;
    while m > 0 && fates[m] == Untouched
      invariant 0 <= m < last && forall k :: m < k < last ==> fates[k] == Untouched
    {
      m := m - 1;
    }
    if fates[m] == Dropped {
      assert Revival(fates, |fates|, m, last);
    } else {
      assert fates[m] == Given;
      LastDrop(fates, m);
    }
  }
}
