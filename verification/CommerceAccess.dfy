/** What paying gives: the other half of what refunds take away. */
module CommerceAccess {
  import opened Common
  import opened Commerce
  import opened CommerceInvariant
  import opened CommerceRuns

  // A payment made has its purchase, which is revoked exactly when the money went back.
  ghost predicate FollowsPayment(db: Db, p: PaymentKey) {
    && (p in db.payments && Paid(db.payments[p].state) ==> p in db.purchases)
    && (p in db.purchases ==> p in db.payments && (db.purchases[p].state == Revoked <==> Terminal(db.payments[p].state)))
  }

  ghost predicate AllFollow(db: Db) {
    forall p :: FollowsPayment(db, p)
  }

  // --------------------------------------------------------------- evidence

  lemma SettledStates(p: Payment, e: Evidence, total: int, fault: Option<Reason>, checkoutId: Option<string>, offerId: Option<string>)
    requires e.updatedAt.Some?
    ensures var q := Settle(p, e, total, fault, checkoutId, offerId);
            (Paid(q.state) ==> Verdict(p, e, total, fault).None?) && (Terminal(p.state) ==> Terminal(q.state))
  {
  }

  lemma FaultlessHasOffer(db: Db, scope: Scope, e: Evidence, now: int)
    requires Fault(db, scope, e, now).None?
    ensures OfferFor(db, scope, e).Some?
  {
    hide OrderFor, PlanMismatch, Ambiguous;
  }

  // Only accepted evidence makes a payment complete, and it names an offer.
  lemma RecordedStates(db: Db, scope: Scope, connectionId: string, e: Evidence, now: int)
    requires e.updatedAt.Some?
    ensures var id, t := KeyOf(scope, e), Recorded(db, scope, connectionId, e, now);
            && t.purchases == db.purchases && id in t.payments
            && (forall p :: p != id ==> (p in t.payments <==> p in db.payments) && (p in db.payments ==> t.payments[p] == db.payments[p]))
            && (Paid(t.payments[id].state) ==> Accepted(db, scope, connectionId, e, now) && OfferFor(db, scope, e).Some?)
            && (id in db.payments && Terminal(db.payments[id].state) ==> Terminal(t.payments[id].state))
  {
    hide Settle, NewPayment, OrderFor, OfferFor, Fault, OrderAfter, RecordRefunds, CompletedTotal, RefundedMinor;
    var id, offer := KeyOf(scope, e), OfferFor(db, scope, e);
    SettledStates(Opened(db, scope, connectionId, e), e, CompletedTotal(RecordRefunds(RefundsOf(db, id), e.refunds, |e.refunds|)),
                  Fault(db, scope, e, now), IdOf(OrderFor(db, scope, e)), if offer.Some? then Some(offer.value.id) else None);
    if Fault(db, scope, e, now).None? {
      FaultlessHasOffer(db, scope, e, now);
    }
  }

  lemma ApplyingFollows(db: Db, scope: Scope, connectionId: string, e: Evidence, secret: Secret, now: int)
    requires AllFollow(db) && ApplyEvidence(db, scope, connectionId, e, secret, now).Ok?
    ensures AllFollow(ApplyEvidence(db, scope, connectionId, e, secret, now).value)
  {
    hide Recorded, Accepted, OfferFor, Disconnected, Purchased, RevokeOf;
    var id, after := KeyOf(scope, e), Recorded(db, scope, connectionId, e, now);
    var t := ApplyEvidence(db, scope, connectionId, e, secret, now).value;
    RecordedStates(db, scope, connectionId, e, now);
    if Accepted(db, scope, connectionId, e, now) && id !in db.purchases && Paid(after.payments[id].state) {
      PurchasedIs(after, scope, e, OfferFor(db, scope, e).value, secret, now);
    }
    forall p ensures FollowsPayment(t, p) {
      assert FollowsPayment(db, p);
    }
  }

  lemma {:induction false} ReconcilingFollows(db: Db, scope: Scope, connectionId: string, deliveries: seq<Delivery>, n: nat, now: int)
    requires AllFollow(db) && n <= |deliveries| && Reconcile(db, scope, connectionId, deliveries, n, now).Ok?
    ensures AllFollow(Reconcile(db, scope, connectionId, deliveries, n, now).value)
  {
    hide ApplyEvidence, AllFollow;
    if n > 0 {
      ReconcilingFollows(db, scope, connectionId, deliveries, n - 1, now);
      ApplyingFollows(Reconcile(db, scope, connectionId, deliveries, n - 1, now).value, scope, connectionId,
                      deliveries[n - 1].evidence, deliveries[n - 1].secret, now);
    }
  }

  // --------------------------------------------------------------- every other transaction

  ghost predicate SameStates(db: Db, t: Db) {
    t.purchases.Keys == db.purchases.Keys && forall p :: p in db.purchases ==> t.purchases[p].state == db.purchases[p].state
  }

  lemma {:induction false} UpdatesKeepStates(db: Db, listed: seq<PaymentKey>, n: nat, revised: Offer, now: int)
    requires n <= |listed|
    ensures SameStates(db, UpdatePurchases(db, listed, n, revised, now))
  {
    hide Updates, ActiveTerms, AccessBenefits, UpdateGrants, FindOffer;
    if n > 0 {
      UpdatesKeepStates(db, listed, n - 1, revised, now);
    }
  }

  lemma {:induction false} GiftUpdatesKeepPurchases(db: Db, listed: seq<GiftKey>, n: nat, revised: Offer, now: int)
    requires n <= |listed|
    ensures UpdateGifts(db, listed, n, revised, now).purchases == db.purchases
  {
    hide Updates, ActiveTerms, AccessBenefits, UpdateGrants, FindOffer;
    if n > 0 {
      GiftUpdatesKeepPurchases(db, listed, n - 1, revised, now);
    }
  }

  lemma {:induction false} GiftClaimsKeepPurchases(db: Db, subject: string, listed: seq<GiftKey>, n: nat, now: int)
    requires n <= |listed| && subject in db.customers && ClaimGifts(db, subject, listed, n, now).Ok?
    ensures ClaimGifts(db, subject, listed, n, now).value.purchases == db.purchases
  {
    hide AccessBenefits, InsertGrants, CurrentContents, ClaimedGift, FindOffer;
    if n > 0 {
      GiftClaimsKeepPurchases(db, subject, listed, n - 1, now);
    }
  }

  lemma RevisionKeepsStates(db: Db, revised: Offer, purchases: seq<PaymentKey>, gifts: seq<GiftKey>, now: int)
    ensures SameStates(db, UpdateAccessContents(db, revised, purchases, gifts, now))
  {
    UpdatesKeepStates(db, purchases, |purchases|, revised, now);
    GiftUpdatesKeepPurchases(UpdatePurchases(db, purchases, |purchases|, revised, now), gifts, |gifts|, revised, now);
  }

  lemma ErasureKeepsStates(db: Db, subject: string)
    requires EraseCustomer(db, subject).Ok?
    ensures SameStates(db, EraseCustomer(db, subject).value)
  {
    hide RevokeHeld, DropClaims, ForgetRecipient, Subscribes;
  }

  lemma RedemptionKeepsStates(db: Db, subject: string, claimId: string, token: string, now: int)
    requires RedeemClaim(db, subject, claimId, token, now).Ok?
    ensures SameStates(db, RedeemClaim(db, subject, claimId, token, now).value)
  {
    hide GiveGrantsTo;
  }

  lemma OpeningKeepsStates(db: Db, subject: string, gifts: seq<GiftKey>, now: int)
    requires OpenLibrary(db, subject, gifts, now).Ok?
    ensures SameStates(db, OpenLibrary(db, subject, gifts, now).value)
  {
    hide ClaimGifts;
    GiftClaimsKeepPurchases(WithCustomer(db, subject).value, subject, gifts, |gifts|, now);
  }

  lemma OtherEventsKeepStates(db: Db, event: Event)
    requires !event.Evidenced?
    ensures SameStates(db, Step(db, event))
  {
    hide UpdateAccessContents, OpenLibrary, RedeemClaim, EraseCustomer, RevokeOf, FindOffer, RevokeGrant, RevokeTimedOut, IsPackage;
    match event
    case Revised(offer, purchases, gifts, now) =>
      RevisionKeepsStates(db.(offers := db.offers + [offer]), offer, purchases, gifts, now);
    case LibraryOpened(subject, gifts, now) =>
      if OpenLibrary(db, subject, gifts, now).Ok? {
        OpeningKeepsStates(db, subject, gifts, now);
      }
    case ClaimRedeemed(subject, claimId, token, now) =>
      if RedeemClaim(db, subject, claimId, token, now).Ok? {
        RedemptionKeepsStates(db, subject, claimId, token, now);
      }
    case CustomerErasedNow(subject) =>
      if EraseCustomer(db, subject).Ok? {
        ErasureKeepsStates(db, subject);
      }
    case _ =>
  }

  lemma SameStatesFollow(db: Db, t: Db)
    requires AllFollow(db) && SamePayments(db, t) && SameStates(db, t)
    ensures AllFollow(t)
  {
    forall p ensures FollowsPayment(t, p) {
      assert FollowsPayment(db, p);
    }
  }

  lemma StepFollows(db: Db, event: Event)
    requires AllFollow(db)
    ensures AllFollow(Step(db, event))
  {
    if event.Evidenced? {
      hide Reconcile, AllFollow;
      if Reconcile(db, event.scope, event.connectionId, event.deliveries, |event.deliveries|, event.now).Ok? {
        ReconcilingFollows(db, event.scope, event.connectionId, event.deliveries, |event.deliveries|, event.now);
      }
    } else {
      hide Step, AllFollow, SamePayments, SameStates;
      OtherEventsKeepPayments(db, event);
      OtherEventsKeepStates(db, event);
      SameStatesFollow(db, Step(db, event));
    }
  }

  lemma {:induction false} RunFollows(db: Db, events: seq<Event>)
    requires AllFollow(db)
    ensures AllFollow(Run(db, events))
    decreases |events|
  {
    hide Step, AllFollow;
    if events != [] {
      StepFollows(db, events[0]);
      RunFollows(Step(db, events[0]), events[1..]);
    }
  }

  /**
   In every reachable state a completed or partially refunded payment has its
   purchase, and a purchase is revoked if and only if its payment is refunded or
   reversed.
   */
  lemma PurchasesFollowPayments(events: seq<Event>, p: PaymentKey)
    ensures var db := Run(EMPTY, events);
            && (p in db.payments && Paid(db.payments[p].state) ==> p in db.purchases && db.purchases[p].state == Active)
            && (p in db.purchases ==> p in db.payments && (db.purchases[p].state == Revoked <==> Terminal(db.payments[p].state)))
  {
    var db := Run(EMPTY, events);
    assert AllFollow(EMPTY);
    RunFollows(EMPTY, events);
    hide Run;
    assert FollowsPayment(db, p);
  }

  // --------------------------------------------------------------- the grants of a new purchase

  lemma {:induction false} InsertedAre(grants: map<GrantId, Grant>, origin: Origin, benefits: seq<Benefit>, n: nat,
                                       customer: Option<string>, terms: Terms, contents: Offer, now: int, id: GrantId)
    requires n <= |benefits| && InsertGrants(grants, origin, benefits, n, customer, terms, contents, now).Some?
    requires id.origin == origin
    ensures var t := InsertGrants(grants, origin, benefits, n, customer, terms, contents, now).value;
            && (id in t <==> id in grants || (id.serial == 0 && id.benefit in benefits[..n]))
            && (id in t && id !in grants ==> t[id] == NewGrant(origin, id.benefit, customer, terms, contents, now))
  {
    hide AssetsOf, NewGrant;
    if n > 0 {
      InsertedAre(grants, origin, benefits, n - 1, customer, terms, contents, now, id);
      assert benefits[..n] == benefits[..n - 1] + [benefits[n - 1]];
    }
  }

  lemma UnfiledYet(db: Db, id: GrantId)
    requires Inv(db) && id.origin.OfPurchase? && id.origin.payment !in db.purchases
    ensures id !in db.grants
  {
    assert GrantOk(db, id);
  }

  /**
   Evidence that first completes a payment gives exactly the benefits the offer
   and its current contents give: each an active grant with its files, from now
   to the end the offer sets, held by whoever holds the purchase.
   */
  lemma FirstPaymentGivesAccess(db: Db, scope: Scope, connectionId: string, e: Evidence, secret: Secret, now: int, g: GrantId)
    requires Inv(db) && ApplyEvidence(db, scope, connectionId, e, secret, now).Ok?
    requires KeyOf(scope, e) !in db.purchases && KeyOf(scope, e) in ApplyEvidence(db, scope, connectionId, e, secret, now).value.purchases
    requires g.origin == OfPurchase(KeyOf(scope, e))
    ensures OfferFor(db, scope, e).Some?
    ensures var id, t := KeyOf(scope, e), ApplyEvidence(db, scope, connectionId, e, secret, now).value;
            var offer := OfferFor(db, scope, e).value;
            var contents := CurrentContents(db.offers, offer);
            && id in t.payments && Paid(t.payments[id].state) && t.purchases[id].state == Active
            && t.purchases[id].offerVersionId == offer.id && t.purchases[id].createdAt == now
            && t.purchases[id].contentOfferVersionId == (if offer.billing.Some? || contents.hasRoots then Some(contents.id) else None)
            && (g in t.grants <==> g.serial == 0 && g.benefit in AccessBenefits(offer, contents))
            && (g in t.grants ==>
                  && t.grants[g].state == Active && !t.grants[g].contentRemoved
                  && t.grants[g].assets == AssetsOf(g.benefit, contents)
                  && t.grants[g].startsAt == now && t.grants[g].endsAt == EndOf(offer, e, now)
                  && t.grants[g].customerId == t.purchases[id].customerId
                  && t.grants[g].benefit == g.benefit && t.grants[g].updatedAt == now)
  {
    hide Inv, Recorded, Accepted, OfferFor, Disconnected, Purchased, RevokedPurchase, AccessBenefits, CurrentContents, AssetsOf, EndOf, InsertGrants, OrderFor;
    var id, after := KeyOf(scope, e), Recorded(db, scope, connectionId, e, now);
    RecordedStates(db, scope, connectionId, e, now);
    RecordingKeepsOffers(db, scope, connectionId, e, now);
    if Terminal(after.payments[id].state) {
      RevokingAddsNone(after, id);
    }
    var offer := OfferFor(db, scope, e).value;
    var contents := CurrentContents(db.offers, offer);
    var access := AccessBenefits(offer, contents);
    var purchase := NewPurchase(OrderFor(after, scope, e), offer, contents, e, now);
    PurchasedIs(after, scope, e, offer, secret, now);
    UnfiledYet(db, g);
    InsertedAre(after.grants, OfPurchase(id), access, |access|, purchase.customerId, Terms(now, EndOf(offer, e, now)), contents, now, g);
    assert access[..|access|] == access;
  }

  lemma RecordingKeepsOffers(db: Db, scope: Scope, connectionId: string, e: Evidence, now: int)
    requires e.updatedAt.Some?
    ensures var t := Recorded(db, scope, connectionId, e, now);
            t.offers == db.offers && t.grants == db.grants
  {
    hide Settle, NewPayment, OrderFor, OfferFor, Fault, Verdict, OrderAfter, RecordRefunds, CompletedTotal;
  }

  lemma RevokingAddsNone(db: Db, id: PaymentKey)
    ensures RevokedPurchase(db, id).purchases.Keys == db.purchases.Keys
  {
  }
}
