/** Every transaction keeps the invariant and only advances the records. */
module CommerceSteps {
  import opened Common
  import opened Commerce
  import opened CommerceInvariant

  ghost predicate Good(db: Db, t: Db) {
    Inv(t) && Advances(db, t)
  }

  // --------------------------------------------------------------- evidence

  lemma StateMoves(p: Payment, e: Evidence, total: int, fault: Option<Reason>, checkoutId: Option<string>, offerId: Option<string>)
    requires e.updatedAt.Some?
    ensures var q := Settle(p, e, total, fault, checkoutId, offerId);
            (Terminal(p.state) ==> Terminal(q.state)) && (p.state == Reversed ==> q.state == Reversed)
  {
  }

  // Recording moves one payment; purchases, gifts and grants are as before.
  ghost predicate OnePaymentMoves(db: Db, t: Db, id: PaymentKey) {
    && t.purchases == db.purchases && t.gifts == db.gifts && t.grants == db.grants
    && id in t.payments
    && (forall p :: p != id ==> (p in t.payments <==> p in db.payments) && (p in db.payments ==> t.payments[p] == db.payments[p]))
    && PaymentMoves(db, t, id)
  }

  lemma RecordingMoves(db: Db, scope: Scope, connectionId: string, e: Evidence, now: int)
    requires e.updatedAt.Some?
    ensures OnePaymentMoves(db, Recorded(db, scope, connectionId, e, now), KeyOf(scope, e))
  {
    hide Settle, NewPayment, OrderFor, OfferFor, Fault, Verdict, OrderAfter, RecordRefunds, CompletedTotal;
    var id, offer := KeyOf(scope, e), OfferFor(db, scope, e);
    StateMoves(Opened(db, scope, connectionId, e), e, CompletedTotal(RecordRefunds(RefundsOf(db, id), e.refunds, |e.refunds|)),
               Fault(db, scope, e, now), IdOf(OrderFor(db, scope, e)), if offer.Some? then Some(offer.value.id) else None);
  }

  lemma OneMoveAdvances(db: Db, t: Db, id: PaymentKey)
    requires Base(db) && OnePaymentMoves(db, t, id)
    ensures Base(t) && Advances(db, t)
  {
    hide Terminal;
    forall i ensures GrantOk(t, i) { assert GrantOk(db, i); }
    forall p ensures PaymentMoves(db, t, p) { assert p == id || p != id; }
    forall origin ensures StaysQuiet(db, t, origin) { }
  }

  lemma OneMoveFinals(db: Db, t: Db, id: PaymentKey)
    requires Inv(db) && OnePaymentMoves(db, t, id)
    ensures forall p :: p != id ==> FinalOk(t, p)
    ensures forall g :: GiftOk(t, g)
    ensures !Terminal(t.payments[id].state) ==> FinalOk(t, id)
  {
    forall p | p != id ensures FinalOk(t, p) { assert FinalOk(db, p); }
    forall g ensures GiftOk(t, g) { assert GiftOk(db, g); }
  }

  // A purchase is made with its grants, for a payment that is not refunded.
  lemma PurchasingIsGood(db: Db, scope: Scope, e: Evidence, offer: Offer, secret: Secret, now: int)
    requires Inv(db) && Purchased(db, scope, e, offer, secret, now).Ok?
    requires KeyOf(scope, e) !in db.purchases && KeyOf(scope, e) in db.payments && !Terminal(db.payments[KeyOf(scope, e)].state)
    ensures Good(db, Purchased(db, scope, e, offer, secret, now).value)
  {
    hide Purchased, AccessBenefits, CurrentContents, InsertGrants, EndOf, OrderFor, NewPurchase, Terminal, Grown, Base, Inv, Advances, Quiet;
    var id := KeyOf(scope, e);
    var contents := CurrentContents(db.offers, offer);
    var purchase := NewPurchase(OrderFor(db, scope, e), offer, contents, e, now);
    var access := AccessBenefits(offer, contents);
    var terms := Terms(now, EndOf(offer, e, now));
    var t := Purchased(db, scope, e, offer, secret, now).value;
    PurchasedIs(db, scope, e, offer, secret, now);
    InvIsBase(db);
    NoGrantsYet(db, OfPurchase(id));
    InsertingGrows(db.grants, OfPurchase(id), access, |access|, purchase.customerId, terms, contents, now);
    GrowingKeepsInv(db, t, OfPurchase(id), terms, purchase.customerId);
    GrowingAdvances(db, t, OfPurchase(id), terms, purchase.customerId);
  }

  lemma InvIsBase(db: Db)
    requires Inv(db)
    ensures Base(db)
  {
  }

  lemma RevokingIsGood(db: Db, id: PaymentKey)
    requires Base(db) && id in db.payments
    requires (forall p :: p != id ==> FinalOk(db, p)) && (forall g :: GiftOk(db, g))
    ensures Good(db, RevokedPurchase(db, id))
  {
    var t := RevokedPurchase(db, id);
    RevokeOfNarrows(db.grants, OfPurchase(id));
    NarrowingAdvances(db, t);
    NarrowingKeepsBase(db, t);
    forall p ensures FinalOk(t, p) {
      assert p != id ==> FinalOk(db, p);
      if Quiet(db.grants, OfPurchase(p)) {
        NarrowedQuiet(db.grants, t.grants, OfPurchase(p));
      }
    }
    forall g ensures GiftOk(t, g) {
      assert GiftOk(db, g);
      if Quiet(db.grants, OfGift(g)) {
        NarrowedQuiet(db.grants, t.grants, OfGift(g));
      }
    }
  }

  lemma ApplyingIsGood(db: Db, scope: Scope, connectionId: string, e: Evidence, secret: Secret, now: int)
    requires Inv(db) && ApplyEvidence(db, scope, connectionId, e, secret, now).Ok?
    ensures Good(db, ApplyEvidence(db, scope, connectionId, e, secret, now).value)
  {
    hide Recorded, Accepted, OfferFor, Disconnected, Purchased, RevokedPurchase, OnePaymentMoves, Base, Inv, Advances, FinalOk, GiftOk;
    var id := KeyOf(scope, e);
    var after := Recorded(db, scope, connectionId, e, now);
    var t := ApplyEvidence(db, scope, connectionId, e, secret, now).value;
    RecordingMoves(db, scope, connectionId, e, now);
    InvIsBase(db);
    OneMoveAdvances(db, after, id);
    OneMoveFinals(db, after, id);
    MovedIsThere(db, after, id);
    if Terminal(after.payments[id].state) {
      RevokingIsGood(after, id);
      AdvancesTwice(db, after, t);
    } else {
      FinalsMakeInv(after);
      if t != after {
        PurchasingIsGood(after, scope, e, OfferFor(db, scope, e).value, secret, now);
        AdvancesTwice(db, after, t);
      }
    }
  }

  lemma MovedIsThere(db: Db, t: Db, id: PaymentKey)
    requires OnePaymentMoves(db, t, id)
    ensures id in t.payments && t.purchases == db.purchases
  {
  }

  lemma FinalsMakeInv(db: Db)
    requires Base(db) && (forall p :: FinalOk(db, p)) && (forall g :: GiftOk(db, g))
    ensures Inv(db)
  {
  }

  lemma {:induction false} ReconcilingIsGood(db: Db, scope: Scope, connectionId: string, deliveries: seq<Delivery>, n: nat, now: int)
    requires Inv(db) && n <= |deliveries| && Reconcile(db, scope, connectionId, deliveries, n, now).Ok?
    ensures Good(db, Reconcile(db, scope, connectionId, deliveries, n, now).value)
  {
    hide ApplyEvidence, Inv, Advances;
    if n == 0 {
      AdvancesNot(db);
    } else {
      var before, d := Reconcile(db, scope, connectionId, deliveries, n - 1, now).value, deliveries[n - 1];
      ReconcilingIsGood(db, scope, connectionId, deliveries, n - 1, now);
      ApplyingIsGood(before, scope, connectionId, d.evidence, d.secret, now);
      AdvancesTwice(db, before, Reconcile(db, scope, connectionId, deliveries, n, now).value);
    }
  }

  // --------------------------------------------------------------- revised contents

  // An active grant needs a claimed gift, or a purchase whose payment stands.
  lemma ActiveIsSettled(db: Db, origin: Origin, now: int)
    requires Inv(db) && HasActive(db.grants, origin, now) && origin != ByHand
    ensures origin.OfPurchase? ==> origin.payment in db.purchases && origin.payment in db.payments && !Terminal(db.payments[origin.payment].state)
    ensures origin.OfGift? ==> origin.gift in db.gifts && db.gifts[origin.gift].state == Claimed
  {
    var id :| id in db.grants && db.grants[id].origin == origin && IsActive(db.grants[id], now);
    assert GrantOk(db, id);
    if origin.OfPurchase? {
      assert FinalOk(db, origin.payment);
    } else {
      assert GiftOk(db, origin.gift);
    }
  }

  lemma UpdatingPurchaseIsGood(db: Db, id: PaymentKey, revised: Offer, now: int)
    requires Inv(db)
    ensures Good(db, UpdatePurchase(db, id, revised, now))
  {
    hide AccessBenefits, UpdateGrants, ActiveTerms, FindOffer, Reaches, HasActive, Grown, Base, Inv, Advances, Quiet;
    var t := UpdatePurchase(db, id, revised, now);
    InvIsBase(db);
    AdvancesNot(db);
    if t != db {
      var p := db.purchases[id];
      var access := AccessBenefits(FindOffer(db.offers, p.offerVersionId).value, revised);
      var terms := ActiveTerms(db.grants, OfPurchase(id), now);
      ActiveIsSettled(db, OfPurchase(id), now);
      UpdatingGrows(db, OfPurchase(id), access, p.customerId, revised, now);
      GrowingKeepsInv(db, t, OfPurchase(id), terms, p.customerId);
      GrowingAdvances(db, t, OfPurchase(id), terms, p.customerId);
    }
  }

  lemma UpdatingGiftIsGood(db: Db, id: GiftKey, revised: Offer, now: int)
    requires Inv(db)
    ensures Good(db, UpdateGift(db, id, revised, now))
  {
    hide AccessBenefits, UpdateGrants, ActiveTerms, FindOffer, Reaches, HasActive, Grown, Base, Inv, Advances, Quiet;
    var t := UpdateGift(db, id, revised, now);
    InvIsBase(db);
    AdvancesNot(db);
    if t != db {
      var g := db.gifts[id];
      var access := AccessBenefits(FindOffer(db.offers, g.offerVersionId).value, revised);
      var terms := ActiveTerms(db.grants, OfGift(id), now);
      UpdatingGrows(db, OfGift(id), access, g.customerId, revised, now);
      GrowingKeepsInv(db, t, OfGift(id), terms, g.customerId);
      GrowingAdvances(db, t, OfGift(id), terms, g.customerId);
    }
  }

  lemma {:induction false} UpdatingPurchasesIsGood(db: Db, listed: seq<PaymentKey>, n: nat, revised: Offer, now: int)
    requires Inv(db) && n <= |listed|
    ensures Good(db, UpdatePurchases(db, listed, n, revised, now))
  {
    hide UpdatePurchase, Inv, Advances;
    AdvancesNot(db);
    if n > 0 {
      var before := UpdatePurchases(db, listed, n - 1, revised, now);
      UpdatingPurchasesIsGood(db, listed, n - 1, revised, now);
      UpdatingPurchaseIsGood(before, listed[n - 1], revised, now);
      AdvancesTwice(db, before, UpdatePurchases(db, listed, n, revised, now));
    }
  }

  lemma {:induction false} UpdatingGiftsIsGood(db: Db, listed: seq<GiftKey>, n: nat, revised: Offer, now: int)
    requires Inv(db) && n <= |listed|
    ensures Good(db, UpdateGifts(db, listed, n, revised, now))
  {
    hide UpdateGift, Inv, Advances;
    AdvancesNot(db);
    if n > 0 {
      var before := UpdateGifts(db, listed, n - 1, revised, now);
      UpdatingGiftsIsGood(db, listed, n - 1, revised, now);
      UpdatingGiftIsGood(before, listed[n - 1], revised, now);
      AdvancesTwice(db, before, UpdateGifts(db, listed, n, revised, now));
    }
  }

  // The offers, checkouts, mappings, customers and claims play no part in the invariant.
  ghost predicate SameAccess(db: Db, t: Db) {
    t.payments == db.payments && t.purchases == db.purchases && t.gifts == db.gifts && t.grants == db.grants
  }

  lemma SameAccessIsGood(db: Db, t: Db)
    requires Inv(db) && SameAccess(db, t)
    ensures Good(db, t)
  {
    forall id ensures GrantOk(t, id) { assert GrantOk(db, id); }
    forall p ensures FinalOk(t, p) { assert FinalOk(db, p); }
    forall g ensures GiftOk(t, g) { assert GiftOk(db, g); }
  }

  lemma RevisingIsGood(db: Db, revised: Offer, purchases: seq<PaymentKey>, gifts: seq<GiftKey>, now: int)
    requires Inv(db)
    ensures Good(db, UpdateAccessContents(db.(offers := db.offers + [revised]), revised, purchases, gifts, now))
  {
    hide UpdatePurchases, UpdateGifts, Inv, Advances;
    var start := db.(offers := db.offers + [revised]);
    var middle := UpdatePurchases(start, purchases, |purchases|, revised, now);
    SameAccessIsGood(db, start);
    UpdatingPurchasesIsGood(start, purchases, |purchases|, revised, now);
    UpdatingGiftsIsGood(middle, gifts, |gifts|, revised, now);
    AdvancesTwice(db, start, middle);
    AdvancesTwice(db, middle, UpdateGifts(middle, gifts, |gifts|, revised, now));
  }

  // --------------------------------------------------------------- claims

  // A claimed purchase and its grants get their holder; nothing else about them changes.
  ghost predicate Given(db: Db, t: Db, id: PaymentKey, subject: string) {
    && t.payments == db.payments && t.gifts == db.gifts
    && id in db.purchases && db.purchases[id].customerId.None?
    && t.purchases.Keys == db.purchases.Keys
    && (forall p :: p in db.purchases && p != id ==> t.purchases[p] == db.purchases[p])
    && t.purchases[id].customerId == Some(subject) && t.purchases[id].state == db.purchases[id].state
    && t.purchases[id].offerVersionId == db.purchases[id].offerVersionId
    && t.grants == GiveGrantsTo(db.grants, OfPurchase(id), subject)
  }

  lemma GivenQuiet(grants: map<GrantId, Grant>, origin: Origin, subject: string, other: Origin)
    requires Quiet(grants, other)
    ensures Quiet(GiveGrantsTo(grants, origin, subject), other)
  {
  }

  lemma GivingKeepsBase(db: Db, t: Db, id: PaymentKey, subject: string)
    requires Base(db) && Given(db, t, id, subject)
    ensures Base(t)
  {
    forall i ensures GrantOk(t, i) { assert GrantOk(db, i); }
    forall i, j | i in t.grants && j in t.grants && t.grants[i].origin == t.grants[j].origin && t.grants[i].origin != ByHand
      ensures SameTerms(t.grants[i], t.grants[j])
    {
      assert SameTerms(db.grants[i], db.grants[j]);
    }
  }

  lemma GivingAdvances(db: Db, t: Db, id: PaymentKey, subject: string)
    requires Base(db) && Given(db, t, id, subject)
    ensures Advances(db, t)
  {
    forall origin ensures StaysQuiet(db, t, origin) {
      if Quiet(db.grants, origin) {
        GivenQuiet(db.grants, OfPurchase(id), subject, origin);
      }
    }
    forall i ensures GrantMoves(db, t, i) {
      assert GrantOk(db, i);
    }
  }

  lemma GivingIsGood(db: Db, t: Db, id: PaymentKey, subject: string)
    requires Inv(db) && Given(db, t, id, subject)
    ensures Good(db, t)
  {
    GivingKeepsBase(db, t, id, subject);
    GivingAdvances(db, t, id, subject);
    forall p ensures FinalOk(t, p) {
      assert FinalOk(db, p);
      if Quiet(db.grants, OfPurchase(p)) {
        GivenQuiet(db.grants, OfPurchase(id), subject, OfPurchase(p));
      }
    }
    forall g ensures GiftOk(t, g) {
      assert GiftOk(db, g);
      if Quiet(db.grants, OfGift(g)) {
        GivenQuiet(db.grants, OfPurchase(id), subject, OfGift(g));
      }
    }
  }

  lemma RedeemingIsGood(db: Db, subject: string, claimId: string, token: string, now: int)
    requires Inv(db) && RedeemClaim(db, subject, claimId, token, now).Ok?
    ensures Good(db, RedeemClaim(db, subject, claimId, token, now).value)
  {
    hide Inv, Advances, GiveGrantsTo;
    GivingIsGood(db, RedeemClaim(db, subject, claimId, token, now).value, db.claims[claimId].purchase, subject);
  }

  // --------------------------------------------------------------- gifts

  lemma ClaimingGiftIsGood(db: Db, subject: string, id: GiftKey, now: int)
    requires Inv(db) && subject in db.customers && ClaimGift(db, subject, id, now).Ok?
    ensures Good(db, ClaimGift(db, subject, id, now).value)
  {
    hide AccessBenefits, CurrentContents, InsertGrants, FindOffer, Grown, Base, Inv, Advances, Quiet;
    var t := ClaimGift(db, subject, id, now).value;
    InvIsBase(db);
    AdvancesNot(db);
    if t != db {
      var offer := FindOffer(db.offers, db.gifts[id].offerVersionId).value;
      var contents := CurrentContents(db.offers, offer);
      var gift := ClaimedGift(db.gifts[id], subject, contents, now);
      var access := AccessBenefits(offer, contents);
      var terms := Terms(now, gift.endsAt);
      NoGrantsYet(db, OfGift(id));
      InsertingGrows(db.grants, OfGift(id), access, |access|, Some(subject), terms, contents, now);
      GrowingKeepsInv(db, t, OfGift(id), terms, Some(subject));
      GrowingAdvances(db, t, OfGift(id), terms, Some(subject));
    }
  }

  lemma {:induction false} ClaimingGiftsIsGood(db: Db, subject: string, listed: seq<GiftKey>, n: nat, now: int)
    requires Inv(db) && n <= |listed| && subject in db.customers && ClaimGifts(db, subject, listed, n, now).Ok?
    ensures Good(db, ClaimGifts(db, subject, listed, n, now).value)
  {
    hide ClaimGift, Inv, Advances;
    AdvancesNot(db);
    if n > 0 {
      var before := ClaimGifts(db, subject, listed, n - 1, now).value;
      ClaimingGiftsIsGood(db, subject, listed, n - 1, now);
      ClaimingGiftIsGood(before, subject, listed[n - 1], now);
      AdvancesTwice(db, before, ClaimGifts(db, subject, listed, n, now).value);
    }
  }

  lemma OpeningIsGood(db: Db, subject: string, listed: seq<GiftKey>, now: int)
    requires Inv(db) && OpenLibrary(db, subject, listed, now).Ok?
    ensures Good(db, OpenLibrary(db, subject, listed, now).value)
  {
    hide ClaimGifts, Inv, Advances;
    var known := WithCustomer(db, subject).value;
    SameAccessIsGood(db, known);
    ClaimingGiftsIsGood(known, subject, listed, |listed|, now);
    AdvancesTwice(db, known, OpenLibrary(db, subject, listed, now).value);
  }

  lemma GiftingIsGood(db: Db, id: GiftKey, offerVersionId: string, email: string, months: Option<int>)
    requires Inv(db) && GiftOffer(db, id, offerVersionId, email, months).Ok?
    ensures Good(db, GiftOffer(db, id, offerVersionId, email, months).value)
  {
    hide FindOffer;
    var t := GiftOffer(db, id, offerVersionId, email, months).value;
    forall i ensures GrantOk(t, i) { assert GrantOk(db, i); }
    forall p ensures FinalOk(t, p) { assert FinalOk(db, p); }
    forall g ensures GiftOk(t, g) { assert GiftOk(db, g); }
  }

  lemma RevokingGiftIsGood(db: Db, owner: string, id: GiftKey)
    requires Inv(db) && RevokeGift(db, owner, id).Ok?
    ensures Good(db, RevokeGift(db, owner, id).value)
  {
    hide Inv, Advances, Narrowed, RevokeOf, Quiet;
    RevokeOfNarrows(db.grants, OfGift(id));
    NarrowingAdvances(db, RevokeGift(db, owner, id).value);
    NarrowingKeepsInv(db, RevokeGift(db, owner, id).value);
  }

  // --------------------------------------------------------------- single grants, erasure, expiry

  lemma NarrowingIsGood(db: Db, t: Db)
    requires Inv(db) && Narrowed(db.grants, t.grants) && t.payments == db.payments && SamePurchases(db, t)
    requires t.gifts.Keys == db.gifts.Keys
    requires forall g :: g in db.gifts ==> t.gifts[g].customerId == db.gifts[g].customerId && t.gifts[g].state == db.gifts[g].state
    ensures Good(db, t)
  {
    hide Inv, Advances, Narrowed;
    NarrowingAdvances(db, t);
    NarrowingKeepsInv(db, t);
  }

  lemma ErasingIsGood(db: Db, subject: string)
    requires Inv(db) && EraseCustomer(db, subject).Ok?
    ensures Good(db, EraseCustomer(db, subject).value)
  {
    hide Inv, Advances;
    NarrowingIsGood(db, EraseCustomer(db, subject).value);
  }

  lemma GrantingByHandIsGood(db: Db, customer: string, benefit: Benefit, serial: nat, assets: seq<Asset>, endsAt: Option<int>, now: int)
    requires Inv(db) && ManualGrant(db, customer, benefit, serial, assets, endsAt, now).Ok?
    ensures Good(db, ManualGrant(db, customer, benefit, serial, assets, endsAt, now).value)
  {
    var t := ManualGrant(db, customer, benefit, serial, assets, endsAt, now).value;
    forall i ensures GrantOk(t, i) { assert GrantOk(db, i); }
    forall p ensures FinalOk(t, p) { assert FinalOk(db, p); }
    forall g ensures GiftOk(t, g) { assert GiftOk(db, g); }
  }

  lemma RevokingOneIsGood(db: Db, id: GrantId)
    requires Inv(db) && Revoke(db, id).Ok?
    ensures Good(db, Revoke(db, id).value)
  {
    hide Good, Inv;
    NarrowingIsGood(db, Revoke(db, id).value);
  }

  lemma ExpiringIsGood(db: Db, now: int)
    requires Inv(db)
    ensures Good(db, ExpireRoles(db, now))
  {
    hide Good, Inv;
    NarrowingIsGood(db, ExpireRoles(db, now));
  }

  // --------------------------------------------------------------- every event

  lemma StepIsGood(db: Db, event: Event)
    requires Inv(db)
    ensures Good(db, Step(db, event))
  {
    hide Good, Inv, Reconcile, UpdateAccessContents, RedeemClaim, OpenLibrary, GiftOffer, RevokeGift, ManualGrant, EraseCustomer, Revoke, ExpireRoles;
    GoodAlready(db);
    match event
    case Evidenced(scope, connectionId, deliveries, now) =>
      if Reconcile(db, scope, connectionId, deliveries, |deliveries|, now).Ok? {
        ReconcilingIsGood(db, scope, connectionId, deliveries, |deliveries|, now);
      }
    case Revised(offer, purchases, gifts, now) => RevisingIsGood(db, offer, purchases, gifts, now);
    case ClaimRedeemed(subject, claimId, token, now) =>
      if RedeemClaim(db, subject, claimId, token, now).Ok? { RedeemingIsGood(db, subject, claimId, token, now); }
    case LibraryOpened(subject, gifts, now) =>
      if OpenLibrary(db, subject, gifts, now).Ok? { OpeningIsGood(db, subject, gifts, now); }
    case GiftOffered(gift, offer, email, months) =>
      if GiftOffer(db, gift, offer, email, months).Ok? { GiftingIsGood(db, gift, offer, email, months); }
    case GiftRevoked(owner, gift) =>
      if RevokeGift(db, owner, gift).Ok? { RevokingGiftIsGood(db, owner, gift); }
    case GrantRevoked(grant) =>
      if Revoke(db, grant).Ok? { RevokingOneIsGood(db, grant); }
    case GrantedByHand(customer, benefit, serial, assets, endsAt, now) =>
      if ManualGrant(db, customer, benefit, serial, assets, endsAt, now).Ok? {
        GrantingByHandIsGood(db, customer, benefit, serial, assets, endsAt, now);
      }
    case CustomerErasedNow(subject) =>
      if EraseCustomer(db, subject).Ok? { ErasingIsGood(db, subject); }
    case RolesExpired(now) => ExpiringIsGood(db, now);
    case Elsewhere(offers, checkouts, mappings, customers, claims) => SameAccessIsGood(db, Step(db, event));
  }

  lemma GoodAlready(db: Db)
    requires Inv(db)
    ensures Good(db, db)
  {
  }

  lemma {:induction false} RunIsGood(db: Db, events: seq<Event>)
    requires Inv(db)
    ensures Good(db, Run(db, events))
    decreases |events|
  {
    hide Inv, Advances, Step;
    AdvancesNot(db);
    if events != [] {
      StepIsGood(db, events[0]);
      RunIsGood(Step(db, events[0]), events[1..]);
      AdvancesTwice(db, Step(db, events[0]), Run(db, events));
    }
  }

  lemma EmptyIsGood()
    ensures Inv(EMPTY)
  {
  }
}
