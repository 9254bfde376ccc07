/**
 What the rest of the service does, on the records themselves: which benefits and
 files an offer gives, for how long, and who may claim, receive and lose them.
 */
module CommerceActs {
  import opened Common
  import opened Commerce
  import opened CommerceInvariant
  import opened CommerceRevisions
  import opened CommerceEffects
  import CommerceAccess
  import Calendar

  // --------------------------------------------------------------- what an offer gives

  lemma {:induction false} GalleriesAre(benefits: seq<Benefit>, b: Benefit)
    ensures b in Galleries(benefits) <==> b in benefits && b.Gallery?
  {
    if benefits != [] {
      assert benefits == [benefits[0]] + benefits[1..];
      GalleriesAre(benefits[1..], b);
    }
  }

  lemma {:induction false} KeptAre(benefits: seq<Benefit>, b: Benefit)
    ensures b in Kept(benefits) <==> b in benefits && (b.Package? || b.DiscordRole?)
  {
    if benefits != [] {
      assert benefits == [benefits[0]] + benefits[1..];
      KeptAre(benefits[1..], b);
    }
  }

  /**
   Contents with roots give their own galleries and, if the original offer has
   any download, a download of each of their files, while packages and roles are
   the original offer's; other contents give their own benefits.
   */
  lemma BenefitsAre(original: Offer, contents: Offer, b: Benefit)
    ensures b in AccessBenefits(original, contents) <==>
              if !contents.hasRoots then b in contents.benefits
              else
                || (b.Gallery? && b in contents.benefits)
                || (b.Download? && b.resourceId in contents.files && exists d :: d in original.benefits && d.Download?)
                || ((b.Package? || b.DiscordRole?) && b in original.benefits)
  {
    GalleriesAre(contents.benefits, b);
    KeptAre(original.benefits, b);
    var files := seq(|contents.files|, i requires 0 <= i < |contents.files| => Download(contents.files[i]));
    if b.Download? && b.resourceId in contents.files {
      var i :| 0 <= i < |contents.files| && contents.files[i] == b.resourceId;
      assert files[i] == b;
    }
  }

  /** A gallery shows all files of the contents, a download is its file, a package the contents' archive, a role none. */
  lemma FilesAre(b: Benefit, contents: Offer)
    ensures b.Gallery? ==> |AssetsOf(b, contents)| == |contents.files|
                           && forall i :: 0 <= i < |contents.files| ==> AssetsOf(b, contents)[i] == File(contents.files[i])
    ensures b.Download? ==> AssetsOf(b, contents) == [File(b.resourceId)]
    ensures b.Package? ==> AssetsOf(b, contents) == [Archive(contents.id)]
    ensures b.DiscordRole? ==> AssetsOf(b, contents) == []
  {
  }

  ghost predicate IsVersionOf(o: Offer, offer: Offer) {
    o.offerId == offer.offerId && o.scope == offer.scope && (o.billing.Some? <==> offer.billing.Some?)
  }

  lemma {:induction false} LatestIsNewest(offers: seq<Offer>, offer: Offer)
    ensures var l := Latest(offers, offer);
            && (l.None? <==> forall o :: o in offers ==> !IsVersionOf(o, offer))
            && (l.Some? ==> l.value in offers && IsVersionOf(l.value, offer)
                            && forall o :: o in offers && IsVersionOf(o, offer) ==> o.version <= l.value.version)
  {
    if offers != [] {
      LatestIsNewest(offers[..|offers| - 1], offer);
      assert offers == offers[..|offers| - 1] + [offers[|offers| - 1]];
    }
  }

  ghost predicate IsFirstNewest(offers: seq<Offer>, offer: Offer, k: nat) {
    && k < |offers| && IsVersionOf(offers[k], offer)
    && (forall i :: 0 <= i < k && IsVersionOf(offers[i], offer) ==> offers[i].version < offers[k].version)
    && (forall i :: k < i < |offers| && IsVersionOf(offers[i], offer) ==> offers[i].version <= offers[k].version)
  }

  /** Of versions with one number, the first listed. */
  lemma {:induction false} LatestIsFirstNewest(offers: seq<Offer>, offer: Offer) returns (k: nat)
    requires Latest(offers, offer).Some?
    ensures IsFirstNewest(offers, offer, k) && Latest(offers, offer).value == offers[k]
  {
    var n := |offers| - 1;
    LatestIsNewest(offers[..n], offer);
    assert forall i :: 0 <= i < n ==> offers[i] in offers[..n];
    k := n;
    if Latest(offers, offer) == Latest(offers[..n], offer) && Latest(offers[..n], offer).Some? {
      var before := LatestIsFirstNewest(offers[..n], offer);
      if !(IsVersionOf(offers[n], offer) && offers[n].version > offers[before].version) {
        k := before;
      }
    }
  }

  /** The newest version's contents count for billed offers and offers with roots, before or now; otherwise the offer's own. */
  lemma ContentsAreNewest(offers: seq<Offer>, offer: Offer)
    requires offer in offers
    ensures exists newest :: newest in offers && IsVersionOf(newest, offer)
              && (forall o :: o in offers && IsVersionOf(o, offer) ==> o.version <= newest.version)
              && CurrentContents(offers, offer) == (if offer.billing.Some? || offer.hasRoots || newest.hasRoots then newest else offer)
  {
    LatestIsNewest(offers, offer);
    assert IsVersionOf(offer, offer);
  }

  /** A subscription's access ends a billing period after it was paid, a timed offer's so many seconds from now, any other's never. */
  lemma AccessEnds(offer: Offer, e: Evidence, now: int)
    ensures offer.billing.Some? && e.paidAt.Some? ==>
              EndOf(offer, e, now) == Some(Calendar.PeriodEnd(e.paidAt.value, offer.billing.value, 1))
    ensures offer.billing.None? ==>
              EndOf(offer, e, now) == match offer.durationSeconds
                                      case Some(s) => if s == 0 then None else Some(now + 1000 * s)
                                      case None => None
  {
  }

  // --------------------------------------------------------------- purchases and claims

  /**
   A new purchase belongs to whoever ordered it; without an order it waits, with
   its address, under a fresh claim for a day, and no earlier claim is left open.
   */
  lemma PurchasesBelongOrWait(db: Db, scope: Scope, connectionId: string, e: Evidence, secret: Secret, now: int, c: string)
    requires ApplyEvidence(db, scope, connectionId, e, secret, now).Ok?
    requires PaymentKey(scope, e.merchantId, e.captureId) !in db.purchases
    requires PaymentKey(scope, e.merchantId, e.captureId) in ApplyEvidence(db, scope, connectionId, e, secret, now).value.purchases
    requires e.buyerEmail.Some? ==> e.buyerEmail.value.Proper?
    ensures var t, id := ApplyEvidence(db, scope, connectionId, e, secret, now).value, PaymentKey(scope, e.merchantId, e.captureId);
            var order, p := OrderFor(db, scope, e), t.purchases[id];
            && p.customerId == (if order.Some? then Some(order.value.customerId) else None)
            && p.claimedAt == (if order.Some? then Some(now) else None)
            && p.buyerEmail == (if e.buyerEmail.Some? then Some(e.buyerEmail.value.address) else None)
            && (order.Some? || e.buyerEmail.None? ==> t.claims == db.claims)
            && (order.None? && e.buyerEmail.Some? ==>
                  && secret.claimId in t.claims
                  && t.claims[secret.claimId] == Claim(id, e.buyerEmail.value.address, secret.token, now + 24 * 60 * 60 * 1000, false)
                  && (c in t.claims && t.claims[c].purchase == id && !t.claims[c].consumed ==> c == secret.claimId)
                  && (c in db.claims && db.claims[c].purchase != id && c != secret.claimId ==> c in t.claims && t.claims[c] == db.claims[c]))
  {
    hide Refused, Accepted, OfferFor, OrderFor, AccessBenefits, CurrentContents, InsertGrants, EndOf, Recorded, RevokeOf;
    RefusedUndated(db, scope, connectionId, e);
    var after, id := Recorded(db, scope, connectionId, e, now), KeyOf(scope, e);
    CommerceAccess.RecordedStates(db, scope, connectionId, e, now);
    RecordingKeepsClaims(db, scope, connectionId, e, now);
    SameOrderAfter(db, scope, connectionId, e, now);
    RevokingKeepsPurchases(after, id);
    PurchasedBelongsOrWaits(after, scope, e, OfferFor(db, scope, e).value, secret, now, c);
  }

  lemma RevokingKeepsPurchases(db: Db, id: PaymentKey)
    ensures RevokedPurchase(db, id).purchases.Keys == db.purchases.Keys
  {
  }

  lemma RecordingKeepsClaims(db: Db, scope: Scope, connectionId: string, e: Evidence, now: int)
    requires e.updatedAt.Some?
    ensures Recorded(db, scope, connectionId, e, now).claims == db.claims
  {
    hide Settle, NewPayment, OrderFor, OfferFor, Fault, Verdict, OrderAfter, RecordRefunds, CompletedTotal;
  }

  // Recording changes only an order's state, never whose it is.
  lemma SameOrderAfter(db: Db, scope: Scope, connectionId: string, e: Evidence, now: int)
    requires e.updatedAt.Some?
    ensures var t := Recorded(db, scope, connectionId, e, now);
            && (OrderFor(t, scope, e).Some? <==> OrderFor(db, scope, e).Some?)
            && (OrderFor(db, scope, e).Some? ==> OrderFor(t, scope, e).value.customerId == OrderFor(db, scope, e).value.customerId)
  {
    hide Settle, Verdict, Fault, OfferFor, NewPayment, CompletedTotal, RecordRefunds;
    var t, i := Recorded(db, scope, connectionId, e, now), FindOrder(db.checkouts, scope, e.orderId);
    if i < |db.checkouts| {
      SameFind(db.checkouts, scope, e.orderId, t.checkouts[i]);
    }
  }

  lemma {:induction false} SameFind(checkouts: seq<Checkout>, scope: Scope, orderId: Option<string>, o: Checkout)
    requires var i := FindOrder(checkouts, scope, orderId);
             i < |checkouts| && o.scope == checkouts[i].scope && o.providerOrderId == checkouts[i].providerOrderId
    ensures var i := FindOrder(checkouts, scope, orderId);
            FindOrder(checkouts[i := o], scope, orderId) == i
  {
    var i := FindOrder(checkouts, scope, orderId);
    if i > 0 {
      SameFind(checkouts[1..], scope, orderId, o);
      assert checkouts[i := o][1..] == checkouts[1..][i - 1 := o];
    }
  }

  lemma PurchasedBelongsOrWaits(db: Db, scope: Scope, e: Evidence, offer: Offer, secret: Secret, now: int, c: string)
    requires Purchased(db, scope, e, offer, secret, now).Ok?
    ensures var t, id := Purchased(db, scope, e, offer, secret, now).value, KeyOf(scope, e);
            var order := OrderFor(db, scope, e);
            && id in t.purchases
            && t.purchases[id].customerId == (if order.Some? then Some(order.value.customerId) else None)
            && t.purchases[id].claimedAt == (if order.Some? then Some(now) else None)
            && (e.buyerEmail.Some? && e.buyerEmail.value.Proper? ==> t.purchases[id].buyerEmail == Some(e.buyerEmail.value.address))
            && (e.buyerEmail.None? ==> t.purchases[id].buyerEmail.None?)
            && (order.Some? || e.buyerEmail.None? ==> t.claims == db.claims)
            && (order.None? && e.buyerEmail.Some? && e.buyerEmail.value.Proper? ==>
                  && secret.claimId in t.claims
                  && t.claims[secret.claimId] == Claim(id, e.buyerEmail.value.address, secret.token, now + 86400000, false)
                  && (c in t.claims && t.claims[c].purchase == id && !t.claims[c].consumed ==> c == secret.claimId)
                  && (c in db.claims && db.claims[c].purchase != id && c != secret.claimId ==> c in t.claims && t.claims[c] == db.claims[c]))
  {
    hide AccessBenefits, CurrentContents, InsertGrants, EndOf, OrderFor;
  }

  // --------------------------------------------------------------- redeeming

  /**
   A claim is honoured exactly if it is open and in time, its token is the one
   presented, the purchase still waits, and the customer, not erased, has verified
   the address it was made for.
   */
  lemma ClaimsAreHonouredExactly(db: Db, subject: string, claimId: string, token: string, now: int)
    ensures RedeemClaim(db, subject, claimId, token, now).Ok? <==>
              && claimId in db.claims && !db.claims[claimId].consumed && now < db.claims[claimId].expiresAt && db.claims[claimId].token == token
              && subject in db.customers && !db.customers[subject].erased && db.claims[claimId].email in db.customers[subject].verifiedEmails
              && db.claims[claimId].purchase in db.purchases
              && db.purchases[db.claims[claimId].purchase].customerId.None? && db.purchases[db.claims[claimId].purchase].state == Active
  {
  }

  /** Then the purchase and all its grants are the customer's, its address is forgotten, and the claim is used up: it works once. */
  lemma HonouredClaimsHandOver(db: Db, subject: string, claimId: string, token: string, now: int, g: GrantId, again: string, other: string, later: int)
    requires RedeemClaim(db, subject, claimId, token, now).Ok?
    ensures var t, id := RedeemClaim(db, subject, claimId, token, now).value, db.claims[claimId].purchase;
            && t.purchases == db.purchases[id := db.purchases[id].(customerId := Some(subject), claimedAt := Some(now), buyerEmail := None)]
            && t.claims == db.claims[claimId := db.claims[claimId].(consumed := true)]
            && t.payments == db.payments && t.gifts == db.gifts
            && (g in t.grants <==> g in db.grants)
            && (g in db.grants ==> t.grants[g] == if db.grants[g].origin == OfPurchase(id) then db.grants[g].(customerId := Some(subject))
                                                  else db.grants[g])
            && RedeemClaim(t, other, claimId, again, later).Err?
  {
  }

  // --------------------------------------------------------------- gifts

  /**
   Months are given exactly with a gift of a subscription, one to a hundred and
   twenty of them; a new gift waits for its address, and offering it again changes
   nothing.
   */
  lemma GiftsAreOfferedExactly(db: Db, id: GiftKey, version: string, email: string, months: Option<int>)
    ensures var r, offer := GiftOffer(db, id, version, email, months), FindOffer(db.offers, version);
            && (r.Ok? <==> offer.Some? && offer.value.scope == id.scope
                           && (offer.value.billing.Some? ==> months.Some? && 1 <= months.value <= 120)
                           && (offer.value.billing.None? ==> months.None?))
            && (r.Ok? && id in db.gifts ==> r.value == db)
            && (r.Ok? && id !in db.gifts ==>
                  r.value == db.(gifts := db.gifts[id := Gift(version, None, email, months, None, None, None, Unclaimed)]))
  {
    hide FindOffer;
  }

  ghost predicate AwaitsHim(db: Db, subject: string, id: GiftKey) {
    && id in db.gifts && db.gifts[id].state == Unclaimed && subject in db.customers
    && db.gifts[id].recipientEmail in db.customers[subject].verifiedEmails && FindOffer(db.offers, db.gifts[id].offerVersionId).Some?
  }

  /**
   A gift is claimed exactly if it waits for an address the customer has verified;
   the customer then has exactly the benefits the offer and its current contents
   give, each active from now until the months are over.
   */
  lemma GiftsAreClaimedExactly(db: Db, subject: string, id: GiftKey, now: int, g: GrantId)
    requires Inv(db) && subject in db.customers && ClaimGift(db, subject, id, now).Ok? && g.origin == OfGift(id)
    ensures var t := ClaimGift(db, subject, id, now).value;
            if !AwaitsHim(db, subject, id) then t == db
            else
              var offer := FindOffer(db.offers, db.gifts[id].offerVersionId).value;
              var contents, months := CurrentContents(db.offers, offer), db.gifts[id].months;
              && id in t.gifts && t.gifts[id].state == Claimed && t.gifts[id].customerId == Some(subject) && t.gifts[id].claimedAt == Some(now)
              && t.gifts[id].contentOfferVersionId == Some(contents.id)
              && t.gifts[id].endsAt == (if months.Some? && months.value != 0 then Some(Calendar.PeriodEnd(now, Calendar.Month, months.value))
                                        else db.gifts[id].endsAt)
              && (g in t.grants <==> g.serial == 0 && g.benefit in AccessBenefits(offer, contents))
              && (g in t.grants ==>
                    && t.grants[g].state == Active && !t.grants[g].contentRemoved && t.grants[g].customerId == Some(subject)
                    && t.grants[g].startsAt == now && t.grants[g].endsAt == t.gifts[id].endsAt
                    && t.grants[g].assets == AssetsOf(g.benefit, contents) && t.grants[g].benefit == g.benefit && t.grants[g].updatedAt == now)
  {
    hide FindOffer, CurrentContents, AccessBenefits, AssetsOf, InsertGrants, Calendar.PeriodEnd, Inv;
    if AwaitsHim(db, subject, id) {
      var offer := FindOffer(db.offers, db.gifts[id].offerVersionId).value;
      var contents := CurrentContents(db.offers, offer);
      var access, gift := AccessBenefits(offer, contents), ClaimedGift(db.gifts[id], subject, contents, now);
      Unfiled(db, id, g);
      CommerceAccess.InsertedAre(db.grants, OfGift(id), access, |access|, Some(subject), Terms(now, gift.endsAt), contents, now, g);
      assert access[..|access|] == access;
    }
  }

  lemma Unfiled(db: Db, id: GiftKey, g: GrantId)
    requires Inv(db) && id in db.gifts && db.gifts[id].state == Unclaimed && g.origin == OfGift(id)
    ensures g !in db.grants
  {
    assert GrantOk(db, g);
  }

  /** A gift is revoked by its owner only, with every grant of it and no other. */
  lemma GiftsAreRevokedExactly(db: Db, owner: string, id: GiftKey, g: GrantId)
    ensures var r := RevokeGift(db, owner, id);
            && (r.Ok? <==> id in db.gifts && id.scope.owner == owner)
            && (r.Ok? ==>
                  && r.value.gifts == db.gifts[id := db.gifts[id].(state := Withdrawn)]
                  && (g in r.value.grants <==> g in db.grants)
                  && (g in db.grants ==>
                        r.value.grants[g] == if db.grants[g].origin == OfGift(id) then db.grants[g].(state := Revoked) else db.grants[g]))
  {
  }

  // --------------------------------------------------------------- erasure, and roles that run out

  ghost predicate StillSubscribes(o: Checkout, customer: string) {
    && o.customerId == customer && o.billing.Some? && o.state != Failing
    && o.subscriptionState != "CANCELLED" && o.subscriptionState != "EXPIRED"
  }

  /**
   A customer is erased exactly if not erased already and no subscription runs;
   then all grants held are revoked, addresses on purchases and gifts forgotten,
   and claims on those purchases gone, and nobody else's change.
   */
  lemma CustomersAreErasedExactly(db: Db, subject: string, g: GrantId, p: PaymentKey, c: string)
    ensures var r := EraseCustomer(db, subject);
            && (r.Ok? <==> !(subject in db.customers && db.customers[subject].erased)
                           && forall i :: 0 <= i < |db.checkouts| ==> !StillSubscribes(db.checkouts[i], subject))
            && (r.Ok? ==>
                  && r.value.customers == db.customers[subject := Customer({}, true)]
                  && (g in r.value.grants <==> g in db.grants) && (p in r.value.purchases <==> p in db.purchases)
                  && (g in db.grants ==>
                        r.value.grants[g] == if db.grants[g].customerId == Some(subject) then db.grants[g].(state := Revoked) else db.grants[g])
                  && (p in db.purchases ==>
                        r.value.purchases[p] == if db.purchases[p].customerId == Some(subject) then db.purchases[p].(buyerEmail := None)
                                                else db.purchases[p])
                  && (c in r.value.claims <==>
                        c in db.claims && !(db.claims[c].purchase in db.purchases && db.purchases[db.claims[c].purchase].customerId == Some(subject)))
                  && (c in r.value.claims ==> r.value.claims[c] == db.claims[c]))
  {
    hide RevokeHeld, ForgetBuyer, DropClaims, ForgetRecipient;
    if EraseCustomer(db, subject).Ok? {
      ErasedRecords(db, subject, g, p, c);
    }
    SubscriptionsAre(db.checkouts, subject);
  }

  lemma SubscriptionsAre(checkouts: seq<Checkout>, customer: string)
    ensures SomeSubscription(checkouts, customer) <==> exists i :: 0 <= i < |checkouts| && StillSubscribes(checkouts[i], customer)
  {
    forall i | 0 <= i < |checkouts| ensures Subscribes(checkouts[i], customer) <==> StillSubscribes(checkouts[i], customer) { }
  }

  /** The recipient's address is forgotten on every gift the customer claimed, and on no other. */
  lemma RecipientsAreForgotten(db: Db, subject: string, id: GiftKey)
    requires EraseCustomer(db, subject).Ok?
    ensures var gifts := EraseCustomer(db, subject).value.gifts;
            && (id in gifts <==> id in db.gifts)
            && (id in db.gifts ==>
                  gifts[id] == if db.gifts[id].customerId == Some(subject) then db.gifts[id].(recipientEmail := "erased") else db.gifts[id])
  {
  }

  lemma ErasedRecords(db: Db, subject: string, g: GrantId, p: PaymentKey, c: string)
    ensures var grants, purchases, claims :=
              RevokeHeld(db.grants, subject), ForgetBuyer(db.purchases, subject), DropClaims(db.claims, db.purchases, subject);
            && (g in grants <==> g in db.grants) && (p in purchases <==> p in db.purchases)
            && (g in db.grants ==>
                  grants[g] == if db.grants[g].customerId == Some(subject) then db.grants[g].(state := Revoked) else db.grants[g])
            && (p in db.purchases ==>
                  purchases[p] == if db.purchases[p].customerId == Some(subject) then db.purchases[p].(buyerEmail := None) else db.purchases[p])
            && (c in claims <==>
                  c in db.claims && !(db.claims[c].purchase in db.purchases && db.purchases[db.claims[c].purchase].customerId == Some(subject)))
            && (c in claims ==> claims[c] == db.claims[c])
  {
  }

  /** Timed roles are revoked exactly when their time is over. */
  lemma RolesRunOutExactly(db: Db, now: int, g: GrantId)
    ensures var t := ExpireRoles(db, now);
            && (g in t.grants <==> g in db.grants)
            && (g in db.grants ==>
                  t.grants[g] == if db.grants[g].benefit.DiscordRole? && db.grants[g].endsAt.Some? && db.grants[g].endsAt.value <= now
                                 then db.grants[g].(state := Revoked) else db.grants[g])
  {
  }

  // --------------------------------------------------------------- when a revision applies

  /** Active, begun and not over. */
  ghost predicate InForce(g: Grant, now: int) {
    g.state == Active && g.startsAt <= now && (g.endsAt.Some? ==> now < g.endsAt.value)
  }

  /**
   A revision applies to an active purchase or claimed gift with a grant in force
   of the same offer, owner and environment, if both or neither are billed, and the
   original is billed or the contents have roots.
   */
  lemma RevisionsApplyExactly(db: Db, o: Origin, revised: Offer, now: int)
    requires InUse(db, o)
    ensures Applies(db, o, revised, now) <==>
              && FindOffer(db.offers, VersionOf(db, o)).Some?
              && var original := FindOffer(db.offers, VersionOf(db, o)).value;
                 && original.offerId == revised.offerId && ScopeOf(db, o) == revised.scope
                 && (original.billing.Some? <==> revised.billing.Some?) && (original.billing.Some? || revised.hasRoots)
                 && exists g :: g in db.grants && db.grants[g].origin == o && InForce(db.grants[g], now)
  {
    hide FindOffer;
    forall g | g in db.grants ensures InForce(db.grants[g], now) <==> IsActive(db.grants[g], now) { }
    if HasActive(db.grants, o, now) {
      var g :| g in db.grants && db.grants[g].origin == o && IsActive(db.grants[g], now);
      assert InForce(db.grants[g], now);
    }
    if g :| g in db.grants && db.grants[g].origin == o && InForce(db.grants[g], now) {
      assert IsActive(db.grants[g], now);
    }
  }

  /** The record is marked with the contents it was revised to, exactly if the revision applied. */
  lemma RevisedContentsAreMarked(db: Db, o: Origin, revised: Offer, now: int)
    requires InUse(db, o)
    ensures var t := UpdateRecord(db, o, revised, now);
            && (Applies(db, o, revised, now) && o.OfPurchase? ==>
                  o.payment in t.purchases && t.purchases[o.payment].contentOfferVersionId == Some(revised.id))
            && (Applies(db, o, revised, now) && o.OfGift? ==>
                  o.gift in t.gifts && t.gifts[o.gift].contentOfferVersionId == Some(revised.id))
            && (!Applies(db, o, revised, now) ==> t == db)
  {
    hide UpdateGrants, AccessBenefits, ActiveTerms, FindOffer, Reaches, HasActive;
  }
}
