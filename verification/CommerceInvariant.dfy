/**
 What every transaction keeps of purchases, gifts and grants, and what it can
 only move in one direction.
 */
module CommerceInvariant {
  import opened Common
  import opened Commerce

  // --------------------------------------------------------------- the invariant

  /** No grant of the purchase or gift is active. */
  ghost predicate Quiet(grants: map<GrantId, Grant>, origin: Origin) {
    forall id :: id in grants && grants[id].origin == origin ==> grants[id].state == Revoked
  }

  // A grant is filed under its purchase or gift and its benefit, and held by whoever holds those.
  ghost predicate GrantOk(db: Db, id: GrantId) {
    id in db.grants ==>
      var g := db.grants[id];
      && g.origin == id.origin && g.benefit == id.benefit
      && (g.origin.OfPurchase? ==> id.serial == 0 && g.origin.payment in db.purchases && g.customerId == db.purchases[g.origin.payment].customerId)
      && (g.origin.OfGift? ==> id.serial == 0 && g.origin.gift in db.gifts && db.gifts[g.origin.gift].state != Unclaimed
                               && g.customerId == db.gifts[g.origin.gift].customerId)
  }

  ghost predicate SameTerms(g: Grant, h: Grant) {
    g.startsAt == h.startsAt && g.endsAt == h.endsAt
  }

  ghost predicate TermsOk(grants: map<GrantId, Grant>) {
    forall i, j :: i in grants && j in grants && grants[i].origin == grants[j].origin && grants[i].origin != ByHand
      ==> SameTerms(grants[i], grants[j])
  }

  ghost predicate Base(db: Db) {
    && (forall id :: GrantOk(db, id))
    && TermsOk(db.grants)
    && (forall p :: p in db.purchases ==> p in db.payments)
  }

  /** A refunded or reversed payment gives no access. */
  ghost predicate FinalOk(db: Db, p: PaymentKey) {
    p in db.payments && Terminal(db.payments[p].state) ==>
      Quiet(db.grants, OfPurchase(p)) && (p in db.purchases ==> db.purchases[p].state == Revoked)
  }

  ghost predicate GiftOk(db: Db, g: GiftKey) {
    g in db.gifts && db.gifts[g].state == Withdrawn ==> Quiet(db.grants, OfGift(g))
  }

  ghost predicate Inv(db: Db) {
    && Base(db)
    && (forall p :: FinalOk(db, p))
    && (forall g :: GiftOk(db, g))
  }

  // --------------------------------------------------------------- one-way changes

  /** The purchase or gift exists, or never will: its first grants have been made or cannot be. */
  ghost predicate Settled(db: Db, origin: Origin) {
    match origin
    case OfPurchase(p) => p in db.purchases || (p in db.payments && Terminal(db.payments[p].state))
    case OfGift(g) => g in db.gifts && db.gifts[g].state != Unclaimed
    case ByHand => false
  }

  ghost predicate PaymentMoves(db: Db, t: Db, p: PaymentKey) {
    p in db.payments ==>
      && p in t.payments
      && (Terminal(db.payments[p].state) ==> Terminal(t.payments[p].state))
      && (db.payments[p].state == Reversed ==> t.payments[p].state == Reversed)
  }

  ghost predicate PurchaseMoves(db: Db, t: Db, p: PaymentKey) {
    p in db.purchases ==>
      && p in t.purchases
      && (db.purchases[p].customerId.Some? ==> t.purchases[p].customerId == db.purchases[p].customerId)
      && (db.purchases[p].state == Revoked ==> t.purchases[p].state == Revoked)
      && t.purchases[p].offerVersionId == db.purchases[p].offerVersionId
  }

  ghost predicate GiftMoves(db: Db, t: Db, g: GiftKey) {
    g in db.gifts ==>
      && g in t.gifts
      && (db.gifts[g].state != Unclaimed ==> t.gifts[g].state != Unclaimed && t.gifts[g].customerId == db.gifts[g].customerId)
      && (db.gifts[g].state == Withdrawn ==> t.gifts[g].state == Withdrawn)
  }

  // A grant stays, for the same benefit, time and holder; one made by hand stays revoked once it is.
  ghost predicate GrantMoves(db: Db, t: Db, id: GrantId) {
    id in db.grants ==>
      && id in t.grants && t.grants[id].origin == db.grants[id].origin && t.grants[id].benefit == db.grants[id].benefit
      && SameTerms(t.grants[id], db.grants[id])
      && (db.grants[id].customerId.Some? ==> t.grants[id].customerId == db.grants[id].customerId)
      && (db.grants[id].origin == ByHand && db.grants[id].state == Revoked ==> t.grants[id].state == Revoked)
  }

  ghost predicate StaysQuiet(db: Db, t: Db, origin: Origin) {
    Settled(db, origin) && Quiet(db.grants, origin) ==> Settled(t, origin) && Quiet(t.grants, origin)
  }

  ghost predicate Advances(db: Db, t: Db) {
    && (forall p :: PaymentMoves(db, t, p))
    && (forall p :: PurchaseMoves(db, t, p))
    && (forall g :: GiftMoves(db, t, g))
    && (forall id :: GrantMoves(db, t, id))
    && (forall origin :: StaysQuiet(db, t, origin))
  }

  lemma AdvancesTwice(a: Db, b: Db, c: Db)
    requires Advances(a, b) && Advances(b, c)
    ensures Advances(a, c)
  {
    hide Settled, Quiet, SameTerms;
    forall p ensures PaymentMoves(a, c, p) { assert PaymentMoves(a, b, p) && PaymentMoves(b, c, p); }
    forall p ensures PurchaseMoves(a, c, p) { assert PurchaseMoves(a, b, p) && PurchaseMoves(b, c, p); }
    forall g ensures GiftMoves(a, c, g) { assert GiftMoves(a, b, g) && GiftMoves(b, c, g); }
    forall id ensures GrantMoves(a, c, id) { assert GrantMoves(a, b, id) && GrantMoves(b, c, id); SameTermsTwice(a, b, c, id); }
    forall origin ensures StaysQuiet(a, c, origin) { assert StaysQuiet(a, b, origin) && StaysQuiet(b, c, origin); }
  }

  lemma SameTermsTwice(a: Db, b: Db, c: Db, id: GrantId)
    requires GrantMoves(a, b, id) && GrantMoves(b, c, id)
    ensures GrantMoves(a, c, id)
  {
  }

  lemma AdvancesNot(db: Db)
    ensures Advances(db, db)
  {
  }

  // --------------------------------------------------------------- grants that only narrow

  /** The same grants, some revoked. */
  ghost predicate Narrowed(prior: map<GrantId, Grant>, grants: map<GrantId, Grant>) {
    && prior.Keys == grants.Keys
    && forall id :: id in prior ==> grants[id] == prior[id] || grants[id] == RevokeGrant(prior[id])
  }

  ghost predicate SamePurchases(db: Db, t: Db) {
    && db.purchases.Keys == t.purchases.Keys
    && forall p :: p in db.purchases ==>
         && t.purchases[p].customerId == db.purchases[p].customerId && t.purchases[p].offerVersionId == db.purchases[p].offerVersionId
         && (t.purchases[p].state == db.purchases[p].state || t.purchases[p].state == Revoked)
  }

  // Gifts as they were, but that some may be withdrawn with all their grants.
  ghost predicate SameGifts(db: Db, t: Db) {
    && db.gifts.Keys == t.gifts.Keys
    && forall g :: g in db.gifts ==>
         && t.gifts[g].customerId == db.gifts[g].customerId
         && (t.gifts[g].state == db.gifts[g].state || t.gifts[g].state == Withdrawn)
  }

  lemma NarrowedQuiet(prior: map<GrantId, Grant>, grants: map<GrantId, Grant>, origin: Origin)
    requires Narrowed(prior, grants) && Quiet(prior, origin)
    ensures Quiet(grants, origin)
  {
  }

  lemma NarrowingAdvances(db: Db, t: Db)
    requires Narrowed(db.grants, t.grants) && SamePurchases(db, t) && SameGifts(db, t) && t.payments == db.payments
    ensures Advances(db, t)
  {
  }

  lemma NarrowingKeepsBase(db: Db, t: Db)
    requires Base(db) && Narrowed(db.grants, t.grants) && SamePurchases(db, t) && SameGifts(db, t)
    requires forall p :: p in db.payments ==> p in t.payments
    ensures Base(t)
  {
    forall id ensures GrantOk(t, id) {
      assert GrantOk(db, id);
    }
    forall i, j | i in t.grants && j in t.grants && t.grants[i].origin == t.grants[j].origin && t.grants[i].origin != ByHand
      ensures SameTerms(t.grants[i], t.grants[j])
    {
      assert SameTerms(db.grants[i], db.grants[j]);
    }
  }

  lemma NarrowingKeepsInv(db: Db, t: Db)
    requires Inv(db) && Narrowed(db.grants, t.grants) && SamePurchases(db, t) && SameGifts(db, t) && t.payments == db.payments
    requires forall g :: g in t.gifts && t.gifts[g].state == Withdrawn && db.gifts[g].state != Withdrawn ==> Quiet(t.grants, OfGift(g))
    ensures Inv(t)
  {
    NarrowingKeepsBase(db, t);
    forall p ensures FinalOk(t, p) {
      assert FinalOk(db, p);
      if Quiet(db.grants, OfPurchase(p)) {
        NarrowedQuiet(db.grants, t.grants, OfPurchase(p));
      }
    }
    forall g ensures GiftOk(t, g) {
      assert GiftOk(db, g);
      if Quiet(db.grants, OfGift(g)) {
        NarrowedQuiet(db.grants, t.grants, OfGift(g));
      }
    }
  }

  lemma RevokeOfNarrows(grants: map<GrantId, Grant>, origin: Origin)
    ensures Narrowed(grants, RevokeOf(grants, origin)) && Quiet(RevokeOf(grants, origin), origin)
  {
  }

  // --------------------------------------------------------------- grants that grow

  /** Grants of one purchase or gift are added or changed, all for the same time and holder. */
  ghost predicate Grown(prior: map<GrantId, Grant>, grants: map<GrantId, Grant>, origin: Origin, terms: Terms, customer: Option<string>) {
    && (forall id :: id in prior ==> id in grants && (prior[id].origin != origin ==> grants[id] == prior[id]))
    && (forall id :: id in grants && (id !in prior || prior[id].origin == origin) ==>
          GrownGrant(grants[id], id, origin, terms, customer))
  }

  ghost predicate GrownGrant(g: Grant, id: GrantId, origin: Origin, terms: Terms, customer: Option<string>) {
    && g.origin == origin == id.origin && g.benefit == id.benefit && id.serial == 0
    && g.startsAt == terms.startsAt && g.endsAt == terms.endsAt && g.customerId == customer
  }

  // Whoever holds the purchase or gift the grants are of.
  ghost predicate Holds(t: Db, origin: Origin, customer: Option<string>) {
    match origin
    case OfPurchase(p) => p in t.purchases && t.purchases[p].customerId == customer
    case OfGift(g) => g in t.gifts && t.gifts[g].state != Unclaimed && t.gifts[g].customerId == customer
    case ByHand => false
  }

  // The other purchases and gifts are as before.
  ghost predicate OthersSame(db: Db, t: Db, origin: Origin) {
    && t.payments == db.payments
    && (forall p :: OfPurchase(p) != origin ==> (p in t.purchases <==> p in db.purchases) && (p in db.purchases ==> t.purchases[p] == db.purchases[p]))
    && (forall g :: OfGift(g) != origin ==> (g in t.gifts <==> g in db.gifts) && (g in db.gifts ==> t.gifts[g] == db.gifts[g]))
  }

  lemma GrownQuiet(prior: map<GrantId, Grant>, grants: map<GrantId, Grant>, origin: Origin, terms: Terms, customer: Option<string>, other: Origin)
    requires Grown(prior, grants, origin, terms, customer) && other != origin && Quiet(prior, other)
    ensures Quiet(grants, other)
  {
  }

  lemma GrowingKeepsBase(db: Db, t: Db, origin: Origin, terms: Terms, customer: Option<string>)
    requires Base(db) && Grown(db.grants, t.grants, origin, terms, customer) && OthersSame(db, t, origin) && Holds(t, origin, customer)
    requires origin.OfPurchase? ==> origin.payment in t.payments
    ensures Base(t)
  {
    hide Grown;
    forall id ensures GrantOk(t, id) {
      assert GrantOk(db, id);
      if id in t.grants {
        GrownIs(db.grants, t.grants, origin, terms, customer, id);
      }
    }
    forall i, j | i in t.grants && j in t.grants && t.grants[i].origin == t.grants[j].origin && t.grants[i].origin != ByHand
      ensures SameTerms(t.grants[i], t.grants[j])
    {
      GrownIs(db.grants, t.grants, origin, terms, customer, i);
      GrownIs(db.grants, t.grants, origin, terms, customer, j);
    }
  }

  lemma GrownIs(prior: map<GrantId, Grant>, grants: map<GrantId, Grant>, origin: Origin, terms: Terms, customer: Option<string>, id: GrantId)
    requires Grown(prior, grants, origin, terms, customer) && id in grants
    ensures (id in prior && prior[id].origin != origin && grants[id] == prior[id]) || GrownGrant(grants[id], id, origin, terms, customer)
  {
  }

  // New grants for a purchase or gift that may still have its first, or one with an active grant on these terms.
  lemma GrowingAdvances(db: Db, t: Db, origin: Origin, terms: Terms, customer: Option<string>)
    requires Base(db) && Grown(db.grants, t.grants, origin, terms, customer) && OthersSame(db, t, origin) && Holds(t, origin, customer)
    requires !Settled(db, origin) || !Quiet(db.grants, origin)
    requires forall id :: id in db.grants && db.grants[id].origin == origin ==> db.grants[id].startsAt == terms.startsAt && db.grants[id].endsAt == terms.endsAt
    requires origin.OfPurchase? ==> PurchaseMoves(db, t, origin.payment)
    requires origin.OfGift? ==> GiftMoves(db, t, origin.gift)
    requires Settled(db, origin) ==> Holds(db, origin, customer)
    ensures Advances(db, t)
  {
    forall id ensures GrantMoves(db, t, id) {
      assert GrantOk(db, id);
    }
    forall o ensures StaysQuiet(db, t, o) {
      if o != origin && Quiet(db.grants, o) {
        GrownQuiet(db.grants, t.grants, origin, terms, customer, o);
      }
    }
    forall p ensures PurchaseMoves(db, t, p) {
      assert OfPurchase(p) != origin || p == origin.payment;
    }
    forall g ensures GiftMoves(db, t, g) {
      assert OfGift(g) != origin || g == origin.gift;
    }
  }

  lemma GrowingKeepsInv(db: Db, t: Db, origin: Origin, terms: Terms, customer: Option<string>)
    requires Inv(db) && Grown(db.grants, t.grants, origin, terms, customer) && OthersSame(db, t, origin) && Holds(t, origin, customer)
    requires origin.OfPurchase? ==> origin.payment in t.payments && !Terminal(t.payments[origin.payment].state)
    requires origin.OfGift? ==> t.gifts[origin.gift].state != Withdrawn
    ensures Inv(t)
  {
    GrowingKeepsBase(db, t, origin, terms, customer);
    forall p ensures FinalOk(t, p) {
      assert FinalOk(db, p);
      if OfPurchase(p) != origin && Quiet(db.grants, OfPurchase(p)) {
        GrownQuiet(db.grants, t.grants, origin, terms, customer, OfPurchase(p));
      }
    }
    forall g ensures GiftOk(t, g) {
      assert GiftOk(db, g);
      if OfGift(g) != origin && Quiet(db.grants, OfGift(g)) {
        GrownQuiet(db.grants, t.grants, origin, terms, customer, OfGift(g));
      }
    }
  }

  // No grants of a purchase or gift that does not exist yet.
  lemma NoGrantsYet(db: Db, origin: Origin)
    requires Base(db) && origin != ByHand
    requires origin.OfPurchase? ==> origin.payment !in db.purchases
    requires origin.OfGift? ==> origin.gift in db.gifts && db.gifts[origin.gift].state == Unclaimed
    ensures forall id :: id in db.grants ==> db.grants[id].origin != origin
  {
    forall id | id in db.grants ensures db.grants[id].origin != origin {
      assert GrantOk(db, id);
    }
  }

  lemma {:induction false} InsertingGrows(grants: map<GrantId, Grant>, origin: Origin, benefits: seq<Benefit>, n: nat,
                                         customer: Option<string>, terms: Terms, contents: Offer, now: int)
    requires n <= |benefits| && InsertGrants(grants, origin, benefits, n, customer, terms, contents, now).Some?
    requires forall id :: id in grants ==> grants[id].origin != origin
    ensures Grown(grants, InsertGrants(grants, origin, benefits, n, customer, terms, contents, now).value, origin, terms, customer)
  {
    hide AssetsOf;
    if n > 0 {
      InsertingGrows(grants, origin, benefits, n - 1, customer, terms, contents, now);
    }
  }

  lemma UpdatingGrows(db: Db, origin: Origin, access: seq<Benefit>, customer: Option<string>, revised: Offer, now: int)
    requires Base(db) && HasActive(db.grants, origin, now) && Holds(db, origin, customer)
    ensures var terms := ActiveTerms(db.grants, origin, now);
            && Grown(db.grants, UpdateGrants(db.grants, origin, access, customer, terms, revised, now), origin, terms, customer)
            && (forall id :: id in db.grants && db.grants[id].origin == origin ==> db.grants[id].startsAt == terms.startsAt && db.grants[id].endsAt == terms.endsAt)
            && !Quiet(db.grants, origin)
  {
    hide AssetsOf, IsPackage;
    var terms := ActiveTerms(db.grants, origin, now);
    var active :| active in db.grants && db.grants[active].origin == origin && IsActive(db.grants[active], now)
                  && terms == Terms(db.grants[active].startsAt, db.grants[active].endsAt);
    forall id | id in db.grants && db.grants[id].origin == origin
      ensures GrownGrant(db.grants[id], id, origin, terms, customer)
    {
      assert GrantOk(db, id);
      assert SameTerms(db.grants[id], db.grants[active]);
    }
  }
}
