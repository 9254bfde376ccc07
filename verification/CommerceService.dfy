/** The service itself: tables updated by loops inside transactions, each method proved to compute its function. */
module CommerceServiceClass {
  import opened Common
  import opened Commerce
  import CommerceEvidence
  import opened CommerceInvariant
  import opened CommerceSteps

  // --------------------------------------------------------------- loops over records

  method SumCompleted(refunds: map<string, Refund>) returns (total: int)
    ensures total == CompletedTotal(refunds)
  {
    total := 0;
    var rest := Completed(refunds);
    while rest.Keys != {}
      invariant total + Sum(rest) == CompletedTotal(refunds)
      decreases |rest|
    {
      var id :| id in rest.Keys;
      CommerceEvidence.SumSplit(rest, id);
      total := total + rest[id];
      rest := rest - {id};
    }
    assert rest == map[];
  }

  method RecordAll(refunds: map<string, Refund>, evidence: seq<RefundEvidence>) returns (r: map<string, Refund>)
    ensures r == RecordRefunds(refunds, evidence, |evidence|)
  {
    r := refunds;
    for n := 0 to |evidence|
      invariant r == RecordRefunds(refunds, evidence, n)
    {
      var e := evidence[n];
      if e.id !in r || r[e.id].state != COMPLETED {
        r := r[e.id := Refund(e.amountMinor, e.state)];
      }
    }
  }

  lemma {:induction false} FailedInsertStaysFailed(grants: map<GrantId, Grant>, origin: Origin, benefits: seq<Benefit>, k: nat, n: nat,
                                                  customer: Option<string>, terms: Terms, contents: Offer, now: int)
    requires k <= n <= |benefits| && InsertGrants(grants, origin, benefits, k, customer, terms, contents, now).None?
    ensures InsertGrants(grants, origin, benefits, n, customer, terms, contents, now).None?
  {
    if k < n {
      FailedInsertStaysFailed(grants, origin, benefits, k, n - 1, customer, terms, contents, now);
    }
  }

  method InsertAll(grants: map<GrantId, Grant>, origin: Origin, benefits: seq<Benefit>,
                   customer: Option<string>, terms: Terms, contents: Offer, now: int) returns (r: Option<map<GrantId, Grant>>)
    ensures r == InsertGrants(grants, origin, benefits, |benefits|, customer, terms, contents, now)
  {
    hide AssetsOf;
    var table := grants;
    for n := 0 to |benefits|
      invariant InsertGrants(grants, origin, benefits, n, customer, terms, contents, now) == Some(table)
    {
      var id := GrantId(origin, benefits[n], 0);
      if id in table {
        FailedInsertStaysFailed(grants, origin, benefits, n + 1, |benefits|, customer, terms, contents, now);
        return None;
      }
      table := table[id := NewGrant(origin, benefits[n], customer, terms, contents, now)];
    }
    r := Some(table);
  }

  method RevokeAll(grants: map<GrantId, Grant>, origin: Origin) returns (r: map<GrantId, Grant>)
    ensures r == RevokeOf(grants, origin)
  {
    r := grants;
    var left := grants.Keys;
    while left != {}
      invariant left <= grants.Keys == r.Keys
      invariant forall id :: id in grants ==> r[id] == if id in left then grants[id] else RevokeOf(grants, origin)[id]
      decreases left
    {
      var id :| id in left;
      if r[id].origin == origin {
        r := r[id := r[id].(state := Revoked)];
      }
      left := left - {id};
    }
  }

  method RevokeAllTimedOut(grants: map<GrantId, Grant>, now: int) returns (r: map<GrantId, Grant>)
    ensures r == RevokeTimedOut(grants, now)
  {
    r := grants;
    var left := grants.Keys;
    while left != {}
      invariant left <= grants.Keys == r.Keys
      invariant forall id :: id in grants ==> r[id] == if id in left then grants[id] else RevokeTimedOut(grants, now)[id]
      decreases left
    {
      var id :| id in left;
      if TimedOut(r[id], now) {
        r := r[id := r[id].(state := Revoked)];
      }
      left := left - {id};
    }
  }

  method GiveAll(grants: map<GrantId, Grant>, origin: Origin, customer: string) returns (r: map<GrantId, Grant>)
    ensures r == GiveGrantsTo(grants, origin, customer)
  {
    r := grants;
    var left := grants.Keys;
    while left != {}
      invariant left <= grants.Keys == r.Keys
      invariant forall id :: id in grants ==> r[id] == if id in left then grants[id] else GiveGrantsTo(grants, origin, customer)[id]
      decreases left
    {
      var id :| id in left;
      if r[id].origin == origin {
        r := r[id := r[id].(customerId := Some(customer))];
      }
      left := left - {id};
    }
  }

  ghost predicate Settles(db: Db, scope: Scope, connectionId: string, e: Evidence, now: int,
                          payment: Payment, recorded: map<string, Refund>, invalid: Option<Reason>)
    requires e.updatedAt.Some?
  {
    var offer, known := OfferFor(db, scope, e), Opened(db, scope, connectionId, e);
    && recorded == RecordRefunds(RefundsOf(db, KeyOf(scope, e)), e.refunds, |e.refunds|)
    && invalid == Verdict(known, e, CompletedTotal(recorded), Fault(db, scope, e, now))
    && payment == Settle(known, e, CompletedTotal(recorded), Fault(db, scope, e, now), IdOf(OrderFor(db, scope, e)),
                         if offer.Some? then Some(offer.value.id) else None)
  }

  method SettledPayment(db: Db, scope: Scope, connectionId: string, e: Evidence, now: int)
    returns (payment: Payment, recorded: map<string, Refund>, invalid: Option<Reason>)
    requires e.updatedAt.Some?
    ensures Settles(db, scope, connectionId, e, now, payment, recorded, invalid)
  {
    hide Settle, Verdict, Fault, OfferFor, Opened, OrderFor, RefundsOf, IdOf, CompletedTotal, RecordRefunds;
    var offer := OfferFor(db, scope, e);
    payment := Opened(db, scope, connectionId, e);
    recorded := RecordAll(RefundsOf(db, KeyOf(scope, e)), e.refunds);
    var total := SumCompleted(recorded);
    var fault := Fault(db, scope, e, now);
    invalid := Verdict(payment, e, total, fault);
    payment := Settle(payment, e, total, fault, IdOf(OrderFor(db, scope, e)), if offer.Some? then Some(offer.value.id) else None);
  }

  lemma RecordedIs(db: Db, scope: Scope, connectionId: string, e: Evidence, now: int,
                   payment: Payment, recorded: map<string, Refund>, invalid: Option<Reason>)
    requires e.updatedAt.Some? && Settles(db, scope, connectionId, e, now, payment, recorded, invalid)
    ensures var i := FindOrder(db.checkouts, scope, e.orderId);
            Recorded(db, scope, connectionId, e, now)
            == db.(payments := db.payments[KeyOf(scope, e) := payment], refunds := db.refunds[KeyOf(scope, e) := recorded],
                   checkouts := if i < |db.checkouts| then db.checkouts[i := OrderAfter(db.checkouts[i], payment, invalid)] else db.checkouts)
    ensures Accepted(db, scope, connectionId, e, now) <==> invalid.None?
  {
  }

  method FindSubscription(checkouts: seq<Checkout>, customer: string) returns (found: bool)
    ensures found <==> SomeSubscription(checkouts, customer)
  {
    for i := 0 to |checkouts|
      invariant forall k :: 0 <= k < i ==> !Subscribes(checkouts[k], customer)
    {
      if Subscribes(checkouts[i], customer) {
        return true;
      }
    }
    found := false;
  }

  method RevokeAllHeld(grants: map<GrantId, Grant>, customer: string) returns (r: map<GrantId, Grant>)
    ensures r == RevokeHeld(grants, customer)
  {
    r := grants;
    var left := grants.Keys;
    while left != {}
      invariant left <= grants.Keys == r.Keys
      invariant forall id :: id in grants ==> r[id] == if id in left then grants[id] else RevokeHeld(grants, customer)[id]
      decreases left
    {
      var id :| id in left;
      if r[id].customerId == Some(customer) {
        r := r[id := r[id].(state := Revoked)];
      }
      left := left - {id};
    }
  }

  method ForgetBuyers(purchases: map<PaymentKey, Purchase>, customer: string) returns (r: map<PaymentKey, Purchase>)
    ensures r == ForgetBuyer(purchases, customer)
  {
    r := purchases;
    var left := purchases.Keys;
    while left != {}
      invariant left <= purchases.Keys == r.Keys
      invariant forall id :: id in purchases ==> r[id] == if id in left then purchases[id] else ForgetBuyer(purchases, customer)[id]
      decreases left
    {
      var id :| id in left;
      if r[id].customerId == Some(customer) {
        r := r[id := r[id].(buyerEmail := None)];
      }
      left := left - {id};
    }
  }

  method ForgetRecipients(gifts: map<GiftKey, Gift>, customer: string) returns (r: map<GiftKey, Gift>)
    ensures r == ForgetRecipient(gifts, customer)
  {
    r := gifts;
    var left := gifts.Keys;
    while left != {}
      invariant left <= gifts.Keys == r.Keys
      invariant forall id :: id in gifts ==> r[id] == if id in left then gifts[id] else ForgetRecipient(gifts, customer)[id]
      decreases left
    {
      var id :| id in left;
      if r[id].customerId == Some(customer) {
        r := r[id := r[id].(recipientEmail := ERASED)];
      }
      left := left - {id};
    }
  }

  method RemoveClaims(claims: map<string, Claim>, purchases: map<PaymentKey, Purchase>, customer: string) returns (r: map<string, Claim>)
    ensures r == DropClaims(claims, purchases, customer)
  {
    r := claims;
    var left := claims.Keys;
    while left != {}
      invariant left <= claims.Keys
      invariant forall id :: id in r <==> id in claims && (id in left || !ClaimsFrom(purchases, claims[id], customer))
      invariant forall id :: id in r ==> r[id] == claims[id]
      decreases left
    {
      var id :| id in left;
      if ClaimsFrom(purchases, claims[id], customer) {
        r := r - {id};
      }
      left := left - {id};
    }
  }

  // --------------------------------------------------------------- one record's contents

  /** An active grant of the record, if there is one; all its grants share the terms found. */
  method FindActive(ghost db: Db, grants: map<GrantId, Grant>, origin: Origin, now: int) returns (terms: Option<Terms>)
    requires Base(db) && grants == db.grants && origin != ByHand
    ensures terms.Some? <==> HasActive(grants, origin, now)
    ensures terms.Some? ==> terms.value == ActiveTerms(grants, origin, now)
  {
    var left := grants.Keys;
    while left != {}
      invariant left <= grants.Keys
      invariant forall id :: id in grants && id !in left ==> !(grants[id].origin == origin && IsActive(grants[id], now))
      decreases left
    {
      var id :| id in left;
      if grants[id].origin == origin && IsActive(grants[id], now) {
        AnyActiveHasTheTerms(db, origin, id, now);
        return Some(Terms(grants[id].startsAt, grants[id].endsAt));
      }
      left := left - {id};
    }
    terms := None;
  }

  lemma AnyActiveHasTheTerms(db: Db, origin: Origin, id: GrantId, now: int)
    requires Base(db) && origin != ByHand && id in db.grants && db.grants[id].origin == origin && IsActive(db.grants[id], now)
    ensures HasActive(db.grants, origin, now)
    ensures ActiveTerms(db.grants, origin, now) == Terms(db.grants[id].startsAt, db.grants[id].endsAt)
  {
  }

  // Grants filed as the service files them.
  ghost predicate Filed(grants: map<GrantId, Grant>, origin: Origin) {
    forall id :: id in grants && (grants[id].origin == origin || id.origin == origin) ==> id == GrantId(origin, grants[id].benefit, 0) && grants[id].origin == origin
  }

  /** First the benefits the record lost, then those it has. */
  method UpdateAll(grants: map<GrantId, Grant>, origin: Origin, access: seq<Benefit>, customer: Option<string>,
                   terms: Terms, revised: Offer, now: int) returns (r: map<GrantId, Grant>)
    requires Filed(grants, origin)
    ensures r == UpdateGrants(grants, origin, access, customer, terms, revised, now)
  {
    hide AssetsOf, NewGrant, Restore, Withdraw, UpdateGrants, UpdatedSoFar, GrantIds;
    r := WithdrawLost(grants, origin, access);
    NoneUpdated(grants, r, origin, access, customer, terms, revised, now);
    for n := 0 to |access|
      invariant r.Keys == grants.Keys + GrantIds(origin, access[..n])
      invariant forall id :: id in r ==> r[id] == UpdatedSoFar(grants, id, origin, access, n, customer, terms, revised, now)
    {
      var id := GrantId(origin, access[n], 0);
      GrantIdsSnoc(origin, access, n);
      if id in grants {
        r := r[id := Restore(r[id], revised, now)];
      } else {
        r := r[id := NewGrant(origin, access[n], customer, terms, revised, now)];
      }
      forall i | i in r ensures r[i] == UpdatedSoFar(grants, i, origin, access, n + 1, customer, terms, revised, now) {
        UpdatedNext(grants, i, origin, access, n, customer, terms, revised, now);
      }
    }
    AllUpdated(grants, r, origin, access, customer, terms, revised, now);
  }

  lemma NoneUpdated(grants: map<GrantId, Grant>, r: map<GrantId, Grant>, origin: Origin, access: seq<Benefit>,
                    customer: Option<string>, terms: Terms, revised: Offer, now: int)
    requires r.Keys == grants.Keys
    requires forall id :: id in grants ==>
      r[id] == if grants[id].origin == origin && grants[id].benefit !in access then Withdraw(grants[id]) else grants[id]
    ensures r.Keys == grants.Keys + GrantIds(origin, access[..0])
    ensures forall id :: id in r ==> r[id] == UpdatedSoFar(grants, id, origin, access, 0, customer, terms, revised, now)
  {
  }

  lemma AllUpdated(grants: map<GrantId, Grant>, r: map<GrantId, Grant>, origin: Origin, access: seq<Benefit>,
                   customer: Option<string>, terms: Terms, revised: Offer, now: int)
    requires r.Keys == grants.Keys + GrantIds(origin, access[..|access|])
    requires forall id :: id in r ==> r[id] == UpdatedSoFar(grants, id, origin, access, |access|, customer, terms, revised, now)
    ensures r == UpdateGrants(grants, origin, access, customer, terms, revised, now)
  {
    hide NewGrant, Restore, Withdraw;
    assert access[..|access|] == access;
  }

  lemma GrantIdsSnoc(origin: Origin, access: seq<Benefit>, n: nat)
    requires n < |access|
    ensures GrantIds(origin, access[..n + 1]) == GrantIds(origin, access[..n]) + {GrantId(origin, access[n], 0)}
  {
  }

  // Visiting the next benefit changes its own grant only.
  lemma UpdatedNext(grants: map<GrantId, Grant>, id: GrantId, origin: Origin, access: seq<Benefit>, n: nat,
                    customer: Option<string>, terms: Terms, revised: Offer, now: int)
    requires n < |access| && Filed(grants, origin)
    ensures UpdatedSoFar(grants, id, origin, access, n + 1, customer, terms, revised, now)
         == if id == GrantId(origin, access[n], 0) && id in grants then Restore(grants[id], revised, now)
            else UpdatedSoFar(grants, id, origin, access, n, customer, terms, revised, now)
    ensures id !in grants ==>
      UpdatedSoFar(grants, id, origin, access, n, customer, terms, revised, now) == NewGrant(origin, id.benefit, customer, terms, revised, now)
    ensures id == GrantId(origin, access[n], 0) && id in grants ==>
      Restore(UpdatedSoFar(grants, id, origin, access, n, customer, terms, revised, now), revised, now) == Restore(grants[id], revised, now)
  {
  }

  ghost function UpdatedSoFar(grants: map<GrantId, Grant>, id: GrantId, origin: Origin, access: seq<Benefit>, n: nat,
                              customer: Option<string>, terms: Terms, revised: Offer, now: int): Grant
    requires n <= |access|
  {
    if id !in grants then NewGrant(origin, id.benefit, customer, terms, revised, now)
    else if grants[id].origin != origin then grants[id]
    else if grants[id].benefit in access[..n] then Restore(grants[id], revised, now)
    else if grants[id].benefit in access then grants[id]
    else Withdraw(grants[id])
  }

  method WithdrawLost(grants: map<GrantId, Grant>, origin: Origin, access: seq<Benefit>) returns (r: map<GrantId, Grant>)
    ensures r.Keys == grants.Keys
    ensures forall id :: id in grants ==>
      r[id] == if grants[id].origin == origin && grants[id].benefit !in access then Withdraw(grants[id]) else grants[id]
  {
    r := grants;
    var left := grants.Keys;
    while left != {}
      invariant left <= grants.Keys == r.Keys
      invariant forall id :: id in grants ==>
        r[id] == if id !in left && grants[id].origin == origin && grants[id].benefit !in access then Withdraw(grants[id]) else grants[id]
      decreases left
    {
      var id :| id in left;
      if r[id].origin == origin && r[id].benefit !in access {
        r := r[id := r[id].(state := Revoked, contentRemoved := true)];
      }
      left := left - {id};
    }
  }

  lemma FiledUnder(db: Db, origin: Origin)
    requires Base(db) && origin != ByHand
    ensures Filed(db.grants, origin)
  {
    forall id | id in db.grants && (db.grants[id].origin == origin || id.origin == origin)
      ensures id == GrantId(origin, db.grants[id].benefit, 0) && db.grants[id].origin == origin
    {
      assert GrantOk(db, id);
    }
  }

  // --------------------------------------------------------------- the service

  class CommerceService {
    var offers: seq<Offer>
    var checkouts: seq<Checkout>
    var mappings: map<MappingKey, string>
    var customers: map<string, Customer>
    var payments: map<PaymentKey, Payment>
    var refunds: map<PaymentKey, map<string, Refund>>
    var purchases: map<PaymentKey, Purchase>
    var gifts: map<GiftKey, Gift>
    var grants: map<GrantId, Grant>
    var claims: map<string, Claim>

    function Contents(): Db
      reads this
    {
      Db(offers, checkouts, mappings, customers, payments, refunds, purchases, gifts, grants, claims)
    }

    ghost predicate Valid()
      reads this
    {
      Inv(Contents())
    }

    constructor ()
      ensures Valid() && Contents() == EMPTY
    {
      offers, checkouts, mappings, customers := [], [], map[], map[];
      payments, refunds, purchases, gifts, grants, claims := map[], map[], map[], map[], map[], map[];
    }

    // What an aborted transaction leaves: the tables as they were.
    method Restore(db: Db)
      modifies this
      ensures Contents() == db
    {
      offers, checkouts, mappings, customers := db.offers, db.checkouts, db.mappings, db.customers;
      payments, refunds, purchases, gifts, grants, claims := db.payments, db.refunds, db.purchases, db.gifts, db.grants, db.claims;
    }

    method Record(scope: Scope, connectionId: string, e: Evidence, now: int) returns (accepted: bool)
      requires e.updatedAt.Some?
      modifies this
      ensures Contents() == Recorded(old(Contents()), scope, connectionId, e, now)
      ensures accepted <==> Accepted(old(Contents()), scope, connectionId, e, now)
    {
      hide Settle, Verdict, Fault, OfferFor, Opened, OrderFor, RefundsOf, IdOf, FindOrder, OrderAfter, CompletedTotal, RecordRefunds, Recorded;
      var id, i := KeyOf(scope, e), FindOrder(checkouts, scope, e.orderId);
      var payment, recorded, invalid := SettledPayment(Contents(), scope, connectionId, e, now);
      RecordedIs(Contents(), scope, connectionId, e, now, payment, recorded, invalid);
      refunds := refunds[id := recorded];
      payments := payments[id := payment];
      if i < |checkouts| {
        checkouts := checkouts[i := OrderAfter(checkouts[i], payment, invalid)];
      }
      accepted := invalid.None?;
    }

    method Purchase(scope: Scope, e: Evidence, offer: Offer, secret: Secret, now: int) returns (r: Result<bool, Error>)
      modifies this
      ensures r.Ok? <==> Purchased(old(Contents()), scope, e, offer, secret, now).Ok?
      ensures r.Ok? ==> Contents() == Purchased(old(Contents()), scope, e, offer, secret, now).value
      ensures r.Err? ==> r.error == Purchased(old(Contents()), scope, e, offer, secret, now).error
    {
      hide AccessBenefits, CurrentContents, InsertGrants, EndOf, NewPurchase, OrderFor, CreateClaim;
      var id, order := KeyOf(scope, e), OrderFor(Contents(), scope, e);
      var contents := CurrentContents(offers, offer);
      var purchase := NewPurchase(order, offer, contents, e, now);
      if e.buyerEmail == Some(MalformedEmail) {
        return Err(InvalidEmail);
      }
      var table := InsertAll(grants, OfPurchase(id), AccessBenefits(offer, contents), purchase.customerId,
                             Terms(now, EndOf(offer, e, now)), contents, now);
      if table.None? {
        return Err(RecordExists);
      }
      purchases := purchases[id := purchase];
      grants := table.value;
      if purchase.customerId.None? {
        ClaimChangesClaims(Contents(), id, secret.claimId, secret.token, now);
        claims := CreateClaim(Contents(), id, secret.claimId, secret.token, now).claims;
      }
      r := Ok(true);
    }

    method ApplyEvidence(scope: Scope, connectionId: string, e: Evidence, secret: Secret, now: int) returns (r: Result<bool, Error>)
      modifies this
      ensures r.Ok? <==> Commerce.ApplyEvidence(old(Contents()), scope, connectionId, e, secret, now).Ok?
      ensures r.Ok? ==> Contents() == Commerce.ApplyEvidence(old(Contents()), scope, connectionId, e, secret, now).value
      ensures r.Err? ==> r.error == Commerce.ApplyEvidence(old(Contents()), scope, connectionId, e, secret, now).error
    {
      hide Recorded, Accepted, Purchased, OfferFor, RevokeOf, Disconnected, Malformed;
      var db := Contents();
      if Refused(db, scope, connectionId, e) {
        return Err(RefusalOf(db, scope, connectionId, e));
      }
      RefusedUndated(db, scope, connectionId, e);
      var id, offer := KeyOf(scope, e), OfferFor(db, scope, e);
      var accepted := Record(scope, connectionId, e, now);
      RecordedHasPayment(db, scope, connectionId, e, now);
      var state := payments[id].state;
      if accepted && id !in purchases && Paid(state) && offer.Some? {
        r := Purchase(scope, e, offer.value, secret, now);
        return;
      }
      if Terminal(state) {
        if id in purchases {
          purchases := purchases[id := purchases[id].(state := Revoked)];
        }
        var table := RevokeAll(grants, OfPurchase(id));
        grants := table;
      }
      r := Ok(true);
    }

    /** One transaction: all the evidence, or the tables as they were. */
    method Reconcile(scope: Scope, connectionId: string, deliveries: seq<Delivery>, now: int) returns (r: Result<bool, Error>)
      requires Valid()
      modifies this
      ensures Valid()
      ensures Contents() == Committed(old(Contents()), Commerce.Reconcile(old(Contents()), scope, connectionId, deliveries, |deliveries|, now))
      ensures r.Ok? <==> Commerce.Reconcile(old(Contents()), scope, connectionId, deliveries, |deliveries|, now).Ok?
    {
      hide Inv, Commerce.ApplyEvidence;
      var before := Contents();
      if Commerce.Reconcile(before, scope, connectionId, deliveries, |deliveries|, now).Ok? {
        ReconcilingIsGood(before, scope, connectionId, deliveries, |deliveries|, now);
      }
      for n := 0 to |deliveries|
        invariant Commerce.Reconcile(before, scope, connectionId, deliveries, n, now) == Ok(Contents())
      {
        var applied := ApplyEvidence(scope, connectionId, deliveries[n].evidence, deliveries[n].secret, now);
        if applied.Err? {
          FailureStaysFailed(before, scope, connectionId, deliveries, n + 1, |deliveries|, now);
          Restore(before);
          return applied;
        }
      }
      r := Ok(true);
    }

    method UpdatePurchase(id: PaymentKey, revised: Offer, now: int)
      requires Valid()
      modifies this`grants, this`purchases
      ensures Valid()
      ensures Contents() == Commerce.UpdatePurchase(old(Contents()), id, revised, now)
    {
      hide AccessBenefits, UpdateGrants, Reaches, FindOffer, ActiveTerms, HasActive, Inv, Base, Filed, Advances;
      UpdatingPurchaseIsGood(Contents(), id, revised, now);
      InvIsBase(Contents());
      if id !in purchases || purchases[id].state != Active {
        return;
      }
      var original := FindOffer(offers, purchases[id].offerVersionId);
      if original.None? || !Reaches(original.value, revised, id.scope) {
        return;
      }
      var terms := FindActive(Contents(), grants, OfPurchase(id), now);
      if terms.None? {
        return;
      }
      FiledUnder(Contents(), OfPurchase(id));
      var table := UpdateAll(grants, OfPurchase(id), AccessBenefits(original.value, revised), purchases[id].customerId, terms.value, revised, now);
      grants := table;
      purchases := purchases[id := purchases[id].(contentOfferVersionId := Some(revised.id))];
    }

    method UpdateGift(id: GiftKey, revised: Offer, now: int)
      requires Valid()
      modifies this`grants, this`gifts
      ensures Valid()
      ensures Contents() == Commerce.UpdateGift(old(Contents()), id, revised, now)
    {
      hide AccessBenefits, UpdateGrants, Reaches, FindOffer, ActiveTerms, HasActive, Inv, Base, Filed, Advances;
      UpdatingGiftIsGood(Contents(), id, revised, now);
      InvIsBase(Contents());
      if id !in gifts || gifts[id].state != Claimed {
        return;
      }
      var original := FindOffer(offers, gifts[id].offerVersionId);
      if original.None? || !Reaches(original.value, revised, id.scope) {
        return;
      }
      var terms := FindActive(Contents(), grants, OfGift(id), now);
      if terms.None? {
        return;
      }
      FiledUnder(Contents(), OfGift(id));
      var table := UpdateAll(grants, OfGift(id), AccessBenefits(original.value, revised), gifts[id].customerId, terms.value, revised, now);
      grants := table;
      gifts := gifts[id := gifts[id].(contentOfferVersionId := Some(revised.id))];
    }

    /** Reviewed content reaches every purchase and gift, in the order listed. */
    method UpdateAccessContents(revised: Offer, purchaseOrder: seq<PaymentKey>, giftOrder: seq<GiftKey>, now: int)
      requires Valid()
      modifies this
      ensures Valid()
      ensures Contents() == Commerce.UpdateAccessContents(old(Contents()), revised, purchaseOrder, giftOrder, now)
    {
      hide Inv, Commerce.UpdatePurchase, Commerce.UpdateGift;
      ghost var before := Contents();
      for n := 0 to |purchaseOrder|
        invariant Valid() && Contents() == UpdatePurchases(before, purchaseOrder, n, revised, now)
      {
        UpdatePurchase(purchaseOrder[n], revised, now);
      }
      ghost var middle := Contents();
      for n := 0 to |giftOrder|
        invariant Valid() && Contents() == UpdateGifts(middle, giftOrder, n, revised, now)
      {
        UpdateGift(giftOrder[n], revised, now);
      }
    }

    method ClaimGifts(subject: string, giftOrder: seq<GiftKey>, now: int) returns (r: Result<bool, Error>)
      requires Valid() && subject in customers
      modifies this
      ensures Valid()
      ensures Contents() == Committed(old(Contents()), Commerce.ClaimGifts(old(Contents()), subject, giftOrder, |giftOrder|, now))
      ensures r.Ok? <==> Commerce.ClaimGifts(old(Contents()), subject, giftOrder, |giftOrder|, now).Ok?
    {
      hide Inv, AccessBenefits, CurrentContents, InsertGrants, FindOffer, ClaimedGift;
      var before := Contents();
      if Commerce.ClaimGifts(before, subject, giftOrder, |giftOrder|, now).Ok? {
        ClaimingGiftsIsGood(before, subject, giftOrder, |giftOrder|, now);
      }
      for n := 0 to |giftOrder|
        invariant Commerce.ClaimGifts(before, subject, giftOrder, n, now) == Ok(Contents()) && customers == before.customers
      {
        var id := giftOrder[n];
        if id in gifts && gifts[id].state == Unclaimed && gifts[id].recipientEmail in customers[subject].verifiedEmails {
          var offer := FindOffer(offers, gifts[id].offerVersionId);
          if offer.Some? {
            var contents := CurrentContents(offers, offer.value);
            var gift := ClaimedGift(gifts[id], subject, contents, now);
            var table := InsertAll(grants, OfGift(id), AccessBenefits(offer.value, contents), Some(subject), Terms(now, gift.endsAt), contents, now);
            if table.None? {
              FailedClaimStaysFailed(before, subject, giftOrder, n + 1, |giftOrder|, now);
              Restore(before);
              return Err(RecordExists);
            }
            gifts := gifts[id := gift];
            grants := table.value;
          }
        }
      }
      r := Ok(true);
    }

    method EraseCustomer(subject: string) returns (r: Result<bool, Error>)
      requires Valid()
      modifies this
      ensures Valid()
      ensures Contents() == Committed(old(Contents()), Commerce.EraseCustomer(old(Contents()), subject))
      ensures r.Ok? <==> Commerce.EraseCustomer(old(Contents()), subject).Ok?
    {
      hide Inv, Advances, RevokeHeld, ForgetBuyer, ForgetRecipient, DropClaims, SomeSubscription, Commerce.EraseCustomer;
      ErasureIs(Contents(), subject);
      if Commerce.EraseCustomer(Contents(), subject).Ok? {
        ErasingIsGood(Contents(), subject);
      }
      if subject in customers && customers[subject].erased {
        return Err(CustomerErased);
      }
      var subscribed := FindSubscription(checkouts, subject);
      if subscribed {
        return Err(CancelSubscriptionsFirst);
      }
      customers := customers[subject := Customer({}, true)];
      var remaining := RemoveClaims(claims, purchases, subject);
      var revoked := RevokeAllHeld(grants, subject);
      var held := ForgetBuyers(purchases, subject);
      var given := ForgetRecipients(gifts, subject);
      grants, purchases, claims, gifts := revoked, held, remaining, given;
      r := Ok(true);
    }

    method RevokeGift(owner: string, id: GiftKey) returns (r: Result<bool, Error>)
      requires Valid()
      modifies this`gifts, this`grants
      ensures Valid()
      ensures Contents() == Committed(old(Contents()), Commerce.RevokeGift(old(Contents()), owner, id))
    {
      hide Inv, RevokeOf;
      if Commerce.RevokeGift(Contents(), owner, id).Ok? {
        RevokingGiftIsGood(Contents(), owner, id);
      }
      if id !in gifts || id.scope.owner != owner {
        return Err(GiftNotFound);
      }
      gifts := gifts[id := gifts[id].(state := Withdrawn)];
      var table := RevokeAll(grants, OfGift(id));
      grants := table;
      r := Ok(true);
    }

    // Revoking one grant by hand.
    method Revoke(id: GrantId) returns (r: Result<bool, Error>)
      requires Valid()
      modifies this`grants
      ensures Valid()
      ensures Contents() == Committed(old(Contents()), Commerce.Revoke(old(Contents()), id))
      ensures r.Ok? <==> id in old(grants)
    {
      hide Inv;
      if id !in grants {
        return Err(GrantNotFound);
      }
      RevokingOneIsGood(Contents(), id);
      grants := grants[id := grants[id].(state := Revoked)];
      r := Ok(true);
    }

    method ManualGrant(customer: string, benefit: Benefit, serial: nat, assets: seq<Asset>, endsAt: Option<int>, now: int)
      returns (r: Result<GrantId, Error>)
      requires Valid()
      modifies this`grants
      ensures Valid()
      ensures Contents() == Committed(old(Contents()), Commerce.ManualGrant(old(Contents()), customer, benefit, serial, assets, endsAt, now))
      ensures r.Ok? <==> customer in old(customers) && GrantId(ByHand, benefit, serial) !in old(grants)
      ensures r.Ok? ==> grants == old(grants)[r.value := Grant(ByHand, benefit, Some(customer), false, now, endsAt, Active, assets, now)]
    {
      hide Inv;
      if Commerce.ManualGrant(Contents(), customer, benefit, serial, assets, endsAt, now).Ok? {
        GrantingByHandIsGood(Contents(), customer, benefit, serial, assets, endsAt, now);
      }
      var id := GrantId(ByHand, benefit, serial);
      if customer !in customers {
        return Err(CustomerNotFound);
      }
      if id in grants {
        return Err(RecordExists);
      }
      grants := grants[id := Grant(ByHand, benefit, Some(customer), false, now, endsAt, Active, assets, now)];
      r := Ok(id);
    }

    // The worker's sweep.
    method ExpireRoles(now: int)
      requires Valid()
      modifies this`grants
      ensures Valid()
      ensures Contents() == Commerce.ExpireRoles(old(Contents()), now)
    {
      hide Inv;
      ExpiringIsGood(Contents(), now);
      var table := RevokeAllTimedOut(grants, now);
      grants := table;
    }

    method RedeemClaim(subject: string, claimId: string, token: string, now: int) returns (r: Result<PaymentKey, Error>)
      requires Valid()
      modifies this
      ensures Valid()
      ensures Contents() == Committed(old(Contents()), Commerce.RedeemClaim(old(Contents()), subject, claimId, token, now))
      ensures r.Ok? <==> Commerce.RedeemClaim(old(Contents()), subject, claimId, token, now).Ok?
    {
      hide Inv, GiveGrantsTo, Advances;
      if Commerce.RedeemClaim(Contents(), subject, claimId, token, now).Ok? {
        RedeemingIsGood(Contents(), subject, claimId, token, now);
      }
      if subject in customers && customers[subject].erased {
        return Err(CustomerErased);
      }
      if claimId !in claims || claims[claimId].consumed || claims[claimId].expiresAt <= now || claims[claimId].token != token {
        return Err(InvalidClaim);
      }
      var claim := claims[claimId];
      if subject !in customers || claim.email !in customers[subject].verifiedEmails {
        return Err(EmailVerificationRequired);
      }
      if claim.purchase !in purchases || purchases[claim.purchase].customerId.Some? || purchases[claim.purchase].state != Active {
        return Err(InvalidClaim);
      }
      purchases := purchases[claim.purchase := purchases[claim.purchase].(customerId := Some(subject), claimedAt := Some(now))];
      purchases := purchases[claim.purchase := purchases[claim.purchase].(buyerEmail := None)];
      assert purchases == old(purchases)[claim.purchase :=
        old(purchases)[claim.purchase].(customerId := Some(subject), claimedAt := Some(now), buyerEmail := None)];
      claims := claims[claimId := claim.(consumed := true)];
      var table := GiveAll(grants, OfPurchase(claim.purchase), subject);
      grants := table;
      r := Ok(claim.purchase);
    }
  }

  lemma {:induction false} FailureStaysFailed(db: Db, scope: Scope, connectionId: string, deliveries: seq<Delivery>, k: nat, n: nat, now: int)
    requires k <= n <= |deliveries| && Reconcile(db, scope, connectionId, deliveries, k, now).Err?
    ensures Reconcile(db, scope, connectionId, deliveries, n, now).Err?
  {
    hide ApplyEvidence;
    if k < n {
      FailureStaysFailed(db, scope, connectionId, deliveries, k, n - 1, now);
    }
  }

  lemma {:induction false} FailedClaimStaysFailed(db: Db, subject: string, listed: seq<GiftKey>, k: nat, n: nat, now: int)
    requires k <= n <= |listed| && subject in db.customers && ClaimGifts(db, subject, listed, k, now).Err?
    ensures ClaimGifts(db, subject, listed, n, now).Err?
  {
    hide ClaimGift;
    if k < n {
      FailedClaimStaysFailed(db, subject, listed, k, n - 1, now);
    }
  }

  lemma ErasureIs(db: Db, subject: string)
    ensures Commerce.EraseCustomer(db, subject) ==
              if subject in db.customers && db.customers[subject].erased then Err(CustomerErased)
              else if SomeSubscription(db.checkouts, subject) then Err(CancelSubscriptionsFirst)
              else Ok(Db(db.offers, db.checkouts, db.mappings, db.customers[subject := Customer({}, true)], db.payments, db.refunds,
                         ForgetBuyer(db.purchases, subject), ForgetRecipient(db.gifts, subject), RevokeHeld(db.grants, subject),
                         DropClaims(db.claims, db.purchases, subject)))
  {
  }

  lemma RefusedUndated(db: Db, scope: Scope, connectionId: string, e: Evidence)
    requires !Refused(db, scope, connectionId, e)
    ensures e.updatedAt.Some?
  {
  }

  lemma RecordedHasPayment(db: Db, scope: Scope, connectionId: string, e: Evidence, now: int)
    requires e.updatedAt.Some?
    ensures KeyOf(scope, e) in Recorded(db, scope, connectionId, e, now).payments
    ensures Recorded(db, scope, connectionId, e, now).purchases == db.purchases
    ensures Recorded(db, scope, connectionId, e, now).offers == db.offers
  {
  }
}
