/**
 What evidence of a payment comes to, on the records themselves: which order and
 offer it is held against, what must match, and what it gives.
 */
module CommerceEffects {
  import opened Common
  import opened Commerce
  import opened CommerceInvariant
  import opened CommerceEvidence
  import opened CommerceAccess
  import CommerceRuns
  import Money

  // --------------------------------------------------------------- the order and the offer

  ghost predicate Names(o: Checkout, scope: Scope, e: Evidence) {
    o.scope == scope && o.providerOrderId == e.orderId && e.orderId.Some? && e.orderId.value != ""
  }

  /** The order is the first listed with the evidence's order id. */
  lemma OrderIsTheFirstNamed(db: Db, scope: Scope, e: Evidence)
    ensures OrderFor(db, scope, e).None? <==> forall i :: 0 <= i < |db.checkouts| ==> !Names(db.checkouts[i], scope, e)
    ensures OrderFor(db, scope, e).Some? ==>
              exists i :: 0 <= i < |db.checkouts| && Names(db.checkouts[i], scope, e) && db.checkouts[i] == OrderFor(db, scope, e).value
                          && forall j :: 0 <= j < i ==> !Names(db.checkouts[j], scope, e)
  {
    FoundOrder(db.checkouts, scope, e);
  }

  lemma {:induction false} FoundOrder(checkouts: seq<Checkout>, scope: Scope, e: Evidence)
    ensures var i := FindOrder(checkouts, scope, e.orderId);
            && (i < |checkouts| ==> Names(checkouts[i], scope, e))
            && forall j :: 0 <= j < i ==> !Names(checkouts[j], scope, e)
  {
    if checkouts != [] && !Names(checkouts[0], scope, e) {
      FoundOrder(checkouts[1..], scope, e);
    }
  }

  /** The first version listed under an id. */
  ghost predicate IsVersion(offers: seq<Offer>, id: string, offer: Option<Offer>) {
    match offer
    case None => forall i :: 0 <= i < |offers| ==> offers[i].id != id
    case Some(o) => exists i :: 0 <= i < |offers| && offers[i] == o && o.id == id && forall j :: 0 <= j < i ==> offers[j].id != id
  }

  lemma {:induction false} FoundVersion(offers: seq<Offer>, id: string)
    ensures IsVersion(offers, id, FindOffer(offers, id))
  {
    if offers != [] && offers[0].id != id {
      FoundVersion(offers[1..], id);
      var o := FindOffer(offers[1..], id);
      if o.Some? {
        var i :| 0 <= i < |offers[1..]| && offers[1..][i] == o.value && forall j :: 0 <= j < i ==> offers[1..][j].id != id;
        assert offers[i + 1] == o.value;
        forall j | 0 <= j < i + 1 ensures offers[j].id != id {
          assert j > 0 ==> offers[j] == offers[1..][j - 1];
        }
      } else {
        forall j | 0 <= j < |offers| ensures offers[j].id != id {
          assert j > 0 ==> offers[j] == offers[1..][j - 1];
        }
      }
    } else if offers != [] {
      assert offers[0].id == id;
    }
  }

  /** An offer mapped by hand, and checked, to the product the evidence names. */
  ghost predicate MapsTo(o: Offer, scope: Scope, e: Evidence) {
    && o.scope == scope && o.external.Some? && o.external.value.validated
    && e.mappingId == Some(o.external.value.mappingId) && o.merchantId == e.merchantId
  }

  lemma {:induction false} CandidatesAre(offers: seq<Offer>, scope: Scope, e: Evidence)
    ensures forall o :: o in Candidates(offers, scope, e) <==> o in offers && MapsTo(o, scope, e)
    ensures forall i, j :: 0 <= i < j < |offers| && MapsTo(offers[i], scope, e) && MapsTo(offers[j], scope, e)
              ==> |Candidates(offers, scope, e)| > 1
    ensures |Candidates(offers, scope, e)| > 1 ==>
              exists i, j :: 0 <= i < j < |offers| && MapsTo(offers[i], scope, e) && MapsTo(offers[j], scope, e)
  {
    if offers != [] {
      var rest := offers[1..];
      CandidatesAre(rest, scope, e);
      assert offers == [offers[0]] + rest;
      forall i, j | 0 <= i < j < |offers| && MapsTo(offers[i], scope, e) && MapsTo(offers[j], scope, e)
        ensures |Candidates(offers, scope, e)| > 1
      {
        assert offers[j] == rest[j - 1];
        if i == 0 {
          assert rest[j - 1] in Candidates(rest, scope, e);
        } else {
          assert offers[i] == rest[i - 1];
        }
      }
      if |Candidates(offers, scope, e)| > 1 {
        if |Candidates(rest, scope, e)| > 1 {
          var i, j :| 0 <= i < j < |rest| && MapsTo(rest[i], scope, e) && MapsTo(rest[j], scope, e);
          assert offers[i + 1] == rest[i] && offers[j + 1] == rest[j];
        } else {
          var o := Candidates(rest, scope, e)[0];
          assert o in Candidates(rest, scope, e);
          var j :| 0 <= j < |rest| && rest[j] == o;
          assert offers[0 + j + 1] == rest[j];
          assert MapsTo(offers[0], scope, e) && MapsTo(offers[j + 1], scope, e);
        }
      }
    }
  }

  /**
   Evidence is held against the version its order is for; failing an order, the
   version the payment has, else the one mapped for the product, else the only
   offer mapped to it by hand.
   */
  lemma OfferIsThePinnedVersion(db: Db, scope: Scope, e: Evidence)
    ensures var order, offer := OrderFor(db, scope, e), OfferFor(db, scope, e);
            var id, mapping := PaymentKey(scope, e.merchantId, e.captureId), MappingKey(scope, e.merchantId, e.mappingId);
            if order.Some? then IsVersion(db.offers, order.value.offerVersionId, offer)
            else if id in db.payments && db.payments[id].offerVersionId.Some?
            then IsVersion(db.offers, db.payments[id].offerVersionId.value, offer)
            else if mapping in db.mappings then IsVersion(db.offers, db.mappings[mapping], offer)
            else
              && (offer.Some? ==> offer.value in db.offers && MapsTo(offer.value, scope, e))
              && (offer.Some? <==> (exists i :: 0 <= i < |db.offers| && MapsTo(db.offers[i], scope, e))
                                   && !(exists i, j :: 0 <= i < j < |db.offers| && MapsTo(db.offers[i], scope, e) && MapsTo(db.offers[j], scope, e)))
  {
    hide Candidates, OrderFor, FindOffer, IsVersion, MapsTo;
    var order, id := OrderFor(db, scope, e), PaymentKey(scope, e.merchantId, e.captureId);
    if order.Some? {
      FoundVersion(db.offers, order.value.offerVersionId);
    }
    if id in db.payments && db.payments[id].offerVersionId.Some? {
      FoundVersion(db.offers, db.payments[id].offerVersionId.value);
    }
    if MappingKey(scope, e.merchantId, e.mappingId) in db.mappings {
      FoundVersion(db.offers, db.mappings[MappingKey(scope, e.merchantId, e.mappingId)]);
    }
    CandidatesAre(db.offers, scope, e);
    var found := Candidates(db.offers, scope, e);
    if |found| == 1 {
      assert found[0] in found;
    }
    if i :| 0 <= i < |db.offers| && MapsTo(db.offers[i], scope, e) {
      assert db.offers[i] in found;
    }
  }

  // --------------------------------------------------------------- what must match

  /** The evidence is of what was ordered or offered: amount, currency, order, merchant, plan and period. */
  ghost predicate IsAsAgreed(order: Option<Checkout>, offer: Offer, e: Evidence, now: int) {
    && !e.unsupported
    && e.paidMinor == (if order.Some? then order.value.amountMinor else offer.amountMinor)
    && e.currency == (if order.Some? then order.value.currency else offer.currency)
    && (order.Some? ==> e.reference == Some(order.value.reference) && e.merchantId == order.value.merchantId)
    && (order.None? ==> e.buyerEmail.Some?)
    && (offer.billing.Some? ==>
          && order.Some? && order.value.billing == offer.billing && e.subscriptionInterval == offer.billing
          && e.subscriptionPlanId.Some? && e.subscriptionPlanId.value != "" && order.value.providerPlanId == e.subscriptionPlanId
          && e.paidAt.Some? && e.paidAt.value <= now + 300000)
  }

  /** And it is the same payment as before, if there was one. */
  ghost predicate IsSamePayment(db: Db, scope: Scope, e: Evidence) {
    var id, order := PaymentKey(scope, e.merchantId, e.captureId), OrderFor(db, scope, e);
    id in db.payments ==>
      && db.payments[id].paidMinor == e.paidMinor && db.payments[id].currency == e.currency
      && db.payments[id].checkoutId == (if order.Some? then Some(order.value.id) else None)
  }

  ghost predicate IsAcceptable(db: Db, scope: Scope, e: Evidence, now: int) {
    && IsSamePayment(db, scope, e)
    && OfferFor(db, scope, e).Some? && IsAsAgreed(OrderFor(db, scope, e), OfferFor(db, scope, e).value, e, now)
  }

  lemma FaultlessExactly(db: Db, scope: Scope, e: Evidence, now: int)
    ensures Fault(db, scope, e, now).None? <==> IsAcceptable(db, scope, e, now)
  {
    hide OrderFor, OfferFor;
  }

  // --------------------------------------------------------------- what is rejected outright

  /** Malformed evidence, or evidence through another connection than its payment, order or offer has. */
  ghost predicate IsRejected(db: Db, scope: Scope, connectionId: string, e: Evidence) {
    var id, order, offer := PaymentKey(scope, e.merchantId, e.captureId), OrderFor(db, scope, e), OfferFor(db, scope, e);
    || e.captureId == "" || e.merchantId == "" || Money.Exponent(e.currency).None?
    || !(0 < e.paidMinor <= 9007199254740991) || !(0 <= e.refundedMinor <= 9007199254740991) || e.updatedAt.None?
    || (id in db.payments && db.payments[id].connectionId != connectionId)
    || (order.Some? && order.value.connectionId != connectionId)
    || (offer.Some? && offer.value.connectionId != connectionId)
    || (exists k :: 0 <= k < |e.refunds| && (e.refunds[k].id == "" || !(0 <= e.refunds[k].amountMinor <= 9007199254740991)))
  }

  lemma RejectedExactly(db: Db, scope: Scope, connectionId: string, e: Evidence)
    ensures Refused(db, scope, connectionId, e) <==> IsRejected(db, scope, connectionId, e)
  {
    hide OrderFor, OfferFor;
  }

  /** Two of a sequence are the same. */
  ghost predicate Repeats(benefits: seq<Benefit>) {
    exists i, j :: 0 <= i < j < |benefits| && benefits[i] == benefits[j]
  }

  lemma {:induction false} InsertedExactly(grants: map<GrantId, Grant>, origin: Origin, benefits: seq<Benefit>, n: nat,
                                           customer: Option<string>, terms: Terms, contents: Offer, now: int)
    requires n <= |benefits| && forall b :: GrantId(origin, b, 0) !in grants
    ensures InsertGrants(grants, origin, benefits, n, customer, terms, contents, now).None? <==> Repeats(benefits[..n])
  {
    hide NewGrant;
    if n > 0 {
      var shorter := benefits[..n - 1];
      InsertedExactly(grants, origin, benefits, n - 1, customer, terms, contents, now);
      assert forall i :: 0 <= i < n - 1 ==> shorter[i] == benefits[..n][i];
      if Repeats(shorter) {
        var i, j :| 0 <= i < j < |shorter| && shorter[i] == shorter[j];
        assert benefits[..n][i] == benefits[..n][j];
      } else {
        var last := benefits[n - 1];
        InsertedAre(grants, origin, benefits, n - 1, customer, terms, contents, now, GrantId(origin, last, 0));
        if last in shorter {
          var i :| 0 <= i < |shorter| && shorter[i] == last;
          assert benefits[..n][i] == benefits[..n][n - 1];
        }
      }
    }
  }

  // --------------------------------------------------------------- what it comes to

  /** The state a payment was in, and when the provider last said so; a new one waits. */
  function StateBefore(db: Db, id: PaymentKey, e: DatedEvidence): (Status, int) {
    if id in db.payments then (db.payments[id].state, db.payments[id].providerUpdatedAt) else (Pending, e.updatedAt.value)
  }

  /**
   Evidence that is not acceptable, or refunds beyond the payment, call for review
   unless the payment is already over; otherwise a reversal stands, then a full
   refund, then a partial one, then whatever the newest evidence says.
   */
  function StateAfter(before: (Status, int), e: DatedEvidence, acceptable: bool, refunded: int, paid: int): Status {
    if !acceptable || refunded > paid then (if before.0 == Refunded || before.0 == Reversed then before.0 else NeedsReview)
    else if e.status == Reversed || before.0 == Reversed then Reversed
    else if refunded == paid || before.0 == Refunded then Refunded
    else if refunded > 0 || e.status == PartiallyRefunded then PartiallyRefunded
    else if before.1 <= e.updatedAt.value then e.status
    else before.0
  }

  lemma RecordedIsDecided(db: Db, scope: Scope, connectionId: string, e: DatedEvidence, now: int)
    ensures var id := PaymentKey(scope, e.merchantId, e.captureId);
            var t := Recorded(db, scope, connectionId, e, now);
            && id in t.payments && t.purchases == db.purchases && t.grants == db.grants && t.offers == db.offers
            && var p := t.payments[id];
               && p.paidMinor == (if id in db.payments then db.payments[id].paidMinor else e.paidMinor)
               && p.refundedMinor >= e.refundedMinor && (e.status == Refunded ==> p.refundedMinor >= p.paidMinor)
               && p.state == StateAfter(StateBefore(db, id, e), e, IsAcceptable(db, scope, e, now), p.refundedMinor, p.paidMinor)
               && (Accepted(db, scope, connectionId, e, now) <==> IsAcceptable(db, scope, e, now) && p.refundedMinor <= p.paidMinor)
  {
    hide OrderFor, OfferFor, Fault, IsAcceptable, CompletedTotal, RecordRefunds, OrderAfter;
    FaultlessExactly(db, scope, e, now);
  }

  /**
   Evidence of a payment without a purchase makes one exactly when it is
   acceptable, stays within the payment, and leaves it paid or partly refunded;
   then the offer it is held against gives its benefits.  It is rejected, and
   nothing changes, exactly if it is malformed, or a purchase it would make has a
   malformed address or a benefit twice.
   */
  lemma EvidenceDecidesExactly(db: Db, scope: Scope, connectionId: string, e: Evidence, secret: Secret, now: int)
    requires Inv(db) && PaymentKey(scope, e.merchantId, e.captureId) !in db.purchases
    ensures var r := ApplyEvidence(db, scope, connectionId, e, secret, now);
            var id := PaymentKey(scope, e.merchantId, e.captureId);
            && (IsRejected(db, scope, connectionId, e) ==> r.Err?)
            && (r.Ok? ==>
                  && e.updatedAt.Some? && id in r.value.payments
                  && var p := r.value.payments[id];
                     && p.state == StateAfter(StateBefore(db, id, e), e, IsAcceptable(db, scope, e, now), p.refundedMinor, p.paidMinor)
                     && (id in r.value.purchases <==>
                           IsAcceptable(db, scope, e, now) && p.refundedMinor <= p.paidMinor
                           && (p.state == PaidUp || p.state == PartiallyRefunded))
                     && (id !in r.value.purchases ==> r.value.purchases == db.purchases && r.value.grants.Keys == db.grants.Keys))
            && (r.Err? && !IsRejected(db, scope, connectionId, e) ==>
                  && IsAcceptable(db, scope, e, now)
                  && (e.buyerEmail == Some(MalformedEmail)
                      || Repeats(AccessBenefits(OfferFor(db, scope, e).value, CurrentContents(db.offers, OfferFor(db, scope, e).value)))))
  {
    hide Refused, IsRejected, Recorded, Accepted, IsAcceptable, OfferFor, OrderFor, StateAfter, StateBefore, AccessBenefits, CurrentContents, Inv,
      RevokeOf;
    RejectedExactly(db, scope, connectionId, e);
    RefusedUndated(db, scope, connectionId, e);
    if !Refused(db, scope, connectionId, e) {
      RevokingKeepsKeys(Recorded(db, scope, connectionId, e, now).grants, OfPurchase(KeyOf(scope, e)));
      RecordedIsDecided(db, scope, connectionId, e, now);
      RecordedStates(db, scope, connectionId, e, now);
      var after, id := Recorded(db, scope, connectionId, e, now), PaymentKey(scope, e.merchantId, e.captureId);
      if Accepted(db, scope, connectionId, e, now) && Paid(after.payments[id].state) {
        PurchaseMadeExactly(db, after, scope, e, OfferFor(db, scope, e).value, secret, now);
      }
    }
  }

  /** The payment remembers the newest time, the largest amount refunded, what it is for and why it is in question. */
  lemma PaymentRemembers(db: Db, scope: Scope, connectionId: string, e: DatedEvidence, now: int)
    ensures var id := PaymentKey(scope, e.merchantId, e.captureId);
            var t := Recorded(db, scope, connectionId, e, now);
            && id in t.payments && t.payments.Keys == db.payments.Keys + {id} && (forall k :: k in db.payments && k != id ==> t.payments[k] == db.payments[k])
            && var p := t.payments[id];
               && p.providerUpdatedAt ==
                  (if id in db.payments && db.payments[id].providerUpdatedAt > e.updatedAt.value then db.payments[id].providerUpdatedAt else e.updatedAt.value)
               && (id in db.payments ==>
                     && p.connectionId == db.payments[id].connectionId && p.currency == db.payments[id].currency
                     && db.payments[id].refundedMinor <= p.refundedMinor)
               && (id !in db.payments ==> p.connectionId == connectionId && p.currency == e.currency)
               && (IsAcceptable(db, scope, e, now) && p.refundedMinor <= p.paidMinor ==>
                     && p.checkoutId == (if OrderFor(db, scope, e).Some? then Some(OrderFor(db, scope, e).value.id) else None)
                     && OfferFor(db, scope, e).Some? && p.offerVersionId == Some(OfferFor(db, scope, e).value.id))
               && (p.reviewReason.None? <==> IsAcceptable(db, scope, e, now) && p.refundedMinor <= p.paidMinor && p.state != PartiallyRefunded)
  {
    hide OrderFor, OfferFor, Fault, IsAcceptable, CompletedTotal, RecordRefunds, OrderAfter;
    FaultlessExactly(db, scope, e, now);
    AcceptableHasOffer(db, scope, e, now);
  }

  lemma AcceptableHasOffer(db: Db, scope: Scope, e: Evidence, now: int)
    ensures IsAcceptable(db, scope, e, now) ==> OfferFor(db, scope, e).Some?
  {
    hide OfferFor, OrderFor;
  }

  lemma RefusedUndated(db: Db, scope: Scope, connectionId: string, e: Evidence)
    ensures !Refused(db, scope, connectionId, e) ==> e.updatedAt.Some?
  {
    hide Disconnected;
  }

  lemma PurchaseMadeExactly(db: Db, after: Db, scope: Scope, e: Evidence, offer: Offer, secret: Secret, now: int)
    requires Inv(db) && after.grants == db.grants && after.offers == db.offers && KeyOf(scope, e) !in db.purchases
    ensures var r := Purchased(after, scope, e, offer, secret, now);
            && (r.Err? <==> e.buyerEmail == Some(MalformedEmail) || Repeats(AccessBenefits(offer, CurrentContents(db.offers, offer))))
            && (r.Ok? ==> KeyOf(scope, e) in r.value.purchases && r.value.payments == after.payments)
  {
    hide AccessBenefits, CurrentContents, InsertGrants, EndOf, OrderFor, NewPurchase, Inv, Repeats;
    var id, contents := KeyOf(scope, e), CurrentContents(db.offers, offer);
    var access := AccessBenefits(offer, contents);
    forall b ensures GrantId(OfPurchase(id), b, 0) !in db.grants {
      UnfiledYet(db, GrantId(OfPurchase(id), b, 0));
    }
    InsertedExactly(db.grants, OfPurchase(id), access, |access|, NewPurchase(OrderFor(after, scope, e), offer, contents, e, now).customerId,
                    Terms(now, EndOf(offer, e, now)), contents, now);
    assert access[..|access|] == access;
    if Purchased(after, scope, e, offer, secret, now).Ok? {
      PurchasedIs(after, scope, e, offer, secret, now);
    }
  }

  lemma RevokingKeepsKeys(grants: map<GrantId, Grant>, origin: Origin)
    ensures RevokeOf(grants, origin).Keys == grants.Keys
  {
  }

  ghost predicate IsFirstNamed(checkouts: seq<Checkout>, i: nat, scope: Scope, e: Evidence)
    requires i < |checkouts|
  {
    Names(checkouts[i], scope, e) && forall j :: 0 <= j < i ==> !Names(checkouts[j], scope, e)
  }

  function OrderStateAfter(accepted: bool, payment: Status): OrderState {
    if !accepted then InReview
    else if payment == PaidUp || payment == PartiallyRefunded || payment == Refunded || payment == Reversed then Done
    else if payment == Failed then Failing
    else Waiting
  }

  /** The first order named moves with its payment, and no other does. */
  lemma OrderFollowsPayment(db: Db, scope: Scope, connectionId: string, e: Evidence, secret: Secret, now: int, i: nat)
    requires ApplyEvidence(db, scope, connectionId, e, secret, now).Ok? && i < |db.checkouts|
    ensures var t, id := ApplyEvidence(db, scope, connectionId, e, secret, now).value, PaymentKey(scope, e.merchantId, e.captureId);
            && id in t.payments && |t.checkouts| == |db.checkouts|
            && var accepted := IsAcceptable(db, scope, e, now) && t.payments[id].refundedMinor <= t.payments[id].paidMinor;
               t.checkouts[i] == if IsFirstNamed(db.checkouts, i, scope, e)
                                 then db.checkouts[i].(state := OrderStateAfter(accepted, t.payments[id].state),
                                                       reviewReason := t.checkouts[i].reviewReason)
                                 else db.checkouts[i]
  {
    hide OfferFor, OrderFor, IsAcceptable, Purchased, Disconnected, Accepted, RevokeOf, StateAfter, StateBefore, OrderStateAfter, Recorded,
      ApplyEvidence, Names;
    CommerceRuns.AppliedPayments(db, scope, connectionId, e, secret, now);
    FoundOrder(db.checkouts, scope, e);
    RecordedIsDecided(db, scope, connectionId, e, now);
    RecordedOrders(db, scope, connectionId, e, now, i);
    AppliedKeepsOrders(db, scope, connectionId, e, secret, now);
  }

  lemma AppliedKeepsOrders(db: Db, scope: Scope, connectionId: string, e: DatedEvidence, secret: Secret, now: int)
    requires ApplyEvidence(db, scope, connectionId, e, secret, now).Ok?
    ensures ApplyEvidence(db, scope, connectionId, e, secret, now).value.checkouts == Recorded(db, scope, connectionId, e, now).checkouts
  {
    hide Recorded, OfferFor, Purchased, Disconnected, Accepted, RevokeOf;
    if OfferFor(db, scope, e).Some? {
      PurchasingKeepsOrders(Recorded(db, scope, connectionId, e, now), scope, e, OfferFor(db, scope, e).value, secret, now);
    }
  }

  lemma RecordedOrders(db: Db, scope: Scope, connectionId: string, e: DatedEvidence, now: int, i: nat)
    requires i < |db.checkouts|
    ensures var t, f, id := Recorded(db, scope, connectionId, e, now), FindOrder(db.checkouts, scope, e.orderId), KeyOf(scope, e);
            && |t.checkouts| == |db.checkouts| && id in t.payments
            && t.checkouts[i] == if i == f
                                 then db.checkouts[i].(state := OrderStateAfter(Accepted(db, scope, connectionId, e, now), t.payments[id].state),
                                                       reviewReason := t.checkouts[i].reviewReason)
                                 else db.checkouts[i]
  {
    hide Settle, Verdict, Fault, OfferFor, OrderFor, NewPayment, CompletedTotal, RecordRefunds;
  }

  lemma PurchasingKeepsOrders(db: Db, scope: Scope, e: Evidence, offer: Offer, secret: Secret, now: int)
    ensures var r := Purchased(db, scope, e, offer, secret, now);
            r.Ok? ==> r.value.checkouts == db.checkouts
  {
    hide AccessBenefits, CurrentContents, InsertGrants, EndOf, OrderFor, NewPurchase;
  }
}
