/** How whole runs of the service act on one payment: exactly by the evidence delivered to it. */
module CommerceRuns {
  import opened Common
  import opened Commerce
  import opened CommerceEvidence

  // --------------------------------------------------------------- one piece of evidence

  ghost function ReceiptOf(db: Db, scope: Scope, connectionId: string, e: Evidence, now: int): Receipt
    requires e.updatedAt.Some?
  {
    var offer := OfferFor(db, scope, e);
    Receipt(e, Fault(db, scope, e, now), NewPayment(db, scope, connectionId, e), IdOf(OrderFor(db, scope, e)),
            if offer.Some? then Some(offer.value.id) else None)
  }

  ghost predicate SamePayments(db: Db, t: Db) {
    t.payments == db.payments && t.refunds == db.refunds
  }

  lemma AppliedPayments(db: Db, scope: Scope, connectionId: string, e: Evidence, secret: Secret, now: int)
    requires ApplyEvidence(db, scope, connectionId, e, secret, now).Ok?
    ensures e.updatedAt.Some?
    ensures SamePayments(Recorded(db, scope, connectionId, e, now), ApplyEvidence(db, scope, connectionId, e, secret, now).value)
  {
    hide Recorded, Accepted, Disconnected, OfferFor, Purchased, RevokeOf;
    var after := Recorded(db, scope, connectionId, e, now);
    if OfferFor(db, scope, e).Some? && Purchased(after, scope, e, OfferFor(db, scope, e).value, secret, now).Ok? {
      PurchasedIs(after, scope, e, OfferFor(db, scope, e).value, secret, now);
    }
  }

  /** Evidence changes its own payment's cell, as a delivery, and no other. */
  lemma ApplyDelivers(db: Db, scope: Scope, connectionId: string, e: Evidence, secret: Secret, now: int, id: PaymentKey)
    requires ApplyEvidence(db, scope, connectionId, e, secret, now).Ok?
    ensures e.updatedAt.Some?
    ensures CellOf(ApplyEvidence(db, scope, connectionId, e, secret, now).value, id)
         == if id == KeyOf(scope, e) then Deliver(CellOf(db, id), ReceiptOf(db, scope, connectionId, e, now)) else CellOf(db, id)
  {
    hide ApplyEvidence, Settle, Verdict, Fault, OfferFor, OrderFor, NewPayment, OrderAfter;
    AppliedPayments(db, scope, connectionId, e, secret, now);
  }

  /** A receipt opens a fresh payment of its own amount, and faultless evidence repeats the payment's amount. */
  ghost predicate Faithful(c: Cell, r: Receipt) {
    && r.start.paidMinor == r.e.paidMinor && r.start.refundedMinor == 0 && r.start.state == Pending
    && (r.fault.None? && c.payment.Some? ==> c.payment.value.paidMinor == r.e.paidMinor)
    && r.e.paidMinor > 0
    && forall k :: 0 <= k < |r.e.refunds| ==> r.e.refunds[k].amountMinor >= 0
  }

  lemma ReceiptIsFaithful(db: Db, scope: Scope, connectionId: string, e: Evidence, secret: Secret, now: int)
    requires ApplyEvidence(db, scope, connectionId, e, secret, now).Ok?
    ensures e.updatedAt.Some? && Faithful(CellOf(db, KeyOf(scope, e)), ReceiptOf(db, scope, connectionId, e, now))
  {
  }

  // --------------------------------------------------------------- a transaction's evidence

  // The receipts of the first n pieces of evidence that are for the payment.
  ghost function Receipts(db: Db, scope: Scope, connectionId: string, deliveries: seq<Delivery>, n: nat, now: int, id: PaymentKey): seq<Receipt>
    requires n <= |deliveries|
  {
    if n == 0 then []
    else
      var before, e := Reconcile(db, scope, connectionId, deliveries, n - 1, now), deliveries[n - 1].evidence;
      Receipts(db, scope, connectionId, deliveries, n - 1, now, id)
      + if before.Ok? && e.updatedAt.Some? && id == KeyOf(scope, e) then [ReceiptOf(before.value, scope, connectionId, e, now)] else []
  }

  ghost predicate AllFaithful(c: Cell, rs: seq<Receipt>) {
    rs == [] || (AllFaithful(c, rs[..|rs| - 1]) && Faithful(DeliverAll(c, rs[..|rs| - 1]), rs[|rs| - 1]))
  }

  lemma DeliverOneMore(c: Cell, rs: seq<Receipt>, r: Receipt)
    ensures DeliverAll(c, rs + [r]) == Deliver(DeliverAll(c, rs), r)
    ensures AllFaithful(c, rs + [r]) <==> AllFaithful(c, rs) && Faithful(DeliverAll(c, rs), r)
  {
  }

  lemma {:induction false} ReconcileDelivers(db: Db, scope: Scope, connectionId: string, deliveries: seq<Delivery>, n: nat, now: int, id: PaymentKey)
    requires n <= |deliveries| && Reconcile(db, scope, connectionId, deliveries, n, now).Ok?
    ensures var rs := Receipts(db, scope, connectionId, deliveries, n, now, id);
            && CellOf(Reconcile(db, scope, connectionId, deliveries, n, now).value, id) == DeliverAll(CellOf(db, id), rs)
            && AllFaithful(CellOf(db, id), rs)
  {
    hide CellOf, Deliver, Faithful, ApplyEvidence;
    if n > 0 {
      var before, d := Reconcile(db, scope, connectionId, deliveries, n - 1, now).value, deliveries[n - 1];
      ReconcileDelivers(db, scope, connectionId, deliveries, n - 1, now, id);
      ApplyDelivers(before, scope, connectionId, d.evidence, d.secret, now, id);
      var rs := Receipts(db, scope, connectionId, deliveries, n - 1, now, id);
      if id == KeyOf(scope, d.evidence) {
        ReceiptIsFaithful(before, scope, connectionId, d.evidence, d.secret, now);
        DeliverOneMore(CellOf(db, id), rs, ReceiptOf(before, scope, connectionId, d.evidence, now));
      } else {
        assert rs + [] == rs;
      }
    }
  }

  // --------------------------------------------------------------- every other transaction

  lemma {:induction false} UpdatesKeepPayments(db: Db, listed: seq<PaymentKey>, n: nat, revised: Offer, now: int)
    requires n <= |listed|
    ensures SamePayments(db, UpdatePurchases(db, listed, n, revised, now))
  {
    hide Updates, ActiveTerms, AccessBenefits, UpdateGrants;
    if n > 0 {
      UpdatesKeepPayments(db, listed, n - 1, revised, now);
    }
  }

  lemma {:induction false} GiftUpdatesKeepPayments(db: Db, listed: seq<GiftKey>, n: nat, revised: Offer, now: int)
    requires n <= |listed|
    ensures SamePayments(db, UpdateGifts(db, listed, n, revised, now))
  {
    hide Updates, ActiveTerms, AccessBenefits, UpdateGrants;
    if n > 0 {
      GiftUpdatesKeepPayments(db, listed, n - 1, revised, now);
    }
  }

  lemma {:induction false} GiftClaimsKeepPayments(db: Db, subject: string, listed: seq<GiftKey>, n: nat, now: int)
    requires n <= |listed| && subject in db.customers && ClaimGifts(db, subject, listed, n, now).Ok?
    ensures SamePayments(db, ClaimGifts(db, subject, listed, n, now).value)
  {
    hide AccessBenefits, InsertGrants, CurrentContents, ClaimedGift;
    if n > 0 {
      GiftClaimsKeepPayments(db, subject, listed, n - 1, now);
    }
  }

  lemma RevisionKeepsPayments(db: Db, revised: Offer, purchases: seq<PaymentKey>, gifts: seq<GiftKey>, now: int)
    ensures SamePayments(db, UpdateAccessContents(db, revised, purchases, gifts, now))
  {
    UpdatesKeepPayments(db, purchases, |purchases|, revised, now);
    GiftUpdatesKeepPayments(UpdatePurchases(db, purchases, |purchases|, revised, now), gifts, |gifts|, revised, now);
  }

  lemma ErasureKeepsPayments(db: Db, subject: string)
    requires EraseCustomer(db, subject).Ok?
    ensures SamePayments(db, EraseCustomer(db, subject).value)
  {
  }

  lemma RedemptionKeepsPayments(db: Db, subject: string, claimId: string, token: string, now: int)
    requires RedeemClaim(db, subject, claimId, token, now).Ok?
    ensures SamePayments(db, RedeemClaim(db, subject, claimId, token, now).value)
  {
  }

  lemma OpeningKeepsPayments(db: Db, subject: string, gifts: seq<GiftKey>, now: int)
    requires OpenLibrary(db, subject, gifts, now).Ok?
    ensures SamePayments(db, OpenLibrary(db, subject, gifts, now).value)
  {
    hide ClaimGifts;
    GiftClaimsKeepPayments(WithCustomer(db, subject).value, subject, gifts, |gifts|, now);
  }

  lemma OtherEventsKeepPayments(db: Db, event: Event)
    requires !event.Evidenced?
    ensures SamePayments(db, Step(db, event))
  {
    hide UpdateAccessContents, OpenLibrary, RedeemClaim, EraseCustomer, RevokeOf, RevokeTimedOut, FindOffer, RevokeGrant, IsPackage;
    match event
    case Revised(offer, purchases, gifts, now) =>
      RevisionKeepsPayments(db.(offers := db.offers + [offer]), offer, purchases, gifts, now);
    case LibraryOpened(subject, gifts, now) =>
      if OpenLibrary(db, subject, gifts, now).Ok? {
        OpeningKeepsPayments(db, subject, gifts, now);
      }
    case ClaimRedeemed(subject, claimId, token, now) =>
      if RedeemClaim(db, subject, claimId, token, now).Ok? {
        RedemptionKeepsPayments(db, subject, claimId, token, now);
      }
    case CustomerErasedNow(subject) =>
      if EraseCustomer(db, subject).Ok? {
        ErasureKeepsPayments(db, subject);
      }
    case _ =>
  }

  // --------------------------------------------------------------- runs

  ghost function StepReceipts(db: Db, event: Event, id: PaymentKey): seq<Receipt> {
    if event.Evidenced? && Reconcile(db, event.scope, event.connectionId, event.deliveries, |event.deliveries|, event.now).Ok?
    then Receipts(db, event.scope, event.connectionId, event.deliveries, |event.deliveries|, event.now, id)
    else []
  }

  /** The evidence a run delivers to one payment. */
  ghost function RunReceipts(db: Db, events: seq<Event>, id: PaymentKey): seq<Receipt>
    decreases |events|
  {
    if events == [] then [] else StepReceipts(db, events[0], id) + RunReceipts(Step(db, events[0]), events[1..], id)
  }

  lemma StepDelivers(db: Db, event: Event, id: PaymentKey)
    ensures CellOf(Step(db, event), id) == DeliverAll(CellOf(db, id), StepReceipts(db, event, id))
    ensures AllFaithful(CellOf(db, id), StepReceipts(db, event, id))
  {
    hide Deliver, Faithful, ApplyEvidence, Receipts, Reconcile;
    if event.Evidenced? {
      if Reconcile(db, event.scope, event.connectionId, event.deliveries, |event.deliveries|, event.now).Ok? {
        ReconcileDelivers(db, event.scope, event.connectionId, event.deliveries, |event.deliveries|, event.now, id);
      }
    } else {
      OtherEventsKeepPayments(db, event);
    }
  }

  lemma {:induction false} DeliverSplit(c: Cell, rs: seq<Receipt>, more: seq<Receipt>)
    ensures DeliverAll(c, rs + more) == DeliverAll(DeliverAll(c, rs), more)
    ensures AllFaithful(c, rs + more) <==> AllFaithful(c, rs) && AllFaithful(DeliverAll(c, rs), more)
  {
    hide Deliver, Faithful;
    if more == [] {
      assert rs + more == rs;
    } else {
      var n := |more| - 1;
      DeliverSplit(c, rs, more[..n]);
      assert rs + more == (rs + more[..n]) + [more[n]];
      DeliverOneMore(c, rs + more[..n], more[n]);
      assert more == more[..n] + [more[n]];
    }
  }

  /** Over a whole run, a payment's records are those its evidence makes, in the order of delivery. */
  lemma {:induction false} RunDelivers(db: Db, events: seq<Event>, id: PaymentKey)
    ensures CellOf(Run(db, events), id) == DeliverAll(CellOf(db, id), RunReceipts(db, events, id))
    ensures AllFaithful(CellOf(db, id), RunReceipts(db, events, id))
    decreases |events|
  {
    hide CellOf, Deliver, Faithful, Step, StepReceipts;
    if events != [] {
      StepDelivers(db, events[0], id);
      RunDelivers(Step(db, events[0]), events[1..], id);
      DeliverSplit(CellOf(db, id), StepReceipts(db, events[0], id), RunReceipts(Step(db, events[0]), events[1..], id));
    }
  }

  // --------------------------------------------------------------- confluence of runs

  lemma {:induction false} FaithfulAmounts(rs: seq<Receipt>, i: nat)
    requires AllFaithful(NOTHING, rs) && i < |rs|
    ensures rs[i].start.paidMinor == rs[i].e.paidMinor > 0 && rs[i].start.refundedMinor == 0 && rs[i].start.state == Pending
    ensures forall k :: 0 <= k < |rs[i].e.refunds| ==> rs[i].e.refunds[k].amountMinor >= 0
  {
    if i < |rs| - 1 {
      FaithfulAmounts(rs[..|rs| - 1], i);
    }
  }

  lemma {:induction false} FaultFreeAmounts(rs: seq<Receipt>)
    requires AllFaithful(NOTHING, rs) && FaultFree(rs) && rs != []
    ensures SamePaid(rs, rs[0].e.paidMinor)
  {
    var n := |rs| - 1;
    if n > 0 {
      FaultFreeAmounts(rs[..n]);
      PaidIsPinned(rs[..n], rs[0].e.paidMinor);
      FaithfulAmounts(rs, n);
      assert forall i :: 0 <= i < n ==> rs[i] == rs[..n][i];
    } else {
      FaithfulAmounts(rs, 0);
    }
  }

  lemma FaithfulAgree(rs: seq<Receipt>)
    requires AllFaithful(NOTHING, rs) && OneAmountEach(rs)
    ensures AmountsAgree(rs)
  {
    forall id, a | Reported(rs, id, a) ensures a >= 0 {
      var i :| 0 <= i < |rs| && Completes(rs[i].e.refunds, id, a);
      FirstIsListed(rs[i].e.refunds, id, a);
      var k :| 0 <= k < |rs[i].e.refunds| && rs[i].e.refunds[k] == RefundEvidence(id, a, COMPLETED);
      FaithfulAmounts(rs, i);
    }
  }

  /**
   Two runs that deliver the same acceptable evidence to a new payment, each
   piece in any order and any number of times among any other transactions,
   leave the same completed refunds, refunded amount and verdict.
   */
  lemma RunsConfluent(db: Db, events: seq<Event>, other: Db, others: seq<Event>, id: PaymentKey)
    requires CellOf(db, id) == NOTHING == CellOf(other, id)
    requires SameEvidence(RunReceipts(db, events, id), RunReceipts(other, others, id))
    requires OneAmountEach(RunReceipts(db, events, id))
    requires FaultFree(RunReceipts(db, events, id)) && FaultFree(RunReceipts(other, others, id))
    requires id in Run(db, events).payments
    requires Run(db, events).payments[id].refundedMinor <= Run(db, events).payments[id].paidMinor
    ensures id in Run(other, others).payments
    ensures Completed(RefundsOf(Run(db, events), id)) == Completed(RefundsOf(Run(other, others), id))
    ensures Run(db, events).payments[id].refundedMinor == Run(other, others).payments[id].refundedMinor
    ensures OutcomeOf(Run(db, events).payments[id].state) == OutcomeOf(Run(other, others).payments[id].state)
  {
    hide Deliver, Faithful, Step, StepReceipts, Run, RunReceipts, DeliverAll, AllFaithful, FaultFree, OneAmountEach, Completed, Reported;
    var rs, os := RunReceipts(db, events, id), RunReceipts(other, others, id);
    RunDelivers(db, events, id);
    RunDelivers(other, others, id);
    assert rs != [] by {
      if rs == [] {
        NothingDelivered(rs);
      }
    }
    assert Mentions(rs, rs[0].e) && Mentions(os, rs[0].e);
    var j: nat :| j < |os| && os[j].e == rs[0].e;
    FaultFreeAmounts(rs);
    FaultFreeAmounts(os);
    FaithfulAgree(rs);
    PaidIsPinned(rs, rs[0].e.paidMinor);
    FaithfulAmounts(rs, 0);
    FaithfulAmounts(os, j);
    assert os[0].e.paidMinor == rs[0].e.paidMinor;
    EvidenceConfluent(rs, os, rs[0].e.paidMinor);
    VerdictConfluent(rs, os, rs[0].e.paidMinor);
  }

  lemma NothingDelivered(rs: seq<Receipt>)
    requires rs == []
    ensures DeliverAll(NOTHING, rs) == NOTHING
  {
  }
}
