/** Exactly when the order of evidence matters to a payment. */
module CommerceOrder {
  import opened Common
  import opened Commerce
  import opened CommerceEvidence
  import CommerceRuns

  // --------------------------------------------------------------- completed refunds

  // Once completed, a refund keeps its amount.
  lemma {:induction false} CompletedKeeps(c: Cell, rs: seq<Receipt>, id: string)
    requires id in Completed(c.refunds)
    ensures var done := Completed(DeliverAll(c, rs).refunds);
            id in done && done[id] == Completed(c.refunds)[id]
  {
    hide Settle;
    if rs != [] {
      var n := |rs| - 1;
      CompletedKeeps(c, rs[..n], id);
      RecordedAre(DeliverAll(c, rs[..n]).refunds, rs[n].e.refunds, |rs[n].e.refunds|, id);
    }
  }

  lemma FirstReceiptDecides(r: Receipt, rs: seq<Receipt>, id: string, amount: int)
    requires Completes(r.e.refunds, id, amount)
    ensures var done := Completed(DeliverAll(NOTHING, [r] + rs).refunds);
            id in done && done[id] == amount
  {
    assert [r][..0] == [];
    assert DeliverAll(NOTHING, [r]) == Deliver(DeliverAll(NOTHING, []), r);
    RecordedAre(map[], r.e.refunds, |r.e.refunds|, id);
    assert r.e.refunds[..|r.e.refunds|] == r.e.refunds;
    CommerceRuns.DeliverSplit(NOTHING, [r], rs);
    CompletedKeeps(Deliver(NOTHING, r), rs, id);
  }

  lemma SameEvidenceAfter(rs: seq<Receipt>, w: seq<Receipt>)
    requires DrawnFrom(w, rs)
    ensures SameEvidence(rs, w + rs)
  {
    forall e ensures Mentions(rs, e) <==> Mentions(w + rs, e) {
      if Mentions(rs, e) {
        var i :| 0 <= i < |rs| && rs[i].e == e;
        assert (w + rs)[|w| + i].e == e;
      }
      if Mentions(w + rs, e) {
        var i :| 0 <= i < |w + rs| && (w + rs)[i].e == e;
        if i < |w| {
          assert w[i].e == e;
        } else {
          assert rs[i - |w|].e == e;
        }
      }
    }
  }

  // Evidence among that of rs, in some order.
  ghost predicate DrawnFrom(w: seq<Receipt>, rs: seq<Receipt>) {
    forall k :: 0 <= k < |w| ==> Mentions(rs, w[k].e)
  }

  ghost predicate CompletedAlike(rs: seq<Receipt>, other: seq<Receipt>) {
    Completed(DeliverAll(NOTHING, rs).refunds) == Completed(DeliverAll(NOTHING, other).refunds)
  }

  /**
   The completed refunds come out the same in every order, with any repetition, if
   and only if no two pieces of evidence first complete one refund with different
   amounts.
   */
  lemma CompletedConfluentExactly(rs: seq<Receipt>)
    ensures (forall other :: SameEvidence(rs, other) ==> CompletedAlike(rs, other)) <==> OneAmountEach(rs)
  {
    hide Deliver, DeliverAll, Completed;
    if OneAmountEach(rs) {
      forall other | SameEvidence(rs, other) ensures CompletedAlike(rs, other) {
        SameCompleted(rs, other);
      }
    }
    if forall other :: SameEvidence(rs, other) ==> CompletedAlike(rs, other) {
      forall id, a, b | Reported(rs, id, a) && Reported(rs, id, b) ensures a == b {
        CompletedWith(rs, id, a);
        CompletedWith(rs, id, b);
      }
    }
  }

  lemma CompletedWith(rs: seq<Receipt>, id: string, a: int)
    requires Reported(rs, id, a) && forall other :: SameEvidence(rs, other) ==> CompletedAlike(rs, other)
    ensures var done := Completed(DeliverAll(NOTHING, rs).refunds);
            id in done && done[id] == a
  {
    hide Deliver, DeliverAll, Completed, SameEvidence;
    var i :| 0 <= i < |rs| && Completes(rs[i].e.refunds, id, a);
    assert Mentions(rs, rs[i].e);
    FirstReceiptDecides(rs[i], rs, id, a);
    SameEvidenceAfter(rs, [rs[i]]);
    assert CompletedAlike(rs, [rs[i]] + rs);
  }

  // --------------------------------------------------------------- the verdict

  ghost predicate Acceptable(rs: seq<Receipt>, paid: int) {
    SamePaid(rs, paid) && FaultFree(rs)
  }

  /**
   Some of the evidence, in an order that stays within the payment, comes to the
   verdict, and one more piece exceeds the payment.
   */
  ghost predicate Reaches(rs: seq<Receipt>, u: seq<Receipt>, last: Receipt, paid: int, v: Outcome) {
    && DrawnFrom(u + [last], rs) && Acceptable(u + [last], paid)
    && RefundedOf(DeliverAll(NOTHING, u)) <= paid < RefundedOf(DeliverAll(NOTHING, u + [last]))
    && v == if SomeReversed(u) then IsReversed else if RefundedOf(DeliverAll(NOTHING, u)) >= paid then IsRefunded else IsNeither
  }

  ghost predicate CanReach(rs: seq<Receipt>, paid: int, v: Outcome) {
    exists u, last :: Reaches(rs, u, last, paid, v)
  }

  ghost predicate SomeOrderGives(rs: seq<Receipt>, paid: int, v: Outcome) {
    exists other :: SameEvidence(rs, other) && Acceptable(other, paid) && VerdictOf(DeliverAll(NOTHING, other)) == v
  }

  lemma {:induction false} FirstExcess(rs: seq<Receipt>, paid: int) returns (n: nat)
    requires paid > 0 && RefundedOf(DeliverAll(NOTHING, rs)) > paid
    ensures n < |rs| && RefundedOf(DeliverAll(NOTHING, rs[..n])) <= paid < RefundedOf(DeliverAll(NOTHING, rs[..n + 1]))
    decreases |rs|
  {
    hide Deliver;
    assert rs != [];
    n := |rs| - 1;
    if RefundedOf(DeliverAll(NOTHING, rs[..n])) > paid {
      var m := FirstExcess(rs[..n], paid);
      assert rs[..n][..m] == rs[..m] && rs[..n][..m + 1] == rs[..m + 1];
      n := m;
    } else {
      assert rs[..n + 1] == rs;
    }
  }

  lemma OrderReaches(rs: seq<Receipt>, other: seq<Receipt>, paid: int)
    requires SameEvidence(rs, other) && Acceptable(other, paid) && paid > 0 && RefundedOf(DeliverAll(NOTHING, other)) > paid
    ensures CanReach(rs, paid, VerdictOf(DeliverAll(NOTHING, other)))
  {
    hide Deliver, DeliverAll;
    var n := FirstExcess(other, paid);
    var u, last := other[..n], other[n];
    assert u + [last] == other[..n + 1];
    VerdictIs(u, paid);
    ExcessFreezes(other, paid, n);
    forall k | 0 <= k < |u + [last]| ensures Mentions(rs, (u + [last])[k].e) {
      assert Mentions(other, other[k].e);
    }
    assert Reaches(rs, u, last, paid, VerdictOf(DeliverAll(NOTHING, other)));
  }

  lemma ReachedInSomeOrder(rs: seq<Receipt>, u: seq<Receipt>, last: Receipt, paid: int, v: Outcome)
    requires Acceptable(rs, paid) && paid > 0 && Reaches(rs, u, last, paid, v)
    ensures SomeOrderGives(rs, paid, v)
  {
    hide Deliver, DeliverAll, SameEvidence;
    var w := u + [last];
    var other := w + rs;
    SameEvidenceAfter(rs, w);
    assert other[..|u|] == u && other[..|u| + 1] == w;
    VerdictIs(u, paid);
    ExcessFreezes(other, paid, |u|);
    assert Acceptable(other, paid);
  }

  /**
   When refunds exceed the payment, the verdicts that orders of the evidence give
   are exactly those it can reach within the payment just before exceeding it.
   */
  lemma VerdictsReachedExactly(rs: seq<Receipt>, paid: int, v: Outcome)
    requires rs != [] && Acceptable(rs, paid) && AmountsAgree(rs) && paid > 0
    requires RefundedOf(DeliverAll(NOTHING, rs)) > paid
    ensures SomeOrderGives(rs, paid, v) <==> CanReach(rs, paid, v)
  {
    hide Deliver, DeliverAll, SameEvidence, AmountsAgree, Acceptable, Reaches;
    if SomeOrderGives(rs, paid, v) {
      var other :| SameEvidence(rs, other) && Acceptable(other, paid) && VerdictOf(DeliverAll(NOTHING, other)) == v;
      SameRefunded(rs, other, paid);
      OrderReaches(rs, other, paid);
    }
    if CanReach(rs, paid, v) {
      var u, last :| Reaches(rs, u, last, paid, v);
      ReachedInSomeOrder(rs, u, last, paid, v);
    }
  }

  lemma SameRefunded(rs: seq<Receipt>, other: seq<Receipt>, paid: int)
    requires rs != [] && Acceptable(rs, paid) && Acceptable(other, paid) && AmountsAgree(rs) && SameEvidence(rs, other)
    ensures other != [] && RefundedOf(DeliverAll(NOTHING, rs)) == RefundedOf(DeliverAll(NOTHING, other))
  {
    assert Mentions(rs, rs[0].e) && Mentions(other, rs[0].e);
    EvidenceConfluent(rs, other, paid);
  }

  /**
   The verdict of acceptable evidence comes out the same in every order, with any
   repetition, if and only if refunds stay within the payment, or every verdict
   that can be reached within the payment just before exceeding it is the same.
   */
  lemma VerdictConfluentExactly(rs: seq<Receipt>, paid: int)
    requires rs != [] && Acceptable(rs, paid) && AmountsAgree(rs) && paid > 0
    ensures (forall v :: SomeOrderGives(rs, paid, v) ==> v == VerdictOf(DeliverAll(NOTHING, rs))) <==>
              || RefundedOf(DeliverAll(NOTHING, rs)) <= paid
              || (forall v :: CanReach(rs, paid, v) ==> v == VerdictOf(DeliverAll(NOTHING, rs)))
  {
    hide Deliver, DeliverAll, SameEvidence, AmountsAgree, CanReach, SamePaid, FaultFree;
    if RefundedOf(DeliverAll(NOTHING, rs)) > paid {
      forall v ensures SomeOrderGives(rs, paid, v) <==> CanReach(rs, paid, v) {
        VerdictsReachedExactly(rs, paid, v);
      }
    } else {
      forall v | SomeOrderGives(rs, paid, v) ensures v == VerdictOf(DeliverAll(NOTHING, rs)) {
        var other :| SameEvidence(rs, other) && Acceptable(other, paid) && VerdictOf(DeliverAll(NOTHING, other)) == v;
        SameRefunded(rs, other, paid);
        SameVerdictWithin(rs, other, paid);
      }
    }
  }

  lemma SameVerdictWithin(rs: seq<Receipt>, other: seq<Receipt>, paid: int)
    requires rs != [] && other != [] && Acceptable(rs, paid) && Acceptable(other, paid) && paid > 0
    requires SameEvidence(rs, other) && AmountsAgree(rs) && RefundedOf(DeliverAll(NOTHING, rs)) <= paid
    ensures VerdictOf(DeliverAll(NOTHING, other)) == VerdictOf(DeliverAll(NOTHING, rs))
  {
    PaidIsPinned(rs, paid);
    PaidIsPinned(other, paid);
    VerdictConfluent(rs, other, paid);
  }

  // --------------------------------------------------------------- reversals

  lemma DrawnReports(w: seq<Receipt>, rs: seq<Receipt>, id: string, a: int)
    requires DrawnFrom(w, rs) && Reported(w, id, a)
    ensures Reported(rs, id, a)
  {
    var k :| 0 <= k < |w| && Completes(w[k].e.refunds, id, a);
    assert Mentions(rs, w[k].e);
    var i :| 0 <= i < |rs| && rs[i].e == w[k].e;
  }

  lemma DrawnAgree(w: seq<Receipt>, rs: seq<Receipt>)
    requires DrawnFrom(w, rs) && AmountsAgree(rs)
    ensures AmountsAgree(w)
  {
    forall id, a | Reported(w, id, a) ensures Reported(rs, id, a) {
      DrawnReports(w, rs, id, a);
    }
  }

  lemma DrawnTotal(w: seq<Receipt>, rs: seq<Receipt>)
    requires DrawnFrom(w, rs) && AmountsAgree(rs)
    ensures CompletedTotal(DeliverAll(NOTHING, w).refunds) <= CompletedTotal(DeliverAll(NOTHING, rs).refunds)
  {
    hide Deliver, DeliverAll, Completed, Reported, DrawnFrom;
    var small, large := Completed(DeliverAll(NOTHING, w).refunds), Completed(DeliverAll(NOTHING, rs).refunds);
    forall id ensures (id in large ==> large[id] >= 0) && (id in small ==> id in large && large[id] == small[id]) {
      CompletedAreReported(w, id);
      CompletedAreReported(rs, id);
      if id in small {
        DrawnReports(w, rs, id, small[id]);
      }
    }
    SumGrows(small, large);
  }

  lemma DrawnStated(w: seq<Receipt>, rs: seq<Receipt>, paid: int, a: int)
    requires DrawnFrom(w, rs) && Stated(w, paid, a)
    ensures Stated(rs, paid, a)
  {
    var k :| 0 <= k < |w| && (a == w[k].e.refundedMinor || (w[k].e.status == Refunded && a == paid));
    assert Mentions(rs, w[k].e);
    var i :| 0 <= i < |rs| && rs[i].e == w[k].e;
  }

  // Part of the evidence refunds no more than all of it.
  lemma PartRefundsLess(w: seq<Receipt>, rs: seq<Receipt>, paid: int)
    requires w != [] && rs != [] && DrawnFrom(w, rs) && AmountsAgree(rs) && SamePaid(w, paid) && SamePaid(rs, paid)
    ensures RefundedOf(DeliverAll(NOTHING, w)) <= RefundedOf(DeliverAll(NOTHING, rs))
  {
    hide Deliver, DeliverAll, CompletedTotal, DrawnFrom, AmountsAgree, Stated;
    DrawnAgree(w, rs);
    DrawnTotal(w, rs);
    RefundedIsLargest(w, paid);
    RefundedIsLargest(rs, paid);
    PaidIsPinned(w, paid);
    PaidIsPinned(rs, paid);
    var r := RefundedOf(DeliverAll(NOTHING, w));
    if Stated(w, paid, r) {
      DrawnStated(w, rs, paid, r);
    }
  }

  /** A piece of evidence says the payment was reversed and alone stays within it. */
  ghost predicate ReversesWithin(rs: seq<Receipt>, paid: int, i: nat) {
    i < |rs| && rs[i].e.status == Reversed && RefundedOf(DeliverAll(NOTHING, [rs[i]])) <= paid
  }

  /**
   When refunds exceed the payment, some order still reverses it if and only if
   some evidence of a reversal alone stays within the payment.
   */
  lemma ReversedInSomeOrderExactly(rs: seq<Receipt>, paid: int)
    requires rs != [] && Acceptable(rs, paid) && AmountsAgree(rs) && paid > 0
    requires RefundedOf(DeliverAll(NOTHING, rs)) > paid
    ensures SomeOrderGives(rs, paid, IsReversed) <==> exists i :: ReversesWithin(rs, paid, i)
  {
    hide Deliver, DeliverAll, SameEvidence, AmountsAgree, Reaches;
    VerdictsReachedExactly(rs, paid, IsReversed);
    if SomeOrderGives(rs, paid, IsReversed) {
      var u, last :| Reaches(rs, u, last, paid, IsReversed);
      ReachedByAReversal(rs, u, last, paid);
    }
    if i: nat :| ReversesWithin(rs, paid, i) {
      assert Mentions(rs, rs[i].e);
      SameEvidenceAfter(rs, [rs[i]]);
      AcceptableAfter(rs, [rs[i]], paid);
      ReversedFirst(rs[i], rs, paid);
      assert SameEvidence(rs, [rs[i]] + rs);
    }
  }

  lemma ReachedByAReversal(rs: seq<Receipt>, u: seq<Receipt>, last: Receipt, paid: int)
    requires Acceptable(rs, paid) && AmountsAgree(rs) && Reaches(rs, u, last, paid, IsReversed)
    ensures exists i :: ReversesWithin(rs, paid, i)
  {
    hide Deliver, DeliverAll, AmountsAgree;
    var k :| 0 <= k < |u| && u[k].e.status == Reversed;
    assert (u + [last])[k] == u[k];
    assert Mentions(rs, u[k].e);
    var i :| 0 <= i < |rs| && rs[i].e == u[k].e;
    forall m | 0 <= m < |u| ensures Mentions(rs, u[m].e) && u[m].start == (u + [last])[m].start {
      assert (u + [last])[m] == u[m];
    }
    DrawnAgree(u, rs);
    assert Mentions(u, u[k].e);
    PartRefundsLess([rs[i]], u, paid);
    assert ReversesWithin(rs, paid, i);
  }

  /**
   So a reversal within the payment races with evidence that alone exceeds it:
   whichever is first decides, whatever else is delivered.
   */
  lemma ReversalRacesExcess(rs: seq<Receipt>, paid: int, i: nat, j: nat)
    requires Acceptable(rs, paid) && paid > 0 && i < |rs| && j < |rs|
    requires rs[i].e.status == Reversed && RefundedOf(DeliverAll(NOTHING, [rs[i]])) <= paid
    requires RefundedOf(DeliverAll(NOTHING, [rs[j]])) > paid
    ensures SameEvidence(rs, [rs[i], rs[j]] + rs) && VerdictOf(DeliverAll(NOTHING, [rs[i], rs[j]] + rs)) == IsReversed
    ensures SameEvidence(rs, [rs[j], rs[i]] + rs) && VerdictOf(DeliverAll(NOTHING, [rs[j], rs[i]] + rs)) == IsNeither
  {
    hide DeliverAll, SameEvidence, Acceptable, Deliver;
    TwoFirst(rs, rs[i], rs[j], paid);
    TwoFirst(rs, rs[j], rs[i], paid);
    ReversedFirst(rs[i], [rs[j]] + rs, paid);
    ExcessFirst(rs[j], [rs[i]] + rs, paid);
  }

  lemma TwoFirst(rs: seq<Receipt>, a: Receipt, b: Receipt, paid: int)
    requires Acceptable(rs, paid) && a in rs && b in rs
    ensures [a, b] + rs == [a] + ([b] + rs)
    ensures Acceptable([a] + ([b] + rs), paid) && SameEvidence(rs, [a, b] + rs)
  {
    hide SameEvidence;
    assert Mentions(rs, a.e) && Mentions(rs, b.e);
    SameEvidenceAfter(rs, [a, b]);
    AcceptableAfter(rs, [a, b], paid);
    assert [a, b] + rs == [a] + ([b] + rs);
  }

  lemma AcceptableAfter(rs: seq<Receipt>, w: seq<Receipt>, paid: int)
    requires Acceptable(rs, paid) && forall k :: 0 <= k < |w| ==> w[k] in rs
    ensures Acceptable(w + rs, paid)
  {
  }

  lemma ExcessFirst(b: Receipt, rest: seq<Receipt>, paid: int)
    requires Acceptable([b] + rest, paid) && paid > 0 && RefundedOf(DeliverAll(NOTHING, [b])) > paid
    ensures VerdictOf(DeliverAll(NOTHING, [b] + rest)) == IsNeither
  {
    hide Deliver;
    var all := [b] + rest;
    assert all[..1] == [b] && all[..0] == [];
    ExcessFreezes(all, paid, 0);
  }

  lemma {:induction false} ReversedFirst(a: Receipt, rest: seq<Receipt>, paid: int)
    requires Acceptable([a] + rest, paid) && paid > 0
    requires a.e.status == Reversed && RefundedOf(DeliverAll(NOTHING, [a])) <= paid
    ensures VerdictOf(DeliverAll(NOTHING, [a] + rest)) == IsReversed
  {
    hide Deliver;
    var all := [a] + rest;
    if rest == [] {
      assert all == [a];
      assert SomeReversed([a]) by { assert [a][0].e.status == Reversed; }
      VerdictIs([a], paid);
    } else {
      var n := |rest| - 1;
      assert all[..|all| - 1] == [a] + rest[..n];
      assert forall k :: 0 <= k < |[a] + rest[..n]| ==> ([a] + rest[..n])[k] == all[k];
      ReversedFirst(a, rest[..n], paid);
      DeliveredTo(all, paid);
      DeliveryVerdict(DeliverAll(NOTHING, all[..|all| - 1]), all[|all| - 1], paid);
    }
  }

  // --------------------------------------------------------------- two pieces of evidence that race

  lemma SumOfOne(id: string, amount: int)
    ensures Sum(map[id := amount]) == amount
  {
    SumSplit(map[id := amount], id);
    assert map[id := amount] - {id} == map[];
  }

  function Reporting(e: DatedEvidence, id: string, amount: int): DatedEvidence {
    e.(refunds := [RefundEvidence(id, amount, COMPLETED)])
  }

  lemma OneReport(refunds: map<string, Refund>, id: string, amount: int)
    requires refunds == map[] || exists a :: refunds == map[id := Refund(a, COMPLETED)]
    ensures var list := [RefundEvidence(id, amount, COMPLETED)];
            RecordRefunds(refunds, list, 1) == if refunds == map[] then map[id := Refund(amount, COMPLETED)] else refunds
  {
    var list := [RefundEvidence(id, amount, COMPLETED)];
    assert RecordRefunds(refunds, list, 0) == refunds;
  }

  lemma DeliverTwo(a: Receipt, b: Receipt)
    ensures DeliverAll(NOTHING, [a, b]) == Deliver(Deliver(NOTHING, a), b)
  {
    assert [a, b][..1] == [a] && [a][..0] == [];
    assert DeliverAll(NOTHING, [a]) == Deliver(DeliverAll(NOTHING, []), a);
  }

  // The first of two completions of one refund stays.
  lemma FirstAmountStays(e: DatedEvidence, start: Payment, id: string, x: int, y: int)
    requires e.refundedMinor == 0 && e.status != Refunded && start.refundedMinor == 0 && 0 <= x && 0 <= y
    ensures var a, b := Receipt(Reporting(e, id, x), None, start, None, None), Receipt(Reporting(e, id, y), None, start, None, None);
            DeliverAll(NOTHING, [a, b]).payment.value.refundedMinor == x
  {
    var a, b := Receipt(Reporting(e, id, x), None, start, None, None), Receipt(Reporting(e, id, y), None, start, None, None);
    DeliverTwo(a, b);
    OneReport(map[], id, x);
    OneReport(map[id := Refund(x, COMPLETED)], id, y);
    assert Completed(map[id := Refund(x, COMPLETED)]) == map[id := x];
    SumOfOne(id, x);
  }

  /** If one refund is reported completed with two amounts, the order of the reports decides the refunded amount. */
  lemma DisagreeingAmountsDependOnOrder(e: DatedEvidence, start: Payment, id: string, x: int, y: int)
    requires e.refundedMinor == 0 && e.status != Refunded && start.refundedMinor == 0 && 0 <= x && 0 <= y && x != y
    ensures var a, b := Receipt(Reporting(e, id, x), None, start, None, None), Receipt(Reporting(e, id, y), None, start, None, None);
            DeliverAll(NOTHING, [a, b]).payment.value.refundedMinor != DeliverAll(NOTHING, [b, a]).payment.value.refundedMinor
  {
    FirstAmountStays(e, start, id, x, y);
    FirstAmountStays(e, start, id, y, x);
  }

  /** If refunds exceed the payment, a reversal counts only when it arrives before the excess. */
  lemma ExcessDependsOnOrder(e: DatedEvidence, start: Payment, excess: int)
    requires e.refundedMinor == 0 && e.refunds == [] && start.refundedMinor == 0 && start.state == Pending && 0 < start.paidMinor < excess
    ensures var a := Receipt(e.(status := Reversed), None, start, None, None);
            var b := Receipt(e.(status := PartiallyRefunded, refundedMinor := excess), None, start, None, None);
            && DeliverAll(NOTHING, [a, b]).payment.value.state == Reversed
            && DeliverAll(NOTHING, [b, a]).payment.value.state == NeedsReview
  {
    var a := Receipt(e.(status := Reversed), None, start, None, None);
    var b := Receipt(e.(status := PartiallyRefunded, refundedMinor := excess), None, start, None, None);
    DeliverTwo(a, b);
    DeliverTwo(b, a);
    assert Completed(map[]) == map[];
  }
}
