/**
 What provider evidence does to one payment, whatever else happens: the
 completed refunds, the refunded amount and the refunded / reversed verdict
 depend on which evidence arrived, not on its order or repetition.
 */
module CommerceEvidence {
  import opened Common
  import opened Commerce

  /** One payment's share of the records. */
  datatype Cell = Cell(payment: Option<Payment>, refunds: map<string, Refund>)

  function CellOf(db: Db, id: PaymentKey): Cell {
    Cell(PriorFor(db, id), RefundsOf(db, id))
  }

  type DatedEvidence = e: Evidence | e.updatedAt.Some? ghost witness
    Evidence("c", None, None, None, "m", "USD", 1, 0, Pending, Some(0), None, None, None, None, false, [])

  // Evidence as it reaches its payment: what the other records made of it.
  datatype Receipt = Receipt(
    e: DatedEvidence, fault: Option<Reason>, start: Payment, checkoutId: Option<string>, offerId: Option<string>)

  function Before(c: Cell, r: Receipt): Payment {
    if c.payment.Some? then c.payment.value else r.start
  }

  ghost function Deliver(c: Cell, r: Receipt): Cell {
    var refunds := RecordRefunds(c.refunds, r.e.refunds, |r.e.refunds|);
    Cell(Some(Settle(Before(c, r), r.e, CompletedTotal(refunds), r.fault, r.checkoutId, r.offerId)), refunds)
  }

  ghost function DeliverAll(c: Cell, rs: seq<Receipt>): Cell
  {
    if rs == [] then c else Deliver(DeliverAll(c, rs[..|rs| - 1]), rs[|rs| - 1])
  }

  // --------------------------------------------------------------- sums of amounts

  lemma {:induction false} SumSplit(amounts: map<string, int>, id: string)
    requires id in amounts
    ensures Sum(amounts) == amounts[id] + Sum(amounts - {id})
    decreases |amounts|
  {
    var first :| first in amounts && Sum(amounts) == amounts[first] + Sum(amounts - {first});
    if first != id {
      SumSplit(amounts - {first}, id);
      SumSplit(amounts - {id}, first);
      assert amounts - {first} - {id} == amounts - {id} - {first};
    }
  }

  ghost predicate Natural(amounts: map<string, int>) {
    forall id :: id in amounts ==> amounts[id] >= 0
  }

  ghost predicate Within(small: map<string, int>, large: map<string, int>) {
    forall id :: id in small ==> id in large && large[id] == small[id]
  }

  lemma {:induction false} SumGrows(small: map<string, int>, large: map<string, int>)
    requires Within(small, large) && Natural(large)
    ensures 0 <= Sum(small) <= Sum(large)
    decreases |large|
  {
    if large == map[] {
      assert small == map[];
    } else {
      var id :| id in large;
      SumSplit(large, id);
      if id in small {
        SumSplit(small, id);
        SumGrows(small - {id}, large - {id});
      } else {
        SumGrows(small, large - {id});
      }
    }
  }

  // --------------------------------------------------------------- completed refunds

  /** The first completed amount a list gives a refund: later ones in the same list are not taken. */
  function FirstCompleted(list: seq<RefundEvidence>, id: string): Option<int> {
    if list == [] then None
    else
      var before, r := FirstCompleted(list[..|list| - 1], id), list[|list| - 1];
      if before.None? && r.state == COMPLETED && r.id == id then Some(r.amountMinor) else before
  }

  predicate Completes(list: seq<RefundEvidence>, id: string, amount: int) {
    FirstCompleted(list, id) == Some(amount)
  }

  lemma {:induction false} FirstIsListed(list: seq<RefundEvidence>, id: string, amount: int)
    requires Completes(list, id, amount)
    ensures exists k :: 0 <= k < |list| && list[k] == RefundEvidence(id, amount, COMPLETED)
  {
    var n := |list| - 1;
    if FirstCompleted(list[..n], id).Some? {
      FirstIsListed(list[..n], id, amount);
      var k :| 0 <= k < n && list[..n][k] == RefundEvidence(id, amount, COMPLETED);
      assert list[k] == list[..n][k];
    }
  }

  lemma {:induction false} FirstStays(list: seq<RefundEvidence>, n: nat, id: string)
    requires n <= |list| && FirstCompleted(list[..n], id).Some?
    ensures FirstCompleted(list, id) == FirstCompleted(list[..n], id)
  {
    if n < |list| {
      assert list[..|list| - 1][..n] == list[..n];
      FirstStays(list[..|list| - 1], n, id);
    } else {
      assert list[..n] == list;
    }
  }

  ghost predicate Reported(rs: seq<Receipt>, id: string, amount: int) {
    exists i :: 0 <= i < |rs| && Completes(rs[i].e.refunds, id, amount)
  }

  /** The amounts that pieces of evidence first complete one refund with are all the same. */
  ghost predicate OneAmountEach(rs: seq<Receipt>) {
    forall id, a, b :: Reported(rs, id, a) && Reported(rs, id, b) ==> a == b
  }

  ghost predicate AmountsAgree(rs: seq<Receipt>) {
    OneAmountEach(rs) && forall id, a :: Reported(rs, id, a) ==> a >= 0
  }

  // The completed refunds after one list are those before and those the list first completes.
  lemma {:induction false} RecordedAre(refunds: map<string, Refund>, list: seq<RefundEvidence>, n: nat, id: string)
    requires n <= |list|
    ensures var before, after := Completed(refunds), Completed(RecordRefunds(refunds, list, n));
            && (id in after <==> id in before || FirstCompleted(list[..n], id).Some?)
            && (id in before ==> after[id] == before[id])
            && (id !in before && FirstCompleted(list[..n], id).Some? ==> after[id] == FirstCompleted(list[..n], id).value)
  {
    if n > 0 {
      RecordedAre(refunds, list, n - 1, id);
      assert list[..n][..n - 1] == list[..n - 1] && list[..n][n - 1] == list[n - 1];
    }
  }

  lemma ReportedSnoc(rs: seq<Receipt>, r: Receipt, id: string, amount: int)
    ensures Reported(rs + [r], id, amount) <==> Reported(rs, id, amount) || Completes(r.e.refunds, id, amount)
  {
    if Reported(rs, id, amount) {
      var i :| 0 <= i < |rs| && Completes(rs[i].e.refunds, id, amount);
      assert (rs + [r])[i] == rs[i];
    }
    if Completes(r.e.refunds, id, amount) {
      assert (rs + [r])[|rs|] == r;
    }
  }

  lemma AgreePrefix(rs: seq<Receipt>)
    requires rs != [] && AmountsAgree(rs)
    ensures AmountsAgree(rs[..|rs| - 1])
  {
    var before := rs[..|rs| - 1];
    assert rs == before + [rs[|rs| - 1]];
    forall id, a | Reported(before, id, a) ensures Reported(rs, id, a) {
      ReportedSnoc(before, rs[|rs| - 1], id, a);
    }
  }

  const NOTHING := Cell(None, map[])

  ghost predicate IsReported(rs: seq<Receipt>, id: string) {
    exists a :: Reported(rs, id, a)
  }

  /** Starting from nothing, the completed refunds are exactly those some evidence reported. */
  lemma {:induction false} CompletedAreReported(rs: seq<Receipt>, id: string)
    ensures var done := Completed(DeliverAll(NOTHING, rs).refunds);
            && (id in done <==> IsReported(rs, id))
            && (id in done ==> Reported(rs, id, done[id]))
  {
    if rs != [] {
      var n := |rs| - 1;
      var last := rs[n];
      assert rs == rs[..n] + [last];
      CompletedAreReported(rs[..n], id);
      var before := DeliverAll(NOTHING, rs[..n]).refunds;
      forall a ensures Reported(rs, id, a) <==> Reported(rs[..n], id, a) || Completes(last.e.refunds, id, a) {
        ReportedSnoc(rs[..n], last, id, a);
      }
      RecordedAre(before, last.e.refunds, |last.e.refunds|, id);
      if FirstCompleted(last.e.refunds, id).Some? {
        assert Completes(last.e.refunds, id, FirstCompleted(last.e.refunds, id).value);
      }
      assert last.e.refunds[..|last.e.refunds|] == last.e.refunds;
    }
  }

  // --------------------------------------------------------------- the refunded amount

  lemma OneAmount(rs: seq<Receipt>, id: string, a: int, b: int)
    requires AmountsAgree(rs) && Reported(rs, id, a) && Reported(rs, id, b)
    ensures a == b && a >= 0 && IsReported(rs, id)
  {
  }

  lemma CompletedStays(rs: seq<Receipt>, id: string)
    requires rs != [] && AmountsAgree(rs)
    ensures var small, large := Completed(DeliverAll(NOTHING, rs[..|rs| - 1]).refunds), Completed(DeliverAll(NOTHING, rs).refunds);
            && (id in large ==> large[id] >= 0)
            && (id in small ==> id in large && large[id] == small[id])
  {
    hide Deliver, DeliverAll, Completed, AmountsAgree, Reported, IsReported;
    var n := |rs| - 1;
    var small, large := Completed(DeliverAll(NOTHING, rs[..n]).refunds), Completed(DeliverAll(NOTHING, rs).refunds);
    assert rs == rs[..n] + [rs[n]];
    AgreePrefix(rs);
    CompletedAreReported(rs[..n], id);
    CompletedAreReported(rs, id);
    if id in large {
      OneAmount(rs, id, large[id], large[id]);
    }
    if id in small {
      ReportedSnoc(rs[..n], rs[n], id, small[id]);
      OneAmount(rs, id, small[id], small[id]);
      OneAmount(rs, id, large[id], small[id]);
    }
  }

  lemma CompletedGrow(rs: seq<Receipt>)
    requires rs != [] && AmountsAgree(rs)
    ensures var before := DeliverAll(NOTHING, rs[..|rs| - 1]).refunds;
            0 <= CompletedTotal(before) <= CompletedTotal(DeliverAll(NOTHING, rs).refunds)
  {
    hide Deliver, DeliverAll, Completed;
    var small, large := Completed(DeliverAll(NOTHING, rs[..|rs| - 1]).refunds), Completed(DeliverAll(NOTHING, rs).refunds);
    forall id ensures id in large ==> large[id] >= 0
              ensures id in small ==> id in large && large[id] == small[id]
    {
      CompletedStays(rs, id);
    }
    SumGrows(small, large);
  }

  ghost predicate SamePaid(rs: seq<Receipt>, paid: int) {
    forall i :: 0 <= i < |rs| ==> rs[i].start.paidMinor == paid && rs[i].start.refundedMinor == 0 && rs[i].start.state == Pending
  }

  /** An amount some evidence, taken alone, says was refunded. */
  ghost predicate Stated(rs: seq<Receipt>, paid: int, amount: int) {
    exists i :: 0 <= i < |rs| && (amount == rs[i].e.refundedMinor || (rs[i].e.status == Refunded && amount == paid))
  }

  lemma {:induction false} PaidIsPinned(rs: seq<Receipt>, paid: int)
    requires rs != [] && SamePaid(rs, paid)
    ensures DeliverAll(NOTHING, rs).payment.Some? && DeliverAll(NOTHING, rs).payment.value.paidMinor == paid
  {
    if |rs| > 1 {
      PaidIsPinned(rs[..|rs| - 1], paid);
    } else {
      assert rs[..0] == [];
    }
  }

  /**
   The refunded amount is the largest of what single pieces of evidence state
   and of the completed refunds' total.
   */
  lemma {:induction false} RefundedIsLargest(rs: seq<Receipt>, paid: int)
    requires rs != [] && SamePaid(rs, paid) && AmountsAgree(rs)
    ensures var c := DeliverAll(NOTHING, rs);
            var refunded, total := c.payment.value.refundedMinor, CompletedTotal(c.refunds);
            && refunded >= total >= 0
            && (forall a :: Stated(rs, paid, a) ==> a <= refunded)
            && (refunded == total || Stated(rs, paid, refunded))
  {
    var n := |rs| - 1;
    var last := rs[n];
    assert rs == rs[..n] + [last];
    CompletedGrow(rs);
    PaidIsPinned(rs, paid);
    forall a ensures Stated(rs, paid, a) <==> Stated(rs[..n], paid, a) || a == last.e.refundedMinor || (last.e.status == Refunded && a == paid) {
      StatedSnoc(rs[..n], last, paid, a);
    }
    if n > 0 {
      AgreePrefix(rs);
      RefundedIsLargest(rs[..n], paid);
      PaidIsPinned(rs[..n], paid);
    } else {
      assert rs[..n] == [];
    }
  }

  lemma StatedSnoc(rs: seq<Receipt>, r: Receipt, paid: int, a: int)
    ensures Stated(rs + [r], paid, a) <==> Stated(rs, paid, a) || a == r.e.refundedMinor || (r.e.status == Refunded && a == paid)
  {
    if Stated(rs, paid, a) {
      var i :| 0 <= i < |rs| && (a == rs[i].e.refundedMinor || (rs[i].e.status == Refunded && a == paid));
      assert (rs + [r])[i] == rs[i];
    }
    if a == r.e.refundedMinor || (r.e.status == Refunded && a == paid) {
      assert (rs + [r])[|rs|] == r;
    }
  }

  // --------------------------------------------------------------- the verdict

  ghost predicate SomeReversed(rs: seq<Receipt>) {
    exists i :: 0 <= i < |rs| && rs[i].e.status == Reversed
  }

  ghost predicate FaultFree(rs: seq<Receipt>) {
    forall i :: 0 <= i < |rs| ==> rs[i].fault.None?
  }

  datatype Outcome = IsReversed | IsRefunded | IsNeither

  function OutcomeOf(s: Status): Outcome {
    if s == Reversed then IsReversed else if s == Refunded then IsRefunded else IsNeither
  }

  lemma ReversedSnoc(rs: seq<Receipt>, r: Receipt)
    ensures SomeReversed(rs + [r]) <==> SomeReversed(rs) || r.e.status == Reversed
  {
    if SomeReversed(rs) {
      var i :| 0 <= i < |rs| && rs[i].e.status == Reversed;
      assert (rs + [r])[i] == rs[i];
    }
    if r.e.status == Reversed {
      assert (rs + [r])[|rs|] == r;
    }
  }

  function RefundedOf(c: Cell): int {
    if c.payment.Some? then c.payment.value.refundedMinor else 0
  }

  function VerdictOf(c: Cell): Outcome {
    if c.payment.Some? then OutcomeOf(c.payment.value.state) else IsNeither
  }

  // The amount paid that a cell's payment has, or would get from the receipt.
  ghost predicate Pays(c: Cell, r: Receipt, paid: int) {
    Before(c, r).paidMinor == paid && (c.payment.None? ==> r.start.refundedMinor == 0 && r.start.state == Pending)
  }

  lemma DeliveryVerdict(c: Cell, r: Receipt, paid: int)
    requires Pays(c, r, paid) && r.fault.None?
    ensures RefundedOf(c) <= RefundedOf(Deliver(c, r))
    ensures VerdictOf(Deliver(c, r)) ==
              if RefundedOf(Deliver(c, r)) > paid then VerdictOf(c)
              else if r.e.status == Reversed || VerdictOf(c) == IsReversed then IsReversed
              else if RefundedOf(Deliver(c, r)) >= paid || VerdictOf(c) == IsRefunded then IsRefunded
              else IsNeither
  {
    hide CompletedTotal, RecordRefunds;
  }

  lemma DeliveredTo(rs: seq<Receipt>, paid: int)
    requires rs != [] && SamePaid(rs, paid)
    ensures Pays(DeliverAll(NOTHING, rs[..|rs| - 1]), rs[|rs| - 1], paid)
  {
    hide Deliver;
    if |rs| > 1 {
      PaidIsPinned(rs[..|rs| - 1], paid);
    } else {
      assert rs[..0] == [];
    }
  }

  /** Acceptable evidence that never exceeds the payment: reversed if any says so, else refunded if refunded in full. */
  lemma {:induction false} VerdictIs(rs: seq<Receipt>, paid: int)
    requires SamePaid(rs, paid) && FaultFree(rs) && paid > 0
    requires RefundedOf(DeliverAll(NOTHING, rs)) <= paid
    ensures VerdictOf(DeliverAll(NOTHING, rs))
         == if SomeReversed(rs) then IsReversed else if RefundedOf(DeliverAll(NOTHING, rs)) >= paid then IsRefunded else IsNeither
  {
    if rs != [] {
      hide Deliver, Pays, SomeReversed;
      var n := |rs| - 1;
      assert rs == rs[..n] + [rs[n]];
      ReversedSnoc(rs[..n], rs[n]);
      DeliveredTo(rs, paid);
      DeliveryVerdict(DeliverAll(NOTHING, rs[..n]), rs[n], paid);
      VerdictIs(rs[..n], paid);
    }
  }

  // Evidence past the payment leaves a verdict there already is, and makes none.
  lemma {:induction false} ExcessFreezes(rs: seq<Receipt>, paid: int, n: nat)
    requires SamePaid(rs, paid) && FaultFree(rs) && n < |rs|
    requires RefundedOf(DeliverAll(NOTHING, rs[..n + 1])) > paid
    ensures RefundedOf(DeliverAll(NOTHING, rs)) > paid
    ensures VerdictOf(DeliverAll(NOTHING, rs)) == VerdictOf(DeliverAll(NOTHING, rs[..n]))
  {
    hide Deliver, Pays;
    var m := |rs| - 1;
    DeliveredTo(rs, paid);
    DeliveryVerdict(DeliverAll(NOTHING, rs[..m]), rs[m], paid);
    if n < m {
      assert rs[..m][..n + 1] == rs[..n + 1] && rs[..m][..n] == rs[..n];
      ExcessFreezes(rs[..m], paid, n);
    } else {
      assert rs[..n + 1] == rs;
    }
  }

  // --------------------------------------------------------------- order and repetition

  ghost predicate Mentions(rs: seq<Receipt>, e: Evidence) {
    exists i :: 0 <= i < |rs| && rs[i].e == e
  }

  /** The same evidence, in any order and any number of times each. */
  ghost predicate SameEvidence(rs: seq<Receipt>, other: seq<Receipt>) {
    forall e :: Mentions(rs, e) <==> Mentions(other, e)
  }

  lemma SameReports(rs: seq<Receipt>, other: seq<Receipt>, id: string, amount: int)
    requires SameEvidence(rs, other)
    ensures Reported(rs, id, amount) <==> Reported(other, id, amount)
  {
    if Reported(rs, id, amount) {
      ReportsCarry(rs, other, id, amount);
    }
    if Reported(other, id, amount) {
      ReportsCarry(other, rs, id, amount);
    }
  }

  lemma ReportsCarry(rs: seq<Receipt>, other: seq<Receipt>, id: string, amount: int)
    requires SameEvidence(rs, other) && Reported(rs, id, amount)
    ensures Reported(other, id, amount)
  {
    var i :| 0 <= i < |rs| && Completes(rs[i].e.refunds, id, amount);
    assert Mentions(rs, rs[i].e) && Mentions(other, rs[i].e);
    var j :| 0 <= j < |other| && other[j].e == rs[i].e;
  }

  lemma SameStated(rs: seq<Receipt>, other: seq<Receipt>, paid: int, a: int)
    requires SameEvidence(rs, other) && Stated(rs, paid, a)
    ensures Stated(other, paid, a)
  {
    var i :| 0 <= i < |rs| && (a == rs[i].e.refundedMinor || (rs[i].e.status == Refunded && a == paid));
    assert Mentions(rs, rs[i].e) && Mentions(other, rs[i].e);
    var j :| 0 <= j < |other| && other[j].e == rs[i].e;
  }

  lemma SameReversed(rs: seq<Receipt>, other: seq<Receipt>)
    requires SameEvidence(rs, other) && SomeReversed(rs)
    ensures SomeReversed(other)
  {
    var i :| 0 <= i < |rs| && rs[i].e.status == Reversed;
    assert Mentions(rs, rs[i].e) && Mentions(other, rs[i].e);
    var j :| 0 <= j < |other| && other[j].e == rs[i].e;
  }

  lemma SameCompleted(rs: seq<Receipt>, other: seq<Receipt>)
    requires SameEvidence(rs, other) && OneAmountEach(rs)
    ensures Completed(DeliverAll(NOTHING, rs).refunds) == Completed(DeliverAll(NOTHING, other).refunds)
  {
    var a, b := Completed(DeliverAll(NOTHING, rs).refunds), Completed(DeliverAll(NOTHING, other).refunds);
    forall id ensures id in a <==> id in b
              ensures id in a && id in b ==> a[id] == b[id]
    {
      CompletedAreReported(rs, id);
      CompletedAreReported(other, id);
      forall amount ensures Reported(rs, id, amount) <==> Reported(other, id, amount) {
        SameReports(rs, other, id, amount);
      }
    }
  }

  lemma AgreementCarries(rs: seq<Receipt>, other: seq<Receipt>)
    requires SameEvidence(rs, other) && AmountsAgree(rs)
    ensures AmountsAgree(other)
  {
    forall id, a ensures Reported(rs, id, a) <==> Reported(other, id, a) {
      SameReports(rs, other, id, a);
    }
  }

  /** Neither order nor repetition of evidence changes the completed refunds or the refunded amount, even if some is refused. */
  lemma EvidenceConfluent(rs: seq<Receipt>, other: seq<Receipt>, paid: int)
    requires rs != [] && other != [] && SamePaid(rs, paid) && SamePaid(other, paid)
    requires SameEvidence(rs, other) && AmountsAgree(rs)
    ensures var a, b := DeliverAll(NOTHING, rs), DeliverAll(NOTHING, other);
            && Completed(a.refunds) == Completed(b.refunds)
            && a.payment.Some? && b.payment.Some?
            && a.payment.value.refundedMinor == b.payment.value.refundedMinor
  {
    AgreementCarries(rs, other);
    SameCompleted(rs, other);
    RefundedIsLargest(rs, paid);
    RefundedIsLargest(other, paid);
    PaidIsPinned(rs, paid);
    PaidIsPinned(other, paid);
    var a, b := DeliverAll(NOTHING, rs).payment.value.refundedMinor, DeliverAll(NOTHING, other).payment.value.refundedMinor;
    if Stated(rs, paid, a) {
      SameStated(rs, other, paid, a);
    }
    if Stated(other, paid, b) {
      SameStated(other, rs, paid, b);
    }
  }

  /** Nor do they change the verdict, when all of it is acceptable and never exceeds the payment. */
  lemma VerdictConfluent(rs: seq<Receipt>, other: seq<Receipt>, paid: int)
    requires rs != [] && other != [] && SamePaid(rs, paid) && SamePaid(other, paid) && paid > 0
    requires SameEvidence(rs, other) && AmountsAgree(rs) && FaultFree(rs) && FaultFree(other)
    requires DeliverAll(NOTHING, rs).payment.value.refundedMinor <= paid
    ensures OutcomeOf(DeliverAll(NOTHING, rs).payment.value.state) == OutcomeOf(DeliverAll(NOTHING, other).payment.value.state)
  {
    EvidenceConfluent(rs, other, paid);
    AgreementCarries(rs, other);
    VerdictIs(rs, paid);
    VerdictIs(other, paid);
    if SomeReversed(rs) {
      SameReversed(rs, other);
    }
    if SomeReversed(other) {
      SameReversed(other, rs);
    }
  }
}
