/** What reservations promise: when they succeed, which lots they draw on, and that they are settled once. */
module LedgerReservations {
  import opened Common
  import opened Ledger
  import opened LedgerInvariant
  import opened LedgerSteps

  // --------------------------------------------------------------- reserving

  lemma {:induction false} RoomInIsSum(lots: seq<CreditLot>, order: seq<nat>, other: seq<nat>)
    requires Within(order, |lots|) && Within(other, |lots|) && multiset(order) == multiset(other)
    ensures RoomIn(lots, order) == RoomIn(lots, other)
    decreases |order|
  {
    if order == [] {
      assert |other| == |multiset(other)| == 0;
    } else {
      var last := order[|order| - 1];
      assert last in multiset(order);
      var k :| 0 <= k < |other| && other[k] == last;
      RoomInRemove(lots, other, k);
      RemovedAlike(order, other, k);
      RoomInIsSum(lots, order[..|order| - 1], other[..k] + other[k + 1..]);
    }
  }

  lemma RemovedAlike(order: seq<nat>, other: seq<nat>, k: nat)
    requires order != [] && multiset(order) == multiset(other) && k < |other| && other[k] == order[|order| - 1]
    ensures multiset(order[..|order| - 1]) == multiset(other[..k] + other[k + 1..])
  {
    var first, rest := order[..|order| - 1], other[..k] + other[k + 1..];
    assert order == first + [other[k]];
    assert other == other[..k] + [other[k]] + other[k + 1..];
    assert multiset(first) + multiset{other[k]} == multiset(order);
    assert multiset(rest) + multiset{other[k]} == multiset(other);
    assert multiset(first) == multiset(order) - multiset{other[k]};
  }

  lemma {:induction false} RoomInRemove(lots: seq<CreditLot>, order: seq<nat>, k: nat)
    requires Within(order, |lots|) && k < |order|
    ensures RoomIn(lots, order) == RoomIn(lots, order[..k] + order[k + 1..]) + Room(lots[order[k]])
  {
    var n := |order| - 1;
    if k == n {
      assert order[..k] + order[k + 1..] == order[..n];
    } else {
      RoomInRemove(lots, order[..n], k);
      var rest := order[..k] + order[k + 1..];
      assert rest[..|rest| - 1] == order[..n][..k] + order[..n][k + 1..];
    }
  }

  lemma RoomInSnoc(lots: seq<CreditLot>, order: seq<nat>, i: nat)
    requires Within(order, |lots|) && i < |lots|
    ensures Within(order + [i], |lots|) && RoomIn(lots, order + [i]) == RoomIn(lots, order) + Room(lots[i])
  {
  }

  lemma AvailableSnoc(lots: seq<CreditLot>, key: string, now: int, n: nat)
    requires 0 < n <= |lots|
    ensures AvailableCredits(lots[..n], key, now)
         == AvailableCredits(lots[..n - 1], key, now) + (if Counts(lots[n - 1], key, now) then Room(lots[n - 1]) else 0)
  {
    assert lots[..n][..n - 1] == lots[..n - 1];
  }

  lemma EligibleRoomSnoc(lots: seq<CreditLot>, key: string, now: int, n: nat)
    requires 0 < n <= |lots| && lots[n - 1].reserved <= lots[n - 1].remaining
    ensures RoomIn(lots, EligibleLots(lots, key, now, n))
         == RoomIn(lots, EligibleLots(lots, key, now, n - 1)) + (if Counts(lots[n - 1], key, now) then Room(lots[n - 1]) else 0)
  {
    var before := EligibleLots(lots, key, now, n - 1);
    if Eligible(lots[n - 1], key, now) {
      RoomInSnoc(lots, before, n - 1);
      assert EligibleLots(lots, key, now, n) == before + [n - 1];
    } else {
      assert EligibleLots(lots, key, now, n) == before;
    }
  }

  lemma {:induction false} EligibleRoomIsAvailable(lots: seq<CreditLot>, key: string, now: int, n: nat)
    requires n <= |lots| && forall i :: 0 <= i < |lots| ==> lots[i].reserved <= lots[i].remaining
    ensures RoomIn(lots, EligibleLots(lots, key, now, n)) == AvailableCredits(lots[..n], key, now)
  {
    if n == 0 {
      assert EligibleLots(lots, key, now, 0) == [];
    } else {
      EligibleRoomIsAvailable(lots, key, now, n - 1);
      AvailableSnoc(lots, key, now, n);
      EligibleRoomSnoc(lots, key, now, n);
    }
  }

  /** A fresh, positive reservation succeeds exactly when the balance covers it. */
  lemma ReservesExactlyWhenCovered(b: Books, scope: Scope, input: ReserveInput)
    requires Sound(b) && FullKey(scope, input.reservationId) !in b.reservations
    requires IsSafe(input.quantity) && input.quantity > 0
    ensures ReserveCredits(b, scope, input).1.Ok? <==> input.quantity <= Balance(b, scope, input.observedAt).availableCredits
    ensures ReserveCredits(b, scope, input).1.Err? ==> ReserveCredits(b, scope, input).0 == b
  {
    forall i | 0 <= i < |b.lots| ensures b.lots[i].reserved <= b.lots[i].remaining {
      assert LotOk(b.lots[i]);
    }
    var at := EligibleLots(b.lots, KeyFor(scope), input.observedAt, |b.lots|);
    RoomInIsSum(b.lots, Order(b, scope, input.observedAt), at);
    EligibleRoomIsAvailable(b.lots, KeyFor(scope), input.observedAt, |b.lots|);
    assert b.lots[..|b.lots|] == b.lots;
  }

  // --------------------------------------------------------------- the balance

  function RemainingCredits(lots: seq<CreditLot>, key: string, now: int): int {
    if lots == [] then 0
    else
      var lot := lots[|lots| - 1];
      RemainingCredits(lots[..|lots| - 1], key, now) + (if Counts(lot, key, now) then lot.remaining else 0)
  }

  lemma {:induction false} AvailableAndReserved(lots: seq<CreditLot>, key: string, now: int)
    ensures AvailableCredits(lots, key, now) + ReservedCredits(lots, key, now) == RemainingCredits(lots, key, now)
  {
    if lots != [] {
      AvailableAndReserved(lots[..|lots| - 1], key, now);
    }
  }

  predicate Spendable(lot: CreditLot, key: string, now: int) {
    Counts(lot, key, now) && lot.remaining > 0
  }

  lemma {:induction false} EarliestIsLeast(lots: seq<CreditLot>, key: string, now: int)
    ensures var e := EarliestExpiry(lots, key, now);
            && (e.Some? <==> exists i :: 0 <= i < |lots| && Spendable(lots[i], key, now))
            && (e.Some? ==>
                  && (exists i :: 0 <= i < |lots| && Spendable(lots[i], key, now) && lots[i].expiresAt == e.value)
                  && (forall i :: 0 <= i < |lots| && Spendable(lots[i], key, now) ==> e.value <= lots[i].expiresAt))
  {
    if lots != [] {
      var n := |lots| - 1;
      EarliestIsLeast(lots[..n], key, now);
      assert forall i :: 0 <= i < n ==> lots[..n][i] == lots[i];
      assert lots[n] == lots[|lots| - 1];
    }
  }

  /**
   A balance splits what is left of the unexpired lots into available and
   reserved, names the earliest expiry among those with something left, and shows
   each credit category as the lots have it while lots and log agree.
   */
  lemma BalanceIsWhatLotsSay(b: Books, scope: Scope, now: int)
    requires Sound(b) && Agrees(b)
    ensures var key, balance := KeyFor(scope), Balance(b, scope, now);
            && balance.availableCredits >= 0 && balance.reservedCredits >= 0
            && balance.availableCredits + balance.reservedCredits == RemainingCredits(b.lots, key, now)
            && (balance.earliestCreditExpiry.Some? <==> exists i :: 0 <= i < |b.lots| && Spendable(b.lots[i], key, now))
            && (balance.earliestCreditExpiry.Some? ==>
                  && (exists i :: 0 <= i < |b.lots| && Spendable(b.lots[i], key, now) && b.lots[i].expiresAt == balance.earliestCreditExpiry.value)
                  && (forall i :: 0 <= i < |b.lots| && Spendable(b.lots[i], key, now) ==> balance.earliestCreditExpiry.value <= b.lots[i].expiresAt))
            && (GRANTED in balance.usageByCategory ==> balance.usageByCategory[GRANTED] == Total(b.lots, key, OriginalColumn))
            && (COMMITTED in balance.usageByCategory ==> balance.usageByCategory[COMMITTED] == Total(b.lots, key, SpentColumn))
            && (EXPIRED in balance.usageByCategory ==> balance.usageByCategory[EXPIRED] == Total(b.lots, key, ExpiredColumn))
  {
    var key := KeyFor(scope);
    assert AgreesFor(b, key);
    AvailableAndReserved(b.lots, key, now);
    EarliestIsLeast(b.lots, key, now);
    forall i | 0 <= i < |b.lots| ensures 0 <= b.lots[i].reserved <= b.lots[i].remaining {
      assert LotOk(b.lots[i]);
    }
    NoNegativeCredits(b.lots, key, now);
  }

  lemma {:induction false} NoNegativeCredits(lots: seq<CreditLot>, key: string, now: int)
    requires forall i :: 0 <= i < |lots| ==> 0 <= lots[i].reserved <= lots[i].remaining
    ensures AvailableCredits(lots, key, now) >= 0 && ReservedCredits(lots, key, now) >= 0
  {
    if lots != [] {
      NoNegativeCredits(lots[..|lots| - 1], key, now);
    }
  }

  // --------------------------------------------------------------- order of drawing

  ghost predicate InOrderOfExpiry(lots: seq<CreditLot>, order: seq<nat>)
    requires Within(order, |lots|)
  {
    forall i, j :: 0 <= i < j < |order| ==> Precedes(lots, order[i], order[j])
  }

  lemma AppendInOrder(lots: seq<CreditLot>, order: seq<nat>, x: nat)
    requires Within(order, |lots|) && x < |lots| && InOrderOfExpiry(lots, order)
    requires forall k :: 0 <= k < |order| ==> Precedes(lots, order[k], x)
    ensures InOrderOfExpiry(lots, order + [x])
  {
  }

  lemma NoSoonerThanEarlier(lots: seq<CreditLot>, i: nat, last: nat, x: nat)
    requires i < |lots| && last < |lots| && x < |lots| && i < x
    requires (i == last || Precedes(lots, i, last)) && !Sooner(lots[x], lots[last])
    ensures Precedes(lots, i, x)
  {
  }

  // Inserting the latest position keeps ties in order of granting.
  lemma {:induction false} InsertKeepsOrder(lots: seq<CreditLot>, sorted: seq<nat>, x: nat)
    requires Within(sorted, |lots|) && x < |lots| && InOrderOfExpiry(lots, sorted)
    requires forall k :: 0 <= k < |sorted| ==> sorted[k] < x
    ensures InOrderOfExpiry(lots, Insert(lots, sorted, x))
  {
    if sorted != [] {
      var n := |sorted| - 1;
      if Sooner(lots[x], lots[sorted[n]]) {
        var r := Insert(lots, sorted[..n], x);
        InsertKeepsOrder(lots, sorted[..n], x);
        hide Sooner;
        forall k | 0 <= k < |r| ensures Precedes(lots, r[k], sorted[n]) {
          assert r[k] in multiset(r);
          assert r[k] in sorted[..n] || r[k] == x;
        }
        AppendInOrder(lots, r, sorted[n]);
      } else {
        hide Sooner;
        forall k | 0 <= k < |sorted| ensures Precedes(lots, sorted[k], x) {
          NoSoonerThanEarlier(lots, sorted[k], sorted[n], x);
        }
        AppendInOrder(lots, sorted, x);
      }
    }
  }

  lemma {:induction false} SortedByExpiry(lots: seq<CreditLot>, at: seq<nat>)
    requires Within(at, |lots|) && forall i, j :: 0 <= i < j < |at| ==> at[i] < at[j]
    ensures InOrderOfExpiry(lots, SortByExpiry(lots, at))
  {
    if at != [] {
      var n := |at| - 1;
      SortedByExpiry(lots, at[..n]);
      var sorted := SortByExpiry(lots, at[..n]);
      forall k | 0 <= k < |sorted| ensures sorted[k] < at[n] {
        assert sorted[k] in multiset(sorted);
        assert sorted[k] in at[..n];
      }
      InsertKeepsOrder(lots, sorted, at[n]);
    }
  }

  /** A new reservation draws its whole quantity from eligible lots, no more than each has room for. */
  lemma ReservationDrawsItsQuantity(b: Books, scope: Scope, input: ReserveInput, i: nat)
    requires Sound(b) && Reserves(b, scope, input) && i < |b.lots|
    ensures var t := ReserveCredits(b, scope, input).0;
            var r := ReserveCredits(b, scope, input).1;
            && r.Ok? && r.value.state == Reserved && SumAll(r.value.allocations) == input.quantity
            && t.lots[i] == More(b.lots[i], SumFor(r.value.allocations, b.lots[i].id))
            && b.lots[i].reserved <= t.lots[i].reserved <= t.lots[i].remaining
            && (t.lots[i] != b.lots[i] ==> Eligible(b.lots[i], KeyFor(scope), input.observedAt))
  {
    var order := Order(b, scope, input.observedAt);
    ReserveIsHoldThenLog(b, scope, input);
    OrderIsDistinct(b, scope, input.observedAt);
    DrawnInFull(b.lots, order, input.quantity);
    AllocationsAddUp(b.lots, order, input.quantity, |order|);
    AllocatedIsTaken(b.lots, order, input.quantity, |order|, i);
    HeldLot(b, scope, input, i);
    HoldIs(b.lots, order, input.quantity, |order|, i);
    TakenFits(b.lots, order, input.quantity, |order|, i);
    assert order[..|order|] == order;
  }

  /**
   It touches a lot only when every eligible lot that expires, or on a tie was
   granted, before that one is fully reserved.
   */
  lemma DrawsOnEarliestExpiryFirst(b: Books, scope: Scope, input: ReserveInput, i: nat, j: nat)
    requires Sound(b) && Reserves(b, scope, input) && i < |b.lots| && j < |b.lots|
    requires ReserveCredits(b, scope, input).0.lots[i] != b.lots[i]
    requires Eligible(b.lots[j], KeyFor(scope), input.observedAt) && i != j && Precedes(b.lots, j, i)
    ensures ReserveCredits(b, scope, input).0.lots[j].reserved == ReserveCredits(b, scope, input).0.lots[j].remaining
  {
    var order := Order(b, scope, input.observedAt);
    ReserveIsHoldThenLog(b, scope, input);
    OrderIsDistinct(b, scope, input.observedAt);
    ReservationDrawsItsQuantity(b, scope, input, i);
    HoldIs(b.lots, order, input.quantity, |order|, i);
    HoldIs(b.lots, order, input.quantity, |order|, j);
    EligibleLotsAre(b.lots, KeyFor(scope), input.observedAt, |b.lots|);
    EarlierIsFull(b.lots, order, input.quantity, i, j, EligibleLots(b.lots, KeyFor(scope), input.observedAt, |b.lots|));
  }

  lemma LaterDoesNotPrecede(lots: seq<CreditLot>, order: seq<nat>, m: nat, k: nat)
    requires Within(order, |lots|) && InOrderOfExpiry(lots, order) && m < |order| && k < |order|
    ensures m < k ==> !Precedes(lots, order[k], order[m])
  {
  }

  lemma EarlierIsFull(lots: seq<CreditLot>, order: seq<nat>, quantity: int, i: nat, j: nat, at: seq<nat>)
    requires Within(at, |lots|) && (forall x, y :: 0 <= x < y < |at| ==> at[x] < at[y]) && order == SortByExpiry(lots, at)
    requires Distinct(order) && RoomsOk(lots, order) && quantity >= 0
    requires i in order && j in order && i < |lots| && j < |lots| && i != j && Precedes(lots, j, i)
    requires Taken(lots, order, quantity, |order|, i) != 0
    ensures Taken(lots, order, quantity, |order|, j) == Room(lots[j])
  {
    hide SortByExpiry, Taken, Share, Drawn, Distinct, RoomsOk, Precedes, InOrderOfExpiry;
    SortedByExpiry(lots, at);
    var m: nat :| m < |order| && order[m] == i;
    var k: nat :| k < |order| && order[k] == j;
    LaterDoesNotPrecede(lots, order, m, k);
    TakenAt(lots, order, quantity, |order|, m);
    TakenAt(lots, order, quantity, |order|, k);
    FullBeforeNext(lots, order, quantity, k, m);
  }

  lemma {:induction false} TakenAt(lots: seq<CreditLot>, order: seq<nat>, quantity: int, n: nat, m: nat)
    requires Within(order, |lots|) && m < n <= |order| && Distinct(order) && quantity >= 0 && RoomsOk(lots, order)
    ensures Taken(lots, order, quantity, n, order[m]) == Share(lots, order, quantity, m)
  {
    if m == n - 1 {
      TakenFits(lots, order, quantity, n - 1, order[m]);
      assert order[m] !in order[..n - 1];
    } else {
      TakenAt(lots, order, quantity, n - 1, m);
    }
  }

  // If a later lot gives anything, an earlier one has given all it could.
  lemma {:induction false} FullBeforeNext(lots: seq<CreditLot>, order: seq<nat>, quantity: int, k: nat, m: nat)
    requires Within(order, |lots|) && k < m < |order| && quantity >= 0 && RoomsOk(lots, order)
    requires Share(lots, order, quantity, m) != 0
    ensures Share(lots, order, quantity, k) == Room(lots[order[k]])
  {
    DrawnIs(lots, order, quantity, m);
    DrawnIs(lots, order, quantity, k);
    DrawnIs(lots, order, quantity, k + 1);
    RoomInMonotone(lots, order, k + 1, m);
    assert order[..k + 1][..k] == order[..k];
  }

  lemma {:induction false} RoomInMonotone(lots: seq<CreditLot>, order: seq<nat>, k: nat, m: nat)
    requires Within(order, |lots|) && k <= m <= |order| && RoomsOk(lots, order)
    ensures RoomIn(lots, order[..k]) <= RoomIn(lots, order[..m])
  {
    if k < m {
      RoomInMonotone(lots, order, k, m - 1);
      assert order[..m][..m - 1] == order[..m - 1];
    }
  }

  /** Finalizing again, in either direction, changes nothing and reports the first outcome. */
  lemma FinalizingTwiceIsFinalizingOnce(b: Books, scope: Scope, id: string, first: Outcome, second: Outcome, at: int, later: int)
    requires FinalizeReservation(b, scope, id, first, at).1.Ok?
    ensures var once := FinalizeReservation(b, scope, id, first, at);
            FinalizeReservation(once.0, scope, id, second, later) == once
  {
  }
}
