/** The ledger object: fields updated in place by loops, each method proved to compute its function on Books. */
module CreditLedgerClass {
  import opened Common
  import opened Ledger
  import opened LedgerInvariant
  import opened LedgerSteps
  import opened LedgerEffects

  // Once the quantity is met, the lots further down the order give nothing.
  lemma {:induction false} RestGivesNothing(lots: seq<CreditLot>, order: seq<nat>, quantity: int, k: nat, n: nat)
    requires Within(order, |lots|) && k <= n <= |order| && quantity >= 0 && RoomsOk(lots, order)
    requires Drawn(lots, order, quantity, k) == quantity
    ensures Drawn(lots, order, quantity, n) == quantity
    ensures Hold(lots, order, quantity, n) == Hold(lots, order, quantity, k)
    ensures Allocations(lots, order, quantity, n) == Allocations(lots, order, quantity, k)
  {
    if k < n {
      RestGivesNothing(lots, order, quantity, k, n - 1);
      var held := Hold(lots, order, quantity, n - 1);
      var i := order[n - 1];
      assert Share(lots, order, quantity, n - 1) == 0;
      assert held[i].(reserved := held[i].reserved + 0) == held[i];
      assert held[i := held[i]] == held;
    }
  }

  // One turn of the greedy loop finds its lot as it was, with room for a natural share.
  lemma HoldTurn(lots: seq<CreditLot>, order: seq<nat>, quantity: int, k: nat)
    requires Within(order, |lots|) && k < |order| && quantity >= 0 && RoomsOk(lots, order) && Distinct(order)
    ensures Hold(lots, order, quantity, k)[order[k]] == lots[order[k]]
    ensures Share(lots, order, quantity, k) >= 0
  {
    var i := order[k];
    assert i !in order[..k];
    HoldIs(lots, order, quantity, k, i);
    TakenFits(lots, order, quantity, k, i);
    ShareIsNatural(lots, order, quantity, k);
    assert More(lots[i], 0) == lots[i];
  }

  lemma EventFrame(b: Books, t: Books, scope: Scope, input: UsageInput)
    requires b.idempotency == t.idempotency && b.generated == t.generated
    ensures EventFor(b, scope, input) == EventFor(t, scope, input)
  {
  }

  lemma ReserveIs(b: Books, scope: Scope, input: ReserveInput, order: seq<nat>)
    requires Reserves(b, scope, input) && order == Order(b, scope, input.observedAt)
    ensures ReserveCredits(b, scope, input)
         == (Append(b.(lots := Hold(b.lots, order, input.quantity, |order|)), scope, ReserveEvent(input))
               .(reservations := b.reservations[FullKey(scope, input.reservationId) := NewReservation(b, scope, input)]),
             Ok(NewReservation(b, scope, input)))
  {
  }

  // One turn of the expiry loop: its event is one the log takes, and the rest of the loop finishes the job.
  lemma ExpireTurn(b: Books, scope: Scope, now: int, i: nat)
    requires Sound(b) && i < |b.lots|
    ensures IsSafe(b.lots[i].remaining)
    ensures Sound(ExpireLot(b, scope, now, i))
    ensures ExpireLots(b, scope, now, i) == ExpireLots(ExpireLot(b, scope, now, i), scope, now, i + 1)
    ensures forall j :: i < j < |b.lots| ==> ExpireLot(b, scope, now, i).lots[j] == b.lots[j]
  {
    ExpireLotKeepsSound(b, scope, now, i);
    assert LotOk(b.lots[i]);
  }

  lemma AllTaken(b: Books, scope: Scope, now: int)
    ensures ExpireLots(b, scope, now, |b.lots|) == b
  {
  }

  class UsageCreditLedger {
    var events: seq<UsageEvent>
    var lots: seq<CreditLot>
    var reservations: map<string, CreditReservation>
    var idempotency: map<string, UsageEvent>
    var generatedId: nat

    ghost function Contents(): Books
      reads this
    {
      Books(events, lots, reservations, idempotency, generatedId)
    }

    ghost predicate Valid()
      reads this
    {
      Sound(Contents())
    }

    constructor ()
      ensures Valid() && Contents() == EMPTY
    {
      events, lots, reservations, idempotency, generatedId := [], [], map[], map[], 0;
    }

    method CreateId() returns (id: string)
      modifies this`generatedId
      ensures generatedId == old(generatedId) + 1 && id == IdText(generatedId)
    {
      generatedId := generatedId + 1;
      id := IdText(generatedId);
    }

    method AppendUsage(scope: Scope, input: UsageInput) returns (r: Result<UsageEvent, Error>)
      modifies this
      ensures (Contents(), r) == Ledger.AppendUsage(old(Contents()), scope, input)
    {
      if !IsSafe(input.quantity) {
        return Err(InvalidQuantity);
      }
      var key := FullKey(scope, input.idempotencyKey);
      if key in idempotency {
        return Ok(idempotency[key]);
      }
      var id := CreateId();
      var event := UsageEvent(id, scope, input);
      events := events + [event];
      idempotency := idempotency[key := event];
      r := Ok(event);
    }

    method GrantCredits(scope: Scope, input: GrantInput) returns (r: Result<Option<CreditLot>, Error>)
      requires Valid()
      modifies this
      ensures Valid()
      ensures (Contents(), r) == Ledger.GrantCredits(old(Contents()), scope, input)
    {
      GrantKeepsSound(Contents(), scope, input);
      if !IsSafe(input.quantity) || input.quantity <= 0 {
        return Err(InvalidQuantity);
      }
      if input.expiresAt <= input.grantedAt {
        return Err(InvalidExpiry);
      }
      var key := FullKey(scope, input.idempotencyKey);
      if key in idempotency && HasLotId(idempotency[key].input) {
        var i := FindLot(lots, idempotency[key].input.lotId.value);
        return Ok(if i < |lots| then Some(lots[i]) else None);
      }
      var id := CreateId();
      var lot := CreditLot(id, scope, input.source, input.quantity, input.quantity, 0, 0, 0, 0,
                           input.grantedAt, input.expiresAt, input.documentId, Available);
      lots := lots + [lot];
      assert Contents() == AddLot(old(Contents()), lot);
      var _ := AppendUsage(scope, GrantEvent(input, id));
      r := Ok(Some(lot));
    }

    method ReserveCredits(scope: Scope, input: ReserveInput) returns (r: Result<CreditReservation, Error>)
      requires Valid()
      modifies this
      ensures Valid()
      ensures (Contents(), r) == Ledger.ReserveCredits(old(Contents()), scope, input)
    {
      ReserveKeepsSound(Contents(), scope, input);
      var key := FullKey(scope, input.reservationId);
      if key in reservations {
        return Ok(reservations[key]);
      }
      if !IsSafe(input.quantity) || input.quantity <= 0 {
        return Err(InvalidQuantity);
      }
      var eligible := SortByExpiry(lots, EligibleLots(lots, KeyFor(scope), input.observedAt, |lots|));
      assert eligible == Order(Contents(), scope, input.observedAt);
      OrderIsDistinct(Contents(), scope, input.observedAt);
      if RoomIn(lots, eligible) < input.quantity {
        assert Ledger.ReserveCredits(Contents(), scope, input) == (Contents(), Err(InsufficientCredits));
        return Err(InsufficientCredits);
      }
      var allocations := HoldLots(eligible, input.quantity);
      assert Contents() == old(Contents()).(lots := Hold(old(lots), eligible, input.quantity, |eligible|));
      ghost var held := Contents();
      var event := AppendUsage(scope, ReserveEvent(input));
      assert Contents() == Append(held, scope, ReserveEvent(input));
      EventFrame(held, old(Contents()), scope, ReserveEvent(input));
      var reservation := CreditReservation(input.reservationId, scope, input.quantity, Reserved, allocations, event.value.id);
      reservations := reservations[key := reservation];
      ReserveIs(old(Contents()), scope, input, eligible);
      assert reservation == NewReservation(old(Contents()), scope, input);
      assert Contents() == Append(held, scope, ReserveEvent(input)).(reservations := reservations);
      r := Ok(reservation);
    }

    // The greedy loop over the sorted lots.
    method HoldLots(eligible: seq<nat>, quantity: int) returns (allocations: seq<Allocation>)
      requires Within(eligible, |lots|) && Distinct(eligible) && RoomsOk(lots, eligible) && quantity > 0
      modifies this`lots
      ensures lots == Hold(old(lots), eligible, quantity, |eligible|)
      ensures allocations == Allocations(old(lots), eligible, quantity, |eligible|)
    {
      ghost var before := lots;
      var needed := quantity;
      allocations := [];
      var k := 0;
      while k < |eligible| && needed != 0
        invariant k <= |eligible|
        invariant lots == Hold(before, eligible, quantity, k)
        invariant allocations == Allocations(before, eligible, quantity, k)
        invariant needed == quantity - Drawn(before, eligible, quantity, k)
      {
        HoldTurn(before, eligible, quantity, k);
        var i := eligible[k];
        var share := Min(needed, lots[i].remaining - lots[i].reserved);
        if share != 0 {
          allocations := allocations + [Allocation(lots[i].id, share)];
        }
        lots := lots[i := lots[i].(reserved := lots[i].reserved + share)];
        needed := needed - share;
        k := k + 1;
      }
      if k < |eligible| {
        RestGivesNothing(before, eligible, quantity, k, |eligible|);
      }
    }

    method FinalizeReservation(scope: Scope, reservationId: string, outcome: Outcome, observedAt: int)
      returns (r: Result<CreditReservation, Error>)
      requires Valid()
      modifies this
      ensures Valid()
      ensures (Contents(), r) == Ledger.FinalizeReservation(old(Contents()), scope, reservationId, outcome, observedAt)
    {
      var key := FullKey(scope, reservationId);
      if key !in reservations {
        return Err(UnknownReservation);
      }
      var reservation := reservations[key];
      if reservation.state != Reserved {
        return Ok(reservation);
      }
      FinalizeKeepsSound(Contents(), scope, reservationId, outcome, observedAt);
      SettleLots(reservation.allocations, outcome);
      var settled := reservation.(state := if outcome == Commit then Committed else Released);
      reservations := reservations[key := settled];
      assert Contents() == AfterSettle(old(Contents()), key, outcome);
      var _ := AppendUsage(scope, SettleEvent(reservation, reservationId, outcome, observedAt));
      r := Ok(settled);
    }

    method SettleLots(allocations: seq<Allocation>, outcome: Outcome)
      modifies this`lots
      ensures lots == SettleAll(old(lots), allocations, outcome, |allocations|)
    {
      ghost var before := lots;
      for n := 0 to |allocations|
        invariant lots == SettleAll(before, allocations, outcome, n)
      {
        var i := FindLot(lots, allocations[n].lotId);
        if i < |lots| {
          lots := lots[i := Settle(lots[i], allocations[n].quantity, outcome)];
        }
      }
    }

    method ExpireCredits(scope: Scope, now: int) returns (expired: int)
      requires Valid()
      modifies this
      ensures Valid()
      ensures Contents() == ExpireLots(old(Contents()), scope, now, 0)
      ensures ExpiresExactly(old(lots), lots, expired, scope, now)
    {
      hide ExpiresExactly, ExpireLots, Sound, KeyFor, Append, FullKey;
      ExpiryTakesExactlyWhatIsDue(Contents(), scope, now);
      expired := 0;
      ghost var before := lots;
      for i := 0 to |lots|
        invariant |lots| == |before| && Valid()
        invariant forall j :: i <= j < |lots| ==> lots[j] == before[j]
        invariant ExpireLots(Contents(), scope, now, i) == ExpireLots(old(Contents()), scope, now, 0)
        invariant expired == ExpiredQuantity(before, KeyFor(scope), now, i)
      {
        ghost var books := Contents();
        ExpireTurn(books, scope, now, i);
        if Expirable(lots[i], KeyFor(scope), now) {
          var lot := lots[i];
          lots := lots[i := Gone(lot)];
          expired := expired + lot.remaining;
          var _ := AppendUsage(scope, ExpireEvent(lot, now));
        }
        assert Contents() == ExpireLot(books, scope, now, i);
      }
      AllTaken(Contents(), scope, now);
    }

    function Balance(scope: Scope, now: int): UsageBalance
      reads this
    {
      Ledger.Balance(Books(events, lots, reservations, idempotency, generatedId), scope, now)
    }
  }
}
