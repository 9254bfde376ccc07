/**
 What each ledger call does, on the records themselves: who is logged, granted,
 drawn on, settled and expired, at which times.
 */
module LedgerEffects {
  import opened Common
  import opened Ledger
  import opened LedgerInvariant
  import opened LedgerSteps
  import opened LedgerReservations

  // --------------------------------------------------------------- usage and grants

  /** Usage is logged once under its key: again, with anything else, the first event comes back. */
  lemma UsageIsLoggedOnce(b: Books, scope: Scope, input: UsageInput, again: UsageInput)
    requires -9007199254740991 <= input.quantity <= 9007199254740991 && -9007199254740991 <= again.quantity <= 9007199254740991
    requires FullKey(scope, input.idempotencyKey) !in b.idempotency && again.idempotencyKey == input.idempotencyKey
    ensures var t, r := AppendUsage(b, scope, input).0, AppendUsage(b, scope, input).1;
            && r.Ok? && r.value.scope == scope && r.value.input == input
            && t.events == b.events + [r.value] && t.lots == b.lots && t.reservations == b.reservations
            && AppendUsage(t, scope, again) == (t, r)
  {
  }

  lemma UnsafeUsageIsRefused(b: Books, scope: Scope, input: UsageInput)
    requires !(-9007199254740991 <= input.quantity <= 9007199254740991)
    ensures AppendUsage(b, scope, input) == (b, Err(InvalidQuantity))
  {
  }

  lemma CountingOneMore(lots: seq<CreditLot>, lot: CreditLot, key: string, now: int)
    ensures AvailableCredits([], key, now) == 0
    ensures AvailableCredits(lots + [lot], key, now)
         == AvailableCredits(lots, key, now)
            + (if KeyFor(lot.scope) == key && lot.status == Available && now < lot.expiresAt then lot.remaining - lot.reserved else 0)
    ensures ReservedCredits(lots + [lot], key, now)
         == ReservedCredits(lots, key, now)
            + (if KeyFor(lot.scope) == key && lot.status == Available && now < lot.expiresAt then lot.reserved else 0)
  {
    assert (lots + [lot])[..|lots|] == lots;
  }

  /** A grant is refused exactly for an unsafe or not positive quantity, or an expiry not after its time. */
  lemma GrantsAreRefusedExactly(b: Books, scope: Scope, input: GrantInput)
    ensures GrantCredits(b, scope, input).1.Err? <==>
              !(0 < input.quantity <= 9007199254740991) || input.expiresAt <= input.grantedAt
    ensures GrantCredits(b, scope, input).1.Err? ==> GrantCredits(b, scope, input).0 == b
  {
  }

  /**
   A new grant adds its quantity to the scope's balance until it expires and
   nothing to any other; granting again under its key gives the same lot.
   */
  lemma GrantsRaiseTheBalance(b: Books, scope: Scope, input: GrantInput, again: GrantInput, other: Scope, now: int)
    requires FullKey(scope, input.idempotencyKey) !in b.idempotency && FindLot(b.lots, IdText(b.generated + 1)) == |b.lots|
    requires GrantCredits(b, scope, input).1.Ok? && GrantCredits(b, scope, again).1.Ok? && again.idempotencyKey == input.idempotencyKey
    ensures var t, r := GrantCredits(b, scope, input).0, GrantCredits(b, scope, input).1;
            && r.value.Some? && t.lots == b.lots + [r.value.value]
            && r.value.value.scope == scope && r.value.value.original == r.value.value.remaining == input.quantity
            && r.value.value.expiresAt == input.expiresAt && r.value.value.grantedAt == input.grantedAt
            && Balance(t, scope, now).availableCredits
               == Balance(b, scope, now).availableCredits + (if now < input.expiresAt then input.quantity else 0)
            && (KeyFor(other) != KeyFor(scope) ==>
                  Balance(t, other, now).availableCredits == Balance(b, other, now).availableCredits)
            && GrantCredits(t, scope, again) == (t, r)
  {
    var lot := NewLot(b, scope, input);
    CountingOneMore(b.lots, lot, KeyFor(scope), now);
    CountingOneMore(b.lots, lot, KeyFor(other), now);
    FoundAtTheEnd(b.lots, lot);
  }

  lemma {:induction false} FoundAtTheEnd(lots: seq<CreditLot>, lot: CreditLot)
    requires FindLot(lots, lot.id) == |lots|
    ensures FindLot(lots + [lot], lot.id) == |lots|
  {
    if lots != [] {
      FoundAtTheEnd(lots[1..], lot);
      assert (lots + [lot])[1..] == lots[1..] + [lot];
    }
  }

  // --------------------------------------------------------------- reservations

  /** A lot may be drawn on: it is the scope's, in force at the time, and not all of it is reserved. */
  ghost predicate InForce(lot: CreditLot, scope: Scope, now: int) {
    && lot.scope.instanceId + "|" + lot.scope.accountId == scope.instanceId + "|" + scope.accountId
    && lot.status == Available && now < lot.expiresAt && lot.reserved < lot.remaining
  }

  /** It expires first, or was granted first, or was added first. */
  ghost predicate ComesFirst(lots: seq<CreditLot>, j: nat, i: nat)
    requires i < |lots| && j < |lots|
  {
    || lots[j].expiresAt < lots[i].expiresAt
    || (lots[j].expiresAt == lots[i].expiresAt && lots[j].grantedAt < lots[i].grantedAt)
    || (lots[j].expiresAt == lots[i].expiresAt && lots[j].grantedAt == lots[i].grantedAt && j < i)
  }

  /** A new reservation is refused exactly for an unsafe or not positive quantity, or more than the balance at that time. */
  lemma ReservationsAreRefusedExactly(b: Books, scope: Scope, input: ReserveInput)
    requires Sound(b) && FullKey(scope, input.reservationId) !in b.reservations
    ensures ReserveCredits(b, scope, input).1.Err? <==>
              !(0 < input.quantity <= 9007199254740991) || Balance(b, scope, input.observedAt).availableCredits < input.quantity
    ensures ReserveCredits(b, scope, input).1.Err? ==> ReserveCredits(b, scope, input).0 == b
  {
    if 0 < input.quantity <= 9007199254740991 {
      ReservesExactlyWhenCovered(b, scope, input);
    }
  }

  /**
   A reservation changes nothing but what is reserved on lots in force, by the
   amounts it names, and draws on one only when all that come first are full.
   */
  lemma ReservationsDrawInOrder(b: Books, scope: Scope, input: ReserveInput, i: nat, j: nat)
    requires Sound(b) && FullKey(scope, input.reservationId) !in b.reservations
    requires ReserveCredits(b, scope, input).1.Ok? && i < |b.lots| && j < |b.lots|
    ensures var t, r := ReserveCredits(b, scope, input).0, ReserveCredits(b, scope, input).1.value;
            && r.id == input.reservationId && r.scope == scope && r.quantity == input.quantity && r.state == Reserved
            && |t.lots| == |b.lots| && t.reservations == b.reservations[FullKey(scope, input.reservationId) := r]
            && t.lots[i] == b.lots[i].(reserved := b.lots[i].reserved + SumFor(r.allocations, b.lots[i].id))
            && (t.lots[i] != b.lots[i] ==> InForce(b.lots[i], scope, input.observedAt))
            && (t.lots[i] != b.lots[i] && i != j && InForce(b.lots[j], scope, input.observedAt) && ComesFirst(b.lots, j, i) ==>
                  t.lots[j].reserved == t.lots[j].remaining)
  {
    hide Order, Allocations, Hold, RoomIn, Sound, EventFor, Append;
    ReservationDrawsItsQuantity(b, scope, input, i);
    ReservationStored(b, scope, input);
    var t := ReserveCredits(b, scope, input).0;
    assert t.lots[i] == b.lots[i].(reserved := t.lots[i].reserved);
    if t.lots[i] != b.lots[i] && i != j && InForce(b.lots[j], scope, input.observedAt) && ComesFirst(b.lots, j, i) {
      DrawsOnEarliestExpiryFirst(b, scope, input, i, j);
    }
  }

  lemma ReservationStored(b: Books, scope: Scope, input: ReserveInput)
    requires FullKey(scope, input.reservationId) !in b.reservations && ReserveCredits(b, scope, input).1.Ok?
    ensures var t, r := ReserveCredits(b, scope, input).0, ReserveCredits(b, scope, input).1.value;
            && r.id == input.reservationId && r.scope == scope && r.quantity == input.quantity
            && t.reservations == b.reservations[FullKey(scope, input.reservationId) := r]
            && |t.lots| == |b.lots| && Reserves(b, scope, input)
  {
  }

  // --------------------------------------------------------------- commit and release

  /**
   Committing spends what the reservation holds of each lot, releasing gives it
   back to the balance; the reservation says which, and one never made is unknown.
   */
  lemma FinalizingSettlesLots(b: Books, scope: Scope, id: string, outcome: Outcome, at: int, i: nat)
    requires Sound(b) && i < |b.lots|
    ensures var key := FullKey(scope, id);
            var t, r := FinalizeReservation(b, scope, id, outcome, at).0, FinalizeReservation(b, scope, id, outcome, at).1;
            && (r.Err? <==> key !in b.reservations)
            && (r.Ok? && b.reservations[key].state == Reserved ==>
                  var held := SumFor(b.reservations[key].allocations, b.lots[i].id);
                  && r.value == b.reservations[key].(state := if outcome == Commit then Committed else Released)
                  && t.reservations == b.reservations[key := r.value]
                  && t.lots[i] == if outcome == Commit
                                  then b.lots[i].(remaining := b.lots[i].remaining - held, spent := b.lots[i].spent + held,
                                                  reserved := b.lots[i].reserved - held)
                                  else b.lots[i].(reserved := b.lots[i].reserved - held))
            && (r.Err? || b.reservations[key].state != Reserved ==> t == b)
  {
    var key := FullKey(scope, id);
    if key in b.reservations && b.reservations[key].state == Reserved {
      SettledLot(b, key, outcome, i);
    }
  }

  // --------------------------------------------------------------- expiry

  /** Due at the time: the scope's, still available, past its expiry, with something left and nothing reserved. */
  ghost predicate IsDue(lot: CreditLot, scope: Scope, now: int) {
    && lot.scope.instanceId + "|" + lot.scope.accountId == scope.instanceId + "|" + scope.accountId
    && lot.status == Available && lot.expiresAt <= now && lot.reserved == 0 && 0 < lot.remaining
  }

  function WithExpired(lot: CreditLot): CreditLot {
    lot.(remaining := 0, expired := lot.expired + lot.remaining, status := Expired)
  }

  lemma {:induction false} ExpiringChangesExactlyTheDue(b: Books, scope: Scope, now: int, n: nat, i: nat)
    requires n <= |b.lots| && i < |b.lots|
    ensures var t := ExpireLots(b, scope, now, n);
            && |t.lots| == |b.lots|
            && t.lots[i] == if n <= i && IsDue(b.lots[i], scope, now) then WithExpired(b.lots[i]) else b.lots[i]
    decreases |b.lots| - n
  {
    if n < |b.lots| {
      ExpiringChangesExactlyTheDue(ExpireLot(b, scope, now, n), scope, now, n + 1, i);
    }
  }

  function TotalRemaining(lots: seq<CreditLot>): int {
    if lots == [] then 0 else TotalRemaining(lots[..|lots| - 1]) + lots[|lots| - 1].remaining
  }

  lemma {:induction false} ExpiredIsTheFall(lots: seq<CreditLot>, after: seq<CreditLot>, scope: Scope, now: int, n: nat)
    requires n <= |lots| == |after|
    requires forall i :: 0 <= i < |lots| ==> after[i] == if IsDue(lots[i], scope, now) then WithExpired(lots[i]) else lots[i]
    ensures ExpiredQuantity(lots, KeyFor(scope), now, n) == TotalRemaining(lots[..n]) - TotalRemaining(after[..n])
  {
    if n > 0 {
      ExpiredIsTheFall(lots, after, scope, now, n - 1);
      assert lots[..n][..n - 1] == lots[..n - 1] && after[..n][..n - 1] == after[..n - 1];
    }
  }

  /** The lots that are due, and no others, are expired, and the total is what is lost of what remained. */
  ghost predicate ExpiresExactly(lots: seq<CreditLot>, after: seq<CreditLot>, expired: int, scope: Scope, now: int) {
    && |after| == |lots|
    && (forall i :: 0 <= i < |lots| ==> after[i] == if IsDue(lots[i], scope, now) then WithExpired(lots[i]) else lots[i])
    && expired == TotalRemaining(lots) - TotalRemaining(after)
  }

  lemma ExpiryTakesExactlyWhatIsDue(b: Books, scope: Scope, now: int)
    ensures ExpiresExactly(b.lots, ExpireLots(b, scope, now, 0).lots, ExpiredQuantity(b.lots, KeyFor(scope), now, |b.lots|), scope, now)
  {
    var t := ExpireLots(b, scope, now, 0);
    forall k | 0 <= k < |b.lots|
      ensures |t.lots| == |b.lots| && t.lots[k] == if IsDue(b.lots[k], scope, now) then WithExpired(b.lots[k]) else b.lots[k]
    {
      ExpiringChangesExactlyTheDue(b, scope, now, 0, k);
    }
    NothingExpires(b, scope, now);
    ExpiredIsTheFall(b.lots, t.lots, scope, now, |b.lots|);
    assert b.lots[..|b.lots|] == b.lots && t.lots[..|t.lots|] == t.lots;
  }

  lemma NothingExpires(b: Books, scope: Scope, now: int)
    ensures b.lots == [] ==> ExpireLots(b, scope, now, 0).lots == []
  {
  }

  // --------------------------------------------------------------- the log

  /** One event more, with these fields, unless the scope has one under its key. */
  ghost predicate Logs(b: Books, t: Books, scope: Scope, input: UsageInput) {
    var key := scope.instanceId + "|" + scope.accountId + "|" + input.idempotencyKey;
    if key in b.idempotency then t.events == b.events && t.idempotency == b.idempotency
    else
      exists id :: t.events == b.events + [UsageEvent(id, scope, input)] && t.idempotency == b.idempotency[key := UsageEvent(id, scope, input)]
  }

  lemma AppendingLogs(b: Books, scope: Scope, input: UsageInput)
    ensures Logs(b, Append(b, scope, input), scope, input)
  {
  }

  /** Every call that does something logs it once: what, how much, when, and which lot or reservation it was about. */
  lemma GrantsAreLogged(b: Books, scope: Scope, input: GrantInput)
    requires FullKey(scope, input.idempotencyKey) !in b.idempotency && GrantCredits(b, scope, input).1.Ok?
    ensures var t, r := GrantCredits(b, scope, input).0, GrantCredits(b, scope, input).1;
            && r.value.Some? && r.value.value.documentId == input.documentId && r.value.value.source == input.source
            && Logs(b, t, scope, UsageInput(input.idempotencyKey, "credits.granted", input.quantity, "credit", input.grantedAt, "billing",
                                            None, Some(r.value.value.id), None))
  {
    hide Logs;
    var lot := NewLot(b, scope, input);
    AppendingLogs(AddLot(b, lot), scope, GrantEvent(input, lot.id));
    LogsAlike(AddLot(b, lot), b, GrantCredits(b, scope, input).0, scope, GrantEvent(input, lot.id));
  }

  lemma LogsAlike(b: Books, c: Books, t: Books, scope: Scope, input: UsageInput)
    requires Logs(b, t, scope, input) && c.events == b.events && c.idempotency == b.idempotency
    ensures Logs(c, t, scope, input)
  {
  }

  lemma ReservationsAreLogged(b: Books, scope: Scope, input: ReserveInput)
    requires FullKey(scope, input.reservationId) !in b.reservations && ReserveCredits(b, scope, input).1.Ok?
    ensures var t, r := ReserveCredits(b, scope, input).0, ReserveCredits(b, scope, input).1.value;
            && Logs(b, t, scope, UsageInput("reserve:" + input.reservationId, "credits.reserved", input.quantity, "credit", input.observedAt,
                                            "processing", input.referenceId, None, None))
            && (FullKey(scope, "reserve:" + input.reservationId) !in b.idempotency ==> t.events[|t.events| - 1].id == r.eventId)
  {
    hide Logs, Order, Hold, Allocations, RoomIn;
    var order := Order(b, scope, input.observedAt);
    var held := b.(lots := Hold(b.lots, order, input.quantity, |order|));
    AppendingLogs(held, scope, ReserveEvent(input));
    LogsAlike(held, b, Append(held, scope, ReserveEvent(input)), scope, ReserveEvent(input));
    SameLog(b, Append(held, scope, ReserveEvent(input)), ReserveCredits(b, scope, input).0, scope, ReserveEvent(input));
  }

  lemma SameLog(b: Books, t: Books, u: Books, scope: Scope, input: UsageInput)
    requires Logs(b, t, scope, input) && u.events == t.events && u.idempotency == t.idempotency
    ensures Logs(b, u, scope, input)
  {
  }

  lemma SettlementsAreLogged(b: Books, scope: Scope, id: string, outcome: Outcome, at: int)
    requires FullKey(scope, id) in b.reservations && b.reservations[FullKey(scope, id)].state == Reserved
    ensures var t, r := FinalizeReservation(b, scope, id, outcome, at).0, b.reservations[FullKey(scope, id)];
            Logs(b, t, scope,
                 if outcome == Commit
                 then UsageInput("commit:" + id, "credits.committed", r.quantity, "credit", at, "processing", None, None, Some(r.eventId))
                 else UsageInput("release:" + id, "credits.released", r.quantity, "credit", at, "processing", None, None, Some(r.eventId)))
  {
    hide Logs, SettleAll;
    var key := FullKey(scope, id);
    var r := b.reservations[key];
    var after := b.(lots := SettleAll(b.lots, r.allocations, outcome, |r.allocations|),
                    reservations := b.reservations[key := r.(state := if outcome == Commit then Committed else Released)]);
    var event := SettleEvent(r, id, outcome, at);
    AppendingLogs(after, scope, event);
    LogsAlike(after, b, Append(after, scope, event), scope, event);
  }

  lemma ExpiriesAreLogged(b: Books, scope: Scope, now: int, i: nat)
    requires i < |b.lots| && IsDue(b.lots[i], scope, now)
    ensures var lot := b.lots[i];
            Logs(b, ExpireLot(b, scope, now, i), scope,
                 UsageInput("expire:" + lot.id, "credits.expired", lot.remaining, "credit", now, "expiry", None, Some(lot.id), None))
  {
    hide Logs;
    var gone := b.(lots := b.lots[i := Gone(b.lots[i])]);
    AppendingLogs(gone, scope, ExpireEvent(b.lots[i], now));
    LogsAlike(gone, b, ExpireLot(b, scope, now, i), scope, ExpireEvent(b.lots[i], now));
  }
}
