/** Conservation, and when lots and log agree, over whole runs. */
module LedgerTheorems {
  import opened Ledger
  import opened LedgerInvariant
  import opened LedgerSteps

  // --------------------------------------------------------------- the log

  // An event whose key is new is logged; one whose key is known is not.
  lemma AppendLogs(b: Books, scope: Scope, input: UsageInput, key: string, category: string)
    ensures Logged(Append(b, scope, input).events, key, category)
         == Logged(b.events, key, category)
            + (if FullKey(scope, input.idempotencyKey) !in b.idempotency && KeyFor(scope) == key && input.category == category
               then input.quantity else 0)
  {
  }

  /** One scope's column totals move by the given amounts; other scopes' stay. */
  ghost predicate Shifted(lots: seq<CreditLot>, other: seq<CreditLot>, key: string, own: string,
                          granted: int, spent: int, expired: int, reserved: int) {
    && Total(other, key, OriginalColumn) == Total(lots, key, OriginalColumn) + (if key == own then granted else 0)
    && Total(other, key, SpentColumn) == Total(lots, key, SpentColumn) + (if key == own then spent else 0)
    && Total(other, key, ExpiredColumn) == Total(lots, key, ExpiredColumn) + (if key == own then expired else 0)
    && Total(other, key, ReservedColumn) == Total(lots, key, ReservedColumn) + (if key == own then reserved else 0)
  }

  // What an event of a credit category says happened to the lots.
  ghost predicate Records(input: UsageInput, granted: int, spent: int, expired: int, reserved: int) {
    && granted == (if input.category == GRANTED then input.quantity else 0)
    && spent == (if input.category == COMMITTED then input.quantity else 0)
    && expired == (if input.category == EXPIRED then input.quantity else 0)
    && reserved == (if input.category == RESERVED then input.quantity
                    else if input.category == COMMITTED || input.category == RELEASED then -input.quantity else 0)
  }

  // A change to the lots of one scope, and the one event that should record it.
  lemma ChangeAgreesExactly(b: Books, t: Books, own: string, scope: Scope, input: UsageInput,
                            granted: int, spent: int, expired: int, reserved: int)
    requires Agrees(b) && t.events == b.events
    requires forall key :: Shifted(b.lots, t.lots, key, own, granted, spent, expired, reserved)
    requires Records(input, granted, spent, expired, reserved)
    requires granted != 0 || spent != 0 || expired != 0 || reserved != 0
    ensures Agrees(Append(t, scope, input)) <==> FullKey(scope, input.idempotencyKey) !in t.idempotency && KeyFor(scope) == own
  {
    var recorded := FullKey(scope, input.idempotencyKey) !in t.idempotency && KeyFor(scope) == own;
    forall key ensures (recorded ==> AgreesFor(Append(t, scope, input), key))
      && (key == own && !recorded ==> !AgreesFor(Append(t, scope, input), key))
    {
      assert AgreesFor(b, key);
      assert Shifted(b.lots, t.lots, key, own, granted, spent, expired, reserved);
      AppendLogs(t, scope, input, key, GRANTED);
      AppendLogs(t, scope, input, key, RESERVED);
      AppendLogs(t, scope, input, key, COMMITTED);
      AppendLogs(t, scope, input, key, RELEASED);
      AppendLogs(t, scope, input, key, EXPIRED);
    }
    assert Agrees(Append(t, scope, input)) ==> AgreesFor(Append(t, scope, input), own);
  }

  // --------------------------------------------------------------- the lots

  lemma {:induction false} HoldKeepsScopes(lots: seq<CreditLot>, order: seq<nat>, quantity: int, n: nat)
    requires Within(order, |lots|) && n <= |order|
    ensures forall i :: 0 <= i < |lots| ==> Hold(lots, order, quantity, n)[i].scope == lots[i].scope
  {
    if n > 0 {
      HoldKeepsScopes(lots, order, quantity, n - 1);
    }
  }

  lemma HoldOneTotals(lots: seq<CreditLot>, order: seq<nat>, quantity: int, n: nat, own: string, key: string)
    requires Within(order, |lots|) && 0 < n <= |order| && KeyFor(lots[order[n - 1]].scope) == own
    ensures Shifted(Hold(lots, order, quantity, n - 1), Hold(lots, order, quantity, n), key, own,
                    0, 0, 0, Share(lots, order, quantity, n - 1))
  {
    var held := Hold(lots, order, quantity, n - 1);
    var i := order[n - 1];
    HoldKeepsScopes(lots, order, quantity, n - 1);
    OneLotTotals(held, i, More(held[i], Share(lots, order, quantity, n - 1)), key, own, 0, 0, Share(lots, order, quantity, n - 1));
  }

  lemma {:induction false} HoldTotals(lots: seq<CreditLot>, order: seq<nat>, quantity: int, n: nat, own: string, key: string)
    requires Within(order, |lots|) && n <= |order|
    requires forall k :: 0 <= k < |order| ==> KeyFor(lots[order[k]].scope) == own
    ensures Shifted(lots, Hold(lots, order, quantity, n), key, own, 0, 0, 0, Drawn(lots, order, quantity, n))
  {
    if n > 0 {
      HoldTotals(lots, order, quantity, n - 1, own, key);
      HoldOneTotals(lots, order, quantity, n, own, key);
      assert Drawn(lots, order, quantity, n) == Drawn(lots, order, quantity, n - 1) + Share(lots, order, quantity, n - 1);
    }
  }

  lemma OneLotTotals(lots: seq<CreditLot>, i: nat, lot: CreditLot, key: string, own: string, spent: int, expired: int, reserved: int)
    requires i < |lots| && lot.scope == lots[i].scope && KeyFor(lot.scope) == own
    requires lot.original == lots[i].original && lot.spent == lots[i].spent + spent
    requires lot.expired == lots[i].expired + expired && lot.reserved == lots[i].reserved + reserved
    ensures Shifted(lots, lots[i := lot], key, own, 0, spent, expired, reserved)
  {
    TotalUpdate(lots, i, lot, key, OriginalColumn);
    TotalUpdate(lots, i, lot, key, SpentColumn);
    TotalUpdate(lots, i, lot, key, ExpiredColumn);
    TotalUpdate(lots, i, lot, key, ReservedColumn);
  }

  lemma {:induction false} SettleKeepsScopes(lots: seq<CreditLot>, allocations: seq<Allocation>, outcome: Outcome, n: nat)
    requires n <= |allocations|
    ensures forall i :: 0 <= i < |lots| ==> SettleAll(lots, allocations, outcome, n)[i].scope == lots[i].scope
  {
    if n > 0 {
      SettleKeepsScopes(lots, allocations, outcome, n - 1);
    }
  }

  function SpentOf(quantity: int, outcome: Outcome): int {
    if outcome == Commit then quantity else 0
  }

  lemma ShiftedTwice(a: seq<CreditLot>, b: seq<CreditLot>, c: seq<CreditLot>, key: string, own: string,
                     p: int, q: int, outcome: Outcome)
    requires Shifted(a, b, key, own, 0, SpentOf(p, outcome), 0, -p)
    requires Shifted(b, c, key, own, 0, SpentOf(q, outcome), 0, -q)
    ensures Shifted(a, c, key, own, 0, SpentOf(p + q, outcome), 0, -(p + q))
  {
  }

  lemma SumAllTo(allocations: seq<Allocation>, n: nat)
    requires 0 < n <= |allocations|
    ensures SumAll(allocations[..n]) == SumAll(allocations[..n - 1]) + allocations[n - 1].quantity
  {
    assert allocations[..n][..n - 1] == allocations[..n - 1];
  }

  lemma {:induction false} SettleTotals(lots: seq<CreditLot>, allocations: seq<Allocation>, outcome: Outcome, n: nat, own: string, key: string)
    requires n <= |allocations|
    requires forall k :: 0 <= k < |allocations| ==> NamesLot(lots, allocations[k].lotId, own)
    ensures Shifted(lots, SettleAll(lots, allocations, outcome, n), key, own,
                    0, SpentOf(SumAll(allocations[..n]), outcome), 0, -SumAll(allocations[..n]))
  {
    hide NamesLot;
    if n > 0 {
      hide Shifted, SettleAll, SpentOf, SumAll;
      SettleTotals(lots, allocations, outcome, n - 1, own, key);
      SettleOneTotals(lots, allocations, outcome, n, own, key);
      SumAllTo(allocations, n);
      ShiftedTwice(lots, SettleAll(lots, allocations, outcome, n - 1), SettleAll(lots, allocations, outcome, n), key, own,
                   SumAll(allocations[..n - 1]), allocations[n - 1].quantity, outcome);
    }
  }

  lemma SettleOneTotals(lots: seq<CreditLot>, allocations: seq<Allocation>, outcome: Outcome, n: nat, own: string, key: string)
    requires 0 < n <= |allocations| && NamesLot(lots, allocations[n - 1].lotId, own)
    ensures Shifted(SettleAll(lots, allocations, outcome, n - 1), SettleAll(lots, allocations, outcome, n), key, own,
                    0, SpentOf(allocations[n - 1].quantity, outcome), 0, -allocations[n - 1].quantity)
  {
    var before := SettleAll(lots, allocations, outcome, n - 1);
    var a := allocations[n - 1];
    SettleAllKeepsIds(lots, allocations, outcome, n - 1);
    SettleKeepsScopes(lots, allocations, outcome, n - 1);
    FindLotSameIds(lots, before, a.lotId);
    var i := FindLot(before, a.lotId);
    OneLotTotals(before, i, Settle(before[i], a.quantity, outcome), key, own, SpentOf(a.quantity, outcome), 0, -a.quantity);
  }

  // --------------------------------------------------------------- one call at a time

  /** A fresh usage event keeps the agreement if and only if it is of no credit category, or of quantity zero. */
  lemma UsageAgreesExactlyOutsideCreditCategories(b: Books, scope: Scope, input: UsageInput)
    requires Agrees(b) && FullKey(scope, input.idempotencyKey) !in b.idempotency
    ensures Agrees(Append(b, scope, input)) <==> !IsCreditCategory(input.category) || input.quantity == 0
  {
    var key := KeyFor(scope);
    var t := Append(b, scope, input);
    forall k ensures AgreesFor(b, k) && (AgreesFor(t, k) <==> k != key || !IsCreditCategory(input.category) || input.quantity == 0) {
      assert AgreesFor(b, k);
      AppendLogs(b, scope, input, k, GRANTED);
      AppendLogs(b, scope, input, k, RESERVED);
      AppendLogs(b, scope, input, k, COMMITTED);
      AppendLogs(b, scope, input, k, RELEASED);
      AppendLogs(b, scope, input, k, EXPIRED);
    }
    assert Agrees(t) ==> AgreesFor(t, key);
  }

  /** A grant that goes through keeps the agreement if and only if its key was not taken by plain usage. */
  lemma GrantAgreesExactlyWhenKeyIsFree(b: Books, scope: Scope, input: GrantInput)
    requires Agrees(b) && IsSafe(input.quantity) && input.quantity > 0 && input.grantedAt < input.expiresAt
    ensures Agrees(GrantCredits(b, scope, input).0) <==> !TakenByUsage(b, scope, input.idempotencyKey)
  {
    if GrantCredits(b, scope, input).0 != b {
      var lot := NewLot(b, scope, input);
      var t := AddLot(b, lot);
      forall key ensures Shifted(b.lots, t.lots, key, KeyFor(scope), input.quantity, 0, 0, 0) {
        TotalAppend(b.lots, lot, key, OriginalColumn);
        TotalAppend(b.lots, lot, key, SpentColumn);
        TotalAppend(b.lots, lot, key, ExpiredColumn);
        TotalAppend(b.lots, lot, key, ReservedColumn);
      }
      ChangeAgreesExactly(b, t, KeyFor(scope), scope, GrantEvent(input, lot.id), input.quantity, 0, 0, 0);
    }
  }

  /** A reservation that goes through keeps the agreement if and only if nobody used its `reserve:` key. */
  lemma ReserveAgreesExactlyWhenKeyIsFree(b: Books, scope: Scope, input: ReserveInput)
    requires Sound(b) && Agrees(b) && Reserves(b, scope, input)
    ensures Agrees(ReserveCredits(b, scope, input).0) <==> ReserveKey(scope, input.reservationId) !in b.idempotency
  {
    var order := Order(b, scope, input.observedAt);
    var t := AfterHold(b, scope, input);
    OrderIsDistinct(b, scope, input.observedAt);
    DrawnInFull(b.lots, order, input.quantity);
    forall key ensures Shifted(b.lots, t.lots, key, KeyFor(scope), 0, 0, 0, input.quantity) {
      HoldTotals(b.lots, order, input.quantity, |order|, KeyFor(scope), key);
    }
    ChangeAgreesExactly(b, t, KeyFor(scope), scope, ReserveEvent(input), 0, 0, 0, input.quantity);
    ReserveIsHoldThenLog(b, scope, input);
  }

  lemma SettleShifts(b: Books, key: string, outcome: Outcome, column: string)
    requires Sound(b) && key in b.reservations
    ensures var r := b.reservations[key];
            Shifted(b.lots, AfterSettle(b, key, outcome).lots, column, KeyFor(r.scope),
                    0, SpentOf(r.quantity, outcome), 0, -r.quantity)
  {
    hide SettleAll, Shifted, NamesLot, SumAll, SpentOf, IdsOk, LotOk, ReservedIsHeld;
    var r := b.reservations[key];
    assert ReservationOk(b, r);
    assert r.allocations[..|r.allocations|] == r.allocations;
    SettleTotals(b.lots, r.allocations, outcome, |r.allocations|, KeyFor(r.scope), column);
  }

  /**
   Committing or releasing an open reservation keeps the agreement if and only if
   nobody used its `commit:` or `release:` key and it is settled in the ledger it
   was made in, which a bar in an id can defeat.
   */
  lemma FinalizeAgreesExactly(b: Books, scope: Scope, id: string, outcome: Outcome, at: int)
    requires Sound(b) && Agrees(b) && Settles(b, scope, id)
    ensures Agrees(FinalizeReservation(b, scope, id, outcome, at).0) <==>
              && SettleKey(scope, id, outcome) !in b.idempotency
              && KeyFor(b.reservations[FullKey(scope, id)].scope) == KeyFor(scope)
  {
    var key := FullKey(scope, id);
    var r := b.reservations[key];
    var t := AfterSettle(b, key, outcome);
    var spent, back := SpentOf(r.quantity, outcome), -r.quantity;
    assert ReservationOk(b, r);
    forall column ensures Shifted(b.lots, t.lots, column, KeyFor(r.scope), 0, spent, 0, back) {
      SettleShifts(b, key, outcome, column);
    }
    ChangeAgreesExactly(b, t, KeyFor(r.scope), scope, SettleEvent(r, id, outcome, at), 0, spent, 0, back);
  }

  lemma ExpireLotAgreesExactlyWhenKeyIsFree(b: Books, scope: Scope, now: int, i: nat)
    requires Agrees(b) && i < |b.lots| && Expirable(b.lots[i], KeyFor(scope), now)
    ensures Agrees(ExpireLot(b, scope, now, i)) <==> ExpireKey(scope, b.lots[i].id) !in b.idempotency
  {
    var lot := b.lots[i];
    var t := b.(lots := b.lots[i := Gone(lot)]);
    forall key ensures Shifted(b.lots, t.lots, key, KeyFor(scope), 0, 0, lot.remaining, 0) {
      OneLotTotals(b.lots, i, Gone(lot), key, KeyFor(scope), 0, lot.remaining, 0);
    }
    ChangeAgreesExactly(b, t, KeyFor(scope), scope, ExpireEvent(lot, now), 0, 0, lot.remaining, 0);
  }

  // What has expired of a scope's lots and is not in its log.
  function Unlogged(b: Books, key: string): int {
    Total(b.lots, key, ExpiredColumn) - Logged(b.events, key, EXPIRED)
  }

  lemma {:induction false} ExpiryNeverLogsMore(b: Books, scope: Scope, now: int, i: nat, key: string)
    requires i <= |b.lots|
    ensures Unlogged(ExpireLots(b, scope, now, i), key) >= Unlogged(b, key)
    decreases |b.lots| - i
  {
    if i < |b.lots| {
      if Expirable(b.lots[i], KeyFor(scope), now) {
        OneLotTotals(b.lots, i, Gone(b.lots[i]), key, KeyFor(scope), 0, b.lots[i].remaining, 0);
        AppendLogs(b.(lots := b.lots[i := Gone(b.lots[i])]), scope, ExpireEvent(b.lots[i], now), key, EXPIRED);
      }
      ExpiryNeverLogsMore(ExpireLot(b, scope, now, i), scope, now, i + 1, key);
    }
  }

  lemma TakenExpiryIsUnlogged(b: Books, scope: Scope, now: int, i: nat)
    requires Agrees(b) && i < |b.lots| && Expirable(b.lots[i], KeyFor(scope), now) && ExpireKey(scope, b.lots[i].id) in b.idempotency
    ensures Unlogged(ExpireLot(b, scope, now, i), KeyFor(scope)) > 0
  {
    assert AgreesFor(b, KeyFor(scope));
    OneLotTotals(b.lots, i, Gone(b.lots[i]), KeyFor(scope), KeyFor(scope), 0, b.lots[i].remaining, 0);
  }

  /** Nobody used the `expire:` key of a lot from position i on that is due. */
  ghost predicate ExpiryIsFree(b: Books, scope: Scope, now: int, i: nat) {
    forall k :: i <= k < |b.lots| && Expirable(b.lots[k], KeyFor(scope), now) ==> ExpireKey(scope, b.lots[k].id) !in b.idempotency
  }

  // Expiring one lot takes no other lot's key.
  lemma OtherExpiriesStayFree(b: Books, scope: Scope, now: int, i: nat)
    requires DistinctIds(b.lots) && i < |b.lots|
    ensures ExpiryIsFree(ExpireLot(b, scope, now, i), scope, now, i + 1) <==> ExpiryIsFree(b, scope, now, i + 1)
  {
    var t := ExpireLot(b, scope, now, i);
    forall k | i < k < |b.lots|
      ensures t.lots[k] == b.lots[k] && (ExpireKey(scope, b.lots[k].id) in t.idempotency <==> ExpireKey(scope, b.lots[k].id) in b.idempotency)
    {
      if ExpireKey(scope, b.lots[k].id) == ExpireKey(scope, b.lots[i].id) {
        SamePrefixCancels(KeyFor(scope) + "|", EXPIRE + b.lots[k].id, EXPIRE + b.lots[i].id);
        SamePrefixCancels(EXPIRE, b.lots[k].id, b.lots[i].id);
      }
    }
  }

  /** Expiring what is due keeps the agreement if and only if nobody used the `expire:` key of a lot that is due. */
  lemma {:induction false} ExpiryAgreesExactlyWhenKeysAreFree(b: Books, scope: Scope, now: int, i: nat)
    requires Sound(b) && Agrees(b) && i <= |b.lots|
    ensures Agrees(ExpireLots(b, scope, now, i)) <==> ExpiryIsFree(b, scope, now, i)
    decreases |b.lots| - i
  {
    if i < |b.lots| {
      var t := ExpireLot(b, scope, now, i);
      if Expirable(b.lots[i], KeyFor(scope), now) && ExpireKey(scope, b.lots[i].id) in b.idempotency {
        TakenExpiryIsUnlogged(b, scope, now, i);
        ExpiryNeverLogsMore(t, scope, now, i + 1, KeyFor(scope));
        assert !AgreesFor(ExpireLots(t, scope, now, i + 1), KeyFor(scope));
      } else {
        if Expirable(b.lots[i], KeyFor(scope), now) {
          ExpireLotAgreesExactlyWhenKeyIsFree(b, scope, now, i);
        }
        ExpireLotKeepsSound(b, scope, now, i);
        OtherExpiriesStayFree(b, scope, now, i);
        ExpiryAgreesExactlyWhenKeysAreFree(t, scope, now, i + 1);
      }
    }
  }

  // --------------------------------------------------------------- every call, and whole runs

  /** What a caller can check before a call: nobody took the key it will log under, and it settles in the right ledger. */
  ghost predicate Loggable(b: Books, call: Call) {
    match call
    case UsageCall(scope, usage) =>
      IsSafe(usage.quantity) && FullKey(scope, usage.idempotencyKey) !in b.idempotency && IsCreditCategory(usage.category) ==> usage.quantity == 0
    case GrantCall(scope, grant) =>
      IsSafe(grant.quantity) && grant.quantity > 0 && grant.grantedAt < grant.expiresAt ==> !TakenByUsage(b, scope, grant.idempotencyKey)
    case ReserveCall(scope, reserve) =>
      Reserves(b, scope, reserve) ==> ReserveKey(scope, reserve.reservationId) !in b.idempotency
    case FinalizeCall(scope, id, outcome, _) =>
      Settles(b, scope, id) ==>
        SettleKey(scope, id, outcome) !in b.idempotency && KeyFor(b.reservations[FullKey(scope, id)].scope) == KeyFor(scope)
    case ExpireCall(scope, now) => ExpiryIsFree(b, scope, now, 0)
  }

  /** The agreement survives a call if and only if the call was loggable. */
  lemma CallAgreesExactlyWhenLoggable(b: Books, call: Call)
    requires Sound(b) && Agrees(b)
    ensures Agrees(Apply(b, call)) <==> Loggable(b, call)
  {
    hide Agrees, Sound;
    match call
    case UsageCall(scope, usage) =>
      if IsSafe(usage.quantity) && FullKey(scope, usage.idempotencyKey) !in b.idempotency {
        UsageAgreesExactlyOutsideCreditCategories(b, scope, usage);
      }
    case GrantCall(scope, grant) =>
      if IsSafe(grant.quantity) && grant.quantity > 0 && grant.grantedAt < grant.expiresAt {
        GrantAgreesExactlyWhenKeyIsFree(b, scope, grant);
      }
    case ReserveCall(scope, reserve) =>
      if Reserves(b, scope, reserve) { ReserveAgreesExactlyWhenKeyIsFree(b, scope, reserve); }
    case FinalizeCall(scope, id, outcome, at) =>
      if Settles(b, scope, id) { FinalizeAgreesExactly(b, scope, id, outcome, at); }
    case ExpireCall(scope, now) => ExpiryAgreesExactlyWhenKeysAreFree(b, scope, now, 0);
  }

  ghost predicate AgreesThroughout(b: Books, calls: seq<Call>)
    decreases |calls|
  {
    Agrees(b) && (calls != [] ==> AgreesThroughout(Apply(b, calls[0]), calls[1..]))
  }

  ghost predicate AllLoggable(b: Books, calls: seq<Call>)
    decreases |calls|
  {
    calls != [] ==> Loggable(b, calls[0]) && AllLoggable(Apply(b, calls[0]), calls[1..])
  }

  lemma {:induction false} RunAgreesExactly(b: Books, calls: seq<Call>)
    requires Sound(b) && Agrees(b)
    ensures AgreesThroughout(b, calls) <==> AllLoggable(b, calls)
    decreases |calls|
  {
    hide Agrees, Sound, Apply, Loggable;
    if calls != [] {
      CallAgreesExactlyWhenLoggable(b, calls[0]);
      CallKeepsSound(b, calls[0]);
      if Agrees(Apply(b, calls[0])) {
        RunAgreesExactly(Apply(b, calls[0]), calls[1..]);
      }
    }
  }

  lemma EmptyAgrees()
    ensures Sound(EMPTY) && Agrees(EMPTY)
  {
    forall key ensures AgreesFor(EMPTY, key) {
    }
  }

  /** Lots and log agree after every call of a run, in every scope, if and only if every call was loggable. */
  lemma RunsAgreeExactlyWhenLoggable(calls: seq<Call>)
    ensures AgreesThroughout(EMPTY, calls) <==> AllLoggable(EMPTY, calls)
  {
    EmptyAgrees();
    RunAgreesExactly(EMPTY, calls);
  }

  // --------------------------------------------------------------- the ledger's own keys

  // The idempotency keys of t are those of b and one more.
  ghost predicate OneMoreKey(b: Books, t: Books, scope: Scope, key: string) {
    forall k :: k in t.idempotency ==> k in b.idempotency || k == FullKey(scope, key)
  }

  lemma CleanKeyIsNobodys(scope: Scope, key: string)
    requires NoBar(scope) && Clean(key)
    ensures forall s, id :: NoBar(s) ==> ReserveKey(s, id) != FullKey(scope, key) && ExpireKey(s, id) != FullKey(scope, key)
    ensures forall s, id, o :: NoBar(s) ==> SettleKey(s, id, o) != FullKey(scope, key)
  {
    forall s, id | NoBar(s)
      ensures ReserveKey(s, id) != FullKey(scope, key) && ExpireKey(s, id) != FullKey(scope, key)
    {
      if ReserveKey(s, id) == FullKey(scope, key) {
        FullKeyInjective(s, RESERVE + id, scope, key);
      }
      if ExpireKey(s, id) == FullKey(scope, key) {
        FullKeyInjective(s, EXPIRE + id, scope, key);
      }
    }
    forall s, id, o | NoBar(s) ensures SettleKey(s, id, o) != FullKey(scope, key) {
      if SettleKey(s, id, o) == FullKey(scope, key) {
        FullKeyInjective(s, (if o == Commit then COMMIT else RELEASE) + id, scope, key);
      }
    }
  }

  lemma CallerKeyKeepsKeys(b: Books, t: Books, scope: Scope, key: string)
    requires KeysOk(b) && NoBar(scope) && Clean(key) && OneMoreKey(b, t, scope, key)
    requires t.reservations == b.reservations
    requires forall id :: FindLot(b.lots, id) < |b.lots| ==>
               FindLot(t.lots, id) < |t.lots| && t.lots[FindLot(t.lots, id)].status == b.lots[FindLot(b.lots, id)].status
    ensures KeysOk(t)
  {
    CleanKeyIsNobodys(scope, key);
  }

  lemma UsageKeepsKeys(b: Books, scope: Scope, input: UsageInput)
    requires KeysOk(b) && NoBar(scope) && Clean(input.idempotencyKey)
    ensures KeysOk(Append(b, scope, input))
  {
    CallerKeyKeepsKeys(b, Append(b, scope, input), scope, input.idempotencyKey);
  }

  lemma GrantKeepsKeys(b: Books, scope: Scope, input: GrantInput)
    requires KeysOk(b) && NoBar(scope) && Clean(input.idempotencyKey)
    ensures KeysOk(GrantCredits(b, scope, input).0)
  {
    var t := GrantCredits(b, scope, input).0;
    if t != b {
      var lot := NewLot(b, scope, input);
      assert t.lots == b.lots + [lot];
      forall id | FindLot(b.lots, id) < |b.lots|
        ensures FindLot(t.lots, id) < |t.lots| && t.lots[FindLot(t.lots, id)].status == b.lots[FindLot(b.lots, id)].status
      {
        FindLotAppend(b.lots, lot, id);
      }
      CallerKeyKeepsKeys(b, t, scope, input.idempotencyKey);
    }
  }

  lemma StatusFrame(lots: seq<CreditLot>, other: seq<CreditLot>, id: string)
    requires |lots| == |other|
    requires forall i :: 0 <= i < |lots| ==> other[i].id == lots[i].id && (lots[i].status == Expired ==> other[i].status == Expired)
    ensures FindLot(other, id) == FindLot(lots, id)
    ensures FindLot(lots, id) < |lots| && lots[FindLot(lots, id)].status == Expired ==> other[FindLot(lots, id)].status == Expired
  {
  }

  // A key of the ledger's own, naming scope and id, is no other key of its own.
  lemma OwnKeysDiffer(scope: Scope, id: string)
    requires NoBar(scope)
    ensures forall s, i, o :: NoBar(s) ==> SettleKey(s, i, o) != ReserveKey(scope, id) && SettleKey(s, i, o) != ExpireKey(scope, id)
    ensures forall s, i :: NoBar(s) ==> ReserveKey(s, i) != ExpireKey(scope, id) && ExpireKey(s, i) != ReserveKey(scope, id)
    ensures forall s, i, o :: NoBar(s) ==> ReserveKey(s, i) != SettleKey(scope, id, o) && ExpireKey(s, i) != SettleKey(scope, id, o)
  {
    forall s, i, o | NoBar(s)
      ensures SettleKey(s, i, o) != ReserveKey(scope, id) && SettleKey(s, i, o) != ExpireKey(scope, id)
      ensures ReserveKey(s, i) != SettleKey(scope, id, o) && ExpireKey(s, i) != SettleKey(scope, id, o)
    {
      var mine := (if o == Commit then COMMIT else RELEASE) + id;
      var theirs := (if o == Commit then COMMIT else RELEASE) + i;
      PrefixesDiffer(id, i);
      PrefixesDiffer(i, id);
      if SettleKey(s, i, o) == ReserveKey(scope, id) { FullKeyInjective(s, theirs, scope, RESERVE + id); }
      if SettleKey(s, i, o) == ExpireKey(scope, id) { FullKeyInjective(s, theirs, scope, EXPIRE + id); }
      if ReserveKey(s, i) == SettleKey(scope, id, o) { FullKeyInjective(s, RESERVE + i, scope, mine); }
      if ExpireKey(s, i) == SettleKey(scope, id, o) { FullKeyInjective(s, EXPIRE + i, scope, mine); }
    }
    forall s, i | NoBar(s) ensures ReserveKey(s, i) != ExpireKey(scope, id) && ExpireKey(s, i) != ReserveKey(scope, id) {
      PrefixesDiffer(id, i);
      PrefixesDiffer(i, id);
      if ReserveKey(s, i) == ExpireKey(scope, id) { FullKeyInjective(s, RESERVE + i, scope, EXPIRE + id); }
      if ExpireKey(s, i) == ReserveKey(scope, id) { FullKeyInjective(s, EXPIRE + i, scope, RESERVE + id); }
    }
  }

  lemma SameKindSameName(s: Scope, i: string, scope: Scope, id: string)
    requires NoBar(s) && NoBar(scope)
    ensures ReserveKey(s, i) == ReserveKey(scope, id) ==> s == scope && i == id
    ensures ExpireKey(s, i) == ExpireKey(scope, id) ==> s == scope && i == id
    ensures forall o, p :: SettleKey(s, i, o) == SettleKey(scope, id, p) ==> s == scope && i == id
  {
    if ReserveKey(s, i) == ReserveKey(scope, id) {
      FullKeyInjective(s, RESERVE + i, scope, RESERVE + id);
      SamePrefixCancels(RESERVE, i, id);
    }
    if ExpireKey(s, i) == ExpireKey(scope, id) {
      FullKeyInjective(s, EXPIRE + i, scope, EXPIRE + id);
      SamePrefixCancels(EXPIRE, i, id);
    }
    forall o, p | SettleKey(s, i, o) == SettleKey(scope, id, p) ensures s == scope && i == id {
      FullKeyInjective(s, (if o == Commit then COMMIT else RELEASE) + i, scope, (if p == Commit then COMMIT else RELEASE) + id);
      PrefixesDiffer(i, id);
      PrefixesDiffer(id, i);
      SamePrefixCancels(if o == Commit then COMMIT else RELEASE, i, id);
    }
  }

  lemma ReserveKeepsKeys(b: Books, scope: Scope, input: ReserveInput)
    requires Sound(b) && KeysOk(b) && NoBar(scope)
    ensures KeysOk(ReserveCredits(b, scope, input).0)
  {
    if Reserves(b, scope, input) {
      var id := input.reservationId;
      var t := Append(AfterHold(b, scope, input), scope, ReserveEvent(input));
      ReserveIsHoldThenLog(b, scope, input);
      OwnKeysDiffer(scope, id);
      forall s, i | NoBar(s) && ReserveKey(s, i) in t.idempotency ensures FullKey(s, i) in t.reservations {
        SameKindSameName(s, i, scope, id);
      }
      forall s, i | NoBar(s) && ExpireKey(s, i) in t.idempotency
        ensures FindLot(t.lots, i) < |t.lots| && t.lots[FindLot(t.lots, i)].status == Expired
      {
        assert ExpireKey(s, i) in b.idempotency;
        HeldLotsKeepStatus(b, scope, input);
        StatusFrame(b.lots, t.lots, i);
      }
    }
  }

  lemma HeldLotsKeepStatus(b: Books, scope: Scope, input: ReserveInput)
    requires Sound(b) && Reserves(b, scope, input)
    ensures forall i :: 0 <= i < |b.lots| ==>
              AfterHold(b, scope, input).lots[i].id == b.lots[i].id && AfterHold(b, scope, input).lots[i].status == b.lots[i].status
  {
    forall i | 0 <= i < |b.lots|
      ensures AfterHold(b, scope, input).lots[i].id == b.lots[i].id && AfterHold(b, scope, input).lots[i].status == b.lots[i].status
    {
      HeldLot(b, scope, input, i);
    }
  }

  lemma SettledLotsKeepStatus(b: Books, key: string, outcome: Outcome)
    requires Sound(b) && key in b.reservations && b.reservations[key].state == Reserved
    ensures forall i :: 0 <= i < |b.lots| ==>
              AfterSettle(b, key, outcome).lots[i].id == b.lots[i].id && AfterSettle(b, key, outcome).lots[i].status == b.lots[i].status
  {
    forall i | 0 <= i < |b.lots|
      ensures AfterSettle(b, key, outcome).lots[i].id == b.lots[i].id && AfterSettle(b, key, outcome).lots[i].status == b.lots[i].status
    {
      SettledLot(b, key, outcome, i);
    }
  }

  lemma SettleLeavesExpireKeys(b: Books, key: string, outcome: Outcome, t: Books, scope: Scope, id: string)
    requires ExpireKeysOk(b) && Sound(b) && key in b.reservations && b.reservations[key].state == Reserved && NoBar(scope)
    requires t.lots == AfterSettle(b, key, outcome).lots
    requires t.idempotency.Keys == b.idempotency.Keys + {SettleKey(scope, id, outcome)}
    ensures ExpireKeysOk(t)
  {
    OwnKeysDiffer(scope, id);
    SettledLotsKeepStatus(b, key, outcome);
    forall s, i | NoBar(s) && ExpireKey(s, i) in t.idempotency
      ensures FindLot(t.lots, i) < |t.lots| && t.lots[FindLot(t.lots, i)].status == Expired
    {
      assert ExpireKey(s, i) in t.idempotency.Keys;
      assert ExpireKey(s, i) in b.idempotency;
      StatusFrame(b.lots, t.lots, i);
    }
  }

  lemma SettlingKey(r: CreditReservation, scope: Scope, id: string, outcome: Outcome, at: int)
    ensures FullKey(scope, SettleEvent(r, id, outcome, at).idempotencyKey) == SettleKey(scope, id, outcome)
  {
  }

  // After settling, every settling key in use names a reservation that is no longer open.
  lemma SettlingKeepsSettleKeys(b: Books, scope: Scope, id: string, outcome: Outcome, at: int)
    requires KeysOk(b) && NoBar(scope) && Settles(b, scope, id)
    ensures SettleKeysOk(FinalizeReservation(b, scope, id, outcome, at).0)
  {
    hide SettleAll, SettleKey, FullKey, KeyFor, SettleEvent, NoBar, ReserveKeysOk, ExpireKeysOk, ReservationsNamed;
    var t := FinalizeReservation(b, scope, id, outcome, at).0;
    SettlingKey(b.reservations[FullKey(scope, id)], scope, id, outcome, at);
    forall s, i, o | NoBar(s) && SettleKey(s, i, o) in t.idempotency
      ensures FullKey(s, i) in t.reservations && t.reservations[FullKey(s, i)].state != Reserved
    {
      SameKindSameName(s, i, scope, id);
    }
  }

  lemma SettlingKeepsReserveKeys(b: Books, scope: Scope, id: string, outcome: Outcome, at: int)
    requires KeysOk(b) && NoBar(scope) && Settles(b, scope, id)
    ensures ReserveKeysOk(FinalizeReservation(b, scope, id, outcome, at).0)
    ensures ReservationsNamed(FinalizeReservation(b, scope, id, outcome, at).0)
  {
    hide SettleAll, SettleKey, FullKey, KeyFor, SettleEvent, NoBar, ReserveKey, SettleKeysOk, ExpireKeysOk;
    OwnKeysDiffer(scope, id);
    SettlingKey(b.reservations[FullKey(scope, id)], scope, id, outcome, at);
  }

  lemma FinalizeKeepsKeys(b: Books, scope: Scope, id: string, outcome: Outcome, at: int)
    requires Sound(b) && KeysOk(b) && NoBar(scope)
    ensures KeysOk(FinalizeReservation(b, scope, id, outcome, at).0)
  {
    if Settles(b, scope, id) {
      var key := FullKey(scope, id);
      var t := FinalizeReservation(b, scope, id, outcome, at).0;
      hide SettleAll, SettleKey, FullKey, KeyFor, SettleEvent, NoBar, ReserveKey, ExpireKey, ReserveKeysOk, ReservationsNamed, SettleKeysOk;
      SettlingKeepsReserveKeys(b, scope, id, outcome, at);
      SettlingKey(b.reservations[key], scope, id, outcome, at);
      SettlingKeepsSettleKeys(b, scope, id, outcome, at);
      SettleLeavesExpireKeys(b, key, outcome, t, scope, id);
    }
  }

  lemma ExpireLotKeepsKeys(b: Books, scope: Scope, now: int, n: nat)
    requires Sound(b) && KeysOk(b) && NoBar(scope) && n < |b.lots|
    ensures KeysOk(ExpireLot(b, scope, now, n))
  {
    if Expirable(b.lots[n], KeyFor(scope), now) {
      var id := b.lots[n].id;
      var t := ExpireLot(b, scope, now, n);
      OwnKeysDiffer(scope, id);
      forall s, i | NoBar(s) && ExpireKey(s, i) in t.idempotency
        ensures FindLot(t.lots, i) < |t.lots| && t.lots[FindLot(t.lots, i)].status == Expired
      {
        StatusFrame(b.lots, t.lots, i);
        SameKindSameName(s, i, scope, id);
        FindLotIs(b.lots, n);
      }
    }
  }

  // --------------------------------------------------------------- whole runs

  ghost predicate InOrder(b: Books) {
    Sound(b) && Agrees(b) && KeysOk(b)
  }

  // In order, a well-behaved call finds its key free.
  lemma WellBehavedIsLoggable(b: Books, call: Call)
    requires InOrder(b) && WellBehaved(b, call)
    ensures Loggable(b, call)
  {
    match call
    case FinalizeCall(scope, id, outcome, _) =>
      if Settles(b, scope, id) {
        var r := b.reservations[FullKey(scope, id)];
        FullKeyInjective(r.scope, r.id, scope, id);
      }
    case ExpireCall(scope, now) =>
      forall k | 0 <= k < |b.lots| && Expirable(b.lots[k], KeyFor(scope), now) ensures ExpireKey(scope, b.lots[k].id) !in b.idempotency {
        FindLotIs(b.lots, k);
      }
    case _ =>
  }

  lemma {:induction false} ExpireLotsKeepKeys(b: Books, scope: Scope, now: int, i: nat)
    requires Sound(b) && KeysOk(b) && NoBar(scope) && i <= |b.lots|
    ensures KeysOk(ExpireLots(b, scope, now, i))
    decreases |b.lots| - i
  {
    hide KeysOk;
    if i < |b.lots| {
      ExpireLotKeepsSound(b, scope, now, i);
      ExpireLotKeepsKeys(b, scope, now, i);
      ExpireLotsKeepKeys(ExpireLot(b, scope, now, i), scope, now, i + 1);
    }
  }

  lemma CallKeepsKeys(b: Books, call: Call)
    requires Sound(b) && KeysOk(b) && WellBehaved(b, call)
    ensures KeysOk(Apply(b, call))
  {
    match call
    case UsageCall(scope, usage) => UsageKeepsKeys(b, scope, usage);
    case GrantCall(scope, grant) => GrantKeepsKeys(b, scope, grant);
    case ReserveCall(scope, reserve) => ReserveKeepsKeys(b, scope, reserve);
    case FinalizeCall(scope, id, outcome, at) => FinalizeKeepsKeys(b, scope, id, outcome, at);
    case ExpireCall(scope, now) => ExpireLotsKeepKeys(b, scope, now, 0);
  }

  lemma CallInOrder(b: Books, call: Call)
    requires InOrder(b) && WellBehaved(b, call)
    ensures InOrder(Apply(b, call))
  {
    WellBehavedIsLoggable(b, call);
    CallAgreesExactlyWhenLoggable(b, call);
    CallKeepsSound(b, call);
    CallKeepsKeys(b, call);
  }

  /**
   Conservation.  After any calls whatever, every lot's original quantity is what
   remains, was spent, expired or was revoked, and what is reserved on it, never
   more than remains, is exactly what open reservations hold of it.
   */
  lemma LotsAlwaysAddUp(calls: seq<Call>, i: nat)
    requires i < |ApplyAll(EMPTY, calls).lots|
    ensures var b := ApplyAll(EMPTY, calls);
            var lot := b.lots[i];
            && lot.original == lot.remaining + lot.spent + lot.expired + lot.revoked
            && 0 <= lot.reserved <= lot.remaining
            && lot.reserved == Held(b.reservations, lot.id)
  {
    CallsKeepSound(EMPTY, calls);
    assert LotOk(ApplyAll(EMPTY, calls).lots[i]);
  }

  lemma {:induction false} RunInOrder(b: Books, calls: seq<Call>)
    requires InOrder(b) && AllWellBehaved(b, calls)
    ensures InOrder(ApplyAll(b, calls))
    decreases |calls|
  {
    if calls != [] {
      CallInOrder(b, calls[0]);
      RunInOrder(Apply(b, calls[0]), calls[1..]);
    }
  }

  /** In every scope, lots and event log tell the same story after any well-behaved calls. */
  lemma LotsAgreeWithLog(calls: seq<Call>, scope: Scope)
    requires AllWellBehaved(EMPTY, calls)
    ensures AgreesFor(ApplyAll(EMPTY, calls), KeyFor(scope))
  {
    EmptyAgrees();
    RunInOrder(EMPTY, calls);
  }
}
