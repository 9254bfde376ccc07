/** Every ledger operation keeps its books in order. */
module LedgerSteps {
  import opened Common
  import opened Text
  import opened Ledger
  import opened LedgerInvariant

  // --------------------------------------------------------------- calls

  datatype Call =
    | UsageCall(scope: Scope, usage: UsageInput)
    | GrantCall(scope: Scope, grant: GrantInput)
    | ReserveCall(scope: Scope, reserve: ReserveInput)
    | FinalizeCall(scope: Scope, reservationId: string, outcome: Outcome, observedAt: int)
    | ExpireCall(scope: Scope, now: int)

  function Apply(b: Books, call: Call): Books {
    match call
    case UsageCall(scope, usage) => AppendUsage(b, scope, usage).0
    case GrantCall(scope, grant) => GrantCredits(b, scope, grant).0
    case ReserveCall(scope, reserve) => ReserveCredits(b, scope, reserve).0
    case FinalizeCall(scope, id, outcome, at) => FinalizeReservation(b, scope, id, outcome, at).0
    case ExpireCall(scope, now) => ExpireLots(b, scope, now, 0)
  }

  function ApplyAll(b: Books, calls: seq<Call>): Books
    decreases |calls|
  {
    if calls == [] then b else ApplyAll(Apply(b, calls[0]), calls[1..])
  }

  predicate IsCreditCategory(category: string) {
    category == GRANTED || category == RESERVED || category == COMMITTED || category == RELEASED || category == EXPIRED
  }

  /** A grant key that a plain usage event already took. */
  predicate TakenByUsage(b: Books, scope: Scope, key: string) {
    FullKey(scope, key) in b.idempotency && !HasLotId(b.idempotency[FullKey(scope, key)].input)
  }

  /** What the ledger leaves to its callers. */
  ghost predicate WellBehaved(b: Books, call: Call) {
    && NoBar(call.scope)
    && (call.UsageCall? ==> Clean(call.usage.idempotencyKey) && !IsCreditCategory(call.usage.category))
    && (call.GrantCall? ==> Clean(call.grant.idempotencyKey) && !TakenByUsage(b, call.scope, call.grant.idempotencyKey))
  }

  ghost predicate AllWellBehaved(b: Books, calls: seq<Call>)
    decreases |calls|
  {
    calls != [] ==> WellBehaved(b, calls[0]) && AllWellBehaved(Apply(b, calls[0]), calls[1..])
  }

  // --------------------------------------------------------------- usage

  lemma AppendKeepsSound(b: Books, scope: Scope, input: UsageInput)
    requires Sound(b)
    ensures Sound(Append(b, scope, input))
  {
  }

  // --------------------------------------------------------------- grants

  lemma FreshId(b: Books)
    requires IdsOk(b)
    ensures forall i :: 0 <= i < |b.lots| ==> b.lots[i].id != IdText(b.generated + 1)
  {
    forall i | 0 <= i < |b.lots| ensures b.lots[i].id != IdText(b.generated + 1) {
      assert Issued(b.lots[i].id, b.generated);
      var n: nat :| n <= b.generated && b.lots[i].id == IdText(n);
      if IdText(n) == IdText(b.generated + 1) {
        SamePrefixCancels("ledger-", Decimal(n), Decimal(b.generated + 1));
        DecimalInjective(n, b.generated + 1);
      }
    }
  }

  lemma {:induction false} FindLotAppend(lots: seq<CreditLot>, lot: CreditLot, id: string)
    requires FindLot(lots, id) < |lots|
    ensures FindLot(lots + [lot], id) == FindLot(lots, id)
  {
    var i := FindLot(lots, id);
    var j := FindLot(lots + [lot], id);
    FindLotIsFirst(lots, id);
    FindLotIsFirst(lots + [lot], id);
    assert (lots + [lot])[i] == lots[i];
    assert j < |lots| ==> (lots + [lot])[j] == lots[j];
  }

  // A lot nobody has named holds nothing.
  lemma {:induction false} UnknownLotUnheld(b: Books, reservations: map<string, CreditReservation>, id: string)
    requires forall key :: key in reservations ==> ReservationOk(b, reservations[key])
    requires FindLot(b.lots, id) == |b.lots|
    ensures Held(reservations, id) == 0
    decreases |reservations|
  {
    if reservations != map[] {
      var key :| key in reservations;
      HeldSplit(reservations, key, id);
      UnknownLotUnheld(b, reservations - {key}, id);
      assert ReservationOk(b, reservations[key]);
      UnnamedSum(reservations[key].allocations, id);
    }
  }

  lemma {:induction false} UnnamedSum(allocations: seq<Allocation>, id: string)
    requires forall k :: 0 <= k < |allocations| ==> allocations[k].lotId != id
    ensures SumFor(allocations, id) == 0
  {
    if allocations != [] {
      UnnamedSum(allocations[..|allocations| - 1], id);
    }
  }

  lemma AddLotKeepsSound(b: Books, scope: Scope, input: GrantInput)
    requires Sound(b) && IsSafe(input.quantity) && input.quantity > 0
    ensures Sound(AddLot(b, NewLot(b, scope, input)))
  {
    var lot := NewLot(b, scope, input);
    var t := AddLot(b, lot);
    FreshId(b);
    forall i | 0 <= i < |t.lots| ensures Issued(t.lots[i].id, t.generated) {
      if i < |b.lots| {
        assert Issued(b.lots[i].id, b.generated);
      } else {
        assert t.lots[i].id == IdText(b.generated + 1);
      }
    }
    forall key | key in t.reservations ensures ReservationOk(t, t.reservations[key]) {
      var r := t.reservations[key];
      assert ReservationOk(b, r);
      forall k | 0 <= k < |r.allocations| ensures NamesLot(t.lots, r.allocations[k].lotId, KeyFor(r.scope)) {
        assert NamesLot(b.lots, r.allocations[k].lotId, KeyFor(r.scope));
        FindLotAppend(b.lots, lot, r.allocations[k].lotId);
      }
    }
    UnknownLotUnheld(b, b.reservations, lot.id);
  }

  lemma GrantKeepsSound(b: Books, scope: Scope, input: GrantInput)
    requires Sound(b)
    ensures Sound(GrantCredits(b, scope, input).0)
  {
    var lot := NewLot(b, scope, input);
    if GrantCredits(b, scope, input).0 != b {
      AddLotKeepsSound(b, scope, input);
      AppendKeepsSound(AddLot(b, lot), scope, GrantEvent(input, lot.id));
    }
  }

  // --------------------------------------------------------------- reservations

  lemma {:induction false} EligibleLotsAre(lots: seq<CreditLot>, key: string, now: int, n: nat)
    requires n <= |lots|
    ensures var at := EligibleLots(lots, key, now, n);
            && (forall i :: 0 <= i < |at| ==> at[i] < n && Eligible(lots[at[i]], key, now))
            && (forall i, j :: 0 <= i < j < |at| ==> at[i] < at[j])
            && (forall k :: 0 <= k < n && Eligible(lots[k], key, now) ==> k in at)
  {
    if n > 0 {
      EligibleLotsAre(lots, key, now, n - 1);
    }
  }

  lemma SameElements(order: seq<nat>, at: seq<nat>)
    requires multiset(order) == multiset(at)
    ensures forall x: nat :: x in order <==> x in at
  {
    forall x: nat ensures x in order <==> x in at {
      assert x in order <==> x in multiset(order);
      assert x in at <==> x in multiset(at);
    }
  }

  lemma SortedIsDistinct(order: seq<nat>, at: seq<nat>)
    requires multiset(order) == multiset(at) && forall i, j :: 0 <= i < j < |at| ==> at[i] < at[j]
    ensures Distinct(order)
  {
    SingleCopies(at);
    forall i, j | 0 <= i < j < |order| ensures order[i] != order[j] {
      if order[i] == order[j] {
        TwoCopies(order, i, j);
        assert false;
      }
    }
  }

  lemma OrderIsDistinct(b: Books, scope: Scope, now: int)
    ensures Distinct(Order(b, scope, now))
    ensures forall k :: 0 <= k < |Order(b, scope, now)| ==> Eligible(b.lots[Order(b, scope, now)[k]], KeyFor(scope), now)
    ensures forall i :: 0 <= i < |b.lots| && Eligible(b.lots[i], KeyFor(scope), now) ==> i in Order(b, scope, now)
  {
    var at := EligibleLots(b.lots, KeyFor(scope), now, |b.lots|);
    var order := Order(b, scope, now);
    EligibleLotsAre(b.lots, KeyFor(scope), now, |b.lots|);
    SortedIsDistinct(order, at);
    SameElements(order, at);
    forall k | 0 <= k < |order| ensures Eligible(b.lots[order[k]], KeyFor(scope), now) {
      assert order[k] in at;
    }
  }

  ghost predicate Distinct(order: seq<nat>) {
    forall i, j :: 0 <= i < j < |order| ==> order[i] != order[j]
  }

  lemma {:induction false} SingleCopies(at: seq<nat>)
    requires forall i, j :: 0 <= i < j < |at| ==> at[i] < at[j]
    ensures forall x :: multiset(at)[x] <= 1
  {
    if at != [] {
      SingleCopies(at[..|at| - 1]);
      assert at == at[..|at| - 1] + [at[|at| - 1]];
    }
  }

  lemma TwoCopies(order: seq<nat>, i: nat, j: nat)
    requires i < j < |order| && order[i] == order[j]
    ensures multiset(order)[order[i]] >= 2
  {
    assert order == order[..j] + order[j..];
    assert order[i] in order[..j];
    assert order[j] in order[j..];
  }

  ghost predicate RoomsOk(lots: seq<CreditLot>, order: seq<nat>)
    requires Within(order, |lots|)
  {
    forall k :: 0 <= k < |order| ==> Room(lots[order[k]]) > 0
  }

  /** The first n lots together give the quantity, or all they have if that is less. */
  lemma {:induction false} DrawnIs(lots: seq<CreditLot>, order: seq<nat>, quantity: int, n: nat)
    requires Within(order, |lots|) && n <= |order| && quantity >= 0 && RoomsOk(lots, order)
    ensures Drawn(lots, order, quantity, n) == Min(quantity, RoomIn(lots, order[..n]))
  {
    if n > 0 {
      DrawnIs(lots, order, quantity, n - 1);
      assert order[..n][..n - 1] == order[..n - 1];
    }
  }

  /** What the first n lots of an order give, seen from lot i. */
  ghost function Taken(lots: seq<CreditLot>, order: seq<nat>, quantity: int, n: nat, i: nat): int
    requires Within(order, |lots|) && n <= |order|
  {
    if n == 0 then 0
    else Taken(lots, order, quantity, n - 1, i) + (if order[n - 1] == i then Share(lots, order, quantity, n - 1) else 0)
  }

  function More(lot: CreditLot, quantity: int): CreditLot {
    lot.(reserved := lot.reserved + quantity)
  }

  lemma {:induction false} HoldIs(lots: seq<CreditLot>, order: seq<nat>, quantity: int, n: nat, i: nat)
    requires Within(order, |lots|) && n <= |order| && i < |lots|
    ensures Hold(lots, order, quantity, n)[i] == More(lots[i], Taken(lots, order, quantity, n, i))
  {
    if n > 0 {
      HoldIs(lots, order, quantity, n - 1, i);
    }
  }

  lemma {:induction false} TakenFits(lots: seq<CreditLot>, order: seq<nat>, quantity: int, n: nat, i: nat)
    requires Within(order, |lots|) && n <= |order| && i < |lots| && Distinct(order)
    requires quantity >= 0 && RoomsOk(lots, order)
    ensures i !in order[..n] ==> Taken(lots, order, quantity, n, i) == 0
    ensures i in order[..n] ==> 0 <= Taken(lots, order, quantity, n, i) <= Room(lots[i])
  {
    if n > 0 {
      TakenFits(lots, order, quantity, n - 1, i);
      DrawnIs(lots, order, quantity, n - 1);
      assert order[..n] == order[..n - 1] + [order[n - 1]];
      assert order[n - 1] !in order[..n - 1];
    }
  }

  lemma AddShareSums(a: seq<Allocation>, lotId: string, share: int, id: string)
    requires share >= 0
    ensures SumFor(AddShare(a, lotId, share), id) == SumFor(a, id) + (if lotId == id then share else 0)
    ensures SumAll(AddShare(a, lotId, share)) == SumAll(a) + share
  {
  }

  lemma ShareIsNatural(lots: seq<CreditLot>, order: seq<nat>, quantity: int, n: nat)
    requires Within(order, |lots|) && n < |order| && quantity >= 0 && RoomsOk(lots, order)
    ensures Share(lots, order, quantity, n) >= 0
  {
  }

  lemma {:induction false} AllocationsAddUp(lots: seq<CreditLot>, order: seq<nat>, quantity: int, n: nat)
    requires Within(order, |lots|) && n <= |order| && quantity >= 0 && RoomsOk(lots, order)
    ensures SumAll(Allocations(lots, order, quantity, n)) == Drawn(lots, order, quantity, n)
  {
    if n > 0 {
      AllocationsAddUp(lots, order, quantity, n - 1);
      ShareIsNatural(lots, order, quantity, n - 1);
      AddShareSums(Allocations(lots, order, quantity, n - 1), lots[order[n - 1]].id, Share(lots, order, quantity, n - 1), "");
    }
  }

  /** Every allocation is positive and names a lot of the order. */
  lemma {:induction false} AllocationNamesLot(lots: seq<CreditLot>, order: seq<nat>, quantity: int, n: nat, k: nat)
    returns (m: nat)
    requires Within(order, |lots|) && n <= |order| && k < |Allocations(lots, order, quantity, n)|
    ensures m < n && Allocations(lots, order, quantity, n)[k].lotId == lots[order[m]].id
    ensures Allocations(lots, order, quantity, n)[k].quantity > 0
  {
    if k < |Allocations(lots, order, quantity, n - 1)| {
      m := AllocationNamesLot(lots, order, quantity, n - 1, k);
    } else {
      m := n - 1;
    }
  }

  lemma {:induction false} AllocatedIsTaken(lots: seq<CreditLot>, order: seq<nat>, quantity: int, n: nat, i: nat)
    requires Within(order, |lots|) && n <= |order| && i < |lots| && DistinctIds(lots)
    requires quantity >= 0 && RoomsOk(lots, order)
    ensures SumFor(Allocations(lots, order, quantity, n), lots[i].id) == Taken(lots, order, quantity, n, i)
  {
    if n > 0 {
      AllocatedIsTaken(lots, order, quantity, n - 1, i);
      ShareIsNatural(lots, order, quantity, n - 1);
      var j := order[n - 1];
      AddShareSums(Allocations(lots, order, quantity, n - 1), lots[j].id, Share(lots, order, quantity, n - 1), lots[i].id);
      assert j != i ==> lots[j].id != lots[i].id;
    }
  }

  /** The quantity is met when the rooms suffice. */
  lemma DrawnInFull(lots: seq<CreditLot>, order: seq<nat>, quantity: int)
    requires Within(order, |lots|) && RoomsOk(lots, order) && 0 <= quantity <= RoomIn(lots, order)
    ensures Drawn(lots, order, quantity, |order|) == quantity
  {
    DrawnIs(lots, order, quantity, |order|);
    assert order[..|order|] == order;
  }

  ghost predicate Reserves(b: Books, scope: Scope, input: ReserveInput) {
    && FullKey(scope, input.reservationId) !in b.reservations
    && IsSafe(input.quantity) && input.quantity > 0
    && RoomIn(b.lots, Order(b, scope, input.observedAt)) >= input.quantity
  }

  lemma {:induction false} FindLotSameIds(lots: seq<CreditLot>, other: seq<CreditLot>, id: string)
    requires |lots| == |other| && forall i :: 0 <= i < |lots| ==> lots[i].id == other[i].id
    ensures FindLot(lots, id) == FindLot(other, id)
  {
    var i, j := FindLot(lots, id), FindLot(other, id);
    FindLotIsFirst(lots, id);
    FindLotIsFirst(other, id);
    assert i < |lots| ==> other[i].id == id;
    assert j < |other| ==> lots[j].id == id;
  }

  // Lots that keep their ids and scopes leave every earlier reservation well formed.
  lemma ReservationFrame(b: Books, t: Books, r: CreditReservation)
    requires ReservationOk(b, r) && |t.lots| == |b.lots|
    requires forall i :: 0 <= i < |b.lots| ==> t.lots[i].id == b.lots[i].id && t.lots[i].scope == b.lots[i].scope
    ensures ReservationOk(t, r)
  {
    forall k | 0 <= k < |r.allocations| ensures NamesLot(t.lots, r.allocations[k].lotId, KeyFor(r.scope)) {
      assert NamesLot(b.lots, r.allocations[k].lotId, KeyFor(r.scope));
      FindLotSameIds(t.lots, b.lots, r.allocations[k].lotId);
    }
  }

  /** The new reservation names lots of its own scope for its full quantity. */
  lemma NewReservationOk(b: Books, scope: Scope, input: ReserveInput, eventId: string)
    requires Sound(b) && Reserves(b, scope, input)
    ensures var order := Order(b, scope, input.observedAt);
            ReservationOk(b, CreditReservation(input.reservationId, scope, input.quantity, Reserved,
                                               Allocations(b.lots, order, input.quantity, |order|), eventId))
  {
    var order := Order(b, scope, input.observedAt);
    OrderIsDistinct(b, scope, input.observedAt);
    DrawnInFull(b.lots, order, input.quantity);
    AllocationsAddUp(b.lots, order, input.quantity, |order|);
    var a := Allocations(b.lots, order, input.quantity, |order|);
    forall k | 0 <= k < |a|
      ensures a[k].quantity > 0 && NamesLot(b.lots, a[k].lotId, KeyFor(scope))
    {
      var m := AllocationNamesLot(b.lots, order, input.quantity, |order|, k);
      FindLotIs(b.lots, order[m]);
    }
  }

  function NewReservation(b: Books, scope: Scope, input: ReserveInput): CreditReservation {
    var order := Order(b, scope, input.observedAt);
    CreditReservation(input.reservationId, scope, input.quantity, Reserved,
                      Allocations(b.lots, order, input.quantity, |order|), EventFor(b, scope, ReserveEvent(input)).id)
  }

  function AfterHold(b: Books, scope: Scope, input: ReserveInput): Books {
    var order := Order(b, scope, input.observedAt);
    b.(lots := Hold(b.lots, order, input.quantity, |order|),
       reservations := b.reservations[FullKey(scope, input.reservationId) := NewReservation(b, scope, input)])
  }

  lemma HeldLot(b: Books, scope: Scope, input: ReserveInput, i: nat)
    requires Sound(b) && Reserves(b, scope, input) && i < |b.lots|
    ensures var t := AfterHold(b, scope, input);
            && t.lots[i] == More(b.lots[i], t.lots[i].reserved - b.lots[i].reserved)
            && LotOk(t.lots[i])
            && t.lots[i].reserved == Held(t.reservations, b.lots[i].id)
  {
    var order := Order(b, scope, input.observedAt);
    OrderIsDistinct(b, scope, input.observedAt);
    assert LotOk(b.lots[i]);
    HoldIs(b.lots, order, input.quantity, |order|, i);
    TakenFits(b.lots, order, input.quantity, |order|, i);
    assert order[..|order|] == order;
    AllocatedIsTaken(b.lots, order, input.quantity, |order|, i);
    HeldUpdate(b.reservations, FullKey(scope, input.reservationId), NewReservation(b, scope, input), b.lots[i].id);
  }

  lemma IdsFrame(b: Books, t: Books)
    requires IdsOk(b) && |t.lots| == |b.lots| && t.generated >= b.generated
    requires forall i :: 0 <= i < |b.lots| ==> t.lots[i].id == b.lots[i].id
    ensures IdsOk(t)
  {
  }

  lemma HoldKeepsSound(b: Books, scope: Scope, input: ReserveInput)
    requires Sound(b) && Reserves(b, scope, input)
    ensures Sound(AfterHold(b, scope, input))
  {
    hide Allocations, Order, RoomIn, Held, SumAll, SumFor, IsSafe;
    var t := AfterHold(b, scope, input);
    forall i | 0 <= i < |t.lots|
      ensures t.lots[i] == More(b.lots[i], t.lots[i].reserved - b.lots[i].reserved)
      ensures LotOk(t.lots[i])
      ensures t.lots[i].reserved == Held(t.reservations, b.lots[i].id)
    {
      HeldLot(b, scope, input, i);
    }
    NewReservationOk(b, scope, input, EventFor(b, scope, ReserveEvent(input)).id);
    forall k | k in t.reservations ensures ReservationOk(t, t.reservations[k]) {
      ReservationFrame(b, t, t.reservations[k]);
    }
    IdsFrame(b, t);
  }

  // The order in which the event and the reservation are stored does not matter.
  lemma ReserveIsHoldThenLog(b: Books, scope: Scope, input: ReserveInput)
    requires Reserves(b, scope, input)
    ensures ReserveCredits(b, scope, input).0 == Append(AfterHold(b, scope, input), scope, ReserveEvent(input))
  {
  }

  lemma ReserveKeepsSound(b: Books, scope: Scope, input: ReserveInput)
    requires Sound(b)
    ensures Sound(ReserveCredits(b, scope, input).0)
  {
    if Reserves(b, scope, input) {
      HoldKeepsSound(b, scope, input);
      AppendKeepsSound(AfterHold(b, scope, input), scope, ReserveEvent(input));
      ReserveIsHoldThenLog(b, scope, input);
    }
  }

  // --------------------------------------------------------------- commit and release

  lemma {:induction false} SettleAllKeepsIds(lots: seq<CreditLot>, allocations: seq<Allocation>, outcome: Outcome, n: nat)
    requires n <= |allocations|
    ensures forall j :: 0 <= j < |lots| ==> SettleAll(lots, allocations, outcome, n)[j].id == lots[j].id
  {
    if n > 0 {
      SettleAllKeepsIds(lots, allocations, outcome, n - 1);
    }
  }

  lemma SettleTwice(lot: CreditLot, p: int, q: int, outcome: Outcome)
    ensures Settle(Settle(lot, p, outcome), q, outcome) == Settle(lot, p + q, outcome)
    ensures Settle(lot, 0, outcome) == lot
  {
  }

  /** Each lot gives back, or spends, exactly what the allocations name it for. */
  lemma {:induction false} SettleAllIs(lots: seq<CreditLot>, allocations: seq<Allocation>, outcome: Outcome, n: nat, i: nat)
    requires DistinctIds(lots) && n <= |allocations| && i < |lots|
    ensures SettleAll(lots, allocations, outcome, n)[i] == Settle(lots[i], SumFor(allocations[..n], lots[i].id), outcome)
  {
    if n == 0 {
      SettleTwice(lots[i], 0, 0, outcome);
    } else {
      SettleAllIs(lots, allocations, outcome, n - 1, i);
      SettleAllKeepsIds(lots, allocations, outcome, n - 1);
      var settled := SettleAll(lots, allocations, outcome, n - 1);
      var a := allocations[n - 1];
      assert allocations[..n][..n - 1] == allocations[..n - 1];
      FindLotSameIds(lots, settled, a.lotId);
      if a.lotId == lots[i].id {
        FindLotIs(lots, i);
        SettleTwice(lots[i], SumFor(allocations[..n - 1], lots[i].id), a.quantity, outcome);
        assert SettleAll(lots, allocations, outcome, n)[i] == Settle(settled[i], a.quantity, outcome);
      } else {
        assert SettleAll(lots, allocations, outcome, n)[i] == settled[i];
      }
    }
  }

  ghost predicate Settles(b: Books, scope: Scope, id: string) {
    FullKey(scope, id) in b.reservations && b.reservations[FullKey(scope, id)].state == Reserved
  }

  function Settled(r: CreditReservation, outcome: Outcome): CreditReservation {
    r.(state := if outcome == Commit then Committed else Released)
  }

  function AfterSettle(b: Books, key: string, outcome: Outcome): Books
    requires key in b.reservations
  {
    var r := b.reservations[key];
    b.(lots := SettleAll(b.lots, r.allocations, outcome, |r.allocations|),
       reservations := b.reservations[key := Settled(r, outcome)])
  }

  lemma SettledLot(b: Books, key: string, outcome: Outcome, i: nat)
    requires Sound(b) && key in b.reservations && b.reservations[key].state == Reserved && i < |b.lots|
    ensures var t := AfterSettle(b, key, outcome);
            && t.lots[i] == Settle(b.lots[i], SumFor(b.reservations[key].allocations, b.lots[i].id), outcome)
            && LotOk(t.lots[i])
            && t.lots[i].reserved == Held(t.reservations, b.lots[i].id)
  {
    var r := b.reservations[key];
    SettleAllIs(b.lots, r.allocations, outcome, |r.allocations|, i);
    assert r.allocations[..|r.allocations|] == r.allocations;
    HeldUpdate(b.reservations, key, Settled(r, outcome), b.lots[i].id);
    HeldBounds(b, b.reservations, b.lots[i].id);
    assert ReservationOk(b, r);
    SumForBounds(r.allocations, b.lots[i].id);
    assert LotOk(b.lots[i]);
  }

  lemma SettleKeepsSound(b: Books, key: string, outcome: Outcome)
    requires Sound(b) && key in b.reservations && b.reservations[key].state == Reserved
    ensures Sound(AfterSettle(b, key, outcome))
  {
    var t := AfterSettle(b, key, outcome);
    forall i | 0 <= i < |t.lots|
      ensures t.lots[i].id == b.lots[i].id && t.lots[i].scope == b.lots[i].scope
      ensures LotOk(t.lots[i])
      ensures t.lots[i].reserved == Held(t.reservations, b.lots[i].id)
    {
      SettledLot(b, key, outcome, i);
    }
    forall k | k in t.reservations ensures ReservationOk(t, t.reservations[k]) {
      assert ReservationOk(b, b.reservations[k]);
      ReservationFrame(b, t, b.reservations[k]);
    }
    IdsFrame(b, t);
  }

  lemma FinalizeKeepsSound(b: Books, scope: Scope, id: string, outcome: Outcome, at: int)
    requires Sound(b)
    ensures Sound(FinalizeReservation(b, scope, id, outcome, at).0)
  {
    if Settles(b, scope, id) {
      var key := FullKey(scope, id);
      SettleKeepsSound(b, key, outcome);
      AppendKeepsSound(AfterSettle(b, key, outcome), scope, SettleEvent(b.reservations[key], id, outcome, at));
    }
  }

  // --------------------------------------------------------------- expiry

  lemma GoneKeepsSound(b: Books, scope: Scope, now: int, i: nat)
    requires Sound(b) && i < |b.lots| && Expirable(b.lots[i], KeyFor(scope), now)
    ensures Sound(b.(lots := b.lots[i := Gone(b.lots[i])]))
  {
    var t := b.(lots := b.lots[i := Gone(b.lots[i])]);
    assert LotOk(b.lots[i]);
    forall k | k in t.reservations ensures ReservationOk(t, t.reservations[k]) {
      ReservationFrame(b, t, t.reservations[k]);
    }
    IdsFrame(b, t);
  }

  lemma ExpireLotKeepsSound(b: Books, scope: Scope, now: int, i: nat)
    requires Sound(b) && i < |b.lots|
    ensures Sound(ExpireLot(b, scope, now, i))
  {
    if Expirable(b.lots[i], KeyFor(scope), now) {
      GoneKeepsSound(b, scope, now, i);
      AppendKeepsSound(b.(lots := b.lots[i := Gone(b.lots[i])]), scope, ExpireEvent(b.lots[i], now));
    }
  }

  lemma {:induction false} ExpireLotsKeepsSound(b: Books, scope: Scope, now: int, i: nat)
    requires Sound(b) && i <= |b.lots|
    ensures Sound(ExpireLots(b, scope, now, i))
    decreases |b.lots| - i
  {
    if i < |b.lots| {
      ExpireLotKeepsSound(b, scope, now, i);
      ExpireLotsKeepsSound(ExpireLot(b, scope, now, i), scope, now, i + 1);
    }
  }

  lemma CallKeepsSound(b: Books, call: Call)
    requires Sound(b)
    ensures Sound(Apply(b, call))
  {
    match call
    case UsageCall(scope, usage) => AppendKeepsSound(b, scope, usage);
    case GrantCall(scope, grant) => GrantKeepsSound(b, scope, grant);
    case ReserveCall(scope, reserve) => ReserveKeepsSound(b, scope, reserve);
    case FinalizeCall(scope, id, outcome, at) => FinalizeKeepsSound(b, scope, id, outcome, at);
    case ExpireCall(scope, now) => ExpireLotsKeepsSound(b, scope, now, 0);
  }

  lemma {:induction false} CallsKeepSound(b: Books, calls: seq<Call>)
    requires Sound(b)
    ensures Sound(ApplyAll(b, calls))
    decreases |calls|
  {
    if calls != [] {
      CallKeepsSound(b, calls[0]);
      CallsKeepSound(Apply(b, calls[0]), calls[1..]);
    }
  }
}
