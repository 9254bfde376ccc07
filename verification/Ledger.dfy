/**
 The usage and credit ledger of packages/billing/src/index.ts: an append-only
 event log, credit lots drawn on in order of expiry, and reservations that are
 committed or released once.

 Books is the ledger's whole state as a value and every operation a function on
 it; the ledger object's methods are each proved to compute that function.
 */
module Ledger {
  import opened Common
  import opened Text

  datatype Scope = Scope(instanceId: string, accountId: string)

  datatype UsageInput = UsageInput(
    idempotencyKey: string, category: string, quantity: int, unit: string, observedAt: int,
    source: string, referenceId: Option<string>, lotId: Option<string>, linkedEventId: Option<string>)

  datatype UsageEvent = UsageEvent(id: string, scope: Scope, input: UsageInput)

  datatype LotStatus = Available | Frozen | Revoked | Expired

  datatype CreditLot = CreditLot(
    id: string, scope: Scope, source: string,
    original: int, remaining: int, reserved: int, spent: int, expired: int, revoked: int,
    grantedAt: int, expiresAt: int, documentId: Option<string>, status: LotStatus)

  datatype Allocation = Allocation(lotId: string, quantity: int)

  datatype ReservationState = Reserved | Committed | Released

  datatype CreditReservation = CreditReservation(
    id: string, scope: Scope, quantity: int, state: ReservationState, allocations: seq<Allocation>, eventId: string)

  datatype GrantInput = GrantInput(
    quantity: int, source: string, grantedAt: int, expiresAt: int, idempotencyKey: string, documentId: Option<string>)

  datatype ReserveInput = ReserveInput(reservationId: string, quantity: int, observedAt: int, referenceId: Option<string>)

  datatype Outcome = Commit | Release

  datatype Error = InvalidQuantity | InvalidExpiry | InsufficientCredits | UnknownReservation

  datatype Books = Books(
    events: seq<UsageEvent>, lots: seq<CreditLot>,
    reservations: map<string, CreditReservation>, idempotency: map<string, UsageEvent>, generated: nat)

  const EMPTY := Books([], [], map[], map[], 0)

  // --------------------------------------------------------------- keys

  function KeyFor(scope: Scope): string {
    scope.instanceId + "|" + scope.accountId
  }

  function FullKey(scope: Scope, key: string): string {
    KeyFor(scope) + "|" + key
  }

  const RESERVE := "reserve:"
  const COMMIT := "commit:"
  const RELEASE := "release:"
  const EXPIRE := "expire:"

  const GRANTED := "credits.granted"
  const RESERVED := "credits.reserved"
  const COMMITTED := "credits.committed"
  const RELEASED := "credits.released"
  const EXPIRED := "credits.expired"

  function IdText(n: nat): string {
    "ledger-" + Decimal(n)
  }

  const MAX_SAFE := 9007199254740991

  predicate IsSafe(n: int) {
    -MAX_SAFE <= n <= MAX_SAFE
  }

  // --------------------------------------------------------------- usage

  function NewEvent(b: Books, scope: Scope, input: UsageInput): UsageEvent {
    UsageEvent(IdText(b.generated + 1), scope, input)
  }

  /** The event stored under the idempotency key, which an earlier call may have fixed. */
  function EventFor(b: Books, scope: Scope, input: UsageInput): UsageEvent {
    var key := FullKey(scope, input.idempotencyKey);
    if key in b.idempotency then b.idempotency[key] else NewEvent(b, scope, input)
  }

  function Append(b: Books, scope: Scope, input: UsageInput): Books {
    var key := FullKey(scope, input.idempotencyKey);
    if key in b.idempotency then b
    else
      var event := NewEvent(b, scope, input);
      b.(events := b.events + [event], idempotency := b.idempotency[key := event], generated := b.generated + 1)
  }

  function AppendUsage(b: Books, scope: Scope, input: UsageInput): (Books, Result<UsageEvent, Error>) {
    if !IsSafe(input.quantity) then (b, Err(InvalidQuantity))
    else (Append(b, scope, input), Ok(EventFor(b, scope, input)))
  }

  // --------------------------------------------------------------- grants

  function NewLot(b: Books, scope: Scope, input: GrantInput): CreditLot {
    CreditLot(IdText(b.generated + 1), scope, input.source, input.quantity, input.quantity, 0, 0, 0, 0,
              input.grantedAt, input.expiresAt, input.documentId, Available)
  }

  function GrantEvent(input: GrantInput, lotId: string): UsageInput {
    UsageInput(input.idempotencyKey, GRANTED, input.quantity, "credit", input.grantedAt, "billing", None, Some(lotId), None)
  }

  function AddLot(b: Books, lot: CreditLot): Books {
    b.(lots := b.lots + [lot], generated := b.generated + 1)
  }

  function FindLot(lots: seq<CreditLot>, id: string): (i: nat)
    ensures i <= |lots|
    ensures i < |lots| ==> lots[i].id == id
  {
    if lots == [] || lots[0].id == id then 0 else 1 + FindLot(lots[1..], id)
  }

  // An empty lot id is as good as none.
  predicate HasLotId(input: UsageInput) {
    input.lotId.Some? && input.lotId.value != ""
  }

  // Granted, and the lot returned: none when the key belongs to an event whose lot does not exist.
  function GrantCredits(b: Books, scope: Scope, input: GrantInput): (Books, Result<Option<CreditLot>, Error>) {
    var key := FullKey(scope, input.idempotencyKey);
    if !IsSafe(input.quantity) || input.quantity <= 0 then (b, Err(InvalidQuantity))
    else if input.expiresAt <= input.grantedAt then (b, Err(InvalidExpiry))
    else if key in b.idempotency && HasLotId(b.idempotency[key].input) then
      var i := FindLot(b.lots, b.idempotency[key].input.lotId.value);
      (b, Ok(if i < |b.lots| then Some(b.lots[i]) else None))
    else
      var lot := NewLot(b, scope, input);
      (Append(AddLot(b, lot), scope, GrantEvent(input, lot.id)), Ok(Some(lot)))
  }

  // --------------------------------------------------------------- reservations

  predicate Eligible(lot: CreditLot, key: string, now: int) {
    KeyFor(lot.scope) == key && lot.status == Available && lot.expiresAt > now && lot.remaining > lot.reserved
  }

  function Room(lot: CreditLot): int {
    lot.remaining - lot.reserved
  }

  /** The positions of the first n lots that a reservation may draw on. */
  function EligibleLots(lots: seq<CreditLot>, key: string, now: int, n: nat): (at: seq<nat>)
    requires n <= |lots|
    ensures Within(at, |lots|)
  {
    if n == 0 then []
    else EligibleLots(lots, key, now, n - 1) + (if Eligible(lots[n - 1], key, now) then [n - 1] else [])
  }

  predicate Sooner(a: CreditLot, b: CreditLot) {
    a.expiresAt < b.expiresAt || (a.expiresAt == b.expiresAt && a.grantedAt < b.grantedAt)
  }

  // Expiry, then grant time, then (sorting is stable) the order of granting.
  predicate Precedes(lots: seq<CreditLot>, i: nat, j: nat)
    requires i < |lots| && j < |lots|
  {
    Sooner(lots[i], lots[j]) || (!Sooner(lots[j], lots[i]) && i < j)
  }

  predicate Within(order: seq<nat>, n: nat) {
    forall k :: 0 <= k < |order| ==> order[k] < n
  }

  function Insert(lots: seq<CreditLot>, sorted: seq<nat>, x: nat): (r: seq<nat>)
    requires x < |lots| && Within(sorted, |lots|)
    ensures Within(r, |lots|)
    ensures multiset(r) == multiset(sorted) + multiset{x}
  {
    if sorted == [] then [x]
    else
      var last := sorted[|sorted| - 1];
      assert sorted == sorted[..|sorted| - 1] + [last];
      if Sooner(lots[x], lots[last]) then Insert(lots, sorted[..|sorted| - 1], x) + [last] else sorted + [x]
  }

  /** Array.sort by expiry and grant time. */
  function SortByExpiry(lots: seq<CreditLot>, at: seq<nat>): (r: seq<nat>)
    requires Within(at, |lots|)
    ensures Within(r, |lots|)
    ensures multiset(r) == multiset(at)
  {
    if at == [] then []
    else
      assert at == at[..|at| - 1] + [at[|at| - 1]];
      Insert(lots, SortByExpiry(lots, at[..|at| - 1]), at[|at| - 1])
  }

  function RoomIn(lots: seq<CreditLot>, order: seq<nat>): int
    requires Within(order, |lots|)
  {
    if order == [] then 0 else RoomIn(lots, order[..|order| - 1]) + Room(lots[order[|order| - 1]])
  }

  /** How much of the quantity each of the first n lots in the order gives. */
  function Drawn(lots: seq<CreditLot>, order: seq<nat>, quantity: int, n: nat): int
    requires n <= |order| && Within(order, |lots|)
  {
    if n == 0 then 0
    else
      var before := Drawn(lots, order, quantity, n - 1);
      before + Min(quantity - before, Room(lots[order[n - 1]]))
  }

  function Share(lots: seq<CreditLot>, order: seq<nat>, quantity: int, n: nat): int
    requires n < |order| && Within(order, |lots|)
  {
    Min(quantity - Drawn(lots, order, quantity, n), Room(lots[order[n]]))
  }

  function Allocations(lots: seq<CreditLot>, order: seq<nat>, quantity: int, n: nat): seq<Allocation>
    requires n <= |order| && Within(order, |lots|)
  {
    if n == 0 then []
    else
      AddShare(Allocations(lots, order, quantity, n - 1), lots[order[n - 1]].id, Share(lots, order, quantity, n - 1))
  }

  function AddShare(allocations: seq<Allocation>, lotId: string, share: int): seq<Allocation> {
    if share > 0 then allocations + [Allocation(lotId, share)] else allocations
  }

  function Hold(lots: seq<CreditLot>, order: seq<nat>, quantity: int, n: nat): (r: seq<CreditLot>)
    requires n <= |order| && Within(order, |lots|)
    ensures |r| == |lots|
  {
    if n == 0 then lots
    else
      var held := Hold(lots, order, quantity, n - 1);
      var i := order[n - 1];
      held[i := held[i].(reserved := held[i].reserved + Share(lots, order, quantity, n - 1))]
  }

  function ReserveEvent(input: ReserveInput): UsageInput {
    UsageInput(RESERVE + input.reservationId, RESERVED, input.quantity, "credit", input.observedAt, "processing",
               input.referenceId, None, None)
  }

  function Order(b: Books, scope: Scope, now: int): (order: seq<nat>)
    ensures Within(order, |b.lots|)
  {
    SortByExpiry(b.lots, EligibleLots(b.lots, KeyFor(scope), now, |b.lots|))
  }

  function ReserveCredits(b: Books, scope: Scope, input: ReserveInput): (Books, Result<CreditReservation, Error>) {
    var key := FullKey(scope, input.reservationId);
    if key in b.reservations then (b, Ok(b.reservations[key]))
    else if !IsSafe(input.quantity) || input.quantity <= 0 then (b, Err(InvalidQuantity))
    else
      var order := Order(b, scope, input.observedAt);
      if RoomIn(b.lots, order) < input.quantity then (b, Err(InsufficientCredits))
      else
        var event := EventFor(b, scope, ReserveEvent(input));
        var reservation := CreditReservation(input.reservationId, scope, input.quantity, Reserved,
                                             Allocations(b.lots, order, input.quantity, |order|), event.id);
        var held := b.(lots := Hold(b.lots, order, input.quantity, |order|));
        (Append(held, scope, ReserveEvent(input)).(reservations := b.reservations[key := reservation]), Ok(reservation))
  }

  // --------------------------------------------------------------- commit and release

  function Settle(lot: CreditLot, quantity: int, outcome: Outcome): CreditLot {
    if outcome == Commit
    then lot.(reserved := lot.reserved - quantity, remaining := lot.remaining - quantity, spent := lot.spent + quantity)
    else lot.(reserved := lot.reserved - quantity)
  }

  function SettleAll(lots: seq<CreditLot>, allocations: seq<Allocation>, outcome: Outcome, n: nat): (r: seq<CreditLot>)
    requires n <= |allocations|
    ensures |r| == |lots|
  {
    if n == 0 then lots
    else
      var settled := SettleAll(lots, allocations, outcome, n - 1);
      var i := FindLot(settled, allocations[n - 1].lotId);
      if i < |settled| then settled[i := Settle(settled[i], allocations[n - 1].quantity, outcome)] else settled
  }

  function SettleEvent(r: CreditReservation, reservationId: string, outcome: Outcome, observedAt: int): UsageInput {
    UsageInput((if outcome == Commit then COMMIT else RELEASE) + reservationId,
               if outcome == Commit then COMMITTED else RELEASED,
               r.quantity, "credit", observedAt, "processing", None, None, Some(r.eventId))
  }

  function FinalizeReservation(b: Books, scope: Scope, reservationId: string, outcome: Outcome, observedAt: int)
    : (Books, Result<CreditReservation, Error>)
  {
    var key := FullKey(scope, reservationId);
    if key !in b.reservations then (b, Err(UnknownReservation))
    else
      var r := b.reservations[key];
      if r.state != Reserved then (b, Ok(r))
      else
        var settled := r.(state := if outcome == Commit then Committed else Released);
        var after := b.(lots := SettleAll(b.lots, r.allocations, outcome, |r.allocations|),
                        reservations := b.reservations[key := settled]);
        (Append(after, scope, SettleEvent(r, reservationId, outcome, observedAt)), Ok(settled))
  }

  // --------------------------------------------------------------- expiry

  predicate Expirable(lot: CreditLot, key: string, now: int) {
    KeyFor(lot.scope) == key && lot.status == Available && lot.expiresAt <= now && lot.reserved == 0 && lot.remaining > 0
  }

  function ExpireEvent(lot: CreditLot, now: int): UsageInput {
    UsageInput(EXPIRE + lot.id, EXPIRED, lot.remaining, "credit", now, "expiry", None, Some(lot.id), None)
  }

  function ExpireLot(b: Books, scope: Scope, now: int, i: nat): (r: Books)
    requires i < |b.lots|
    ensures |r.lots| == |b.lots|
  {
    if !Expirable(b.lots[i], KeyFor(scope), now) then b
    else
      Append(b.(lots := b.lots[i := Gone(b.lots[i])]), scope, ExpireEvent(b.lots[i], now))
  }

  function Gone(lot: CreditLot): CreditLot {
    lot.(remaining := 0, expired := lot.expired + lot.remaining, status := Expired)
  }

  /** Expiring the lots from position i on, in turn. */
  function ExpireLots(b: Books, scope: Scope, now: int, i: nat): Books
    requires i <= |b.lots|
    decreases |b.lots| - i
  {
    if i == |b.lots| then b else ExpireLots(ExpireLot(b, scope, now, i), scope, now, i + 1)
  }

  function ExpiredQuantity(lots: seq<CreditLot>, key: string, now: int, n: nat): int
    requires n <= |lots|
  {
    if n == 0 then 0
    else ExpiredQuantity(lots, key, now, n - 1) + (if Expirable(lots[n - 1], key, now) then lots[n - 1].remaining else 0)
  }

  // --------------------------------------------------------------- balance

  predicate Counts(lot: CreditLot, key: string, now: int) {
    KeyFor(lot.scope) == key && lot.status == Available && lot.expiresAt > now
  }

  function AvailableCredits(lots: seq<CreditLot>, key: string, now: int): int {
    if lots == [] then 0
    else
      var lot := lots[|lots| - 1];
      AvailableCredits(lots[..|lots| - 1], key, now) + (if Counts(lot, key, now) then Room(lot) else 0)
  }

  function ReservedCredits(lots: seq<CreditLot>, key: string, now: int): int {
    if lots == [] then 0
    else
      var lot := lots[|lots| - 1];
      ReservedCredits(lots[..|lots| - 1], key, now) + (if Counts(lot, key, now) then lot.reserved else 0)
  }

  /** The sum of one category in one scope's log. */
  function Logged(events: seq<UsageEvent>, key: string, category: string): int {
    if events == [] then 0
    else
      var e := events[|events| - 1];
      Logged(events[..|events| - 1], key, category)
      + (if KeyFor(e.scope) == key && e.input.category == category then e.input.quantity else 0)
  }

  datatype UsageBalance = UsageBalance(
    usageByCategory: map<string, int>, availableCredits: int, reservedCredits: int, earliestCreditExpiry: Option<int>)

  function EarliestExpiry(lots: seq<CreditLot>, key: string, now: int): Option<int> {
    if lots == [] then None
    else
      var lot := lots[|lots| - 1];
      var before := EarliestExpiry(lots[..|lots| - 1], key, now);
      if Counts(lot, key, now) && lot.remaining > 0 && (before.None? || lot.expiresAt < before.value) then Some(lot.expiresAt)
      else before
  }

  function Balance(b: Books, scope: Scope, now: int): UsageBalance {
    var key := KeyFor(scope);
    var categories := set e | e in b.events && KeyFor(e.scope) == key :: e.input.category;
    UsageBalance(map c | c in categories :: Logged(b.events, key, c),
                 AvailableCredits(b.lots, key, now), ReservedCredits(b.lots, key, now), EarliestExpiry(b.lots, key, now))
  }
}
