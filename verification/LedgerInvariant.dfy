/**
 What the ledger keeps.  Sound holds after any calls whatever: every lot's
 quantities add up, and what is reserved on it is what open reservations hold.
 Agrees, which ties the lots to the event log, needs callers to stay out of the
 ledger's own keys and categories; WellBehaved says exactly how.
 */
module LedgerInvariant {
  import opened Ledger

  // --------------------------------------------------------------- soundness

  ghost predicate LotOk(lot: CreditLot) {
    && lot.original == lot.remaining + lot.spent + lot.expired + lot.revoked && IsSafe(lot.original)
    && 0 <= lot.reserved <= lot.remaining
    && 0 <= lot.spent && 0 <= lot.expired && lot.revoked == 0
    && (lot.status == Available || (lot.status == Expired && lot.remaining == 0))
  }

  // One of the ids handed out so far.
  ghost predicate Issued(id: string, generated: nat) {
    exists n: nat :: n <= generated && id == IdText(n)
  }

  ghost predicate IdsOk(b: Books) {
    && (forall i :: 0 <= i < |b.lots| ==> Issued(b.lots[i].id, b.generated))
    && DistinctIds(b.lots)
  }

  ghost predicate DistinctIds(lots: seq<CreditLot>) {
    forall i, j :: 0 <= i < j < |lots| ==> lots[i].id != lots[j].id
  }

  function SumFor(allocations: seq<Allocation>, lotId: string): int {
    if allocations == [] then 0
    else
      var a := allocations[|allocations| - 1];
      SumFor(allocations[..|allocations| - 1], lotId) + (if a.lotId == lotId then a.quantity else 0)
  }

  function SumAll(allocations: seq<Allocation>): int {
    if allocations == [] then 0 else SumAll(allocations[..|allocations| - 1]) + allocations[|allocations| - 1].quantity
  }

  function HeldBy(r: CreditReservation, lotId: string): int {
    if r.state == Reserved then SumFor(r.allocations, lotId) else 0
  }

  /** What the open reservations hold of one lot. */
  ghost function Held(reservations: map<string, CreditReservation>, lotId: string): int
    decreases |reservations|
  {
    if reservations == map[] then 0
    else
      var key :| key in reservations;
      HeldBy(reservations[key], lotId) + Held(reservations - {key}, lotId)
  }

  ghost predicate NamesLot(lots: seq<CreditLot>, id: string, key: string) {
    FindLot(lots, id) < |lots| && KeyFor(lots[FindLot(lots, id)].scope) == key
  }

  ghost predicate ReservationOk(b: Books, r: CreditReservation) {
    && SumAll(r.allocations) == r.quantity && 0 < r.quantity && IsSafe(r.quantity)
    && forall k :: 0 <= k < |r.allocations| ==>
         r.allocations[k].quantity > 0 && NamesLot(b.lots, r.allocations[k].lotId, KeyFor(r.scope))
  }

  ghost predicate ReservedIsHeld(b: Books) {
    forall i :: 0 <= i < |b.lots| ==> b.lots[i].reserved == Held(b.reservations, b.lots[i].id)
  }

  ghost predicate Sound(b: Books) {
    && IdsOk(b)
    && (forall i :: 0 <= i < |b.lots| ==> LotOk(b.lots[i]))
    && (forall key :: key in b.reservations ==> ReservationOk(b, b.reservations[key]))
    && ReservedIsHeld(b)
  }

  // --------------------------------------------------------------- agreement with the log

  datatype Column = OriginalColumn | SpentColumn | ExpiredColumn | ReservedColumn

  function Amount(lot: CreditLot, c: Column): int {
    match c
    case OriginalColumn => lot.original
    case SpentColumn => lot.spent
    case ExpiredColumn => lot.expired
    case ReservedColumn => lot.reserved
  }

  function Total(lots: seq<CreditLot>, key: string, c: Column): int {
    if lots == [] then 0
    else
      var lot := lots[|lots| - 1];
      Total(lots[..|lots| - 1], key, c) + (if KeyFor(lot.scope) == key then Amount(lot, c) else 0)
  }

  /** One scope's lots say what its log says. */
  ghost predicate AgreesFor(b: Books, key: string) {
    && Logged(b.events, key, GRANTED) == Total(b.lots, key, OriginalColumn)
    && Logged(b.events, key, COMMITTED) == Total(b.lots, key, SpentColumn)
    && Logged(b.events, key, EXPIRED) == Total(b.lots, key, ExpiredColumn)
    && Logged(b.events, key, RESERVED) - Logged(b.events, key, COMMITTED) - Logged(b.events, key, RELEASED)
       == Total(b.lots, key, ReservedColumn)
  }

  ghost predicate Agrees(b: Books) {
    forall key :: AgreesFor(b, key)
  }

  ghost predicate NoBar(scope: Scope) {
    '|' !in scope.instanceId && '|' !in scope.accountId
  }

  predicate Clean(key: string) {
    !(RESERVE <= key) && !(COMMIT <= key) && !(RELEASE <= key) && !(EXPIRE <= key)
  }

  function ReserveKey(scope: Scope, id: string): string { FullKey(scope, RESERVE + id) }

  function SettleKey(scope: Scope, id: string, outcome: Outcome): string {
    FullKey(scope, (if outcome == Commit then COMMIT else RELEASE) + id)
  }

  function ExpireKey(scope: Scope, id: string): string { FullKey(scope, EXPIRE + id) }

  ghost predicate ReserveKeysOk(b: Books) {
    forall s, id :: NoBar(s) && ReserveKey(s, id) in b.idempotency ==> FullKey(s, id) in b.reservations
  }

  ghost predicate SettleKeysOk(b: Books) {
    forall s, id, o :: NoBar(s) && SettleKey(s, id, o) in b.idempotency ==>
      FullKey(s, id) in b.reservations && b.reservations[FullKey(s, id)].state != Reserved
  }

  ghost predicate ExpireKeysOk(b: Books) {
    forall s, id :: NoBar(s) && ExpireKey(s, id) in b.idempotency ==>
      FindLot(b.lots, id) < |b.lots| && b.lots[FindLot(b.lots, id)].status == Expired
  }

  ghost predicate ReservationsNamed(b: Books) {
    forall key :: key in b.reservations ==>
      NoBar(b.reservations[key].scope) && key == FullKey(b.reservations[key].scope, b.reservations[key].id)
  }

  ghost predicate KeysOk(b: Books) {
    ReserveKeysOk(b) && SettleKeysOk(b) && ExpireKeysOk(b) && ReservationsNamed(b)
  }

  // --------------------------------------------------------------- keys

  lemma {:induction false} FirstBar(a: string, x: string, b: string, y: string)
    requires '|' !in a && '|' !in b
    requires a + "|" + x == b + "|" + y
    ensures a == b && x == y
  {
    var whole := a + "|" + x;
    assert whole[|a|] == '|' && whole[|b|] == '|';
    assert forall i :: 0 <= i < |a| ==> whole[i] == a[i];
    assert forall i :: 0 <= i < |b| ==> whole[i] == b[i];
    assert |a| == |b|;
    assert a == (a + "|" + x)[..|a|];
    assert b == (b + "|" + y)[..|b|];
    assert x == (a + "|" + x)[|a| + 1..];
    assert y == (b + "|" + y)[|b| + 1..];
  }

  /** Scopes whose ids contain no bar never share a key. */
  lemma FullKeyInjective(s: Scope, k: string, t: Scope, l: string)
    requires NoBar(s) && NoBar(t) && FullKey(s, k) == FullKey(t, l)
    ensures s == t && k == l
  {
    assert FullKey(s, k) == s.instanceId + "|" + (s.accountId + "|" + k);
    assert FullKey(t, l) == t.instanceId + "|" + (t.accountId + "|" + l);
    FirstBar(s.instanceId, s.accountId + "|" + k, t.instanceId, t.accountId + "|" + l);
    FirstBar(s.accountId, k, t.accountId, l);
  }

  /**
   Two scopes share one ledger exactly when the longer instance id goes on with a
   bar and a piece that the other's account id begins with.
   */
  lemma ScopesCollideExactly(s: Scope, t: Scope)
    requires |s.instanceId| <= |t.instanceId| && s != t
    ensures KeyFor(s) == KeyFor(t) <==>
            exists m :: t.instanceId == s.instanceId + "|" + m && s.accountId == m + "|" + t.accountId
  {
    var key := KeyFor(s);
    if key == KeyFor(t) {
      var n := |s.instanceId|;
      assert key[..n] == s.instanceId && key[n + 1..] == s.accountId;
      assert key[..|t.instanceId|] == t.instanceId && key[|t.instanceId| + 1..] == t.accountId;
      assert n < |t.instanceId|;
      var m := t.instanceId[n + 1..];
      assert t.instanceId == s.instanceId + "|" + m;
      assert s.accountId == m + "|" + t.accountId;
    }
    forall m | t.instanceId == s.instanceId + "|" + m && s.accountId == m + "|" + t.accountId ensures KeyFor(s) == KeyFor(t) {
      assert KeyFor(t) == s.instanceId + "|" + (m + "|" + t.accountId);
    }
  }

  lemma PrefixesDiffer(x: string, y: string)
    ensures RESERVE + x != COMMIT + y && RESERVE + x != RELEASE + y && RESERVE + x != EXPIRE + y
    ensures COMMIT + x != RELEASE + y && COMMIT + x != EXPIRE + y && RELEASE + x != EXPIRE + y
    ensures !Clean(RESERVE + x) && !Clean(COMMIT + x) && !Clean(RELEASE + x) && !Clean(EXPIRE + x)
  {
    assert (RESERVE + x)[2] == 's' && (RELEASE + y)[2] == 'l' && (RELEASE + x)[2] == 'l';
    assert (RESERVE + x)[0] == 'r' && (COMMIT + y)[0] == 'c' && (EXPIRE + y)[0] == 'e';
    assert (COMMIT + x)[0] == 'c' && (RELEASE + x)[0] == 'r' && (RELEASE + y)[0] == 'r';
  }

  lemma {:induction false} SamePrefixCancels(p: string, x: string, y: string)
    requires p + x == p + y
    ensures x == y
  {
    assert x == (p + x)[|p|..];
  }

  // --------------------------------------------------------------- sums

  lemma {:induction false} HeldSplit(reservations: map<string, CreditReservation>, key: string, lotId: string)
    requires key in reservations
    ensures Held(reservations, lotId) == HeldBy(reservations[key], lotId) + Held(reservations - {key}, lotId)
    decreases |reservations|
  {
    var first :| first in reservations && Held(reservations, lotId) == HeldBy(reservations[first], lotId) + Held(reservations - {first}, lotId);
    if first != key {
      HeldSplit(reservations - {first}, key, lotId);
      HeldSplit(reservations - {key}, first, lotId);
      assert reservations - {first} - {key} == reservations - {key} - {first};
    }
  }

  /** Putting a reservation under a key changes what is held by the difference. */
  lemma HeldUpdate(reservations: map<string, CreditReservation>, key: string, r: CreditReservation, lotId: string)
    ensures Held(reservations[key := r], lotId)
         == Held(reservations, lotId) + HeldBy(r, lotId)
            - (if key in reservations then HeldBy(reservations[key], lotId) else 0)
  {
    HeldSplit(reservations[key := r], key, lotId);
    assert reservations[key := r] - {key} == reservations - {key};
    if key in reservations {
      HeldSplit(reservations, key, lotId);
    } else {
      assert reservations - {key} == reservations;
    }
  }

  lemma {:induction false} TotalUpdate(lots: seq<CreditLot>, i: nat, lot: CreditLot, key: string, c: Column)
    requires i < |lots| && lot.scope == lots[i].scope
    ensures Total(lots[i := lot], key, c)
         == Total(lots, key, c) + (if KeyFor(lot.scope) == key then Amount(lot, c) - Amount(lots[i], c) else 0)
  {
    var n := |lots| - 1;
    if i == n {
      assert lots[i := lot][..n] == lots[..n];
    } else {
      TotalUpdate(lots[..n], i, lot, key, c);
      assert lots[i := lot][..n] == lots[..n][i := lot];
    }
  }

  lemma TotalAppend(lots: seq<CreditLot>, lot: CreditLot, key: string, c: Column)
    ensures Total(lots + [lot], key, c) == Total(lots, key, c) + (if KeyFor(lot.scope) == key then Amount(lot, c) else 0)
  {
    assert (lots + [lot])[..|lots|] == lots;
  }

  lemma {:induction false} FindLotIsFirst(lots: seq<CreditLot>, id: string)
    ensures forall k :: 0 <= k < FindLot(lots, id) ==> lots[k].id != id
  {
    if lots != [] && lots[0].id != id {
      FindLotIsFirst(lots[1..], id);
    }
  }

  lemma FindLotIs(lots: seq<CreditLot>, i: nat)
    requires DistinctIds(lots) && i < |lots|
    ensures FindLot(lots, lots[i].id) == i
  {
    FindLotIsFirst(lots, lots[i].id);
  }

  lemma {:induction false} SumForBounds(allocations: seq<Allocation>, lotId: string)
    requires forall k :: 0 <= k < |allocations| ==> allocations[k].quantity > 0
    ensures SumFor(allocations, lotId) >= 0
  {
    if allocations != [] {
      SumForBounds(allocations[..|allocations| - 1], lotId);
    }
  }

  lemma {:induction false} HeldBounds(b: Books, reservations: map<string, CreditReservation>, lotId: string)
    requires forall key :: key in reservations ==> ReservationOk(b, reservations[key])
    ensures Held(reservations, lotId) >= 0
    ensures forall key :: key in reservations ==> HeldBy(reservations[key], lotId) <= Held(reservations, lotId)
    decreases |reservations|
  {
    forall key | key in reservations
      ensures 0 <= HeldBy(reservations[key], lotId) <= Held(reservations, lotId)
    {
      HeldSplit(reservations, key, lotId);
      HeldBounds(b, reservations - {key}, lotId);
      SumForBounds(reservations[key].allocations, lotId);
    }
    if reservations != map[] {
      var key :| key in reservations;
      assert HeldBy(reservations[key], lotId) <= Held(reservations, lotId);
    }
  }
}
