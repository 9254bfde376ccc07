/** Runs in which callers use the ledger's own keys, or ids with a bar, and lots and log part. */
module LedgerCounterexamples {
  import opened Common
  import opened Ledger
  import opened LedgerInvariant
  import opened LedgerSteps
  import opened LedgerTheorems
  import opened LedgerReservations

  function OneCredit(key: string): GrantInput {
    GrantInput(1, "plan", 0, 10, key, None)
  }

  function ForOne(id: string): ReserveInput {
    ReserveInput(id, 1, 5, None)
  }

  // A usage event of no credits, under any key.
  function Visit(key: string): UsageInput {
    UsageInput(key, "visits", 0, "visit", 1, "web", None, None, None)
  }

  lemma OneLotCovers(b: Books, scope: Scope, id: string)
    requires Sound(b) && FullKey(scope, id) !in b.reservations
    requires |b.lots| == 1 && b.lots[0].scope == scope && b.lots[0].status == Available
    requires b.lots[0].expiresAt == 10 && b.lots[0].remaining == 1 && b.lots[0].reserved == 0
    ensures Reserves(b, scope, ForOne(id))
  {
    assert AvailableCredits(b.lots[..0], KeyFor(scope), 5) == 0;
    assert b.lots[..0] == [];
    ReservesExactlyWhenCovered(b, scope, ForOne(id));
  }

  // The books after a first grant.
  lemma Granted(scope: Scope, key: string)
    ensures var b := Apply(EMPTY, GrantCall(scope, OneCredit(key)));
            && Sound(b) && Agrees(b) && b.reservations == map[] && b.idempotency.Keys == {FullKey(scope, key)}
            && |b.lots| == 1 && b.lots[0].scope == scope && b.lots[0].status == Available
            && b.lots[0].expiresAt == 10 && b.lots[0].remaining == 1 && b.lots[0].reserved == 0
  {
    EmptyAgrees();
    CallKeepsSound(EMPTY, GrantCall(scope, OneCredit(key)));
    CallAgreesExactlyWhenLoggable(EMPTY, GrantCall(scope, OneCredit(key)));
  }

  function TakenKeyRun(scope: Scope, id: string): seq<Call> {
    [GrantCall(scope, OneCredit("g")), UsageCall(scope, Visit(RESERVE + id)), ReserveCall(scope, ForOne(id))]
  }

  /** A usage event under `reserve:` and an id takes the key of that reservation, which then goes unlogged. */
  lemma TakenKeyBreaksAgreement(scope: Scope, id: string)
    ensures !Agrees(ApplyAll(EMPTY, TakenKeyRun(scope, id)))
  {
    var calls := TakenKeyRun(scope, id);
    var b := Apply(EMPTY, calls[0]);
    var c := Apply(b, calls[1]);
    Granted(scope, "g");
    CallKeepsSound(b, calls[1]);
    CallAgreesExactlyWhenLoggable(b, calls[1]);
    OneLotCovers(c, scope, id);
    CallAgreesExactlyWhenLoggable(c, calls[2]);
    ThreeCalls(EMPTY, calls[0], calls[1], calls[2]);
  }

  lemma ThreeCalls(b: Books, x: Call, y: Call, z: Call)
    ensures ApplyAll(b, [x, y, z]) == Apply(Apply(Apply(b, x), y), z)
  {
    hide Apply;
    assert [x, y, z][1..] == [y, z] && [y, z][1..] == [z] && [z][1..] == [];
    var after := Apply(Apply(b, x), y);
    assert ApplyAll(after, [z]) == ApplyAll(Apply(after, z), []);
    assert ApplyAll(Apply(b, x), [y, z]) == ApplyAll(after, [z]);
  }

  /** A usage event with an empty lot id takes a key as well: a grant under it makes a lot that is not logged. */
  lemma EmptyLotIdBreaksAgreement(scope: Scope, key: string)
    ensures var calls := [UsageCall(scope, Visit(key).(lotId := Some(""))), GrantCall(scope, OneCredit(key))];
            && AllAgreeBut(calls, 1)
            && |ApplyAll(EMPTY, calls).lots| == 1
  {
    var calls := [UsageCall(scope, Visit(key).(lotId := Some(""))), GrantCall(scope, OneCredit(key))];
    var b := Apply(EMPTY, calls[0]);
    EmptyAgrees();
    CallKeepsSound(EMPTY, calls[0]);
    CallAgreesExactlyWhenLoggable(EMPTY, calls[0]);
    CallAgreesExactlyWhenLoggable(b, calls[1]);
    TwoCalls(EMPTY, calls[0], calls[1]);
  }

  // The run agrees up to its nth call, and that call breaks it.
  ghost predicate AllAgreeBut(calls: seq<Call>, n: nat)
    requires n < |calls|
  {
    Agrees(ApplyAll(EMPTY, calls[..n])) && !Agrees(ApplyAll(EMPTY, calls[..n + 1]))
  }

  lemma TwoCalls(b: Books, x: Call, y: Call)
    ensures ApplyAll(b, [x, y][..1]) == Apply(b, x)
    ensures [x, y][..2] == [x, y] && ApplyAll(b, [x, y]) == Apply(Apply(b, x), y)
  {
    hide Apply;
    assert [x, y][..1] == [x] && [x][1..] == [] && [x, y][1..] == [y] && [y][1..] == [];
    assert ApplyAll(Apply(b, x), []) == Apply(b, x);
    assert ApplyAll(Apply(b, x), [y]) == ApplyAll(Apply(Apply(b, x), y), []);
  }

  // a holds account b|c, and account b of a has a reservation c|id.
  function BarredRun(a: string, b: string, c: string, id: string): seq<Call> {
    var owner, other := Scope(a, b), Scope(a, b + "|" + c);
    [GrantCall(owner, OneCredit("g")), ReserveCall(owner, ForOne(c + "|" + id)), FinalizeCall(other, id, Commit, 6)]
  }

  /** With a bar in an id, one account settles a reservation of another, and the event goes to the wrong log. */
  lemma BarredIdBreaksAgreement(a: string, b: string, c: string, id: string)
    ensures !Agrees(ApplyAll(EMPTY, BarredRun(a, b, c, id)))
  {
    var calls := BarredRun(a, b, c, id);
    ReservedByOwner(Scope(a, b), c + "|" + id);
    BarredNames(a, b, c, id);
    hide Apply, Sound, Agrees, FullKey, KeyFor;
    ThreeCalls(EMPTY, calls[0], calls[1], calls[2]);
    SettledElsewhere(Apply(Apply(EMPTY, calls[0]), calls[1]), Scope(a, b + "|" + c), id, 6);
  }

  lemma BarredNames(a: string, b: string, c: string, id: string)
    ensures FullKey(Scope(a, b + "|" + c), id) == FullKey(Scope(a, b), c + "|" + id)
    ensures KeyFor(Scope(a, b + "|" + c)) != KeyFor(Scope(a, b))
  {
    assert |KeyFor(Scope(a, b + "|" + c))| > |KeyFor(Scope(a, b))|;
  }

  lemma SettledElsewhere(t: Books, other: Scope, id: string, at: int)
    requires Sound(t) && Agrees(t) && Settles(t, other, id)
    requires KeyFor(t.reservations[FullKey(other, id)].scope) != KeyFor(other)
    ensures !Agrees(Apply(t, FinalizeCall(other, id, Commit, at)))
  {
    hide Sound, Agrees, Apply;
    CallAgreesExactlyWhenLoggable(t, FinalizeCall(other, id, Commit, at));
  }

  lemma ReservedByOwner(owner: Scope, id: string)
    ensures var t := Apply(Apply(EMPTY, GrantCall(owner, OneCredit("g"))), ReserveCall(owner, ForOne(id)));
            && Sound(t) && Agrees(t)
            && FullKey(owner, id) in t.reservations
            && t.reservations[FullKey(owner, id)].state == Reserved && t.reservations[FullKey(owner, id)].scope == owner
  {
    var s := Apply(EMPTY, GrantCall(owner, OneCredit("g")));
    Granted(owner, "g");
    OneLotCovers(s, owner, id);
    ReserveKeyIsNotG(owner, id);
    CallKeepsSound(s, ReserveCall(owner, ForOne(id)));
    CallAgreesExactlyWhenLoggable(s, ReserveCall(owner, ForOne(id)));
    hide Order, Allocations, Hold, RoomIn, Sound, Agrees, Append;
  }

  lemma ReserveKeyIsNotG(scope: Scope, id: string)
    ensures ReserveKey(scope, id) != FullKey(scope, "g")
  {
    assert |ReserveKey(scope, id)| > |FullKey(scope, "g")|;
  }
}
