/** The two queues as objects over their tables: each call's statements or conditional writes, in order. */
module SqliteJobQueueClass {
  import opened Common
  import J = Jobs
  import opened SqliteJobs
  import opened SqliteJobEffects

  datatype QueueError = InvalidLease | LeaseLost | NotRecoverable

  // --------------------------------------------------------------- the order of rows

  lemma {:induction false} IdsAreOrdered(a: string, b: string)
    ensures IdBefore(a, b) || IdBefore(b, a) || a == b
    ensures !IdBefore(a, a)
  {
    if a != "" && b != "" {
      IdsAreOrdered(a[1..], b[1..]);
      if a[0] == b[0] && a[1..] == b[1..] {
        assert a == [a[0]] + a[1..] && b == [b[0]] + b[1..];
      }
    }
    if a != "" {
      IdsAreOrdered(a[1..], a[1..]);
    }
  }

  lemma {:induction false} IdsAreTransitive(a: string, b: string, c: string)
    requires IdBefore(a, b) && IdBefore(b, c)
    ensures IdBefore(a, c)
  {
    if a != "" && b != "" && c != "" && a[0] == b[0] && b[0] == c[0] {
      IdsAreTransitive(a[1..], b[1..], c[1..]);
    }
  }

  lemma EarlierIsTransitive(rows: Table, a: string, b: string, c: string)
    requires a in rows && b in rows && c in rows && Earlier(rows, a, b) && Earlier(rows, b, c)
    ensures Earlier(rows, a, c)
  {
    if IdBefore(a, b) && IdBefore(b, c) {
      IdsAreTransitive(a, b, c);
    }
  }

  lemma RowsAreOrdered(rows: Table, a: string, b: string)
    requires a in rows && b in rows && a != b
    ensures Earlier(rows, a, b) || Earlier(rows, b, a)
  {
    IdsAreOrdered(a, b);
  }

  /** SELECT … ORDER BY available_at, id LIMIT 1. */
  method SelectFirst(rows: Table, cell: string, at: int, kinds: seq<string>) returns (found: Option<string>)
    ensures found.Some? ==> IsFirst(rows, cell, at, kinds, found.value)
    ensures found.None? ==> forall id :: id in rows ==> !Claimable(rows[id], cell, at, kinds)
  {
    found := None;
    var left := rows.Keys;
    while left != {}
      invariant left <= rows.Keys
      invariant found.Some? ==> found.value in rows && found.value !in left && Claimable(rows[found.value], cell, at, kinds)
      invariant forall id :: id in rows && id !in left && Claimable(rows[id], cell, at, kinds) ==>
        found.Some? && (id == found.value || Earlier(rows, found.value, id))
      decreases left
    {
      var id :| id in left;
      if Claimable(rows[id], cell, at, kinds) {
        if found.None? {
          found := Some(id);
        } else if Earlier(rows, id, found.value) {
          forall other | other in rows && other !in left && Claimable(rows[other], cell, at, kinds) ensures Earlier(rows, id, other) {
            if other != found.value {
              EarlierIsTransitive(rows, id, found.value, other);
            }
          }
          found := Some(id);
        } else {
          RowsAreOrdered(rows, id, found.value);
        }
      }
      left := left - {id};
    }
  }

  class LocalSqliteJobQueue {
    var rows: Table

    constructor ()
      ensures rows == map[]
    {
      rows := map[];
    }

    /** A key already used in the cell returns the job it made. */
    method Enqueue(id: string, cell: string, kind: string, key: string, max: int, availableAt: int) returns (job: string)
      requires id !in rows
      modifies this
      ensures rows == SqliteJobs.Enqueue(old(rows), id, cell, kind, key, max, availableAt)
      ensures job in rows && rows[job].cell == cell && rows[job].key == key
    {
      if existing :| existing in rows && rows[existing].cell == cell && rows[existing].key == key {
        return existing;
      }
      rows := rows[id := Row(cell, kind, key, Queued, 0, max, availableAt, None, None, 0, {})];
      job := id;
    }

    /** The three statements run on end: what is leased is the first job due, in budget. */
    method Lease(cell: string, kinds: seq<string>, duration: int, now: int, token: string) returns (r: Result<Option<string>, QueueError>)
      requires RowsOk(rows) && forall id :: id in rows ==> token !in rows[id].handed
      modifies this
      ensures r.Err? <==> Blank(cell) || duration <= 0
      ensures r.Err? ==> rows == old(rows)
      ensures r.Ok? ==> LeasesFirstDue(old(rows), rows, cell, kinds, now, duration, token, r.value)
      ensures RowsOk(rows)
      ensures InBudget(old(rows)) ==> InBudget(rows)
    {
      if Blank(cell) || duration <= 0 {
        return Err(InvalidLease);
      }
      ghost var before := rows;
      rows := DeadLetterExhausted(rows, cell, now);
      rows := Reschedule(rows, cell, now);
      var found := SelectFirst(rows, cell, now, kinds);
      if found.Some? {
        rows := rows[found.value := ClaimRow(rows[found.value], token, now + duration)];
      }
      LeaseIsThreeStatements(before, cell, now, kinds, duration, token, found, rows);
      LeaseIsOfTheFirstDue(before, rows, cell, kinds, now, duration, token, found);
      r := Ok(found);
    }

    method Transition(id: string, token: string, now: int, verdict: J.Verdict, retryAt: int) returns (r: Result<bool, QueueError>)
      modifies this
      ensures var settled := SqliteJobs.Transition(old(rows), id, token, now, verdict, retryAt);
              rows == (if settled.Some? then settled.value else old(rows)) && (r.Ok? <==> settled.Some?)
    {
      if id !in rows || !HoldsLease(rows[id], token, now) {
        return Err(LeaseLost);
      }
      rows := rows[id := SettleRow(rows[id], verdict, retryAt)];
      r := Ok(true);
    }

    method Cancel(id: string)
      modifies this
      ensures rows == SqliteJobs.Cancel(old(rows), id)
    {
      if id in rows {
        rows := rows[id := rows[id].(state := Cancelled)];
      }
    }

    method Recover(id: string, availableAt: int) returns (r: Result<bool, QueueError>)
      modifies this
      ensures var recovered := SqliteJobs.Recover(old(rows), id, availableAt);
              rows == (if recovered.Some? then recovered.value else old(rows)) && (r.Ok? <==> recovered.Some?)
    {
      if id !in rows || (rows[id].state != RetryScheduled && rows[id].state != DeadLettered) {
        return Err(NotRecoverable);
      }
      rows := rows[id := rows[id].(state := Queued, availableAt := availableAt, token := None, expiresAt := None,
                                   recoveries := rows[id].recoveries + 1)];
      r := Ok(true);
    }
  }

  // A lease that nothing interrupts is a run of three statements, with nobody between the first two.
  lemma LeaseIsThreeStatements(before: Table, cell: string, now: int, kinds: seq<string>, duration: int, token: string,
                               found: Option<string>, after: Table)
    requires RowsOk(before) && duration > 0 && forall id :: id in before ==> token !in before[id].handed
    requires var swept := Reschedule(DeadLetterExhausted(before, cell, now), cell, now);
             if found.Some? then IsFirst(swept, cell, now, kinds, found.value)
                                 && after == swept[found.value := ClaimRow(swept[found.value], token, now + duration)]
             else after == swept
    ensures RowsOk(after) && (InBudget(before) ==> InBudget(after))
  {
    hide IsFirst, InBudget, RowsOk, DeadLetterExhausted, Reschedule;
    var s0 := Sys(before, map[0 := Call(cell, now, 0)]);
    var s1 := Step(s0, First(0));
    var s2 := Step(s1, Second(0));
    SweptAlone(before, cell, now);
    StatementKeepsRows(s0, First(0));
    StatementKeepsRows(s1, Second(0));
    if InBudget(before) {
      BudgetKept(s0, First(0));
      SweptStays(s0, First(0));
      BudgetKept(s1, Second(0));
      SweptStays(s1, Second(0));
    }
    if found.Some? {
      var e := Third(0, found.value, token, duration, kinds);
      FreshTokens(before, cell, now, token);
      assert MayClaim(s2, e);
      StatementKeepsRows(s2, e);
      if InBudget(before) {
        BudgetKept(s2, e);
      }
    }
  }

  lemma SweptAlone(rows: Table, cell: string, now: int)
    ensures Swept(Sys(rows, map[0 := Call(cell, now, 0)]))
  {
  }

  lemma FreshTokens(before: Table, cell: string, now: int, token: string)
    requires forall id :: id in before ==> token !in before[id].handed
    ensures var swept := Reschedule(DeadLetterExhausted(before, cell, now), cell, now);
            forall id :: id in swept ==> token !in swept[id].handed
  {
  }
}

module AwsJobQueueClass {
  import opened Common
  import J = Jobs
  import opened DynamoJobs

  datatype QueueError = InvalidLease | LeaseLost | Conflict | NotRecoverable

  datatype Candidate = Candidate(id: string, record: Record)

  datatype Leasing = Leasing(store: Sys, leased: Option<string>)

  /** A lease call's parameters; tokens[n] is drawn for the nth candidate. */
  datatype Request = Request(cell: string, kinds: seq<string>, at: int, duration: int, worker: string, tokens: seq<string>)

  predicate Offers(c: Candidate, q: Request) {
    Offered(c.record, q.cell, q.kinds) && (Expired(c.record, q.at) || Available(c.record, q.at))
  }

  function ClaimOf(c: Candidate, q: Request, n: nat): Event
    requires n < |q.tokens|
  {
    Claiming(c.id, c.record, q.at, q.duration, q.worker, q.tokens[n])
  }

  /**
   What the first n candidates of a listing come to, other callers' writes going
   before each: dead letters on the way, and the first lease that goes through.
   */
  function LeaseAmong(s: Sys, listed: seq<Candidate>, n: nat, others: seq<seq<Event>>, q: Request): Leasing
    requires n <= |listed| == |others| == |q.tokens|
  {
    if n == 0 then Leasing(s, None)
    else
      var before, c := LeaseAmong(s, listed, n - 1, others, q), listed[n - 1];
      if before.leased.Some? then before
      else
        var now := Run(before.store, others[n - 1]);
        if !Offers(c, q) || Written(now, ClaimOf(c, q, n - 1)).None? then Leasing(now, None)
        else Leasing(Step(now, ClaimOf(c, q, n - 1)), if Exhausted(c.record, q.at) then None else Some(c.id))
  }

  lemma {:induction false} LeasedStays(s: Sys, listed: seq<Candidate>, k: nat, n: nat, others: seq<seq<Event>>, q: Request)
    requires k <= n <= |listed| == |others| == |q.tokens| && LeaseAmong(s, listed, k, others, q).leased.Some?
    ensures LeaseAmong(s, listed, n, others, q) == LeaseAmong(s, listed, k, others, q)
  {
    hide Run, Step, Written, Offers, Exhausted, ClaimOf;
    if k < n {
      LeasedStays(s, listed, k, n - 1, others, q);
    }
  }

  /** The kth candidate, when its turn comes: wanted, waiting and available or its lease over, unmoved, and with an attempt left. */
  ghost predicate CanHave(s: Sys, listed: seq<Candidate>, k: nat, others: seq<seq<Event>>, q: Request)
    requires k < |listed| == |others| == |q.tokens|
  {
    var c, now := listed[k].record, Run(LeaseAmong(s, listed, k, others, q).store, others[k]);
    var over := c.state == Leased && c.expiresAt.Some? && c.expiresAt.value <= q.at;
    && c.cell == q.cell && (q.kinds == [] || c.kind in q.kinds)
    && (over || ((c.state == Queued || c.state == RetryScheduled) && c.availableAt <= q.at))
    && !(over && c.max <= c.attempt)
    && Claim(now.rows, listed[k].id, c, q.at, q.duration, q.worker, q.tokens[k]).Some?
  }

  // One candidate's turn, nothing being leased yet.
  lemma TurnIs(s: Sys, listed: seq<Candidate>, k: nat, others: seq<seq<Event>>, q: Request)
    requires k < |listed| == |others| == |q.tokens| && LeaseAmong(s, listed, k, others, q).leased.None?
    ensures var after := LeaseAmong(s, listed, k + 1, others, q);
            && (after.leased.Some? <==> CanHave(s, listed, k, others, q))
            && (after.leased.Some? ==>
                  && after.leased.value == listed[k].id
                  && after.store == Step(Run(LeaseAmong(s, listed, k, others, q).store, others[k]), ClaimOf(listed[k], q, k)))
  {
    hide Step, Run, Claim;
  }

  /** The kth candidate can be had and none before it, and its claim is the last write. */
  ghost predicate IsFirstHad(s: Sys, listed: seq<Candidate>, k: nat, n: nat, others: seq<seq<Event>>, q: Request)
    requires n <= |listed| == |others| == |q.tokens|
  {
    && k < n && CanHave(s, listed, k, others, q) && (forall j :: 0 <= j < k ==> !CanHave(s, listed, j, others, q))
    && LeaseAmong(s, listed, n, others, q) ==
       Leasing(Step(Run(LeaseAmong(s, listed, k, others, q).store, others[k]), ClaimOf(listed[k], q, k)), Some(listed[k].id))
  }

  /** The first candidate that can be had is leased, and none only if none can. */
  lemma {:induction false} FirstThatCanBeHad(s: Sys, listed: seq<Candidate>, n: nat, others: seq<seq<Event>>, q: Request)
    requires n <= |listed| == |others| == |q.tokens|
    ensures if LeaseAmong(s, listed, n, others, q).leased.None? then forall k :: 0 <= k < n ==> !CanHave(s, listed, k, others, q)
            else exists k: nat :: IsFirstHad(s, listed, k, n, others, q)
  {
    hide Step, Run, CanHave, Offers, Exhausted, Written, ClaimOf;
    if n > 0 {
      FirstThatCanBeHad(s, listed, n - 1, others, q);
      if LeaseAmong(s, listed, n - 1, others, q).leased.None? {
        TurnIs(s, listed, n - 1, others, q);
        if CanHave(s, listed, n - 1, others, q) {
          assert IsFirstHad(s, listed, n - 1, n, others, q);
        }
      } else {
        var k: nat :| IsFirstHad(s, listed, k, n - 1, others, q);
        assert IsFirstHad(s, listed, k, n, others, q);
      }
    }
  }

  // --------------------------------------------------------------- a call among others is a run

  lemma {:induction false} RunsOn(s: Sys, events: seq<Event>, more: seq<Event>)
    ensures Run(s, events + more) == Run(Run(s, events), more)
    decreases |events|
  {
    hide Step;
    if events == [] {
      assert events + more == more;
    } else {
      RunsOn(Step(s, events[0]), events[1..], more);
      assert (events + more)[1..] == events[1..] + more;
    }
  }

  /** Everything a lease call and the others do is one run of the queue's writes, so what holds of runs holds of it. */
  lemma {:induction false} LeasingIsARun(s: Sys, listed: seq<Candidate>, n: nat, others: seq<seq<Event>>, q: Request) returns (events: seq<Event>)
    requires n <= |listed| == |others| == |q.tokens|
    ensures Run(s, events) == LeaseAmong(s, listed, n, others, q).store
  {
    hide Step, Written, Offers;
    events := [];
    if n > 0 {
      events := LeasingIsARun(s, listed, n - 1, others, q);
      var before := LeaseAmong(s, listed, n - 1, others, q);
      if before.leased.None? {
        RunsOn(s, events, others[n - 1]);
        events := events + others[n - 1];
        var e := ClaimOf(listed[n - 1], q, n - 1);
        var now := Run(before.store, others[n - 1]);
        if Offers(listed[n - 1], q) && Written(now, e).Some? {
          RunsOn(s, events, [e]);
          assert Run(now, [e]) == Run(Step(now, e), []);
          events := events + [e];
        }
      }
    }
  }

  // --------------------------------------------------------------- tokens drawn anew

  /** The tokens from n on are unlike any handed out. */
  ghost predicate Unused(s: Sys, tokens: seq<string>, n: nat) {
    forall id, k :: id in s.rows && n <= k < |tokens| ==> tokens[k] !in s.rows[id].handed
  }

  ghost predicate Apart(events: seq<Event>, tokens: seq<string>) {
    forall i, k :: 0 <= i < |events| && 0 <= k < |tokens| && events[i].Claiming? ==> events[i].token != tokens[k]
  }

  ghost predicate Fresh(s: Sys, others: seq<seq<Event>>, tokens: seq<string>) {
    && (forall k :: 0 <= k < |tokens| ==> tokens[k] != "")
    && (forall j, k :: 0 <= j < k < |tokens| ==> tokens[j] != tokens[k])
    && Unused(s, tokens, 0)
    && (forall i :: 0 <= i < |others| ==> Apart(others[i], tokens))
  }

  lemma StepHands(s: Sys, e: Event, id: string, token: string)
    requires Inv(s) && id in Step(s, e).rows && token in Step(s, e).rows[id].handed
    ensures (id in s.rows && token in s.rows[id].handed) || (e.Claiming? && e.token == token)
  {
    if id in s.rows {
      WriteRefines(s, e, id);
    } else {
      NewIsUnhanded(s, e, id);
    }
  }

  lemma NewIsUnhanded(s: Sys, e: Event, id: string)
    requires id !in s.rows && id in Step(s, e).rows
    ensures Step(s, e).rows[id].handed == {}
  {
  }

  lemma {:induction false} OthersLeaveUnused(s: Sys, events: seq<Event>, tokens: seq<string>, n: nat)
    requires Inv(s) && Unused(s, tokens, n) && Apart(events, tokens)
    ensures Inv(Run(s, events)) && Unused(Run(s, events), tokens, n)
    decreases |events|
  {
    hide Step, Inv;
    if events != [] {
      var t := Step(s, events[0]);
      StepKeepsInv(s, events[0]);
      forall id, k | id in t.rows && n <= k < |tokens| ensures tokens[k] !in t.rows[id].handed {
        if tokens[k] in t.rows[id].handed {
          StepHands(s, events[0], id, tokens[k]);
        }
      }
      OthersLeaveUnused(t, events[1..], tokens, n);
    }
  }

  /** What is stored can be read. */
  ghost predicate Current(s: Sys) {
    forall id :: id in s.rows ==> Version(id, s.rows[id]) in s.versions
  }

  lemma StepKeepsCurrent(s: Sys, e: Event)
    requires Current(s)
    ensures Current(Step(s, e))
  {
    if Possible(s, e) && Written(s, e).Some? {
      forall id | id in Step(s, e).rows && id != e.id ensures Version(id, Step(s, e).rows[id]) in Step(s, e).versions {
        OnlyItsRecord(s, e, id);
      }
    }
  }

  lemma {:induction false} RunKeepsCurrent(s: Sys, events: seq<Event>)
    requires Current(s)
    ensures Current(Run(s, events))
    decreases |events|
  {
    hide Step, Current;
    if events != [] {
      StepKeepsCurrent(s, events[0]);
      RunKeepsCurrent(Step(s, events[0]), events[1..]);
    }
  }

  lemma {:induction false} VersionsStay(s: Sys, events: seq<Event>)
    ensures s.versions <= Run(s, events).versions
    decreases |events|
  {
    hide Possible, Written;
    if events != [] {
      VersionsStay(Step(s, events[0]), events[1..]);
    }
  }

  /** The job is leased to the worker under the token, until the expiry asked for. */
  ghost predicate LeasedTo(s: Sys, id: string, q: Request, token: string) {
    && id in s.rows && s.rows[id].state == Leased && s.rows[id].owner == Some(Owner(q.worker, token))
    && s.rows[id].expiresAt == Some(q.at + q.duration) && s.rows[id].cell == q.cell && (q.kinds == [] || s.rows[id].kind in q.kinds)
  }

  lemma ClaimLeases(s: Sys, c: Candidate, q: Request, n: nat)
    requires n < |q.tokens| && Inv(s) && Possible(s, ClaimOf(c, q, n)) && Written(s, ClaimOf(c, q, n)).Some?
    requires Offers(c, q) && !Exhausted(c.record, q.at)
    ensures LeasedTo(Step(s, ClaimOf(c, q, n)), c.id, q, q.tokens[n])
    ensures c.id in s.rows && Step(s, ClaimOf(c, q, n)).rows[c.id].attempt == s.rows[c.id].attempt + 1
  {
    WritesSeeTheirRead(s, ClaimOf(c, q, n));
  }

  class AwsJobQueue {
    // The table, and what stale reads may return.
    var store: Sys

    ghost predicate Valid()
      reads this
    {
      Inv(store) && InBudget(store.rows) && Current(store)
    }

    constructor ()
      ensures Valid() && store == EMPTY
    {
      store := EMPTY;
    }

    method OthersWrite(events: seq<Event>)
      requires Valid()
      modifies this
      ensures Valid() && store == Run(old(store), events) && old(store).versions <= store.versions
    {
      RunKeepsBudget(store, events);
      VersionsStay(store, events);
      RunKeepsCurrent(store, events);
      store := Run(store, events);
    }

    // One conditional write; it is refused, or it goes through.
    method Write(e: Event) returns (ok: bool)
      requires Valid() && (Written(store, e).Some? ==> Possible(store, e))
      modifies this
      ensures Valid() && ok == Written(old(store), e).Some?
      ensures store == if ok then Step(old(store), e) else old(store)
      ensures old(store).versions <= store.versions
    {
      StepKeepsInv(store, e);
      BudgetKept(store, e);
      StepKeepsCurrent(store, e);
      ok := Written(store, e).Some?;
      store := Step(store, e);
    }

    /**
     Candidates in the order listed, one conditional write each, until a lease goes
     through, while other callers write in between.  The listing may be stale; the
     job leased carries this worker's token, and every job stays in its budget.
     */
    method Lease(listed: seq<Candidate>, others: seq<seq<Event>>, q: Request) returns (r: Result<Option<string>, QueueError>)
      requires Valid() && |q.tokens| == |listed| == |others| && Fresh(store, others, q.tokens)
      requires forall k :: 0 <= k < |listed| ==> Version(listed[k].id, listed[k].record) in store.versions
      modifies this
      ensures Valid()
      ensures r.Err? <==> Blank(q.cell) || q.duration <= 0
      ensures r.Err? ==> store == old(store)
      ensures r.Ok? ==> Leasing(store, r.value) == LeaseAmong(old(store), listed, |listed|, others, q)
      ensures r.Ok? && r.value.Some? ==> exists k :: 0 <= k < |listed| && LeasedTo(store, r.value.value, q, q.tokens[k])
    {
      hide Claim, Offers, Exhausted, Inv, InBudget, Written, Step, Possible, Current;
      if Blank(q.cell) || q.duration <= 0 {
        return Err(InvalidLease);
      }
      ghost var before := store;
      for n := 0 to |listed|
        invariant Valid() && Unused(store, q.tokens, n) && before.versions <= store.versions
        invariant Leasing(store, None) == LeaseAmong(before, listed, n, others, q)
      {
        var c := listed[n];
        OthersLeaveUnused(store, others[n], q.tokens, n);
        OthersWrite(others[n]);
        if Offers(c, q) {
          var e := ClaimOf(c, q, n);
          ghost var now := store;
          MayWrite(now, c, q, n);
          var ok := Write(e);
          if ok && !Exhausted(c.record, q.at) {
            ClaimLeases(now, c, q, n);
            LeasedStays(before, listed, n + 1, |listed|, others, q);
            return Ok(Some(c.id));
          }
          OneTokenUsed(now, store, e, q.tokens, n);
        }
      }
      r := Ok(None);
    }

    /** Read, check the lease, and write on condition that nobody moved the job in between. */
    method Transition(id: string, token: string, readAt: int, between: seq<Event>, at: int, verdict: J.Verdict, retryAt: int)
      returns (r: Result<bool, QueueError>)
      requires Valid()
      modifies this
      ensures Valid()
      ensures r.Ok? <==> id in old(store).rows
                         && Settle(Run(old(store), between).rows, id, old(store).rows[id], token, readAt, at, verdict, retryAt).Some?
      ensures r.Ok? ==> Some(store.rows) == Settle(Run(old(store), between).rows, id, old(store).rows[id], token, readAt, at, verdict, retryAt)
      ensures r.Err? ==> store == if r.error == LeaseLost then old(store) else Run(old(store), between)
    {
      hide Inv, InBudget;
      if id !in store.rows || !HoldsLease(store.rows[id], token, readAt) {
        return Err(LeaseLost);
      }
      var job := store.rows[id];
      OthersWrite(between);
      var ok := Write(Settling(id, job, token, readAt, at, verdict, retryAt));
      r := if ok then Ok(true) else Err(Conflict);
    }

    method Recover(id: string, between: seq<Event>, availableAt: int) returns (r: Result<bool, QueueError>)
      requires Valid()
      modifies this
      ensures Valid()
      ensures r.Ok? <==> id in old(store).rows
                         && DynamoJobs.Recover(Run(old(store), between).rows, id, old(store).rows[id], availableAt).Some?
      ensures r.Ok? ==> Some(store.rows) == DynamoJobs.Recover(Run(old(store), between).rows, id, old(store).rows[id], availableAt)
      ensures r.Err? ==> store == if r.error == NotRecoverable then old(store) else Run(old(store), between)
    {
      hide Inv, InBudget;
      if id !in store.rows || (store.rows[id].state != RetryScheduled && store.rows[id].state != DeadLettered) {
        return Err(NotRecoverable);
      }
      var job := store.rows[id];
      OthersWrite(between);
      var ok := Write(Recovering(id, job, availableAt));
      r := if ok then Ok(true) else Err(Conflict);
    }
  }

  lemma MayWrite(s: Sys, c: Candidate, q: Request, n: nat)
    requires n < |q.tokens| && q.duration > 0 && q.tokens[n] != "" && Unused(s, q.tokens, n) && Version(c.id, c.record) in s.versions
    ensures Possible(s, ClaimOf(c, q, n))
  {
  }

  lemma OneTokenUsed(s: Sys, t: Sys, e: Event, tokens: seq<string>, n: nat)
    requires Inv(s) && n < |tokens| && Unused(s, tokens, n) && e.Claiming? && e.token == tokens[n]
    requires forall j, k :: 0 <= j < k < |tokens| ==> tokens[j] != tokens[k]
    requires t == s || t == Step(s, e)
    ensures Unused(t, tokens, n + 1)
  {
    hide Step, Inv;
    forall id, k | id in t.rows && n + 1 <= k < |tokens| ensures tokens[k] !in t.rows[id].handed {
      if t != s && tokens[k] in t.rows[id].handed {
        StepHands(s, e, id, tokens[k]);
      }
    }
  }
}
