/**
 The SQLite queue (adapters/local/src/index.ts:336-393), statement by statement.
 Leasing is three statements under one timestamp; statements of other processes
 may run between them.
 */
module SqliteJobs {
  import opened Common
  import J = Jobs

  datatype State = Queued | Leased | Completed | RetryScheduled | DeadLettered | Cancelled

  // recoveries and handed are kept for the proofs only; no statement reads them.
  datatype Row = Row(
    cell: string, kind: string, key: string, state: State, attempt: int, max: int, availableAt: int,
    token: Option<string>, expiresAt: Option<int>, recoveries: nat, handed: set<string>)

  type Table = map<string, Row>

  predicate Expired(r: Row, cell: string, at: int) {
    r.cell == cell && r.state == Leased && r.expiresAt.Some? && r.expiresAt.value <= at
  }

  /** Expired leases whose attempts are used up. */
  function DeadLetterExhausted(rows: Table, cell: string, at: int): Table {
    map id | id in rows ::
      if Expired(rows[id], cell, at) && rows[id].attempt >= rows[id].max
      then rows[id].(state := DeadLettered, token := None, expiresAt := None) else rows[id]
  }

  /** The other expired leases. */
  function Reschedule(rows: Table, cell: string, at: int): Table {
    map id | id in rows ::
      if Expired(rows[id], cell, at)
      then rows[id].(state := RetryScheduled, availableAt := at, token := None, expiresAt := None) else rows[id]
  }

  predicate Waiting(r: Row) {
    r.state == Queued || r.state == RetryScheduled
  }

  predicate Claimable(r: Row, cell: string, at: int, kinds: seq<string>) {
    r.cell == cell && Waiting(r) && r.availableAt <= at && (kinds == [] || r.kind in kinds)
  }

  predicate IdBefore(a: string, b: string) {
    if b == "" then false
    else if a == "" then true
    else a[0] < b[0] || (a[0] == b[0] && IdBefore(a[1..], b[1..]))
  }

  predicate Earlier(rows: Table, a: string, b: string)
    requires a in rows && b in rows
  {
    rows[a].availableAt < rows[b].availableAt || (rows[a].availableAt == rows[b].availableAt && IdBefore(a, b))
  }

  /** The row ORDER BY available_at, id LIMIT 1 picks. */
  ghost predicate IsFirst(rows: Table, cell: string, at: int, kinds: seq<string>, id: string) {
    && id in rows && Claimable(rows[id], cell, at, kinds)
    && forall other :: other in rows && Claimable(rows[other], cell, at, kinds) && other != id ==> Earlier(rows, id, other)
  }

  function ClaimRow(r: Row, token: string, expiresAt: int): Row {
    r.(state := Leased, attempt := r.attempt + 1, token := Some(token), expiresAt := Some(expiresAt), handed := r.handed + {token})
  }

  predicate HoldsLease(r: Row, token: string, at: int) {
    r.state == Leased && r.token == Some(token) && r.expiresAt.Some? && r.expiresAt.value > at
  }

  function StateAfter(r: Row, verdict: J.Verdict): State {
    match verdict
    case Done => Completed
    case Failed => DeadLettered
    case TryAgain => if r.attempt >= r.max then DeadLettered else RetryScheduled
  }

  function SettleRow(r: Row, verdict: J.Verdict, retryAt: int): Row {
    var state := StateAfter(r, verdict);
    r.(state := state, availableAt := if state == RetryScheduled then retryAt else r.availableAt, token := None, expiresAt := None)
  }

  function Transition(rows: Table, id: string, token: string, at: int, verdict: J.Verdict, retryAt: int): Option<Table> {
    if id in rows && HoldsLease(rows[id], token, at) then Some(rows[id := SettleRow(rows[id], verdict, retryAt)]) else None
  }

  // Cancelling leaves the token and the expiry in the row.
  function Cancel(rows: Table, id: string): Table {
    if id in rows then rows[id := rows[id].(state := Cancelled)] else rows
  }

  function Recover(rows: Table, id: string, availableAt: int): Option<Table> {
    if id in rows && (rows[id].state == RetryScheduled || rows[id].state == DeadLettered)
    then Some(rows[id := rows[id].(state := Queued, availableAt := availableAt, token := None, expiresAt := None,
                                   recoveries := rows[id].recoveries + 1)])
    else None
  }

  predicate KeyTaken(rows: Table, cell: string, key: string) {
    exists id :: id in rows && rows[id].cell == cell && rows[id].key == key
  }

  function Enqueue(rows: Table, id: string, cell: string, kind: string, key: string, max: int, availableAt: int): Table {
    if KeyTaken(rows, cell, key) || id in rows then rows
    else rows[id := Row(cell, kind, key, Queued, 0, max, availableAt, None, None, 0, {})]
  }

  // --------------------------------------------------------------- processes

  // A lease call under way: how many of its statements have run.
  datatype Call = Call(cell: string, at: int, stage: nat)

  datatype Sys = Sys(rows: Table, calls: map<nat, Call>)

  datatype Event =
    | Start(call: nat, cell: string, at: int)
    | First(call: nat)
    | Second(call: nat)
    | Third(call: nat, id: string, token: string, duration: int, kinds: seq<string>)
    | Settling(job: string, presented: string, now: int, verdict: J.Verdict, retryAt: int)
    | Cancelling(job: string)
    | Recovering(job: string, availableAt: int)
    | Enqueuing(job: string, cell: string, kind: string, key: string, max: int, availableAt: int)

  predicate AtStage(s: Sys, call: nat, stage: nat) {
    call in s.calls && s.calls[call].stage == stage
  }

  function Advance(s: Sys, call: nat): map<nat, Call>
    requires call in s.calls
  {
    s.calls[call := s.calls[call].(stage := s.calls[call].stage + 1)]
  }

  /** The third statement claims the first claimable row under a token never used before. */
  ghost predicate MayClaim(s: Sys, e: Event)
    requires e.Third?
  {
    && AtStage(s, e.call, 2) && e.duration > 0
    && IsFirst(s.rows, s.calls[e.call].cell, s.calls[e.call].at, e.kinds, e.id)
    && forall id :: id in s.rows ==> e.token !in s.rows[id].handed
  }

  ghost function Step(s: Sys, e: Event): Sys {
    match e
    case Start(call, cell, at) => if call in s.calls then s else s.(calls := s.calls[call := Call(cell, at, 0)])
    case First(call) =>
      if AtStage(s, call, 0) then Sys(DeadLetterExhausted(s.rows, s.calls[call].cell, s.calls[call].at), Advance(s, call)) else s
    case Second(call) =>
      if AtStage(s, call, 1) then Sys(Reschedule(s.rows, s.calls[call].cell, s.calls[call].at), Advance(s, call)) else s
    case Third(call, id, token, duration, kinds) =>
      if MayClaim(s, e) then Sys(s.rows[id := ClaimRow(s.rows[id], token, s.calls[call].at + duration)], Advance(s, call)) else s
    case Settling(job, token, now, verdict, retryAt) =>
      var settled := Transition(s.rows, job, token, now, verdict, retryAt);
      if settled.Some? then s.(rows := settled.value) else s
    case Cancelling(job) => s.(rows := Cancel(s.rows, job))
    case Recovering(job, availableAt) =>
      var recovered := Recover(s.rows, job, availableAt);
      if recovered.Some? then s.(rows := recovered.value) else s
    case Enqueuing(job, cell, kind, key, max, availableAt) =>
      s.(rows := Enqueue(s.rows, job, cell, kind, key, max, availableAt))
  }

  ghost function Run(s: Sys, events: seq<Event>): Sys
    decreases |events|
  {
    if events == [] then s else Run(Step(s, events[0]), events[1..])
  }

  const EMPTY := Sys(map[], map[])

  // --------------------------------------------------------------- refinement

  function PhaseOf(r: Row): J.Phase {
    match r.state
    case Queued => J.Queued
    case Leased => J.Leased(if r.token.Some? then r.token.value else "")
    case Completed => J.Completed
    case RetryScheduled => J.Retrying
    case DeadLettered => J.DeadLettered
    case Cancelled => J.Cancelled
  }

  function JobOf(r: Row): J.Job {
    J.Job(PhaseOf(r), r.attempt, r.max, r.recoveries, r.handed)
  }

  ghost predicate RowOk(r: Row) {
    r.state == Leased ==> r.token.Some? && r.expiresAt.Some? && r.token.value in r.handed
  }

  ghost predicate RowsOk(rows: Table) {
    forall id :: id in rows ==> RowOk(rows[id])
  }

  /** The label a statement has for one job. */
  ghost function LabelFor(s: Sys, e: Event, id: string): J.Label
    requires id in s.rows
  {
    var r := s.rows[id];
    match e
    case Start(_, _, _) => J.Nothing
    case First(call) =>
      if AtStage(s, call, 0) && Expired(r, s.calls[call].cell, s.calls[call].at) && r.attempt >= r.max then J.Expire(true) else J.Nothing
    case Second(call) =>
      if AtStage(s, call, 1) && Expired(r, s.calls[call].cell, s.calls[call].at) then J.Expire(false) else J.Nothing
    case Third(call, job, token, _, _) => if MayClaim(s, e) && job == id then J.Hand(token) else J.Nothing
    case Settling(job, token, now, verdict, _) => if job == id && HoldsLease(r, token, now) then J.Settle(token, verdict) else J.Nothing
    case Cancelling(job) => if job == id then J.Stop else J.Nothing
    case Recovering(job, _) =>
      if job == id && (r.state == RetryScheduled || r.state == DeadLettered) then J.Revive else J.Nothing
    case Enqueuing(_, _, _, _, _, _) => J.Nothing
  }

  /** Every statement is a step of the lease machine for every job. */
  lemma StatementRefines(s: Sys, e: Event, id: string)
    requires RowsOk(s.rows) && id in s.rows
    ensures id in Step(s, e).rows
    ensures J.Next(JobOf(s.rows[id]), LabelFor(s, e, id), JobOf(Step(s, e).rows[id]))
  {
    assert RowOk(s.rows[id]);
  }

  lemma StatementKeepsRows(s: Sys, e: Event)
    requires RowsOk(s.rows)
    ensures RowsOk(Step(s, e).rows)
  {
  }

  // --------------------------------------------------------------- the retry budget

  /** No expired lease has used up its attempts. */
  ghost predicate NoneExhausted(rows: Table, cell: string, at: int) {
    forall id :: id in rows && Expired(rows[id], cell, at) ==> rows[id].attempt < rows[id].max
  }

  lemma LabelsKeepBudget(s: Sys, e: Event, id: string)
    requires RowsOk(s.rows) && id in s.rows
    ensures J.InBudget(JobOf(s.rows[id]), LabelFor(s, e, id)) <==>
              (e.Second? && AtStage(s, e.call, 1) && Expired(s.rows[id], s.calls[e.call].cell, s.calls[e.call].at) ==>
                 s.rows[id].attempt < s.rows[id].max)
  {
  }

  /** A claim is never born expired for a call that stands between its first two statements. */
  ghost predicate Prompt(s: Sys, e: Event) {
    e.Third? && MayClaim(s, e) ==>
      forall c :: AtStage(s, c, 1) && s.calls[c].cell == s.calls[e.call].cell ==> s.calls[c].at < s.calls[e.call].at + e.duration
  }

  ghost predicate AllPrompt(s: Sys, events: seq<Event>)
    decreases |events|
  {
    events != [] ==> Prompt(s, events[0]) && AllPrompt(Step(s, events[0]), events[1..])
  }

  // What a call's first statement established still holds when its second runs.
  ghost predicate Swept(s: Sys) {
    forall c :: AtStage(s, c, 1) ==> NoneExhausted(s.rows, s.calls[c].cell, s.calls[c].at)
  }

  ghost predicate InBudget(rows: Table) {
    forall id :: id in rows && rows[id].max >= 1 ==> J.WithinBudget(JobOf(rows[id]))
  }

  lemma SweptStays(s: Sys, e: Event)
    requires RowsOk(s.rows) && Swept(s) && Prompt(s, e)
    ensures Swept(Step(s, e))
  {
    var t := Step(s, e);
    forall c | AtStage(t, c, 1) ensures NoneExhausted(t.rows, t.calls[c].cell, t.calls[c].at) {
      forall id | id in t.rows && Expired(t.rows[id], t.calls[c].cell, t.calls[c].at) ensures t.rows[id].attempt < t.rows[id].max {
        if AtStage(s, c, 1) {
          assert NoneExhausted(s.rows, s.calls[c].cell, s.calls[c].at);
        }
      }
    }
  }

  /** No expired lease has used up its attempts and its recoveries. */
  ghost predicate NoneSpent(rows: Table, cell: string, at: int) {
    forall id :: id in rows && Expired(rows[id], cell, at) && rows[id].max >= 1 ==> rows[id].attempt < rows[id].max + rows[id].recoveries
  }

  // What may be rescheduled now without letting a job past its bound.
  ghost predicate MayReschedule(s: Sys, e: Event) {
    e.Second? && AtStage(s, e.call, 1) ==> NoneSpent(s.rows, s.calls[e.call].cell, s.calls[e.call].at)
  }

  lemma JobKeepsBudget(s: Sys, e: Event, id: string)
    requires RowsOk(s.rows) && id in s.rows && J.WithinBudget(JobOf(s.rows[id]))
    requires !(e.Second? && AtStage(s, e.call, 1))
    ensures id in Step(s, e).rows && J.WithinBudget(JobOf(Step(s, e).rows[id]))
  {
    hide Step, LabelFor, J.Next;
    StatementRefines(s, e, id);
    LabelsKeepBudget(s, e, id);
    J.BudgetStep(JobOf(s.rows[id]), LabelFor(s, e, id), JobOf(Step(s, e).rows[id]));
  }

  lemma ReschedulingKeepsBudgetExactly(s: Sys, e: Event, id: string)
    requires RowsOk(s.rows) && id in s.rows && J.WithinBudget(JobOf(s.rows[id]))
    requires e.Second? && AtStage(s, e.call, 1)
    ensures id in Step(s, e).rows
    ensures J.WithinBudget(JobOf(Step(s, e).rows[id])) <==>
              (Expired(s.rows[id], s.calls[e.call].cell, s.calls[e.call].at) ==> s.rows[id].attempt < s.rows[id].max + s.rows[id].recoveries)
  {
  }

  /**
   A statement keeps every job within its attempts and recoveries, with one to
   spare while it waits, if and only if it does not reschedule an expired lease
   that has used them up.
   */
  lemma StatementsKeepBudgetExactly(s: Sys, e: Event)
    requires RowsOk(s.rows) && InBudget(s.rows)
    ensures InBudget(Step(s, e).rows) <==> MayReschedule(s, e)
  {
    hide Step, LabelFor, J.Next, J.WithinBudget;
    var t := Step(s, e);
    forall id | id in t.rows && t.rows[id].max >= 1 ensures (id in s.rows ==> s.rows[id].max == t.rows[id].max)
      && (J.WithinBudget(JobOf(t.rows[id])) <==>
            (e.Second? && AtStage(s, e.call, 1) && id in s.rows && Expired(s.rows[id], s.calls[e.call].cell, s.calls[e.call].at) ==>
               s.rows[id].attempt < s.rows[id].max + s.rows[id].recoveries))
    {
      if id !in s.rows {
        NewRowIsWithin(s, e, id);
      } else {
        MaxStays(s, e, id);
        if e.Second? && AtStage(s, e.call, 1) {
          ReschedulingKeepsBudgetExactly(s, e, id);
        } else {
          JobKeepsBudget(s, e, id);
        }
      }
    }
    forall id | id in s.rows ensures id in t.rows && t.rows[id].max == s.rows[id].max {
      MaxStays(s, e, id);
    }
  }

  ghost predicate BoundedThroughout(s: Sys, events: seq<Event>)
    decreases |events|
  {
    InBudget(s.rows) && (events != [] ==> BoundedThroughout(Step(s, events[0]), events[1..]))
  }

  ghost predicate AllMayReschedule(s: Sys, events: seq<Event>)
    decreases |events|
  {
    events != [] ==> MayReschedule(s, events[0]) && AllMayReschedule(Step(s, events[0]), events[1..])
  }

  lemma {:induction false} RunsStayBoundedExactly(s: Sys, events: seq<Event>)
    requires RowsOk(s.rows) && InBudget(s.rows)
    ensures BoundedThroughout(s, events) <==> AllMayReschedule(s, events)
    decreases |events|
  {
    hide Step, InBudget, RowsOk, MayReschedule;
    if events != [] {
      StatementsKeepBudgetExactly(s, events[0]);
      StatementKeepsRows(s, events[0]);
      if InBudget(Step(s, events[0]).rows) {
        RunsStayBoundedExactly(Step(s, events[0]), events[1..]);
      }
    }
  }

  /**
   Through any run of any number of processes every job stays within its attempts
   and recoveries if and only if no call reschedules an expired lease that has
   used them up, as a late claim can leave one between its first two statements.
   */
  lemma AttemptsAreBoundedExactly(events: seq<Event>)
    ensures BoundedThroughout(EMPTY, events) <==> AllMayReschedule(EMPTY, events)
  {
    RunsStayBoundedExactly(EMPTY, events);
  }

  lemma BudgetKept(s: Sys, e: Event)
    requires RowsOk(s.rows) && Swept(s) && InBudget(s.rows)
    ensures InBudget(Step(s, e).rows)
  {
    hide Step;
    StatementsKeepBudgetExactly(s, e);
  }

  lemma MaxStays(s: Sys, e: Event, id: string)
    requires id in s.rows
    ensures id in Step(s, e).rows && Step(s, e).rows[id].max == s.rows[id].max
  {
  }

  lemma NewRowIsWithin(s: Sys, e: Event, id: string)
    requires id !in s.rows && id in Step(s, e).rows && Step(s, e).rows[id].max >= 1
    ensures J.WithinBudget(JobOf(Step(s, e).rows[id])) && !e.Second?
  {
  }

  lemma {:induction false} RunKeepsBudget(s: Sys, events: seq<Event>)
    requires RowsOk(s.rows) && Swept(s) && InBudget(s.rows) && AllPrompt(s, events)
    ensures InBudget(Run(s, events).rows)
    decreases |events|
  {
    hide Step, Prompt, InBudget, Swept, RowsOk;
    if events != [] {
      StatementKeepsRows(s, events[0]);
      SweptStays(s, events[0]);
      BudgetKept(s, events[0]);
      RunKeepsBudget(Step(s, events[0]), events[1..]);
    }
  }

  /** However processes interleave, prompt claims keep every job within its attempts and recoveries. */
  lemma AttemptsAreBounded(events: seq<Event>, id: string)
    requires AllPrompt(EMPTY, events) && id in Run(EMPTY, events).rows && Run(EMPTY, events).rows[id].max >= 1
    ensures var r := Run(EMPTY, events).rows[id];
            && r.attempt <= r.max + r.recoveries
            && (Waiting(r) ==> r.attempt < r.max + r.recoveries)
  {
    RunKeepsBudget(EMPTY, events);
  }

  // A job of one attempt, waiting; leased by the slow process until time 10; and scheduled again.
  const WAITING := Row("cell", "kind", "key", Queued, 0, 1, 0, None, None, 0, {})

  function LeasedLate(a: string): Row {
    WAITING.(state := Leased, attempt := 1, token := Some(a), expiresAt := Some(10), handed := {a})
  }

  function ScheduledAgain(a: string): Row {
    LeasedLate(a).(state := RetryScheduled, availableAt := 100, token := None, expiresAt := None)
  }

  /** A slow process's claim lands between the first two statements of a faster one. */
  function LateClaim(id: string, a: string, b: string): seq<Event> {
    [Enqueuing(id, "cell", "kind", "key", 1, 0), Start(0, "cell", 0), First(0), Second(0),
     Start(1, "cell", 100), First(1), Third(0, id, a, 10, []), Second(1), Third(1, id, b, 10, [])]
  }

  lemma SweepsOneRow(id: string, r: Row, at: int)
    ensures DeadLetterExhausted(map[id := r], "cell", at)
         == map[id := if Expired(r, "cell", at) && r.attempt >= r.max then r.(state := DeadLettered, token := None, expiresAt := None) else r]
    ensures Reschedule(map[id := r], "cell", at)
         == map[id := if Expired(r, "cell", at) then r.(state := RetryScheduled, availableAt := at, token := None, expiresAt := None) else r]
  {
  }

  lemma ClaimsOneRow(s: Sys, e: Event, r: Row)
    requires e.Third? && s.rows == map[e.id := r] && AtStage(s, e.call, 2) && e.duration > 0
    requires Claimable(r, s.calls[e.call].cell, s.calls[e.call].at, e.kinds) && e.token !in r.handed
    ensures Step(s, e) == Sys(map[e.id := ClaimRow(r, e.token, s.calls[e.call].at + e.duration)], Advance(s, e.call))
  {
  }

  // The slow call is ready to claim and the fast one has swept.
  lemma BeforeTheLateClaim(id: string, a: string, b: string)
    ensures Run(EMPTY, LateClaim(id, a, b)[..6]) == Sys(map[id := WAITING], map[0 := Call("cell", 0, 2), 1 := Call("cell", 100, 1)])
  {
    var e := LateClaim(id, a, b)[..6];
    var s1 := Sys(map[id := WAITING], map[]);
    var s2 := Sys(map[id := WAITING], map[0 := Call("cell", 0, 0)]);
    var s3 := Sys(map[id := WAITING], map[0 := Call("cell", 0, 1)]);
    var s4 := Sys(map[id := WAITING], map[0 := Call("cell", 0, 2)]);
    var s5 := Sys(map[id := WAITING], map[0 := Call("cell", 0, 2), 1 := Call("cell", 100, 0)]);
    var s6 := Sys(map[id := WAITING], map[0 := Call("cell", 0, 2), 1 := Call("cell", 100, 1)]);
    SweepsOneRow(id, WAITING, 0);
    SweepsOneRow(id, WAITING, 100);
    assert Step(EMPTY, e[0]) == s1;
    assert Step(s1, e[1]) == s2;
    assert Step(s2, e[2]) == s3;
    assert Step(s3, e[3]) == s4;
    assert Step(s4, e[4]) == s5;
    assert Step(s5, e[5]) == s6;
    RunSteps(e, [EMPTY, s1, s2, s3, s4, s5, s6], 0);
    assert e[0..] == e;
  }

  lemma AfterTheLateClaim(id: string, a: string, b: string)
    requires a != b
    ensures var s := Sys(map[id := WAITING], map[0 := Call("cell", 0, 2), 1 := Call("cell", 100, 1)]);
            var t := Run(s, LateClaim(id, a, b)[6..]);
            id in t.rows && t.rows[id] == ClaimRow(ScheduledAgain(a), b, 110)
  {
    var e := LateClaim(id, a, b)[6..];
    var s6 := Sys(map[id := WAITING], map[0 := Call("cell", 0, 2), 1 := Call("cell", 100, 1)]);
    ClaimsOneRow(s6, e[0], WAITING);
    assert ClaimRow(WAITING, a, 10) == LeasedLate(a) by { assert {} + {a} == {a}; }
    var s7 := Step(s6, e[0]);
    SweepsOneRow(id, LeasedLate(a), 100);
    var s8 := Step(s7, e[1]);
    ClaimsOneRow(s8, e[2], ScheduledAgain(a));
    RunSteps(e, [s6, s7, s8, Step(s8, e[2])], 0);
    assert e[0..] == e;
  }

  lemma {:induction false} RunSplit(s: Sys, events: seq<Event>, n: nat)
    requires n <= |events|
    ensures Run(s, events) == Run(Run(s, events[..n]), events[n..])
    decreases n
  {
    if n == 0 {
      assert events[..0] == [] && events[0..] == events;
    } else {
      RunSplit(Step(s, events[0]), events[1..], n - 1);
      assert events[..n][1..] == events[1..][..n - 1] && events[1..][n - 1..] == events[n..];
    }
  }

  /**
   Without promptness the bound fails: the late claim is already expired for the
   faster call, which schedules the exhausted job and leases it once more.
   */
  lemma LateClaimBreaksTheBound(id: string, a: string, b: string)
    requires a != b
    ensures var rows := Run(EMPTY, LateClaim(id, a, b)).rows;
            id in rows && rows[id].max == 1 && rows[id].recoveries == 0 && rows[id].attempt == 2
  {
    RunSplit(EMPTY, LateClaim(id, a, b), 6);
    BeforeTheLateClaim(id, a, b);
    AfterTheLateClaim(id, a, b);
  }

  lemma {:induction false} RunSteps(events: seq<Event>, states: seq<Sys>, i: nat)
    requires |states| == |events| + 1 && i <= |events|
    requires forall k :: 0 <= k < |events| ==> states[k + 1] == Step(states[k], events[k])
    ensures Run(states[i], events[i..]) == states[|events|]
    decreases |events| - i
  {
    if i < |events| {
      RunSteps(events, states, i + 1);
      assert events[i..][1..] == events[i + 1..];
    }
  }

  // --------------------------------------------------------------- fencing

  ghost predicate Displaced(s: Sys, id: string, token: string) {
    id in s.rows && J.Displaced(JobOf(s.rows[id]), token)
  }

  /**
   A worker whose lease was swept, settled, cancelled or taken over can never
   settle the job again, whatever statements interleave.
   */
  lemma {:induction false} DisplacedNeverSettles(s: Sys, events: seq<Event>, id: string, token: string, now: int, verdict: J.Verdict, retryAt: int)
    requires RowsOk(s.rows) && Displaced(s, id, token)
    ensures Displaced(Run(s, events), id, token)
    ensures Transition(Run(s, events).rows, id, token, now, verdict, retryAt).None?
    decreases |events|
  {
    hide Step, LabelFor, J.Next;
    if events != [] {
      StatementRefines(s, events[0], id);
      J.DisplacedStep(JobOf(s.rows[id]), LabelFor(s, events[0], id), JobOf(Step(s, events[0]).rows[id]), token);
      StatementKeepsRows(s, events[0]);
      DisplacedNeverSettles(Step(s, events[0]), events[1..], id, token, now, verdict, retryAt);
    }
  }

  /** A token that settled a job settles it no second time, whatever statements follow. */
  lemma TokensSettleOnce(s: Sys, e: Event, events: seq<Event>, now: int, verdict: J.Verdict, retryAt: int)
    requires RowsOk(s.rows) && e.Settling? && Transition(s.rows, e.job, e.presented, e.now, e.verdict, e.retryAt).Some?
    ensures Transition(Run(Step(s, e), events).rows, e.job, e.presented, now, verdict, retryAt).None?
  {
    StatementKeepsRows(s, e);
    assert RowOk(s.rows[e.job]);
    DisplacedNeverSettles(Step(s, e), events, e.job, e.presented, now, verdict, retryAt);
  }

  /** A completed or cancelled job is never leased, retried or recovered again. */
  lemma {:induction false} OverIsForGood(s: Sys, events: seq<Event>, id: string)
    requires RowsOk(s.rows) && id in s.rows && J.Over(PhaseOf(s.rows[id]))
    ensures id in Run(s, events).rows && J.Over(PhaseOf(Run(s, events).rows[id])) && Run(s, events).rows[id].attempt == s.rows[id].attempt
    decreases |events|
  {
    hide Step, LabelFor, J.Next;
    if events != [] {
      StatementRefines(s, events[0], id);
      J.OverStep(JobOf(s.rows[id]), LabelFor(s, events[0], id), JobOf(Step(s, events[0]).rows[id]));
      StatementKeepsRows(s, events[0]);
      OverIsForGood(Step(s, events[0]), events[1..], id);
    }
  }
}
