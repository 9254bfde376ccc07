/**
 The DynamoDB queue (adapters/aws/src/index.ts:310-389).  Every change is one
 conditional write of a whole record that some earlier read returned; listings
 and reads may be stale by the time the write arrives.
 */
module DynamoJobs {
  import opened Common
  import J = Jobs

  datatype State = Queued | Leased | Completed | RetryScheduled | DeadLettered | Cancelled

  datatype Owner = Owner(worker: string, token: string)

  // recoveries and handed are kept for the proofs only; no condition reads them.
  datatype Record = Record(
    cell: string, kind: string, state: State, attempt: int, max: int, availableAt: int, expiresAt: Option<int>,
    owner: Option<Owner>, revision: int, recoveries: nat, handed: set<string>)

  type Table = map<string, Record>

  predicate Waiting(r: Record) {
    r.state == Queued || r.state == RetryScheduled
  }

  // --------------------------------------------------------------- leasing

  predicate Offered(r: Record, cell: string, kinds: seq<string>) {
    r.cell == cell && (kinds == [] || r.kind in kinds)
  }

  predicate Expired(r: Record, at: int) {
    r.state == Leased && r.expiresAt.Some? && r.expiresAt.value <= at
  }

  predicate Available(r: Record, at: int) {
    Waiting(r) && r.availableAt <= at
  }

  predicate Exhausted(r: Record, at: int) {
    Expired(r, at) && r.attempt >= r.max
  }

  /** The record written over a candidate: dead-lettered when its attempts are used up, otherwise leased. */
  function Claimed(r: Record, at: int, duration: int, worker: string, token: string): Record {
    if Exhausted(r, at) then r.(state := DeadLettered, expiresAt := None, revision := r.revision + 1)
    else r.(state := Leased, attempt := r.attempt + 1, expiresAt := Some(at + duration), owner := Some(Owner(worker, token)),
            revision := r.revision + 1, handed := r.handed + {token})
  }

  function Due(r: Record, expired: bool): Option<int> {
    if expired then r.expiresAt else Some(r.availableAt)
  }

  /** The condition of the claiming write, against the record now in the table. */
  predicate ClaimHolds(rows: Table, id: string, candidate: Record, at: int) {
    && id in rows && rows[id].revision == candidate.revision && rows[id].cell == candidate.cell && rows[id].state == candidate.state
    && Due(rows[id], Expired(candidate, at)).Some? && Due(rows[id], Expired(candidate, at)).value <= at
  }

  function Claim(rows: Table, id: string, candidate: Record, at: int, duration: int, worker: string, token: string): Option<Table> {
    if (Expired(candidate, at) || Available(candidate, at)) && ClaimHolds(rows, id, candidate, at)
    then Some(rows[id := Claimed(candidate, at, duration, worker, token)]) else None
  }

  // --------------------------------------------------------------- settling

  predicate HoldsLease(r: Record, token: string, at: int) {
    r.state == Leased && token != "" && r.owner.Some? && r.owner.value.token == token && r.expiresAt.Some? && r.expiresAt.value > at
  }

  function StateAfter(r: Record, verdict: J.Verdict): State {
    match verdict
    case Done => Completed
    case Failed => DeadLettered
    case TryAgain => if r.attempt >= r.max then DeadLettered else RetryScheduled
  }

  function Settled(r: Record, verdict: J.Verdict, retryAt: int): Record {
    var state := StateAfter(r, verdict);
    r.(state := state, availableAt := if state == RetryScheduled then retryAt else r.availableAt, expiresAt := None, revision := r.revision + 1)
  }

  /** A job read at one time, found to hold the lease, and written at a later one. */
  function Settle(rows: Table, id: string, read: Record, token: string, readAt: int, at: int, verdict: J.Verdict, retryAt: int): Option<Table> {
    if HoldsLease(read, token, readAt) && id in rows && rows[id].revision == read.revision && rows[id].state == Leased
       && rows[id].owner == read.owner && rows[id].expiresAt.Some? && rows[id].expiresAt.value > at
    then Some(rows[id := Settled(read, verdict, retryAt)]) else None
  }

  function Cancel(rows: Table, id: string, read: Record): Option<Table> {
    if id in rows && rows[id].revision == read.revision
    then Some(rows[id := rows[id].(state := Cancelled, expiresAt := None, revision := read.revision + 1)]) else None
  }

  function Recover(rows: Table, id: string, read: Record, availableAt: int): Option<Table> {
    if (read.state == RetryScheduled || read.state == DeadLettered) && id in rows && rows[id].revision == read.revision
    then Some(rows[id := rows[id].(state := Queued, availableAt := availableAt, expiresAt := None, revision := read.revision + 1,
                                   recoveries := rows[id].recoveries + 1)])
    else None
  }

  function Enqueue(rows: Table, id: string, cell: string, kind: string, max: int, availableAt: int): Table {
    if id in rows then rows else rows[id := Record(cell, kind, Queued, 0, max, availableAt, None, None, 1, 0, {})]
  }

  // --------------------------------------------------------------- any number of processes

  datatype Version = Version(id: string, record: Record)

  // The table, and every version of a record it ever held: what a stale read may return.
  datatype Sys = Sys(rows: Table, versions: set<Version>)

  datatype Event =
    | Claiming(id: string, read: Record, at: int, duration: int, worker: string, token: string)
    | Settling(id: string, read: Record, token: string, readAt: int, at: int, verdict: J.Verdict, retryAt: int)
    | Cancelling(id: string, read: Record)
    | Recovering(id: string, read: Record, availableAt: int)
    | Enqueuing(id: string, cell: string, kind: string, max: int, availableAt: int)

  // Reads return something that was stored, and tokens are drawn anew.
  predicate Possible(s: Sys, e: Event) {
    && (!e.Enqueuing? ==> Version(e.id, e.read) in s.versions)
    && (e.Claiming? ==> e.duration > 0 && e.token != "" && forall id :: id in s.rows ==> e.token !in s.rows[id].handed)
  }

  function Written(s: Sys, e: Event): Option<Table> {
    match e
    case Claiming(id, read, at, duration, worker, token) => Claim(s.rows, id, read, at, duration, worker, token)
    case Settling(id, read, token, readAt, at, verdict, retryAt) => Settle(s.rows, id, read, token, readAt, at, verdict, retryAt)
    case Cancelling(id, read) => Cancel(s.rows, id, read)
    case Recovering(id, read, availableAt) => Recover(s.rows, id, read, availableAt)
    case Enqueuing(id, cell, kind, max, availableAt) => Some(Enqueue(s.rows, id, cell, kind, max, availableAt))
  }

  function Step(s: Sys, e: Event): Sys {
    if !Possible(s, e) || Written(s, e).None? then s
    else Sys(Written(s, e).value, s.versions + {Version(e.id, Written(s, e).value[e.id])})
  }

  lemma WrittenHasIt(s: Sys, e: Event)
    requires Written(s, e).Some?
    ensures e.id in Written(s, e).value
  {
  }

  function Run(s: Sys, events: seq<Event>): Sys
    decreases |events|
  {
    if events == [] then s else Run(Step(s, events[0]), events[1..])
  }

  const EMPTY := Sys(map[], {})

  // --------------------------------------------------------------- stale reads

  /** A version with the revision now stored is the record now stored. */
  ghost predicate VersionOk(s: Sys, v: Version) {
    v in s.versions ==>
      && v.id in s.rows && v.record.revision <= s.rows[v.id].revision
      && (v.record.revision == s.rows[v.id].revision ==> v.record == s.rows[v.id])
  }

  ghost predicate RecordOk(r: Record) {
    r.state == Leased ==> r.owner.Some? && r.expiresAt.Some? && r.owner.value.token in r.handed
  }

  ghost predicate Inv(s: Sys) {
    && (forall v :: VersionOk(s, v))
    && (forall id :: id in s.rows ==> RecordOk(s.rows[id]))
  }

  /** A write that goes through writes over exactly the record it read. */
  lemma WritesSeeTheirRead(s: Sys, e: Event)
    requires Inv(s) && Possible(s, e) && !e.Enqueuing? && Written(s, e).Some?
    ensures e.id in s.rows && s.rows[e.id] == e.read
  {
    assert VersionOk(s, Version(e.id, e.read));
  }

  lemma OnlyItsRecord(s: Sys, e: Event, id: string)
    requires Written(s, e).Some? && id != e.id
    ensures id in Written(s, e).value <==> id in s.rows
    ensures id in s.rows ==> Written(s, e).value[id] == s.rows[id]
  {
  }

  lemma RevisionRises(s: Sys, e: Event)
    requires Inv(s) && Possible(s, e) && Written(s, e).Some? && e.id in s.rows && Written(s, e).value[e.id] != s.rows[e.id]
    ensures Written(s, e).value[e.id].revision == s.rows[e.id].revision + 1
  {
  }

  lemma StepKeepsInv(s: Sys, e: Event)
    requires Inv(s)
    ensures Inv(Step(s, e))
  {
    if Possible(s, e) && Written(s, e).Some? {
      var t := Step(s, e);
      WrittenHasIt(s, e);
      forall v ensures VersionOk(t, v) {
        assert VersionOk(s, v);
        if v in t.versions && v.id != e.id {
          OnlyItsRecord(s, e, v.id);
        } else if v in s.versions && v.id == e.id && t.rows[e.id] != s.rows[e.id] {
          RevisionRises(s, e);
        }
      }
      forall id | id in t.rows ensures RecordOk(t.rows[id]) {
        if id != e.id {
          OnlyItsRecord(s, e, id);
        } else if !e.Enqueuing? {
          WritesSeeTheirRead(s, e);
        }
      }
    }
  }

  // --------------------------------------------------------------- refinement

  function PhaseOf(r: Record): J.Phase {
    match r.state
    case Queued => J.Queued
    case Leased => J.Leased(if r.owner.Some? then r.owner.value.token else "")
    case Completed => J.Completed
    case RetryScheduled => J.Retrying
    case DeadLettered => J.DeadLettered
    case Cancelled => J.Cancelled
  }

  function JobOf(r: Record): J.Job {
    J.Job(PhaseOf(r), r.attempt, r.max, r.recoveries, r.handed)
  }

  ghost function LabelFor(s: Sys, e: Event, id: string): J.Label {
    if !Possible(s, e) || Written(s, e).None? || e.id != id then J.Nothing
    else
      match e
      case Claiming(_, read, at, _, _, token) => if Exhausted(read, at) then J.Expire(true) else J.Hand(token)
      case Settling(_, _, token, _, _, verdict, _) => J.Settle(token, verdict)
      case Cancelling(_, _) => J.Stop
      case Recovering(_, _, _) => J.Revive
      case Enqueuing(_, _, _, _, _) => J.Nothing
  }

  /** Every write, from however stale a read, is a step of the lease machine within its budget. */
  lemma WriteRefines(s: Sys, e: Event, id: string)
    requires Inv(s) && id in s.rows
    ensures id in Step(s, e).rows
    ensures J.Next(JobOf(s.rows[id]), LabelFor(s, e, id), JobOf(Step(s, e).rows[id]))
    ensures J.InBudget(JobOf(s.rows[id]), LabelFor(s, e, id))
  {
    if Possible(s, e) && Written(s, e).Some? {
      WrittenHasIt(s, e);
      if id != e.id {
        OnlyItsRecord(s, e, id);
      } else if !e.Enqueuing? {
        WritesSeeTheirRead(s, e);
      }
    }
  }

  ghost predicate InBudget(rows: Table) {
    forall id :: id in rows && rows[id].max >= 1 ==> J.WithinBudget(JobOf(rows[id]))
  }

  lemma NewRecord(s: Sys, e: Event, id: string)
    requires id !in s.rows && id in Step(s, e).rows
    ensures Step(s, e).rows[id].attempt == 0 && Step(s, e).rows[id].state == Queued && Step(s, e).rows[id].recoveries == 0
  {
  }

  lemma MaxStays(a: J.Job, l: J.Label, b: J.Job)
    requires J.Next(a, l, b)
    ensures b.max == a.max
  {
  }

  lemma BudgetKept(s: Sys, e: Event)
    requires Inv(s) && InBudget(s.rows)
    ensures InBudget(Step(s, e).rows)
  {
    hide Step, LabelFor, J.Next, J.InBudget, Inv;
    var t := Step(s, e);
    forall id | id in t.rows && t.rows[id].max >= 1 ensures J.WithinBudget(JobOf(t.rows[id])) {
      if id in s.rows {
        WriteRefines(s, e, id);
        MaxStays(JobOf(s.rows[id]), LabelFor(s, e, id), JobOf(t.rows[id]));
        J.BudgetStep(JobOf(s.rows[id]), LabelFor(s, e, id), JobOf(t.rows[id]));
      } else {
        NewRecord(s, e, id);
      }
    }
  }

  lemma {:induction false} RunKeepsBudget(s: Sys, events: seq<Event>)
    requires Inv(s) && InBudget(s.rows)
    ensures Inv(Run(s, events)) && InBudget(Run(s, events).rows)
    decreases |events|
  {
    hide Step, InBudget, Inv;
    if events != [] {
      StepKeepsInv(s, events[0]);
      BudgetKept(s, events[0]);
      RunKeepsBudget(Step(s, events[0]), events[1..]);
    }
  }

  /** Attempts never exceed the maximum and the recoveries, however stale the listings. */
  lemma AttemptsAreBounded(events: seq<Event>, id: string)
    requires id in Run(EMPTY, events).rows && Run(EMPTY, events).rows[id].max >= 1
    ensures var r := Run(EMPTY, events).rows[id];
            && r.attempt <= r.max + r.recoveries
            && (Waiting(r) ==> r.attempt < r.max + r.recoveries)
  {
    RunKeepsBudget(EMPTY, events);
  }

  ghost predicate Displaced(s: Sys, id: string, token: string) {
    id in s.rows && J.Displaced(JobOf(s.rows[id]), token)
  }

  /** A displaced worker's write never goes through, even one based on a read from when it still held the lease. */
  lemma {:induction false} DisplacedNeverSettles(s: Sys, events: seq<Event>, id: string, token: string, read: Record,
                                                readAt: int, at: int, verdict: J.Verdict, retryAt: int)
    requires Inv(s) && Displaced(s, id, token)
    requires Version(id, read) in Run(s, events).versions
    ensures Displaced(Run(s, events), id, token)
    ensures Settle(Run(s, events).rows, id, read, token, readAt, at, verdict, retryAt).None?
    decreases |events|
  {
    hide Step, LabelFor, J.Next, J.InBudget;
    if events == [] {
      assert VersionOk(s, Version(id, read));
    } else {
      WriteRefines(s, events[0], id);
      J.DisplacedStep(JobOf(s.rows[id]), LabelFor(s, events[0], id), JobOf(Step(s, events[0]).rows[id]), token);
      StepKeepsInv(s, events[0]);
      DisplacedNeverSettles(Step(s, events[0]), events[1..], id, token, read, readAt, at, verdict, retryAt);
    }
  }

  /** A token that settled a job settles it no second time, whatever it had read. */
  lemma TokensSettleOnce(s: Sys, e: Event, events: seq<Event>, read: Record, readAt: int, at: int, verdict: J.Verdict, retryAt: int)
    requires Inv(s) && e.Settling? && Possible(s, e) && Written(s, e).Some?
    requires Version(e.id, read) in Run(Step(s, e), events).versions
    ensures Settle(Run(Step(s, e), events).rows, e.id, read, e.token, readAt, at, verdict, retryAt).None?
  {
    StepKeepsInv(s, e);
    WritesSeeTheirRead(s, e);
    DisplacedNeverSettles(Step(s, e), events, e.id, e.token, read, readAt, at, verdict, retryAt);
  }

  /** A completed or cancelled job is never leased, retried or recovered again. */
  lemma {:induction false} OverIsForGood(s: Sys, events: seq<Event>, id: string)
    requires Inv(s) && id in s.rows && J.Over(PhaseOf(s.rows[id]))
    ensures id in Run(s, events).rows && J.Over(PhaseOf(Run(s, events).rows[id])) && Run(s, events).rows[id].attempt == s.rows[id].attempt
    decreases |events|
  {
    hide Step, LabelFor, J.Next, J.InBudget;
    if events != [] {
      WriteRefines(s, events[0], id);
      J.OverStep(JobOf(s.rows[id]), LabelFor(s, events[0], id), JobOf(Step(s, events[0]).rows[id]));
      StepKeepsInv(s, events[0]);
      OverIsForGood(Step(s, events[0]), events[1..], id);
    }
  }
}
