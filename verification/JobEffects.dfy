/** What the SQLite queue's statements do, on the rows themselves: which job is leased, and how one is settled. */
module SqliteJobEffects {
  import opened Common
  import J = Jobs
  import opened SqliteJobs

  // --------------------------------------------------------------- leasing

  /** The lease of a job of the cell is over by the time. */
  ghost predicate IsOver(r: Row, cell: string, now: int) {
    r.cell == cell && r.state == Leased && r.expiresAt.Some? && r.expiresAt.value <= now
  }

  /** Jobs whose lease is over are dead letters if their attempts are used up, and wait again from now otherwise. */
  function AfterSweeps(rows: Table, cell: string, now: int): Table {
    map id | id in rows ::
      var r := rows[id];
      if !(r.cell == cell && r.state == Leased && r.expiresAt.Some? && r.expiresAt.value <= now) then r
      else if r.max <= r.attempt then r.(state := DeadLettered, token := None, expiresAt := None)
      else r.(state := RetryScheduled, availableAt := now, token := None, expiresAt := None)
  }

  /** The job is the cell's, of a kind wanted, waits, and is available by the time. */
  ghost predicate IsDue(r: Row, cell: string, kinds: seq<string>, now: int) {
    && r.cell == cell && (kinds == [] || r.kind in kinds)
    && (r.state == Queued || r.state == RetryScheduled) && r.availableAt <= now
  }

  /** One id is the start of the other, or smaller where they first differ. */
  ghost predicate Smaller(a: string, b: string) {
    || a < b
    || exists k :: 0 <= k < |a| && k < |b| && a[..k] == b[..k] && a[k] < b[k]
  }

  /**
   After the sweeps the lease goes to the job available longest, the smallest id
   among equals, counting an attempt; nothing is leased if and only if no job is
   due.
   */
  ghost predicate LeasesFirstDue(rows: Table, after: Table, cell: string, kinds: seq<string>, now: int, duration: int, token: string,
                                 leased: Option<string>) {
    var swept := AfterSweeps(rows, cell, now);
    match leased
    case None => after == swept && forall id :: id in swept ==> !IsDue(swept[id], cell, kinds, now)
    case Some(id) =>
      && id in swept && IsDue(swept[id], cell, kinds, now)
      && (forall other :: other in swept && IsDue(swept[other], cell, kinds, now) && other != id ==>
            swept[id].availableAt < swept[other].availableAt
            || (swept[id].availableAt == swept[other].availableAt && Smaller(id, other)))
      && after == swept[id := swept[id].(state := Leased, attempt := swept[id].attempt + 1, token := Some(token),
                                         expiresAt := Some(now + duration), handed := swept[id].handed + {token})]
  }

  lemma SweepsAre(rows: Table, cell: string, now: int)
    ensures Reschedule(DeadLetterExhausted(rows, cell, now), cell, now) == AfterSweeps(rows, cell, now)
  {
  }

  lemma {:induction false} IdsCompare(a: string, b: string)
    ensures IdBefore(a, b) <==> Smaller(a, b)
  {
    if a != "" && b != "" && a[0] == b[0] {
      IdsCompare(a[1..], b[1..]);
      assert a == [a[0]] + a[1..] && b == [b[0]] + b[1..];
      if k :| 0 <= k < |a[1..]| && k < |b[1..]| && a[1..][..k] == b[1..][..k] && a[1..][k] < b[1..][k] {
        assert a[..k + 1] == [a[0]] + a[1..][..k] && b[..k + 1] == [b[0]] + b[1..][..k];
        assert a[k + 1] < b[k + 1];
      }
      if k :| 0 <= k < |a| && k < |b| && a[..k] == b[..k] && a[k] < b[k] {
        assert a[1..][..k - 1] == a[..k][1..] && b[1..][..k - 1] == b[..k][1..];
        assert a[1..][k - 1] < b[1..][k - 1];
      }
    } else if a != "" && b != "" {
      assert a[..0] == b[..0];
      if k :| 0 <= k < |a| && k < |b| && a[..k] == b[..k] && a[k] < b[k] {
        assert k > 0 ==> a[..k][0] == b[..k][0];
      }
    }
  }

  lemma FirstIsDueFirst(rows: Table, cell: string, kinds: seq<string>, now: int, id: string)
    ensures IsFirst(rows, cell, now, kinds, id) <==>
              && id in rows && IsDue(rows[id], cell, kinds, now)
              && forall other :: other in rows && IsDue(rows[other], cell, kinds, now) && other != id ==>
                   rows[id].availableAt < rows[other].availableAt
                   || (rows[id].availableAt == rows[other].availableAt && Smaller(id, other))
  {
    hide IdBefore, Smaller;
    forall other ensures IdBefore(id, other) <==> Smaller(id, other) {
      IdsCompare(id, other);
    }
  }

  lemma LeaseIsOfTheFirstDue(rows: Table, after: Table, cell: string, kinds: seq<string>, now: int, duration: int, token: string,
                             found: Option<string>)
    requires var swept := Reschedule(DeadLetterExhausted(rows, cell, now), cell, now);
             if found.Some? then IsFirst(swept, cell, now, kinds, found.value)
                                 && after == swept[found.value := ClaimRow(swept[found.value], token, now + duration)]
             else after == swept && forall id :: id in swept ==> !Claimable(swept[id], cell, now, kinds)
    ensures LeasesFirstDue(rows, after, cell, kinds, now, duration, token, found)
  {
    hide IsFirst, AfterSweeps, Reschedule, DeadLetterExhausted, Smaller;
    SweepsAre(rows, cell, now);
    if found.Some? {
      FirstIsDueFirst(AfterSweeps(rows, cell, now), cell, kinds, now, found.value);
    }
  }

  // --------------------------------------------------------------- settling

  /**
   A worker settles a job exactly while it is leased under its token and the lease
   is not over.  Done completes it, failed makes it a dead letter, and another try
   is scheduled for the time asked for while attempts remain.
   */
  lemma TransitionsGoThroughExactly(rows: Table, id: string, token: string, now: int, verdict: J.Verdict, retryAt: int)
    ensures var t := Transition(rows, id, token, now, verdict, retryAt);
            && (t.Some? <==> id in rows && rows[id].state == Leased && rows[id].token == Some(token)
                             && rows[id].expiresAt.Some? && now < rows[id].expiresAt.value)
            && (t.Some? ==>
                  && var r, settled := rows[id], rows[id].(token := None, expiresAt := None);
                     t.value == rows[id := match verdict
                                           case Done => settled.(state := Completed)
                                           case Failed => settled.(state := DeadLettered)
                                           case TryAgain => if r.attempt < r.max then settled.(state := RetryScheduled, availableAt := retryAt)
                                                            else settled.(state := DeadLettered)])
  {
  }

  /** A job that waits is not leased before its time, nor otherwise changed: only cancelling or recovering it would. */
  lemma {:induction false} RetriesWait(s: Sys, events: seq<Event>, id: string)
    requires id in s.rows && s.rows[id].state == RetryScheduled
    requires forall i :: 0 <= i < |events| ==>
               !(events[i].Cancelling? && events[i].job == id) && !(events[i].Recovering? && events[i].job == id)
    requires forall c :: c in s.calls ==> s.calls[c].at < s.rows[id].availableAt
    requires forall i :: 0 <= i < |events| && events[i].Start? ==> events[i].at < s.rows[id].availableAt
    ensures id in Run(s, events).rows && Run(s, events).rows[id] == s.rows[id]
    decreases |events|
  {
    if events != [] {
      RetryWaitsAStep(s, events[0], id);
      hide Step;
      RetriesWait(Step(s, events[0]), events[1..], id);
    }
  }

  lemma RetryWaitsAStep(s: Sys, e: Event, id: string)
    requires id in s.rows && s.rows[id].state == RetryScheduled
    requires !(e.Cancelling? && e.job == id) && !(e.Recovering? && e.job == id)
    requires forall c :: c in s.calls ==> s.calls[c].at < s.rows[id].availableAt
    requires e.Start? ==> e.at < s.rows[id].availableAt
    ensures id in Step(s, e).rows && Step(s, e).rows[id] == s.rows[id]
    ensures forall c :: c in Step(s, e).calls ==> Step(s, e).calls[c].at < s.rows[id].availableAt
  {
  }

  // --------------------------------------------------------------- the rest

  /** A job is made once for each key of a cell, waiting, with no attempt made. */
  lemma JobsAreMadeOnce(rows: Table, id: string, cell: string, kind: string, key: string, max: int, availableAt: int)
    requires id !in rows
    ensures var t := Enqueue(rows, id, cell, kind, key, max, availableAt);
            if exists other :: other in rows && rows[other].cell == cell && rows[other].key == key then t == rows
            else t == rows[id := Row(cell, kind, key, Queued, 0, max, availableAt, None, None, 0, {})]
  {
  }

  /** Cancelling changes a job's state and no more; recovering brings back exactly one scheduled again or dead-lettered. */
  lemma JobsAreRecoveredExactly(rows: Table, id: string, availableAt: int)
    requires id in rows
    ensures Cancel(rows, id) == rows[id := rows[id].(state := Cancelled)]
    ensures var t := Recover(rows, id, availableAt);
            && (t.Some? <==> rows[id].state == RetryScheduled || rows[id].state == DeadLettered)
            && (t.Some? ==> t.value == rows[id := rows[id].(state := Queued, availableAt := availableAt, token := None, expiresAt := None,
                                                            recoveries := rows[id].recoveries + 1)])
  {
  }
}

/** What the DynamoDB queue's conditional writes do, on the records themselves. */
module DynamoJobEffects {
  import opened Common
  import J = Jobs
  import opened DynamoJobs

  ghost predicate IsOver(r: Record, now: int) {
    r.state == Leased && r.expiresAt.Some? && r.expiresAt.value <= now
  }

  ghost predicate IsAvailable(r: Record, now: int) {
    (r.state == Queued || r.state == RetryScheduled) && r.availableAt <= now
  }

  ghost predicate Unmoved(rows: Table, id: string, read: Record) {
    id in rows && rows[id].revision == read.revision && rows[id].cell == read.cell && rows[id].state == read.state
  }

  /**
   A candidate is claimed exactly if it was read waiting and available, or with its
   lease over, and is still so.  A lease that is over with no attempt left becomes
   a dead letter; otherwise the worker has it under the token until its time is up.
   */
  lemma ClaimsGoThroughExactly(rows: Table, id: string, read: Record, now: int, duration: int, worker: string, token: string)
    ensures var t := Claim(rows, id, read, now, duration, worker, token);
            && (t.Some? <==>
                  && Unmoved(rows, id, read)
                  && (if IsOver(read, now) then rows[id].expiresAt.Some? && rows[id].expiresAt.value <= now
                      else IsAvailable(read, now) && rows[id].availableAt <= now))
            && (t.Some? ==>
                  t.value == rows[id := if IsOver(read, now) && read.max <= read.attempt
                                        then read.(state := DeadLettered, expiresAt := None, revision := read.revision + 1)
                                        else read.(state := Leased, attempt := read.attempt + 1, expiresAt := Some(now + duration),
                                                   owner := Some(Owner(worker, token)), revision := read.revision + 1,
                                                   handed := read.handed + {token})])
  {
  }

  /**
   A worker settles a job exactly if it read it leased under its token and in time,
   and the record has not moved and is still in time when the write arrives.
   */
  lemma TransitionsGoThroughExactly(rows: Table, id: string, read: Record, token: string, readAt: int, now: int, verdict: J.Verdict, retryAt: int)
    ensures var t := Settle(rows, id, read, token, readAt, now, verdict, retryAt);
            && (t.Some? <==>
                  && read.state == Leased && token != "" && read.owner.Some? && read.owner.value.token == token
                  && read.expiresAt.Some? && readAt < read.expiresAt.value
                  && id in rows && rows[id].revision == read.revision && rows[id].state == Leased && rows[id].owner == read.owner
                  && rows[id].expiresAt.Some? && now < rows[id].expiresAt.value)
            && (t.Some? ==>
                  && var settled := read.(expiresAt := None, revision := read.revision + 1);
                     t.value == rows[id := match verdict
                                           case Done => settled.(state := Completed)
                                           case Failed => settled.(state := DeadLettered)
                                           case TryAgain => if read.attempt < read.max
                                                            then settled.(state := RetryScheduled, availableAt := retryAt)
                                                            else settled.(state := DeadLettered)])
  {
  }

  /** A job scheduled for later is not claimed before: no write for it goes through on any record read of it. */
  lemma RetriesWait(s: Sys, id: string, read: Record, now: int, duration: int, worker: string, token: string)
    requires Inv(s) && id in s.rows && s.rows[id].state == RetryScheduled && now < s.rows[id].availableAt
    requires Version(id, read) in s.versions
    ensures Claim(s.rows, id, read, now, duration, worker, token).None?
  {
    assert VersionOk(s, Version(id, read));
  }

  /** Cancelling and recovering need the record unmoved; recovering, one scheduled again or dead-lettered. */
  lemma JobsAreRecoveredExactly(rows: Table, id: string, read: Record, availableAt: int)
    ensures Cancel(rows, id, read).Some? <==> id in rows && rows[id].revision == read.revision
    ensures Cancel(rows, id, read).Some? ==>
              Cancel(rows, id, read).value == rows[id := rows[id].(state := Cancelled, expiresAt := None, revision := read.revision + 1)]
    ensures Recover(rows, id, read, availableAt).Some? <==>
              (read.state == RetryScheduled || read.state == DeadLettered) && id in rows && rows[id].revision == read.revision
    ensures Recover(rows, id, read, availableAt).Some? ==>
              Recover(rows, id, read, availableAt).value
              == rows[id := rows[id].(state := Queued, availableAt := availableAt, expiresAt := None, revision := read.revision + 1,
                                      recoveries := rows[id].recoveries + 1)]
  {
  }

  /** A job is made once for each id, waiting, with no attempt made. */
  lemma JobsAreMadeOnce(rows: Table, id: string, cell: string, kind: string, max: int, availableAt: int)
    ensures Enqueue(rows, id, cell, kind, max, availableAt)
         == if id in rows then rows else rows[id := Record(cell, kind, Queued, 0, max, availableAt, None, None, 1, 0, {})]
  {
  }
}
