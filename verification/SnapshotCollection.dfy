/** What becomes of deleted chunks, and what the conditional writes ask for. */
module SnapshotCollection {
  import opened Common
  import opened SnapshotStore
  import opened SnapshotInvariant

  // --------------------------------------------------------------- rows are put once

  /** The row has had its turn: no writer still has to put it, and no later one will take its prefix. */
  ghost predicate Settled(s: System, key: RowKey) {
    && key.prefix in s.sealed
    && forall q :: q in s.procs && s.procs[q].Staging? && s.procs[q].prefix == key.prefix ==> key.part < s.procs[q].next
  }

  ghost predicate AllSettled(s: System, keys: set<RowKey>) {
    forall key :: key in keys ==> Settled(s, key)
  }

  /** Every row of the table has had its turn. */
  ghost predicate Tidy(s: System) {
    AllSettled(s, s.rows.Keys)
  }

  ghost predicate Gone(s: System, key: RowKey) {
    Settled(s, key) && key !in s.rows
  }

  ghost predicate StaysGone(s: System, t: System) {
    && (forall key :: Settled(s, key) ==> Settled(t, key))
    && (forall key :: Gone(s, key) ==> Gone(t, key))
  }

  lemma MovedSettled(s: System, p: nat, pc: Proc, key: RowKey)
    requires Settled(s, key) && p in s.procs
    requires pc.Staging? && pc.prefix == key.prefix ==> key.part < pc.next
    ensures Settled(At(s, p, pc), key)
  {
  }

  lemma ObservedSettled(c: Codec, s: System, p: nat, a: Action, key: RowKey)
    requires Settled(s, key) && p in s.procs
    ensures Settled(At(s, p, Observe(c, s, s.procs[p], a)), key)
  {
    MovedSettled(s, p, Observe(c, s, s.procs[p], a), key);
  }

  lemma ChosenSettled(c: Codec, s: System, p: nat, nonce: nat, iv: nat, key: RowKey)
    requires Settled(s, key) && p in s.procs && s.procs[p].Loaded? && s.procs[p].call.Mutate?
    requires Prefix(s.procs[p].revision + 1, nonce) !in s.sealed
    ensures Settled(ChooseFor(c, s, p, s.procs[p], nonce, iv), key)
  {
  }

  lemma PutSettled(s: System, p: nat, acknowledged: bool, key: RowKey)
    requires Settled(s, key) && p in s.procs && s.procs[p].Staging?
    ensures Settled(StagePart(s, p, s.procs[p], acknowledged), key)
    ensures key !in s.rows ==> key !in StagePart(s, p, s.procs[p], acknowledged).rows
  {
    hide Chunk, Parts;
  }

  lemma SwappedSettled(c: Codec, s: System, p: nat, now: int, acknowledged: bool, key: RowKey)
    requires Settled(s, key) && p in s.procs && s.procs[p].Staging?
    ensures Settled(SwapHead(c, s, p, s.procs[p], now, acknowledged), key)
  {
    hide CommitOf, Parts, MaySwap;
  }

  lemma WriteSettled(c: Codec, s: System, p: nat, a: Action, key: RowKey)
    requires Settled(s, key) && p in s.procs
    ensures var t := Write(c, s, p, s.procs[p], a);
            Settled(t, key) && (key !in s.rows ==> key !in t.rows)
  {
    hide StagePart, SwapHead, ChooseFor, Settled;
    if Write(c, s, p, s.procs[p], a) != s {
      match a
      case ChoosePrefix(nonce, iv) =>
        ChosenSettled(c, s, p, nonce, iv, key);
        ChoosingPutsNothing(c, s, p, nonce, iv);
      case PutPart(acknowledged) => PutSettled(s, p, acknowledged, key);
      case CommitHead(now, acknowledged) =>
        SwappedSettled(c, s, p, now, acknowledged, key);
        SwappingPutsNothing(c, s, p, now, acknowledged);
      case DeleteStaged(part) => DeletedSettled(s, RowKey(s.procs[p].prefix, part), key);
      case DeleteOld(row) => DeletedSettled(s, row, key);
    }
  }

  lemma ChoosingPutsNothing(c: Codec, s: System, p: nat, nonce: nat, iv: nat)
    requires p in s.procs && s.procs[p].Loaded? && s.procs[p].call.Mutate?
    ensures ChooseFor(c, s, p, s.procs[p], nonce, iv).rows == s.rows
  {
  }

  lemma DeletedSettled(s: System, row: RowKey, key: RowKey)
    requires Settled(s, key)
    ensures Settled(s.(rows := s.rows - {row}), key)
  {
  }

  lemma StepSettled(c: Codec, s: System, e: Event, key: RowKey)
    requires Settled(s, key)
    ensures Settled(Step(c, s, e), key) && (key !in s.rows ==> key !in Step(c, s, e).rows)
  {
    hide Write, Observe;
    if !OutsideCalls(e.action) && e.caller in s.procs {
      if Writes(e.action) {
        WriteSettled(c, s, e.caller, e.action, key);
      } else {
        ObservedSettled(c, s, e.caller, e.action, key);
      }
    }
  }

  lemma StepStaysGone(c: Codec, s: System, e: Event)
    ensures StaysGone(s, Step(c, s, e))
  {
    hide Settled, Step;
    forall key | Settled(s, key) ensures Settled(Step(c, s, e), key) && (key !in s.rows ==> key !in Step(c, s, e).rows) {
      StepSettled(c, s, e, key);
    }
  }

  lemma {:induction false} RunStaysGone(c: Codec, s: System, events: seq<Event>)
    ensures StaysGone(s, Run(c, s, events))
    decreases |events|
  {
    hide Settled, Step;
    if events != [] {
      StepStaysGone(c, s, events[0]);
      RunStaysGone(c, Step(c, s, events[0]), events[1..]);
    }
  }

  // --------------------------------------------------------------- every row has had its turn

  // No two writers share a prefix.
  lemma OneWriterEach(c: Codec, s: System, p: nat, q: nat)
    requires Core(c, s) && p in s.procs && s.procs[p].Staging? && q in s.procs && s.procs[q].Staging?
    requires s.procs[p].prefix == s.procs[q].prefix
    ensures p == q
  {
    assert ProcOk(c, s, p, s.procs[p]);
    assert ProcOk(c, s, q, s.procs[q]);
  }

  lemma PutHasHadItsTurn(c: Codec, s: System, p: nat, acknowledged: bool)
    requires Core(c, s) && p in s.procs && s.procs[p].Staging? && s.procs[p].next < Parts(s.procs[p].value)
    requires RowKey(s.procs[p].prefix, s.procs[p].next) !in s.rows
    ensures Settled(StagePart(s, p, s.procs[p], acknowledged), RowKey(s.procs[p].prefix, s.procs[p].next))
  {
    var pc := s.procs[p];
    assert ProcOk(c, s, p, pc);
    var t := StagePart(s, p, pc, acknowledged);
    hide Chunk, Parts;
    forall q | q in t.procs && t.procs[q].Staging? && t.procs[q].prefix == pc.prefix ensures pc.next < t.procs[q].next {
      if q in s.procs && s.procs[q].Staging? && s.procs[q].prefix == pc.prefix {
        OneWriterEach(c, s, p, q);
      }
    }
  }

  lemma OnlyPutsAddRows(c: Codec, s: System, e: Event, key: RowKey)
    requires key in Step(c, s, e).rows && key !in s.rows
    ensures e.action.PutPart? && e.caller in s.procs && s.procs[e.caller].Staging?
    ensures var pc := s.procs[e.caller];
            && key == RowKey(pc.prefix, pc.next) && pc.next < Parts(pc.value)
            && Step(c, s, e) == StagePart(s, e.caller, pc, e.action.acknowledged)
  {
    hide OutsideStep, Write, Observe, StagePart, Parts;
    var p, a := e.caller, e.action;
    if OutsideCalls(a) {
      OutsidePutsNothing(s, p, a);
    } else if p in s.procs && Writes(a) {
      WritePutsOnly(c, s, p, a, key);
    }
  }

  lemma WritePutsOnly(c: Codec, s: System, p: nat, a: Action, key: RowKey)
    requires p in s.procs && key in Write(c, s, p, s.procs[p], a).rows && key !in s.rows
    ensures a.PutPart? && s.procs[p].Staging? && Write(c, s, p, s.procs[p], a) == StagePart(s, p, s.procs[p], a.acknowledged)
    ensures key == RowKey(s.procs[p].prefix, s.procs[p].next) && s.procs[p].next < Parts(s.procs[p].value)
  {
    hide SwapHead, ChooseFor, StagePart, Parts;
    if a.ChoosePrefix? && s.procs[p].Loaded? && s.procs[p].call.Mutate? {
      ChoosingPutsNothing(c, s, p, a.nonce, a.iv);
    } else if a.CommitHead? && s.procs[p].Staging? {
      SwappingPutsNothing(c, s, p, a.now, a.acknowledged);
    } else if a.PutPart? && s.procs[p].Staging? {
      StagingPuts(s, p, a.acknowledged, key);
    }
  }

  lemma StagingPuts(s: System, p: nat, acknowledged: bool, key: RowKey)
    requires p in s.procs && s.procs[p].Staging? && key !in s.rows
    ensures key in StagePart(s, p, s.procs[p], acknowledged).rows ==>
              key == RowKey(s.procs[p].prefix, s.procs[p].next) && s.procs[p].next < Parts(s.procs[p].value)
  {
    hide Chunk, Parts;
  }

  lemma OutsidePutsNothing(s: System, p: nat, a: Action)
    ensures OutsideStep(s, p, a).rows == s.rows
  {
  }

  lemma SwappingPutsNothing(c: Codec, s: System, p: nat, now: int, acknowledged: bool)
    requires p in s.procs && s.procs[p].Staging?
    ensures SwapHead(c, s, p, s.procs[p], now, acknowledged).rows == s.rows
  {
    hide CommitOf, Parts, MaySwap;
  }

  lemma StepKeepsTidy(c: Codec, s: System, e: Event)
    requires Core(c, s) && Tidy(s)
    ensures Tidy(Step(c, s, e))
  {
    hide Settled, Step, Core, StagePart, Parts;
    forall key | key in Step(c, s, e).rows ensures Settled(Step(c, s, e), key) {
      if key in s.rows {
        StepSettled(c, s, e, key);
      } else {
        OnlyPutsAddRows(c, s, e, key);
        PutHasHadItsTurn(c, s, e.caller, e.action.acknowledged);
      }
    }
  }

  lemma {:induction false} RunKeepsTidy(c: Codec, s: System, events: seq<Event>)
    requires Faithful(c) && Core(c, s) && Fenced(s) && Tidy(s)
    ensures Tidy(Run(c, s, events))
    decreases |events|
  {
    hide Core, Fenced, Tidy, Faithful, Step;
    if events != [] {
      StepKeepsTidy(c, s, events[0]);
      StepKeeps(c, s, events[0]);
      RunKeepsTidy(c, Step(c, s, events[0]), events[1..]);
    }
  }

  /** A chunk that was ever in the table and is deleted is never put again, whatever anybody does. */
  lemma DeletedChunksStayDeleted(c: Codec, before: seq<Event>, between: seq<Event>, after: seq<Event>, key: RowKey)
    requires Faithful(c)
    requires key in Run(c, START, before).rows && key !in Run(c, Run(c, START, before), between).rows
    ensures key !in Run(c, Run(c, Run(c, START, before), between), after).rows
  {
    hide Settled, Step, Core, Run;
    var s := Run(c, START, before);
    assert Core(c, START) && Fenced(START) by {
      NothingIsSound(c);
    }
    RunKeepsTidy(c, START, before);
    RunStaysGone(c, s, between);
    assert Gone(Run(c, s, between), key);
    RunStaysGone(c, Run(c, s, between), after);
  }

  lemma NothingIsSound(c: Codec)
    ensures Core(c, START) && Fenced(START)
  {
  }

  /** What a writer cleans up after has had its turn. */
  lemma CleanedUpIsSettled(c: Codec, s: System, p: nat, part: nat)
    requires Core(c, s) && p in s.procs && s.procs[p].CleaningUp?
    ensures Settled(s, RowKey(s.procs[p].prefix, part))
  {
    assert ProcOk(c, s, p, s.procs[p]);
    forall q | q in s.procs && s.procs[q].Staging? ensures s.procs[q].prefix != s.procs[p].prefix {
      assert ProcOk(c, s, q, s.procs[q]);
    }
  }

  // --------------------------------------------------------------- superseded chunks

  /** A row that may go once the given revision is committed: of that revision or one before it, and not of the committed snapshot. */
  ghost predicate IsSuperseded(s: System, revision: nat, key: RowKey)
    requires 1 <= revision <= |s.log|
  {
    key.prefix.revision <= revision && key.prefix != s.log[revision - 1].head.prefix
  }

  // HEAD may have moved on; what was superseded before is superseded still.
  lemma SupersededByHead(c: Codec, s: System, p: nat, key: RowKey)
    requires Core(c, s) && p in s.procs && s.procs[p].Collecting?
    requires 1 <= s.procs[p].revision <= s.procs[p].head.revision && s.procs[p].revision <= |s.log|
    requires IsSuperseded(s, s.procs[p].revision, key)
    ensures key.prefix.revision <= s.procs[p].head.revision && key.prefix != s.procs[p].head.prefix
  {
    var pc := s.procs[p];
    assert ProcOk(c, s, p, pc);
    assert CommitOk(c, s, pc.head.revision - 1);
  }

  // --------------------------------------------------------------- conditional writes

  /** HEAD moves only by the swap of a writer that loaded the revision there and, under a lock, only while the unexpired row carries its token. */
  lemma CommitsNeedRevisionAndLock(c: Codec, s: System, e: Event)
    requires Step(c, s, e).log != s.log
    ensures e.caller in s.procs && s.procs[e.caller].Staging? && s.procs[e.caller].call.Mutate? && e.action.CommitHead?
    ensures var pc, fence := s.procs[e.caller], s.procs[e.caller].call.fence;
            && pc.revision == (if s.head.Some? then s.head.value.revision else 0)
            && (fence.Some? ==>
                  && fence.value.key in s.locks && s.locks[fence.value.key].token == fence.value.token
                  && e.action.now <= s.locks[fence.value.key].expires)
            && Step(c, s, e).head == Some(Head(pc.revision + 1, pc.prefix, pc.next, c.digest(pc.value)))
            && Step(c, s, e).log == s.log + [Commit(e.caller, pc.call.op, pc.doc, Step(c, s, e).head.value, fence)]
  {
    hide SwapHead, Observe, Parts, Chunk, StagePart, ChooseFor, OutsideStep, CallerStep;
    if OutsideCalls(e.action) {
      OutsideLogsNothing(s, e.caller, e.action);
    } else if e.caller in s.procs {
      if e.action.CommitHead? {
        SwapIs(c, s, e.caller, e.action.now, e.action.acknowledged);
      } else {
        OnlySwapsLog(c, s, e.caller, e.action);
      }
    }
  }

  lemma OutsideLogsNothing(s: System, p: nat, a: Action)
    ensures OutsideStep(s, p, a).log == s.log
  {
  }

  lemma OnlySwapsLog(c: Codec, s: System, p: nat, a: Action)
    requires p in s.procs && !a.CommitHead?
    ensures CallerStep(c, s, p, a).log == s.log
  {
    hide CallerStep;
    OnlyCommitsLog(c, s, p, a);
  }

  lemma SwapIs(c: Codec, s: System, p: nat, now: int, acknowledged: bool)
    requires p in s.procs && CallerStep(c, s, p, CommitHead(now, acknowledged)).log != s.log
    ensures s.procs[p].Staging? && s.procs[p].call.Mutate? && s.procs[p].next == Parts(s.procs[p].value)
    ensures var pc, t := s.procs[p], CallerStep(c, s, p, CommitHead(now, acknowledged));
            && RevisionOf(s.head) == pc.revision && LockConditionHolds(s, pc.call.fence, now)
            && t.head == Some(CommitOf(c, p, pc).head) && t.log == s.log + [CommitOf(c, p, pc)]
  {
    hide Parts, CommitOf, LockConditionHolds;
  }

  /** A lock is taken exactly when its row is absent or expired. */
  lemma LocksAreTakenExactly(s: System, caller: nat, lock: string, token: nat, expires: int, now: int)
    requires token !in s.tokens
    ensures var t := OutsideStep(s, caller, Acquire(lock, token, expires, now));
            if lock in s.locks && now <= s.locks[lock].expires then t == s
            else t.locks == s.locks[lock := Lock(token, expires)] && t.log == s.log && t.rows == s.rows && t.head == s.head
  {
  }

  /** It is renewed exactly while its row has the token unexpired. */
  lemma LocksAreRenewedExactly(s: System, caller: nat, token: nat, expires: int, now: int)
    requires token in s.tokens
    ensures var key := s.tokens[token];
            OutsideStep(s, caller, Renew(token, expires, now)).locks ==
              if key in s.locks && s.locks[key].token == token && now <= s.locks[key].expires
              then s.locks[key := Lock(token, expires)] else s.locks
  {
  }

  /** It is deleted exactly while its row has the token. */
  lemma LocksAreReleasedExactly(s: System, caller: nat, token: nat)
    requires token in s.tokens
    ensures var key := s.tokens[token];
            OutsideStep(s, caller, Release(token)).locks ==
              if key in s.locks && s.locks[key].token == token then s.locks - {key} else s.locks
  {
  }

  /** A renewal that failed marks its context, for good. */
  lemma {:induction false} FailedRenewalsAreRemembered(c: Codec, s: System, caller: nat, token: nat, after: seq<Event>)
    ensures token in Run(c, OutsideStep(s, caller, RenewalFailed(token)), after).lapsed
  {
    MarksStay(c, OutsideStep(s, caller, RenewalFailed(token)), after);
  }

  lemma {:induction false} MarksStay(c: Codec, s: System, events: seq<Event>)
    ensures s.lapsed <= Run(c, s, events).lapsed
    decreases |events|
  {
    hide Step;
    if events != [] {
      StepKeepsMarks(c, s, events[0]);
      MarksStay(c, Step(c, s, events[0]), events[1..]);
    }
  }

  lemma StepKeepsMarks(c: Codec, s: System, e: Event)
    ensures s.lapsed <= Step(c, s, e).lapsed
  {
    hide OutsideStep, Write, Observe;
    if OutsideCalls(e.action) {
      OutsideKeepsMarks(s, e.caller, e.action);
    } else if e.caller in s.procs && Writes(e.action) {
      WriteKeepsMarks(c, s, e.caller, e.action);
    }
  }

  lemma OutsideKeepsMarks(s: System, p: nat, a: Action)
    ensures s.lapsed <= OutsideStep(s, p, a).lapsed
  {
  }

  lemma WriteKeepsMarks(c: Codec, s: System, p: nat, a: Action)
    requires p in s.procs
    ensures Write(c, s, p, s.procs[p], a).lapsed == s.lapsed
  {
    hide Chunk, Parts, CommitOf, MaySwap;
  }

  /**
   A call under a lock finds it lost exactly if its context is marked or the row
   does not carry its token unexpired: then it neither reports nothing to do nor
   tries again, and a marked one does not send its commit.
   */
  lemma LostLocksStopCalls(c: Codec, s: System, pc: Proc, now: int)
    requires pc.call.Mutate?
    ensures var fence := pc.call.fence;
            var lost := fence.Some? && (|| fence.value.token in s.lapsed || fence.value.key !in s.locks
                                        || s.locks[fence.value.key].token != fence.value.token || s.locks[fence.value.key].expires < now);
            && (pc.Loaded? && pc.call.op(pc.doc) == pc.doc ==>
                  Observe(c, s, pc, ReturnUnchanged(now)) == Returned(pc.call, if lost then Failed(LockLost) else Unchanged(pc.revision)))
            && (pc.CleaningUp? ==>
                  Observe(c, s, pc, Retry(now)) ==
                  if lost then Returned(pc.call, Failed(LockLost))
                  else if pc.tries < 7 then ReadingHead(pc.call, pc.tries + 1, 0) else Returned(pc.call, Failed(Busy)))
            && (pc.Staging? && pc.next == Parts(pc.value) && fence.Some? && fence.value.token in s.lapsed ==>
                  Observe(c, s, pc, CheckContext) == Returned(pc.call, Failed(LockLost)))
  {
  }
}
