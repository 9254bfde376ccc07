/** What any run of the snapshot store guarantees, however its callers interleave, stall or stop. */
module SnapshotTheorems {
  import opened Common
  import opened SnapshotStore
  import opened SnapshotInvariant

  /** One operation after another from the empty state. */
  ghost function Replay(log: seq<Commit>, n: nat): Doc
    requires n <= |log|
  {
    if n == 0 then NOTHING else log[n - 1].op(Replay(log, n - 1))
  }

  lemma StartIsSound(c: Codec)
    ensures Core(c, START) && Fenced(START)
  {
  }

  lemma Reached(c: Codec, events: seq<Event>)
    requires Faithful(c)
    ensures Core(c, Run(c, START, events)) && Fenced(Run(c, START, events))
  {
    StartIsSound(c);
    RunKeeps(c, START, events);
  }

  lemma {:induction false} DocAtIsReplay(c: Codec, s: System, n: nat)
    requires LogOk(c, s) && n <= |s.log|
    ensures DocAt(s.log, n) == Replay(s.log, n)
  {
    if n > 0 {
      assert CommitOk(c, s, n - 1);
      DocAtIsReplay(c, s, n - 1);
    }
  }

  function HeadChunks(s: System): seq<(nat, string)>
    requires s.head.Some?
    requires forall k :: 0 <= k < s.head.value.parts ==> RowKey(s.head.value.prefix, k) in s.rows
  {
    seq(s.head.value.parts, k requires 0 <= k < s.head.value.parts => (k, s.rows[RowKey(s.head.value.prefix, k)]))
  }

  lemma HeadIsWhole(c: Codec, s: System)
    requires Core(c, s) && s.head.Some?
    ensures s.head.value.revision == |s.log|
    ensures forall k :: 0 <= k < s.head.value.parts ==> RowKey(s.head.value.prefix, k) in s.rows
    ensures c.open(Join(HeadChunks(s))) == Replay(s.log, |s.log|)
  {
    var head := s.head.value;
    assert CommitOk(c, s, |s.log| - 1);
    var value := s.sealed[head.prefix];
    var chunks := HeadChunks(s);
    forall k | 0 <= k < |chunks| ensures chunks[k] == (k, Chunk(value, k)) {
      assert RowKey(head.prefix, k) in s.rows;
    }
    JoinIsPrefix(value, chunks);
    PartsFacts(value, 0);
    assert Join(chunks) == value;
    DocAtIsReplay(c, s, |s.log|);
  }

  /**
   The snapshot HEAD names is complete at every moment, and what its chunks
   decrypt to is the committed operations applied in commit order.
   */
  lemma HeadSnapshotIsWhole(c: Codec, events: seq<Event>)
    requires Faithful(c)
    ensures var s := Run(c, START, events);
            s.head.Some? ==>
              && s.head.value.revision == |s.log|
              && (forall k :: 0 <= k < s.head.value.parts ==> RowKey(s.head.value.prefix, k) in s.rows)
              && c.open(Join(HeadChunks(s))) == Replay(s.log, |s.log|)
  {
    Reached(c, events);
    if Run(c, START, events).head.Some? {
      HeadIsWhole(c, Run(c, START, events));
    }
  }

  /** No load returns a torn or invented state, and none reports the storage unavailable. */
  lemma LoadsReturnCommittedStates(c: Codec, events: seq<Event>, p: nat)
    requires Faithful(c)
    ensures var s := Run(c, START, events);
            p in s.procs && s.procs[p].Returned? ==>
              && s.procs[p].outcome != Failed(Unavailable)
              && (s.procs[p].outcome.Read? ==>
                    && s.procs[p].outcome.revision <= |s.log|
                    && s.procs[p].outcome.doc == Replay(s.log, s.procs[p].outcome.revision))
  {
    Reached(c, events);
    var s := Run(c, START, events);
    if p in s.procs && s.procs[p].Returned? {
      assert ProcOk(c, s, p, s.procs[p]);
      if s.procs[p].outcome.Read? {
        DocAtIsReplay(c, s, s.procs[p].outcome.revision);
      }
    }
  }

  ghost predicate CommitsOnlyAt(log: seq<Commit>, p: nat, revision: nat) {
    forall i :: 0 <= i < |log| ==> (log[i].caller == p <==> i + 1 == revision)
  }

  // What the outcome of a finished call says about its effect.
  ghost predicate TellsEffect(s: System, p: nat, call: Call, outcome: Outcome) {
    match outcome
    case Committed(revision) =>
      && 1 <= revision <= |s.log| && CommitsOnlyAt(s.log, p, revision)
      && call.Mutate? && s.log[revision - 1].op == call.op
    case Failed(Crashed) => true
    case _ => CommitsOnlyAt(s.log, p, 0)
  }

  lemma OutcomeTellsEffect(c: Codec, s: System, p: nat)
    requires Core(c, s) && p in s.procs && s.procs[p].Returned?
    ensures TellsEffect(s, p, s.procs[p].call, s.procs[p].outcome)
  {
  }

  /**
   A mutation takes effect at most once, whatever was retried: exactly once at
   the reported revision if it says so, and not at all if it reports a conflict,
   a lost lock or no change.  Only a caller that stopped may not know.
   */
  lemma MutationsTakeEffectOnce(c: Codec, events: seq<Event>, p: nat)
    requires Faithful(c)
    ensures var s := Run(c, START, events);
            && (forall i, j :: 0 <= i < j < |s.log| ==> s.log[i].caller != s.log[j].caller)
            && (p in s.procs && s.procs[p].Returned? ==>
                  TellsEffect(s, p, s.procs[p].call, s.procs[p].outcome))
  {
    Reached(c, events);
    var s := Run(c, START, events);
    if p in s.procs && s.procs[p].Returned? {
      OutcomeTellsEffect(c, s, p);
    }
  }

  // --------------------------------------------------------------- real time

  lemma StepExtendsLog(c: Codec, s: System, e: Event)
    ensures s.log <= Step(c, s, e).log
  {
    hide Observe, CommitOf, LockConditionHolds, FenceHolds;
    if !OutsideCalls(e.action) && e.caller in s.procs {
      if !e.action.CommitHead? {
        OnlyCommitsLog(c, s, e.caller, e.action);
      } else if s.procs[e.caller].Staging? {
        SwapHeadShape(c, s, e.caller, e.action.now, e.action.acknowledged);
      }
    }
  }

  /** History is never rewritten. */
  lemma {:induction false} RunExtendsLog(c: Codec, s: System, events: seq<Event>)
    ensures s.log <= Run(c, s, events).log
    decreases |events|
  {
    if events != [] {
      StepExtendsLog(c, s, events[0]);
      RunExtendsLog(c, Step(c, s, events[0]), events[1..]);
    }
  }

  // Caller p knows of no state older than revision r.
  ghost predicate NotOlder(s: System, p: nat, r: nat) {
    && r <= |s.log|
    && p in s.procs
    && match s.procs[p]
       case ReadingHead(_, _, _) => true
       case Scanning(_, _, _, head, _, _) => r <= head.revision
       case Rechecking(_, _, _, head) => true
       case Loaded(_, _, revision, _) => r <= revision
       case Staging(_, _, revision, _, _, _, _) => r <= revision
       case CleaningUp(_, _, _) => true
       case BeforeCollect(_, revision) => r < revision
       case Collecting(_, revision, _) => r < revision
       case Returned(_, Read(revision, _)) => r <= revision
       case Returned(_, Unchanged(revision)) => r <= revision
       case Returned(_, Committed(revision)) => r < revision
       case Returned(_, Failed(_)) => true
  }

  lemma ObservationNotOlder(c: Codec, s: System, p: nat, r: nat, a: Action)
    requires LogOk(c, s) && NotOlder(s, p, r)
    ensures NotOlder(At(s, p, Observe(c, s, s.procs[p], a)), p, r)
  {
    if s.head.Some? {
      assert CommitOk(c, s, |s.log| - 1);
    }
  }

  lemma WriteNotOlder(c: Codec, s: System, p: nat, r: nat, a: Action)
    requires NotOlder(s, p, r)
    ensures NotOlder(Write(c, s, p, s.procs[p], a), p, r)
  {
    hide Parts, Chunk, CommitOf, LockConditionHolds;
  }

  lemma OtherStepsLeaveCaller(c: Codec, s: System, e: Event, p: nat)
    requires p in s.procs && (e.caller != p || OutsideCalls(e.action))
    ensures p in Step(c, s, e).procs && Step(c, s, e).procs[p] == s.procs[p]
  {
    if !OutsideCalls(e.action) && e.caller in s.procs {
      if !e.action.CommitHead? {
        OnlyCommitsLog(c, s, e.caller, e.action);
      } else if s.procs[e.caller].Staging? {
        SwapHeadShape(c, s, e.caller, e.action.now, e.action.acknowledged);
      }
      assert MovedOnly(s, Step(c, s, e), e.caller);
    }
  }

  lemma StepNotOlder(c: Codec, s: System, e: Event, p: nat, r: nat)
    requires Core(c, s) && NotOlder(s, p, r)
    ensures NotOlder(Step(c, s, e), p, r)
  {
    if OutsideCalls(e.action) || e.caller != p {
      StepExtendsLog(c, s, e);
      OtherStepsLeaveCaller(c, s, e, p);
    } else if Writes(e.action) {
      WriteNotOlder(c, s, p, r, e.action);
    } else {
      ObservationNotOlder(c, s, p, r, e.action);
    }
  }

  lemma {:induction false} RunNotOlder(c: Codec, s: System, events: seq<Event>, p: nat, r: nat)
    requires Faithful(c) && Core(c, s) && Fenced(s) && NotOlder(s, p, r)
    ensures NotOlder(Run(c, s, events), p, r)
    decreases |events|
  {
    if events != [] {
      StepNotOlder(c, s, events[0], p, r);
      StepKeeps(c, s, events[0]);
      RunNotOlder(c, Step(c, s, events[0]), events[1..], p, r);
    }
  }

  /**
   Real-time order: a call sees everything committed before it began.  Together
   with the replay order above, loads and mutations are linearizable.
   */
  lemma CallsSeeWhatPrecededThem(c: Codec, before: seq<Event>, p: nat, call: Call, after: seq<Event>)
    requires Faithful(c)
    requires p !in Run(c, START, before).procs
    requires call.Mutate? && call.fence.Some? ==> Issued(Run(c, START, before), call.fence.value)
    ensures var s := Run(c, START, before);
            var t := Run(c, Step(c, s, Event(p, Begin(call))), after);
            p in t.procs && t.procs[p].Returned? ==>
              match t.procs[p].outcome
              case Read(revision, _) => |s.log| <= revision
              case Unchanged(revision) => |s.log| <= revision
              case Committed(revision) => |s.log| < revision
              case Failed(_) => true
  {
    Reached(c, before);
    var s := Run(c, START, before);
    var u := Step(c, s, Event(p, Begin(call)));
    StepKeeps(c, s, Event(p, Begin(call)));
    RunNotOlder(c, u, after, p, |s.log|);
  }

  // --------------------------------------------------------------- locks

  /**
   Commits made under one lock key fall into blocks, one per token: once another
   token has committed, the earlier one never does again.  No assumption is made
   about any caller's clock.
   */
  lemma LockTokensCommitInBlocks(c: Codec, events: seq<Event>, i: nat, j: nat, k: nat, key: string)
    requires Faithful(c)
    requires i < j < k < |Run(c, START, events).log|
    ensures var log := Run(c, START, events).log;
            log[i].fence.Some? && log[j].fence.Some? && log[k].fence.Some?
            && log[i].fence.value.key == key && log[j].fence.value.key == key && log[k].fence.value.key == key
            && log[i].fence.value.token == log[k].fence.value.token
            ==> log[j].fence.value.token == log[i].fence.value.token
  {
    Reached(c, events);
    var log := Run(c, START, events).log;
    if log[i].fence == log[k].fence && log[i].fence.Some? {
      assert SameToken(log, i, k);
      assert !Rivals(log, i, j);
    }
  }

  // A token that is issued but no longer in its lock row.
  ghost predicate Lost(s: System, fence: Fence) {
    Issued(s, fence) && Replaced(s, fence)
  }

  lemma OutsideStepKeepsLost(s: System, p: nat, a: Action, fence: Fence)
    requires Fenced(s) && Lost(s, fence)
    ensures Lost(OutsideStep(s, p, a), fence) && OutsideStep(s, p, a).log == s.log
  {
  }

  lemma CallerStepKeepsLost(c: Codec, s: System, p: nat, a: Action, fence: Fence)
    requires p in s.procs && Lost(s, fence)
    ensures Lost(CallerStep(c, s, p, a), fence)
    ensures forall i :: |s.log| <= i < |CallerStep(c, s, p, a).log| ==> CallerStep(c, s, p, a).log[i].fence != Some(fence)
  {
    if !a.CommitHead? {
      OnlyCommitsLog(c, s, p, a);
    } else if s.procs[p].Staging? {
      SwapHeadShape(c, s, p, a.now, a.acknowledged);
    }
  }

  /** Once its lock row is gone or carries another token, no progress a holder has made lets it commit. */
  lemma {:induction false} LostTokenNeverCommits(c: Codec, s: System, events: seq<Event>, fence: Fence)
    requires Fenced(s) && Lost(s, fence)
    ensures Lost(Run(c, s, events), fence)
    ensures forall i :: |s.log| <= i < |Run(c, s, events).log| ==> Run(c, s, events).log[i].fence != Some(fence)
    decreases |events|
  {
    if events != [] {
      var t := Step(c, s, events[0]);
      if OutsideCalls(events[0].action) {
        OutsideStepKeepsLost(s, events[0].caller, events[0].action, fence);
      } else if events[0].caller in s.procs {
        CallerStepKeepsLost(c, s, events[0].caller, events[0].action, fence);
      }
      StepKeepsFenced(c, s, events[0]);
      StepExtendsLog(c, s, events[0]);
      LostTokenNeverCommits(c, t, events[1..], fence);
      RunExtendsLog(c, t, events[1..]);
    }
  }

  /** Acquiring over an expired lock makes the earlier holder's token lost at once. */
  lemma AcquiringDisplaces(c: Codec, s: System, e: Event, fence: Fence)
    requires Fenced(s) && Issued(s, fence)
    requires e.action.Acquire? && e.action.lock == fence.key && Step(c, s, e) != s
    ensures Lost(Step(c, s, e), fence)
  {
  }

  /** Releasing a lost lock changes no lock row, so it never removes the new holder's. */
  lemma ReleasingLostLockIsHarmless(c: Codec, s: System, caller: nat, fence: Fence)
    requires Fenced(s) && Lost(s, fence)
    ensures Step(c, s, Event(caller, Release(fence.token))) == s
  {
  }
}
