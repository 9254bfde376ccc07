/**
 The methods of DynamoCommerceStore as a process runs them: retry loops over the
 table, one request at a time, with anything the other callers do in between.

 The step machine of SnapshotStore says what one request may do; each method
 here makes its own decisions from the replies it sees and is proved to move its
 caller through that machine, so everything proved about runs holds of it.
 */
module SnapshotClient {
  import opened Common
  import opened SnapshotStore
  import opened SnapshotInvariant
  import opened SnapshotTheorems
  import opened SnapshotCollection

  // --------------------------------------------------------------- other callers' turns

  ghost predicate Foreign(events: seq<Event>, p: nat) {
    forall i :: 0 <= i < |events| ==> events[i].caller != p
  }

  lemma {:induction false} OthersLeaveCaller(c: Codec, s: System, events: seq<Event>, p: nat)
    requires p in s.procs && Foreign(events, p)
    ensures p in Run(c, s, events).procs && Run(c, s, events).procs[p] == s.procs[p]
    decreases |events|
  {
    if events != [] {
      OtherStepsLeaveCaller(c, s, events[0], p);
      OthersLeaveCaller(c, Step(c, s, events[0]), events[1..], p);
    }
  }

  // --------------------------------------------------------------- what a caller may rely on

  lemma RowsFit(c: Codec, s: System, p: nat, part: nat)
    requires Core(c, s) && p in s.procs && s.procs[p].Scanning?
    requires RowKey(s.procs[p].head.prefix, part) in s.rows
    ensures part < s.procs[p].head.parts
  {
    assert ProcOk(c, s, p, s.procs[p]);
  }

  lemma LoadedIsReplayed(c: Codec, s: System, p: nat)
    requires Core(c, s) && p in s.procs && s.procs[p].Loaded?
    ensures s.procs[p].revision <= |s.log| && s.procs[p].doc == Replay(s.log, s.procs[p].revision)
  {
    assert ProcOk(c, s, p, s.procs[p]);
    DocAtIsReplay(c, s, s.procs[p].revision);
  }

  lemma {:induction false} ReplayIsStable(earlier: seq<Commit>, later: seq<Commit>, n: nat)
    requires earlier <= later && n <= |earlier|
    ensures Replay(earlier, n) == Replay(later, n)
  {
    if n > 0 {
      ReplayIsStable(earlier, later, n - 1);
    }
  }

  /** What a finished call may conclude from its outcome. */
  ghost predicate Concluded(s: System, p: nat, call: Call, outcome: Outcome, since: nat) {
    && TellsEffect(s, p, call, outcome)
    && match outcome
       case Read(revision, doc) => since <= revision <= |s.log| && doc == Replay(s.log, revision)
       case Committed(revision) => since < revision
       case Unchanged(revision) => since <= revision <= |s.log|
       case Failed(error) => error != Unavailable
  }

  lemma SameConclusion(s: System, t: System, p: nat, call: Call, outcome: Outcome, since: nat)
    requires Concluded(s, p, call, outcome, since) && t.log == s.log
    ensures Concluded(t, p, call, outcome, since)
  {
  }

  lemma Concludes(c: Codec, s: System, p: nat, since: nat)
    requires Core(c, s) && NotOlder(s, p, since) && s.procs[p].Returned?
    ensures Concluded(s, p, s.procs[p].call, s.procs[p].outcome, since)
  {
    assert ProcOk(c, s, p, s.procs[p]);
    if s.procs[p].outcome.Read? {
      DocAtIsReplay(c, s, s.procs[p].outcome.revision);
    }
  }

  // --------------------------------------------------------------- what is gone

  lemma SettledStays(s: System, t: System, keys: set<RowKey>)
    requires StaysGone(s, t) && AllSettled(s, keys)
    ensures AllSettled(t, keys)
  {
  }

  lemma GoneStays(s: System, t: System)
    requires StaysGone(s, t)
    ensures forall key :: Gone(s, key) ==> Gone(t, key)
  {
  }

  lemma NothingIsUndone(s: System)
    ensures StaysGone(s, s)
  {
  }

  lemma StaysGoneThrough(s: System, t: System, u: System)
    requires StaysGone(s, t) && StaysGone(t, u)
    ensures StaysGone(s, u)
  {
  }

  lemma TidyRow(s: System, row: RowKey)
    requires Tidy(s) && row in s.rows
    ensures Settled(s, row)
  {
  }

  lemma GoneNow(first: System, s: System, t: System, row: RowKey)
    requires Settled(first, row) && StaysGone(first, s) && StaysGone(s, t) && row !in t.rows
    ensures Gone(t, row)
  {
  }

  lemma CommittedIsLogged(c: Codec, s: System, p: nat)
    requires Core(c, s) && p in s.procs && s.procs[p].BeforeCollect?
    ensures s.head.Some? && 1 <= s.procs[p].revision <= |s.log| && s.procs[p].revision <= s.head.value.revision
  {
    assert ProcOk(c, s, p, s.procs[p]);
    assert CommitOk(c, s, |s.log| - 1);
  }

  // What was there before the call is deleted now, or was gone before.
  lemma SeenAreCollected(c: Codec, s: System, t: System, p: nat, seen: set<RowKey>, revision: nat)
    requires Core(c, t) && p in t.procs && t.procs[p].Collecting? && t.procs[p].revision == revision
    requires 1 <= revision <= |t.log| && revision <= t.procs[p].head.revision
    requires AllSettled(s, seen) && StaysGone(s, t)
    requires forall key :: key in s.rows && key.prefix.revision <= t.procs[p].head.revision && key.prefix != t.procs[p].head.prefix ==> key !in t.rows
    ensures forall key :: key in seen && IsSuperseded(t, revision, key) ==> key !in t.rows
  {
    hide Core;
    forall key | key in seen && IsSuperseded(t, revision, key) ensures key !in t.rows {
      SupersededByHead(c, t, p, key);
      if key !in s.rows {
        assert Gone(s, key);
      }
    }
  }

  // --------------------------------------------------------------- names nobody has used

  lemma SomeNonceIsUnused(used: set<nat>)
    ensures exists nonce: nat :: nonce !in used
  {
    if used == {} {
      assert 0 !in used;
    } else {
      var top := Largest(used);
      assert top + 1 !in used;
    }
  }

  lemma Largest(used: set<nat>) returns (top: nat)
    requires used != {}
    ensures top in used && forall n :: n in used ==> n <= top
    decreases |used|
  {
    var first :| first in used;
    top := first;
    assert used == {first} + (used - {first});
    if used - {first} != {} {
      var rest := Largest(used - {first});
      top := if first < rest then rest else first;
      assert forall n :: n in used ==> n == first || n in used - {first};
    }
  }

  // What became of a request: it may be refused, or its reply never come.
  datatype Reply = Accepted | Refused | LostLock | Unanswered

  class DynamoCommerceStore {
    const codec: Codec
    // What the other callers do before this caller's nth request, whether that
    // request's reply arrives, and the clock when it is sent.
    const others: nat -> seq<Event>
    const replies: nat -> bool
    const clock: nat -> int

    var table: System
    var turn: nat
    // The rows there were when the call in progress began.
    ghost var seen: set<RowKey>

    ghost predicate Valid()
      reads this
    {
      Faithful(codec) && Core(codec, table) && Fenced(table) && Tidy(table)
    }

    /** No request of this process goes unanswered. */
    ghost predicate AllAnswered() {
      forall n: nat :: replies(n)
    }

    // Nothing superseded by the commit is left of what was there before the call.
    ghost predicate Collected(revision: nat)
      reads this
    {
      && 1 <= revision <= |table.log|
      && forall key :: key in seen && IsSuperseded(table, revision, key) ==> key !in table.rows
    }

    ghost predicate Private(p: nat) {
      forall n: nat :: Foreign(others(n), p)
    }

    ghost predicate InCall(p: nat, since: nat)
      reads this
    {
      p in table.procs && Valid() && Private(p) && NotOlder(table, p, since) && AllSettled(table, seen)
    }

    constructor (codec: Codec, others: nat -> seq<Event>, replies: nat -> bool, clock: nat -> int)
      requires Faithful(codec)
      ensures Valid() && table == START
      ensures this.codec == codec && this.others == others && this.replies == replies && this.clock == clock
    {
      this.codec, this.others, this.replies, this.clock := codec, others, replies, clock;
      table, turn, seen := START, 0, {};
      new;
      StartIsSound(codec);
    }

    // --------------------------------------------------------------- requests

    method Wait(p: nat, ghost since: nat)
      requires InCall(p, since)
      modifies this`table, this`turn
      ensures InCall(p, since) && table.procs[p] == old(table).procs[p]
      ensures old(table).log <= table.log && StaysGone(old(table), table)
    {
      hide StaysGone;
      var meanwhile := others(turn);
      assert Foreign(meanwhile, p);
      OthersLeaveCaller(codec, table, meanwhile, p);
      RunNotOlder(codec, table, meanwhile, p, since);
      RunKeeps(codec, table, meanwhile);
      RunExtendsLog(codec, table, meanwhile);
      RunKeepsTidy(codec, table, meanwhile);
      RunStaysGone(codec, table, meanwhile);
      SettledStays(table, Run(codec, table, meanwhile), seen);
      table := Run(codec, table, meanwhile);
      turn := turn + 1;
    }

    // One request of caller p reaches the table.
    method Act(p: nat, a: Action, ghost since: nat)
      requires InCall(p, since) && !OutsideCalls(a)
      modifies this`table
      ensures InCall(p, since) && table == CallerStep(codec, old(table), p, a)
      ensures old(table).log <= table.log && StaysGone(old(table), table)
    {
      hide StaysGone;
      ghost var e := Event(p, a);
      StepNotOlder(codec, table, e, p, since);
      StepKeeps(codec, table, e);
      StepExtendsLog(codec, table, e);
      StepKeepsTidy(codec, table, e);
      StepStaysGone(codec, table, e);
      SettledStays(table, Step(codec, table, e), seen);
      table := Step(codec, table, Event(p, a));
    }

    method BeginCall(p: nat, call: Call)
      requires Valid() && Private(p) && p !in table.procs
      requires FenceOf(call).Some? ==> Issued(table, FenceOf(call).value)
      modifies this`table, this`seen
      ensures InCall(p, |old(table).log|) && table.procs[p] == ReadingHead(call, 0, 0)
      ensures table.log == old(table).log && seen == old(table).rows.Keys
    {
      StepKeeps(codec, table, Event(p, Begin(call)));
      StepKeepsTidy(codec, table, Event(p, Begin(call)));
      seen := table.rows.Keys;
      table := Step(codec, table, Event(p, Begin(call)));
    }

    method GetHead(p: nat, ghost since: nat) returns (head: Option<Head>)
      requires InCall(p, since) && table.procs[p].ReadingHead?
      modifies this`table, this`turn
      ensures InCall(p, since) && old(table).log <= table.log
      ensures var pc := old(table).procs[p];
              table.procs[p] == if head.None? then AfterLoad(pc.call, pc.tries, 0, NOTHING)
                                else Scanning(pc.call, pc.tries, pc.loads, head.value, 0, [])
    {
      hide Core, Fenced, Faithful, NotOlder;
      Wait(p, since);
      head := table.head;
      Act(p, Action.GetHead, since);
    }

    // The least part at or after `from` that has a row under the prefix.
    method NextRow(prefix: Prefix, from: nat) returns (part: Option<nat>)
      ensures part.None? ==> forall k :: k in table.rows && k.prefix == prefix ==> k.part < from
      ensures part.Some? ==> from <= part.value && RowKey(prefix, part.value) in table.rows
      ensures part.Some? ==> forall k :: from <= k < part.value ==> RowKey(prefix, k) !in table.rows
    {
      part := None;
      var left := table.rows.Keys;
      while left != {}
        invariant left <= table.rows.Keys
        invariant part.None? ==>
          forall k :: k in table.rows && k !in left && k.prefix == prefix ==> k.part < from
        invariant part.Some? ==> from <= part.value && RowKey(prefix, part.value) in table.rows
        invariant part.Some? ==>
          forall k :: from <= k < part.value && RowKey(prefix, k) in table.rows ==> RowKey(prefix, k) in left
        decreases left
      {
        var row :| row in left;
        if row.prefix == prefix && from <= row.part && (part.None? || row.part < part.value) {
          part := Some(row.part);
        }
        left := left - {row};
      }
    }

    /**
     The paginated query for a snapshot's rows: others may commit or delete
     between any two rows it meets.
     */
    method Rows(p: nat, ghost since: nat) returns (got: seq<(nat, string)>)
      requires InCall(p, since) && table.procs[p].Scanning?
      requires table.procs[p].next == 0 && table.procs[p].got == []
      modifies this`table, this`turn
      ensures InCall(p, since) && old(table).log <= table.log
      ensures var pc := old(table).procs[p];
              table.procs[p] ==
                if |got| == pc.head.parts && codec.digest(Join(got)) == pc.head.checksum
                then AfterLoad(pc.call, pc.tries, pc.head.revision, codec.open(Join(got)))
                else Rechecking(pc.call, pc.tries, pc.loads, pc.head)
    {
      hide Core, Fenced, Faithful, NotOlder;
      ghost var pc := table.procs[p];
      var head := table.procs[p].head;
      var next := 0;
      got := [];
      while true
        invariant InCall(p, since) && old(table).log <= table.log
        invariant table.procs[p] == Scanning(pc.call, pc.tries, pc.loads, head, next, got)
        invariant next <= head.parts
        decreases head.parts - next
      {
        Wait(p, since);
        var part := NextRow(head.prefix, next);
        if part.None? {
          Act(p, EndRows, since);
          return;
        }
        RowsFit(codec, table, p, part.value);
        got := got + [(part.value, table.rows[RowKey(head.prefix, part.value)])];
        Act(p, GetRow(part.value), since);
        next := part.value + 1;
      }
    }

    // --------------------------------------------------------------- load

    method LoadState(p: nat, ghost since: nat) returns (r: Result<(nat, Doc), Error>)
      requires InCall(p, since) && table.procs[p].ReadingHead? && table.procs[p].loads == 0
      modifies this`table, this`turn
      ensures InCall(p, since) && old(table).log <= table.log
      ensures var pc := old(table).procs[p];
              table.procs[p] == match r
                                case Ok(loaded) => AfterLoad(pc.call, pc.tries, loaded.0, loaded.1)
                                case Err(error) => Returned(pc.call, Failed(error))
    {
      hide Core, Fenced, Faithful, NotOlder;
      ghost var pc := table.procs[p];
      var attempt := 0;
      while attempt < 4
        invariant attempt <= 4 && InCall(p, since) && old(table).log <= table.log
        invariant table.procs[p] == if attempt < 4 then ReadingHead(pc.call, pc.tries, attempt)
                                    else Returned(pc.call, Failed(Busy))
      {
        var head := GetHead(p, since);
        if head.None? {
          return Ok((0, NOTHING));
        }
        var got := Rows(p, since);
        if |got| == head.value.parts && codec.digest(Join(got)) == head.value.checksum {
          return Ok((head.value.revision, codec.open(Join(got))));
        }
        Wait(p, since);
        var again := table.head;
        Act(p, Recheck, since);
        if again.Some? && again.value.revision == head.value.revision {
          return Err(Unavailable);
        }
        attempt := attempt + 1;
      }
      r := Err(Busy);
    }

    /** A load returns a state committed no earlier than the call began, or reports contention. */
    method Load(p: nat) returns (r: Result<(nat, Doc), Error>)
      requires Valid() && Private(p) && p !in table.procs
      modifies this
      ensures Valid() && old(table).log <= table.log
      ensures r.Ok? ==> |old(table).log| <= r.value.0 <= |table.log| && r.value.1 == Replay(table.log, r.value.0)
      ensures r.Err? ==> r.error != Unavailable
      ensures r.Ok? || r.error != Crashed ==> CommitsOnlyAt(table.log, p, 0)
    {
      hide Core, Fenced, Faithful, NotOlder;
      ghost var since := |table.log|;
      BeginCall(p, Call.Load);
      r := LoadState(p, since);
      ConcludesInCall(p, since);
    }

    lemma ConcludesInCall(p: nat, since: nat)
      requires InCall(p, since) && table.procs[p].Returned?
      ensures Concluded(table, p, table.procs[p].call, table.procs[p].outcome, since)
    {
      Concludes(codec, table, p, since);
    }

    // --------------------------------------------------------------- mutate

    // Seals the changed state under a prefix no writer has used.
    method Choose(p: nat, iv: nat, ghost since: nat)
      requires InCall(p, since) && table.procs[p].Loaded? && table.procs[p].call.Mutate?
      requires table.procs[p].call.op(table.procs[p].doc) != table.procs[p].doc
      modifies this`table
      ensures InCall(p, since) && old(table).log <= table.log
      ensures table.procs[p].Staging? && table.procs[p].next == 0
      ensures table.procs[p].call == old(table).procs[p].call && table.procs[p].tries == old(table).procs[p].tries
    {
      hide Core, Fenced, Faithful, NotOlder;
      var revision := table.procs[p].revision + 1;
      ghost var used := set prefix | prefix in table.sealed :: prefix.nonce;
      SomeNonceIsUnused(used);
      ghost var free: nat :| free !in used;
      assert Prefix(revision, free) !in table.sealed;
      var nonce: nat :| Prefix(revision, nonce) !in table.sealed;
      Act(p, ChoosePrefix(nonce, iv), since);
    }

    method Stage(p: nat, ghost since: nat) returns (reply: Reply, staged: seq<nat>)
      requires InCall(p, since) && table.procs[p].Staging? && table.procs[p].next == 0
      modifies this`table, this`turn
      ensures InCall(p, since) && old(table).log <= table.log
      ensures var pc := old(table).procs[p];
              match reply
              case Accepted => table.procs[p] == pc.(next := Parts(pc.value))
              case Refused => table.procs[p] == CleaningUp(pc.call, pc.tries, pc.prefix)
              case LostLock => false
              case Unanswered => table.procs[p] == Returned(pc.call, Failed(Crashed))
    {
      hide Core, Fenced, Faithful, NotOlder, Foreign, Step, SwapHead, ChooseFor, Observe, Chunk;
      var pc := table.procs[p];
      staged := [];
      var part := 0;
      while part < Parts(pc.value)
        invariant part <= Parts(pc.value) && InCall(p, since) && old(table).log <= table.log
        invariant table.procs[p] == pc.(next := part)
      {
        Wait(p, since);
        var taken := RowKey(pc.prefix, part) in table.rows;
        var acknowledged := replies(turn);
        Act(p, PutPart(acknowledged), since);
        if taken {
          return Refused, staged;
        }
        if !acknowledged {
          return Unanswered, staged;
        }
        staged := staged + [part];
        part := part + 1;
      }
      reply := Accepted;
    }

    method Swap(p: nat, ghost since: nat) returns (reply: Reply)
      requires InCall(p, since) && table.procs[p].Staging? && table.procs[p].call.Mutate?
      requires table.procs[p].next == Parts(table.procs[p].value)
      modifies this`table, this`turn
      ensures InCall(p, since) && old(table).log <= table.log
      ensures var pc := old(table).procs[p];
              match reply
              case Accepted => table.procs[p] == BeforeCollect(pc.call, pc.revision + 1)
              case Refused => table.procs[p] == CleaningUp(pc.call, pc.tries, pc.prefix)
              case LostLock => table.procs[p] == Returned(pc.call, Failed(Error.LockLost))
              case Unanswered => table.procs[p] == Returned(pc.call, Failed(Crashed))
    {
      hide Core, Fenced, Faithful, NotOlder;
      var lapsed := Lapsed(table, FenceOf(table.procs[p].call));
      Act(p, CheckContext, since);
      if lapsed {
        return LostLock;
      }
      Wait(p, since);
      var now, acknowledged := clock(turn), replies(turn);
      var moves := MaySwap(table, table.procs[p], now);
      Act(p, CommitHead(now, acknowledged), since);
      reply := if !moves then Refused else if acknowledged then Accepted else Unanswered;
    }

    method DeleteSuperseded(p: nat, head: Head, rows: set<RowKey>, ghost since: nat)
      requires InCall(p, since) && table.procs[p].Collecting? && table.procs[p].head == head && rows <= table.rows.Keys
      modifies this`table, this`turn
      ensures InCall(p, since) && old(table).log <= table.log
      ensures table.procs[p] == old(table).procs[p] && StaysGone(old(table), table)
      ensures AllAnswered() ==>
                forall key :: key in rows && key.prefix.revision <= head.revision && key.prefix != head.prefix ==> key !in table.rows
    {
      hide Core, Fenced, Faithful, NotOlder, Foreign, Step, SwapHead, StagePart, ChooseFor, Observe, Settled, StaysGone;
      var listed := rows;
      NothingIsUndone(table);
      while listed != {} && replies(turn)
        invariant InCall(p, since) && old(table).log <= table.log
        invariant table.procs[p] == old(table).procs[p] && StaysGone(old(table), table)
        invariant listed <= rows
        invariant forall key :: key in rows && key !in listed && key.prefix.revision <= head.revision && key.prefix != head.prefix ==>
                    Gone(table, key)
        decreases listed
      {
        var row :| row in listed;
        ghost var s := table;
        NothingIsUndone(s);
        if row.prefix.revision <= head.revision && row.prefix != head.prefix {
          TidyRow(old(table), row);
          Wait(p, since);
          ghost var t := table;
          Act(p, DeleteOld(row), since);
          StaysGoneThrough(s, t, table);
          GoneNow(old(table), s, table, row);
        }
        listed := listed - {row};
        StaysGoneThrough(old(table), s, table);
        GoneStays(s, table);
      }
    }

    // Whoever commits deletes superseded chunks, giving up at the first failure.
    method Collect(p: nat, ghost since: nat) returns (revision: nat)
      requires InCall(p, since) && table.procs[p].BeforeCollect?
      modifies this`table, this`turn
      ensures InCall(p, since) && old(table).log <= table.log
      ensures revision == old(table).procs[p].revision
      ensures table.procs[p] == Returned(old(table).procs[p].call, Committed(revision))
      ensures AllAnswered() ==> Collected(revision)
    {
      hide Core, Fenced, Faithful, NotOlder, Foreign, Step, SwapHead, StagePart, ChooseFor, AfterRow, AfterRows, AfterRecheck, AfterCleanUp, AfterHead;
      hide Settled, StaysGone;
      ghost var pc := table.procs[p];
      revision := table.procs[p].revision;
      Wait(p, since);
      var head := table.head;
      CommittedIsLogged(codec, table, p);
      Act(p, ReadHeadToCollect, since);
      if head.None? {
        return;
      }
      Wait(p, since);
      ghost var s := table;
      DeleteSuperseded(p, head.value, table.rows.Keys, since);
      if AllAnswered() {
        SeenAreCollected(codec, s, table, p, seen, revision);
      }
      Act(p, EndCollect, since);
    }

    // After a refusal the staged parts go, as far as the deletions get through.
    method CleanUp(p: nat, staged: seq<nat>, ghost since: nat) returns (fenced: bool)
      requires InCall(p, since) && table.procs[p].CleaningUp? && table.procs[p].tries < 8
      modifies this`table, this`turn
      ensures InCall(p, since) && old(table).log <= table.log
      ensures var pc := old(table).procs[p];
              table.procs[p] ==
                if !fenced then Returned(pc.call, Failed(Error.LockLost))
                else if pc.tries < 7 then ReadingHead(pc.call, pc.tries + 1, 0)
                else Returned(pc.call, Failed(Busy))
      ensures AllAnswered() ==> forall i :: 0 <= i < |staged| ==> RowKey(old(table).procs[p].prefix, staged[i]) !in table.rows
    {
      hide Core, Fenced, Faithful, NotOlder, Settled, StaysGone, FenceHolds;
      ghost var pc := table.procs[p];
      for i := 0 to |staged|
        invariant InCall(p, since) && old(table).log <= table.log
        invariant table.procs[p] == pc
        invariant AllAnswered() ==> forall j :: 0 <= j < i ==> Gone(table, RowKey(pc.prefix, staged[j]))
      {
        ghost var s := table;
        Wait(p, since);
        GoneStays(s, table);
        if replies(turn) {
          ghost var t := table;
          CleanedUpIsSettled(codec, table, p, staged[i]);
          Act(p, DeleteStaged(staged[i]), since);
          SettledStays(t, table, {RowKey(pc.prefix, staged[i])});
          GoneStays(t, table);
        }
      }
      ghost var s := table;
      Wait(p, since);
      GoneStays(s, table);
      var now := clock(turn);
      fenced := FenceHolds(table, FenceOf(table.procs[p].call), now);
      ghost var t := table;
      Act(p, Retry(now), since);
      GoneStays(t, table);
    }

    method FinishUnchanged(p: nat, ghost since: nat) returns (outcome: Outcome)
      requires InCall(p, since) && table.procs[p].Loaded? && table.procs[p].call.Mutate?
      requires table.procs[p].call.op(table.procs[p].doc) == table.procs[p].doc
      modifies this`table, this`turn
      ensures InCall(p, since) && old(table).log <= table.log
      ensures table.procs[p] == Returned(old(table).procs[p].call, outcome)
      ensures outcome == Unchanged(old(table).procs[p].revision) || outcome == Failed(Error.LockLost)
    {
      hide Core, Fenced, Faithful, NotOlder;
      Wait(p, since);
      var pc := table.procs[p];
      var now := clock(turn);
      outcome := if FenceHolds(table, pc.call.fence, now) then Unchanged(pc.revision) else Failed(Error.LockLost);
      Act(p, ReturnUnchanged(now), since);
    }

    // One attempt at the change; None asks for another.
    method Attempt(p: nat, iv: nat, ghost since: nat) returns (outcome: Option<Outcome>)
      requires InCall(p, since) && table.procs[p].ReadingHead? && table.procs[p].call.Mutate?
      requires table.procs[p].loads == 0 && table.procs[p].tries < 8
      modifies this`table, this`turn
      ensures InCall(p, since) && old(table).log <= table.log
      ensures var pc := old(table).procs[p];
              table.procs[p] ==
                if outcome.Some? then Returned(pc.call, outcome.value)
                else if pc.tries < 7 then ReadingHead(pc.call, pc.tries + 1, 0)
                else Returned(pc.call, Failed(Busy))
      ensures outcome.Some? ==> !outcome.value.Read?
      ensures outcome.Some? && outcome.value.Unchanged? ==>
                && outcome.value.revision <= |table.log|
                && var doc := Replay(table.log, outcome.value.revision);
                   old(table).procs[p].call.op(doc) == doc
      ensures outcome.Some? && outcome.value.Committed? && AllAnswered() ==> Collected(outcome.value.revision)
    {
      hide Collected, IsSuperseded;
      hide Core, Fenced, Faithful, NotOlder;
      var op := table.procs[p].call.op;
      var loaded := LoadState(p, since);
      if loaded.Err? {
        return Some(Failed(loaded.error));
      }
      if op(loaded.value.1) == loaded.value.1 {
        LoadedIsReplayed(codec, table, p);
        ghost var log := table.log;
        var done := FinishUnchanged(p, since);
        ReplayIsStable(log, table.log, loaded.value.0);
        return Some(done);
      }
      Choose(p, iv, since);
      var reply, staged := Stage(p, since);
      if reply.Accepted? {
        reply := Swap(p, since);
      }
      match reply {
        case Accepted =>
          var revision := Collect(p, since);
          outcome := Some(Committed(revision));
        case Refused =>
          var fenced := CleanUp(p, staged, since);
          outcome := if fenced then None else Some(Failed(Error.LockLost));
        case LostLock => outcome := Some(Failed(Error.LockLost));
        case Unanswered => outcome := Some(Failed(Crashed));
      }
    }

    /**
     A change takes effect exactly once, at the reported revision and on top of
     everything committed before the call, or is reported not to have; a change
     that makes no difference is not written.  Only a lost reply leaves it open.
     */
    method Mutate(p: nat, op: Operation, fence: Option<Fence>, iv: nat) returns (outcome: Outcome)
      requires Valid() && Private(p) && p !in table.procs
      requires fence.Some? ==> Issued(table, fence.value)
      modifies this
      ensures Valid() && old(table).log <= table.log && !outcome.Read?
      ensures p in table.procs && table.procs[p] == Returned(Call.Mutate(op, fence), outcome)
      ensures Concluded(table, p, Call.Mutate(op, fence), outcome, |old(table).log|)
      ensures outcome.Unchanged? ==>
                op(Replay(table.log, outcome.revision)) == Replay(table.log, outcome.revision)
      ensures outcome.Committed? && AllAnswered() ==>
                && 1 <= outcome.revision <= |table.log|
                && forall key :: key in old(table).rows && IsSuperseded(table, outcome.revision, key) ==> key !in table.rows
    {
      hide Core, Fenced, Faithful, NotOlder;
      ghost var since := |table.log|;
      BeginCall(p, Call.Mutate(op, fence));
      var attempt := 0;
      while attempt < 8
        invariant attempt <= 8 && InCall(p, since) && old(table).log <= table.log && seen == old(table).rows.Keys
        invariant table.procs[p] == if attempt < 8 then ReadingHead(Call.Mutate(op, fence), attempt, 0)
                                    else Returned(Call.Mutate(op, fence), Failed(Busy))
      {
        var done := Attempt(p, iv + attempt, since);
        if done.Some? {
          ConcludesInCall(p, since);
          return done.value;
        }
        attempt := attempt + 1;
      }
      ConcludesInCall(p, since);
      outcome := Failed(Busy);
    }

    // --------------------------------------------------------------- withLock

    method TakeLock(p: nat, lock: string, token: nat, now: int)
      requires Valid() && token !in table.tokens
      requires lock in table.locks ==> table.locks[lock].expires < now
      modifies this`table
      ensures Valid() && Issued(table, Fence(lock, token))
      ensures table.log == old(table).log && table.procs == old(table).procs
    {
      var e := Event(p, Acquire(lock, token, now + 60000, now));
      StepKeeps(codec, table, e);
      StepKeepsTidy(codec, table, e);
      hide Core, Fenced, Faithful;
      table := Step(codec, table, e);
    }

    lemma FenceOfCall(p: nat)
      requires Valid() && p in table.procs && FenceOf(table.procs[p].call).Some?
      ensures Issued(table, FenceOf(table.procs[p].call).value)
    {
    }

    method LetGo(p: nat, lock: string, token: nat)
      requires Valid() && Issued(table, Fence(lock, token))
      modifies this`table
      ensures Valid() && Replaced(table, Fence(lock, token))
      ensures table.log == old(table).log && table.procs == old(table).procs
    {
      var e := Event(p, Release(token));
      StepKeeps(codec, table, e);
      StepKeepsTidy(codec, table, e);
      hide Core, Fenced, Faithful;
      table := Step(codec, table, e);
    }

    /**
     Runs a change under a lock: refused exactly while somebody's unexpired token
     is there, and otherwise carrying a token of its own, which is gone from the
     lock row afterwards unless the request to remove it was lost.
     */
    method WithLock(p: nat, lock: string, op: Operation, iv: nat)
      returns (r: Result<Outcome, Error>, ghost token: nat)
      requires Valid() && Private(p) && p !in table.procs
      modifies this
      ensures Valid() && old(table).log <= table.log && token !in old(table).tokens
      ensures r.Err? <==> lock in old(table).locks && old(table).locks[lock].expires >= clock(old(turn))
      ensures r.Err? ==> table == old(table) && r.error == Busy
      ensures r.Ok? ==>
                && Concluded(table, p, Call.Mutate(op, Some(Fence(lock, token))), r.value, |old(table).log|)
                && (replies(turn) ==> Replaced(table, Fence(lock, token)))
    {
      hide Core, Fenced, Faithful, NotOlder, Foreign, TellsEffect, Replay, Step;
      SomeNonceIsUnused(table.tokens.Keys);
      var mine: nat :| mine !in table.tokens;
      token := mine;
      var now := clock(turn);
      if lock in table.locks && table.locks[lock].expires >= now {
        return Err(Busy), token;
      }
      TakeLock(p, lock, mine, now);
      var outcome := Mutate(p, op, Some(Fence(lock, mine)), iv);
      FenceOfCall(p);
      if replies(turn) {
        ghost var held := table;
        LetGo(p, lock, mine);
        SameConclusion(held, table, p, Call.Mutate(op, Some(Fence(lock, mine))), outcome, |old(table).log|);
      }
      r := Ok(outcome);
    }
  }
}
