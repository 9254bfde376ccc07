/**
 Staged repository transactions (adapters/aws/src/transactions.ts:12-82, with the
 repository of adapters/aws/src/index.ts:40-53): point reads see the staged
 writes, and the staged writes go out as one conditional batch.
 */
module Transactions {
  import opened Common

  datatype Item = Item(revision: int, value: string)

  type Table = map<string, Item>

  datatype Condition = Absent | AtRevision(revision: int)

  datatype Write = Put(key: string, item: Item, condition: Condition) | Delete(key: string, condition: Condition)

  datatype Command = Get(key: string) | Writing(write: Write) | Unsupported

  // overlay[k] is the staged item, or none for a staged deletion.
  datatype Staging = Staging(id: string, active: bool, failed: bool, writes: seq<Write>, overlay: map<string, Option<Item>>)

  datatype Error = Ended | NotSupported | WrittenTwice | TooManyWrites | Aborted | Conflict | Stale | WrongHandle | Thrown

  const MAX_WRITES := 100

  function Begin(id: string): Staging {
    Staging(id, true, false, [], map[])
  }

  function Lookup(table: Table, key: string): Option<Item> {
    if key in table then Some(table[key]) else None
  }

  function Staged(w: Write): Option<Item> {
    if w.Put? then Some(w.item) else None
  }

  // --------------------------------------------------------------- commands

  datatype Answer = Answer(staging: Staging, result: Result<Option<Item>, Error>)

  function Refused(s: Staging, e: Error): Answer {
    Answer(s.(failed := true), Err(e))
  }

  function Send(s: Staging, table: Table, c: Command): Answer {
    if !s.active then Answer(s, Err(Ended))
    else
      match c
      case Get(key) => Answer(s, Ok(if key in s.overlay then s.overlay[key] else Lookup(table, key)))
      case Unsupported => Refused(s, NotSupported)
      case Writing(w) =>
        if w.key in s.overlay then Refused(s, WrittenTwice)
        else if |s.writes| >= MAX_WRITES then Refused(s, TooManyWrites)
        else Answer(s.(writes := s.writes + [w], overlay := s.overlay[w.key := Staged(w)]), Ok(None))
  }

  /** Using a handle that is not this transaction's fails it. */
  function AssertHandle(s: Staging, id: string): Answer {
    if !s.active || s.id != id then Refused(s, WrongHandle) else Answer(s, Ok(None))
  }

  // --------------------------------------------------------------- the batch

  predicate Holds(table: Table, w: Write) {
    match w.condition
    case Absent => w.key !in table
    case AtRevision(revision) => w.key in table && table[w.key].revision == revision
  }

  predicate AllHold(table: Table, writes: seq<Write>) {
    forall i :: 0 <= i < |writes| ==> Holds(table, writes[i])
  }

  function ApplyOne(table: Table, w: Write): Table {
    if w.Put? then table[w.key := w.item] else table - {w.key}
  }

  function ApplyAll(table: Table, writes: seq<Write>): Table {
    if writes == [] then table else ApplyOne(ApplyAll(table, writes[..|writes| - 1]), writes[|writes| - 1])
  }

  /** The store accepts a batch whole when every condition holds, and otherwise not at all. */
  function Transact(table: Table, writes: seq<Write>): Option<Table> {
    if AllHold(table, writes) then Some(ApplyAll(table, writes)) else None
  }

  datatype Finish = Finish(staging: Staging, table: Table, result: Result<bool, Error>)

  /** The end of the operation: a throw or any failed command aborts, otherwise the batch decides. */
  function Commit(s: Staging, table: Table, threw: bool): Finish {
    var ended := s.(active := false);
    if !s.active then Finish(s, table, Err(Ended))
    else if threw then Finish(ended, table, Err(Thrown))
    else if s.failed then Finish(ended, table, Err(Aborted))
    else if s.writes == [] then Finish(ended, table, Ok(true))
    else
      var after := Transact(table, s.writes);
      if after.None? then Finish(ended, table, Err(Conflict)) else Finish(ended, after.value, Ok(true))
  }

  // --------------------------------------------------------------- the repository

  function Create(s: Staging, table: Table, key: string, value: string): Answer {
    Send(s, table, Writing(Put(key, Item(1, value), Absent)))
  }

  /** Read, compare the revision, stage the next one on condition of the expected one. */
  function Update(s: Staging, table: Table, key: string, expected: int, value: string): Answer {
    var read := Send(s, table, Get(key));
    if read.result.Err? then read
    else if read.result.value.None? || read.result.value.value.revision != expected then Refused(read.staging, Stale)
    else Send(read.staging, table, Writing(Put(key, Item(expected + 1, value), AtRevision(expected))))
  }

  function Remove(s: Staging, table: Table, key: string, expected: int): Answer {
    Send(s, table, Writing(Delete(key, AtRevision(expected))))
  }

  // --------------------------------------------------------------- runs

  // What the operation does, in any order, catching what errors it likes; Elsewhere is another client's write.
  datatype Event =
    | Reading(key: string)
    | Creating(key: string, value: string)
    | Updating(key: string, expected: int, value: string)
    | Removing(key: string, expected: int)
    | Listing
    | Checking(handle: string)
    | NestedThrow
    | Elsewhere(table: Table)
    | Committing(threw: bool)

  datatype Sys = Sys(staging: Staging, table: Table)

  function Answered(a: Answer, table: Table): Sys {
    Sys(a.staging, table)
  }

  function Step(s: Sys, e: Event): Sys {
    match e
    case Reading(key) => Answered(Send(s.staging, s.table, Get(key)), s.table)
    case Creating(key, value) => Answered(Create(s.staging, s.table, key, value), s.table)
    case Updating(key, expected, value) => Answered(Update(s.staging, s.table, key, expected, value), s.table)
    case Removing(key, expected) => Answered(Remove(s.staging, s.table, key, expected), s.table)
    case Listing => Answered(Send(s.staging, s.table, Unsupported), s.table)
    case Checking(handle) => Answered(AssertHandle(s.staging, handle), s.table)
    case NestedThrow => Sys(s.staging.(failed := true), s.table)
    case Elsewhere(table) => s.(table := table)
    case Committing(threw) =>
      var done := Commit(s.staging, s.table, threw);
      Sys(done.staging, done.table)
  }

  function Run(s: Sys, events: seq<Event>): Sys
    decreases |events|
  {
    if events == [] then s else Run(Step(s, events[0]), events[1..])
  }

  // --------------------------------------------------------------- the invariant

  ghost predicate DistinctKeys(writes: seq<Write>) {
    forall i, j :: 0 <= i < j < |writes| ==> writes[i].key != writes[j].key
  }

  /** A write the repository issues: a first revision where there was none, the next one, or a removal. */
  predicate FromRepository(w: Write) {
    match w
    case Put(_, item, Absent) => item.revision == 1
    case Put(_, item, AtRevision(revision)) => item.revision == revision + 1
    case Delete(_, condition) => condition.AtRevision?
  }

  /** The overlay is what the staged writes, each to its own key, will make. */
  ghost predicate Inv(s: Staging) {
    && |s.writes| <= MAX_WRITES && DistinctKeys(s.writes)
    && (forall i :: 0 <= i < |s.writes| ==>
          FromRepository(s.writes[i]) && s.writes[i].key in s.overlay && s.overlay[s.writes[i].key] == Staged(s.writes[i]))
    && (forall k :: k in s.overlay ==> exists i :: 0 <= i < |s.writes| && s.writes[i].key == k)
  }

  lemma SendKeepsInv(s: Staging, table: Table, c: Command)
    requires Inv(s) && (c.Writing? ==> FromRepository(c.write))
    ensures Inv(Send(s, table, c).staging)
  {
    hide FromRepository, Lookup;
    var t := Send(s, table, c).staging;
    forall k | k in t.overlay ensures exists i :: 0 <= i < |t.writes| && t.writes[i].key == k {
      if k in s.overlay {
        var i :| 0 <= i < |s.writes| && s.writes[i].key == k;
        assert t.writes[i] == s.writes[i];
      } else {
        assert t.writes[|s.writes|].key == k;
      }
    }
  }

  lemma StepKeepsInv(s: Sys, e: Event)
    requires Inv(s.staging)
    ensures Inv(Step(s, e).staging)
  {
    hide Send;
    match e
    case Reading(key) => SendKeepsInv(s.staging, s.table, Get(key));
    case Creating(key, value) => SendKeepsInv(s.staging, s.table, Writing(Put(key, Item(1, value), Absent)));
    case Updating(key, expected, value) =>
      SendKeepsInv(s.staging, s.table, Get(key));
      SendKeepsInv(Send(s.staging, s.table, Get(key)).staging, s.table, Writing(Put(key, Item(expected + 1, value), AtRevision(expected))));
    case Removing(key, expected) => SendKeepsInv(s.staging, s.table, Writing(Delete(key, AtRevision(expected))));
    case Listing => SendKeepsInv(s.staging, s.table, Unsupported);
    case _ =>
  }

  lemma {:induction false} RunKeepsInv(s: Sys, events: seq<Event>)
    requires Inv(s.staging)
    ensures Inv(Run(s, events).staging)
    decreases |events|
  {
    hide Inv, Step;
    if events != [] {
      StepKeepsInv(s, events[0]);
      RunKeepsInv(Step(s, events[0]), events[1..]);
    }
  }

  lemma Reached(id: string, table: Table, events: seq<Event>)
    ensures Inv(Run(Sys(Begin(id), table), events).staging)
  {
    RunKeepsInv(Sys(Begin(id), table), events);
  }

  // --------------------------------------------------------------- all or nothing

  /** The table with the overlay's items put and its deletions taken out. */
  function Overridden(table: Table, overlay: map<string, Option<Item>>): Table {
    map k | k in table.Keys + overlay.Keys && (k in overlay ==> overlay[k].Some?) ::
      if k in overlay then overlay[k].value else table[k]
  }

  lemma {:induction false} AppliedAt(table: Table, writes: seq<Write>, k: string)
    requires DistinctKeys(writes)
    ensures var after := ApplyAll(table, writes);
            && (forall i :: 0 <= i < |writes| && writes[i].key == k ==> Lookup(after, k) == Staged(writes[i]))
            && ((forall i :: 0 <= i < |writes| ==> writes[i].key != k) ==> Lookup(after, k) == Lookup(table, k))
  {
    if writes != [] {
      AppliedAt(table, writes[..|writes| - 1], k);
      assert forall i :: 0 <= i < |writes| - 1 ==> writes[..|writes| - 1][i] == writes[i];
    }
  }

  lemma SameLookups(a: Table, b: Table)
    requires forall k :: Lookup(a, k) == Lookup(b, k)
    ensures a == b
  {
    forall k ensures k in a <==> k in b {
      assert Lookup(a, k) == Lookup(b, k);
    }
    forall k | k in a ensures a[k] == b[k] {
      assert Lookup(a, k) == Lookup(b, k);
    }
  }

  lemma OverriddenAt(table: Table, overlay: map<string, Option<Item>>, k: string)
    ensures Lookup(Overridden(table, overlay), k) == if k in overlay then overlay[k] else Lookup(table, k)
  {
  }

  /** A batch that goes through makes exactly the overlay. */
  lemma BatchIsOverlay(s: Staging, table: Table)
    requires Inv(s)
    ensures ApplyAll(table, s.writes) == Overridden(table, s.overlay)
  {
    hide ApplyAll, Overridden, Lookup;
    forall k ensures Lookup(ApplyAll(table, s.writes), k) == Lookup(Overridden(table, s.overlay), k) {
      AppliedAt(table, s.writes, k);
      OverriddenAt(table, s.overlay, k);
      if k in s.overlay {
        var i :| 0 <= i < |s.writes| && s.writes[i].key == k;
      }
    }
    SameLookups(ApplyAll(table, s.writes), Overridden(table, s.overlay));
  }

  /**
   Committing leaves the table alone, or makes of it exactly the table overridden
   by what was staged; it does the latter only if nothing failed and every
   expected revision still stood.
   */
  lemma CommitIsAllOrNothing(id: string, table: Table, events: seq<Event>, threw: bool)
    ensures var s := Run(Sys(Begin(id), table), events);
            var done := Commit(s.staging, s.table, threw);
            && done.table == (if done.result.Ok? then Overridden(s.table, s.staging.overlay) else s.table)
            && (done.result.Ok? <==> s.staging.active && !s.staging.failed && !threw && AllHold(s.table, s.staging.writes))
            && !done.staging.active
  {
    var s := Run(Sys(Begin(id), table), events);
    Reached(id, table, events);
    BatchIsOverlay(s.staging, s.table);
    if s.staging.writes == [] {
      assert ApplyAll(s.table, []) == s.table;
    }
  }

  /** Unchanged, at its first revision, at the next one, or gone. */
  predicate MovesOneRevision(before: Option<Item>, after: Option<Item>) {
    || after == before
    || (after.Some? && after.value.revision == if before.Some? then before.value.revision + 1 else 1)
    || (before.Some? && after.None?)
  }

  lemma WriteMovesOneRevision(table: Table, w: Write)
    requires FromRepository(w) && Holds(table, w)
    ensures MovesOneRevision(Lookup(table, w.key), Staged(w))
  {
  }

  lemma OverlayMovesOneRevision(s: Staging, table: Table, k: string)
    requires Inv(s) && AllHold(table, s.writes)
    ensures MovesOneRevision(Lookup(table, k), Lookup(Overridden(table, s.overlay), k))
  {
    hide Overridden, FromRepository, Holds, DistinctKeys, Staged, MovesOneRevision, Lookup;
    OverriddenAt(table, s.overlay, k);
    if k in s.overlay {
      var i :| 0 <= i < |s.writes| && s.writes[i].key == k;
      WriteMovesOneRevision(table, s.writes[i]);
    } else {
      StandsStill(Lookup(table, k));
    }
  }

  lemma StandsStill(item: Option<Item>)
    ensures MovesOneRevision(item, item)
  {
  }

  /** A committed record was absent and is at its first revision, stood at the expected one and is at the next, or is gone. */
  lemma CommittedRecordsMoveOneRevision(id: string, table: Table, events: seq<Event>, k: string)
    ensures var s := Run(Sys(Begin(id), table), events);
            var done := Commit(s.staging, s.table, false);
            done.result.Ok? ==> MovesOneRevision(Lookup(s.table, k), Lookup(done.table, k))
  {
    hide Run, Commit, Overridden, Lookup, MovesOneRevision, Inv, AllHold;
    var s := Run(Sys(Begin(id), table), events);
    Reached(id, table, events);
    CommitIsAllOrNothing(id, table, events, false);
    if Commit(s.staging, s.table, false).result.Ok? {
      OverlayMovesOneRevision(s.staging, s.table, k);
    }
  }

  // --------------------------------------------------------------- failure sticks

  predicate Spoilt(s: Staging) {
    s.failed || !s.active
  }

  lemma SpoiltInAStep(s: Sys, e: Event)
    requires Spoilt(s.staging)
    ensures Spoilt(Step(s, e).staging)
    ensures !e.Elsewhere? ==> Step(s, e).table == s.table
  {
  }

  /** Once a command failed, a nested operation threw or the handle ended, nothing the transaction does is ever written. */
  lemma {:induction false} SpoiltNeverWrites(s: Sys, events: seq<Event>)
    requires Spoilt(s.staging) && forall i :: 0 <= i < |events| ==> !events[i].Elsewhere?
    ensures Run(s, events).table == s.table
    decreases |events|
  {
    hide Step;
    if events != [] {
      SpoiltInAStep(s, events[0]);
      SpoiltNeverWrites(Step(s, events[0]), events[1..]);
    }
  }

  /** Every refused command spoils the transaction. */
  lemma RefusalSpoils(s: Staging, table: Table, c: Command)
    requires Send(s, table, c).result.Err?
    ensures Spoilt(Send(s, table, c).staging)
  {
  }

  // --------------------------------------------------------------- reading one's own writes

  lemma OverlayStaysInAStep(s: Sys, e: Event, k: string)
    requires k in s.staging.overlay
    ensures k in Step(s, e).staging.overlay && Step(s, e).staging.overlay[k] == s.staging.overlay[k]
  {
  }

  lemma {:induction false} OverlayStays(s: Sys, events: seq<Event>, k: string)
    requires k in s.staging.overlay
    ensures k in Run(s, events).staging.overlay && Run(s, events).staging.overlay[k] == s.staging.overlay[k]
    decreases |events|
  {
    hide Step;
    if events != [] {
      OverlayStaysInAStep(s, events[0], k);
      OverlayStays(Step(s, events[0]), events[1..], k);
    }
  }

  /** While the transaction is open a read of what it wrote returns what it wrote, whatever other clients do meanwhile. */
  lemma ReadsItsOwnWrites(s: Sys, w: Write, events: seq<Event>)
    requires Send(s.staging, s.table, Writing(w)).result.Ok?
    ensures var t := Run(Answered(Send(s.staging, s.table, Writing(w)), s.table), events);
            t.staging.active ==> Send(t.staging, t.table, Get(w.key)).result == Ok(Staged(w))
  {
    OverlayStays(Answered(Send(s.staging, s.table, Writing(w)), s.table), events, w.key);
  }
}

/** The coordinator's state, changed by each call in its context. */
module TransactionalDynamoClass {
  import opened Common
  import opened Transactions

  class TransactionalDynamo {
    var table: Table
    var id: string
    var active: bool
    var failed: bool
    var writes: seq<Write>
    var overlay: map<string, Option<Item>>

    function State(): Staging
      reads this
    {
      Staging(id, active, failed, writes, overlay)
    }

    constructor (table: Table, id: string)
      ensures this.table == table && State() == Begin(id)
    {
      this.table, this.id, active, failed, writes, overlay := table, id, true, false, [], map[];
    }

    method Send(c: Command) returns (r: Result<Option<Item>, Error>)
      modifies this
      ensures table == old(table)
      ensures Answer(State(), r) == Transactions.Send(old(State()), table, c)
    {
      if !active {
        return Err(Ended);
      }
      match c
      case Get(key) =>
        if key in overlay {
          return Ok(overlay[key]);
        }
        return Ok(Lookup(table, key));
      case Unsupported =>
        failed := true;
        return Err(NotSupported);
      case Writing(w) =>
        if w.key in overlay {
          failed := true;
          return Err(WrittenTwice);
        }
        if |writes| >= MAX_WRITES {
          failed := true;
          return Err(TooManyWrites);
        }
        writes := writes + [w];
        overlay := overlay[w.key := Staged(w)];
        return Ok(None);
    }

    method Update(key: string, expected: int, value: string) returns (r: Result<Option<Item>, Error>)
      modifies this
      ensures table == old(table)
      ensures Answer(State(), r) == Transactions.Update(old(State()), table, key, expected, value)
    {
      hide Transactions.Send;
      r := Send(Get(key));
      if r.Err? {
        return;
      }
      if r.value.None? || r.value.value.revision != expected {
        failed := true;
        return Err(Stale);
      }
      r := Send(Writing(Put(key, Item(expected + 1, value), AtRevision(expected))));
    }

    /** Staging closes before the batch is sent. */
    method Commit(threw: bool) returns (r: Result<bool, Error>)
      modifies this
      ensures Finish(State(), table, r) == Transactions.Commit(old(State()), old(table), threw)
    {
      if !active {
        return Err(Ended);
      }
      active := false;
      if threw {
        return Err(Thrown);
      }
      if failed {
        return Err(Aborted);
      }
      if writes != [] {
        var after := Transact(table, writes);
        if after.None? {
          return Err(Conflict);
        }
        table := after.value;
      }
      r := Ok(true);
    }
  }
}
