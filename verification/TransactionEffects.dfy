/** What a repository call in a transaction does: when it is accepted, what it stages, and what a commit then stores. */
module TransactionEffects {
  import opened Common
  import opened Transactions

  /** The transaction is open, the record not staged yet, and there is room in the batch. */
  ghost predicate CanStage(s: Staging, key: string) {
    s.active && key !in s.overlay && |s.writes| < 100
  }

  /** The record as the transaction reads it: as staged, or as stored. */
  ghost function Seen(s: Staging, table: Table, key: string): Option<Item> {
    if key in s.overlay then s.overlay[key] else if key in table then Some(table[key]) else None
  }

  /** A read in an open transaction sees what is staged, or else what is stored, and stages nothing. */
  lemma ReadsSeeStagedThenStored(s: Staging, table: Table, key: string)
    ensures var a := Send(s, table, Get(key));
            a.staging == s && a.result == (if s.active then Ok(Seen(s, table, key)) else Err(Ended))
  {
  }

  // What a call stages, if anything: one write more, shown to the transaction's own reads.
  ghost predicate Stages(s: Staging, t: Staging, w: Write, item: Option<Item>) {
    t == s.(writes := s.writes + [w], overlay := s.overlay[w.key := item])
  }

  /**
   An update is accepted exactly if the record it reads is at the expected revision
   and can be staged; it stages the new value at the next revision, on condition
   of the expected one.  A refused one fails the transaction.
   */
  lemma UpdatesAreStagedExactly(s: Staging, table: Table, key: string, expected: int, value: string)
    ensures var a := Update(s, table, key, expected, value);
            && (a.result.Ok? <==> CanStage(s, key) && key in table && table[key].revision == expected)
            && (a.result.Ok? ==> Stages(s, a.staging, Put(key, Item(expected + 1, value), AtRevision(expected)), Some(Item(expected + 1, value))))
            && (a.result.Err? ==> a.staging == if s.active then s.(failed := true) else s)
  {
  }

  /** A new record is accepted exactly if it can be staged: at revision 1, on condition that there is none. */
  lemma CreationsAreStagedExactly(s: Staging, table: Table, key: string, value: string)
    ensures var a := Create(s, table, key, value);
            && (a.result.Ok? <==> CanStage(s, key))
            && (a.result.Ok? ==> Stages(s, a.staging, Put(key, Item(1, value), Absent), Some(Item(1, value))))
            && (a.result.Err? ==> a.staging == if s.active then s.(failed := true) else s)
  {
  }

  /** A removal is accepted exactly if it can be staged, on condition of the expected revision. */
  lemma RemovalsAreStagedExactly(s: Staging, table: Table, key: string, expected: int)
    ensures var a := Remove(s, table, key, expected);
            && (a.result.Ok? <==> CanStage(s, key))
            && (a.result.Ok? ==> Stages(s, a.staging, Delete(key, AtRevision(expected)), None))
            && (a.result.Err? ==> a.staging == if s.active then s.(failed := true) else s)
  {
  }

  // --------------------------------------------------------------- what a commit stores

  /** A write's condition on the table: no record, or one at the revision. */
  ghost predicate StillHolds(table: Table, w: Write) {
    match w.condition
    case Absent => w.key !in table
    case AtRevision(revision) => w.key in table && table[w.key].revision == revision
  }

  lemma StagedIsStored(s: Staging, table: Table, key: string)
    requires Inv(s) && key in s.overlay && Commit(s, table, false).result.Ok?
    ensures var t := Commit(s, table, false).table;
            if s.overlay[key].Some? then key in t && t[key] == s.overlay[key].value else key !in t
  {
    hide ApplyAll, Overridden;
    BatchIsOverlay(s, table);
    OverriddenAt(table, s.overlay, key);
  }

  lemma StaysStaged(s: Sys, key: string, events: seq<Event>)
    requires Inv(s.staging) && key in s.staging.overlay
    ensures var t := Run(s, events);
            var done := Commit(t.staging, t.table, false);
            done.result.Ok? ==>
              if s.staging.overlay[key].Some? then key in done.table && done.table[key] == s.staging.overlay[key].value
              else key !in done.table
  {
    hide Commit, Run;
    OverlayStays(s, events, key);
    RunKeepsInv(s, events);
    var t := Run(s, events);
    if Commit(t.staging, t.table, false).result.Ok? {
      StagedIsStored(t.staging, t.table, key);
    }
  }

  /**
   What an accepted update, creation or removal staged is what a commit stores,
   whatever the transaction and other clients do in between: the new value at the
   next revision, the value at revision 1, and nothing.
   */
  lemma CommitsStoreWhatWasStaged(id: string, table: Table, before: seq<Event>, key: string, expected: int, value: string, after: seq<Event>)
    ensures var s := Run(Sys(Begin(id), table), before);
            && (Update(s.staging, s.table, key, expected, value).result.Ok? ==>
                  var t := Run(Step(s, Updating(key, expected, value)), after);
                  var done := Commit(t.staging, t.table, false);
                  done.result.Ok? ==> key in done.table && done.table[key] == Item(expected + 1, value))
            && (Create(s.staging, s.table, key, value).result.Ok? ==>
                  var t := Run(Step(s, Creating(key, value)), after);
                  var done := Commit(t.staging, t.table, false);
                  done.result.Ok? ==> key in done.table && done.table[key] == Item(1, value))
            && (Remove(s.staging, s.table, key, expected).result.Ok? ==>
                  var t := Run(Step(s, Removing(key, expected)), after);
                  var done := Commit(t.staging, t.table, false);
                  done.result.Ok? ==> key !in done.table)
  {
    hide Commit, Run, Update, Create, Remove, Inv;
    var s := Run(Sys(Begin(id), table), before);
    Reached(id, table, before);
    UpdatesAreStagedExactly(s.staging, s.table, key, expected, value);
    CreationsAreStagedExactly(s.staging, s.table, key, value);
    RemovalsAreStagedExactly(s.staging, s.table, key, expected);
    StepKeepsInv(s, Updating(key, expected, value));
    StepKeepsInv(s, Creating(key, value));
    StepKeepsInv(s, Removing(key, expected));
    if Update(s.staging, s.table, key, expected, value).result.Ok? {
      StaysStaged(Step(s, Updating(key, expected, value)), key, after);
    }
    if Create(s.staging, s.table, key, value).result.Ok? {
      StaysStaged(Step(s, Creating(key, value)), key, after);
    }
    if Remove(s.staging, s.table, key, expected).result.Ok? {
      StaysStaged(Step(s, Removing(key, expected)), key, after);
    }
  }

  /**
   A commit goes through exactly if the transaction is open, nothing in it failed
   or threw, and every condition staged still holds; otherwise nothing is stored.
   Records not staged are as other clients left them.
   */
  lemma CommitsGoThroughExactly(s: Staging, table: Table, threw: bool, other: string)
    requires Inv(s)
    ensures var done := Commit(s, table, threw);
            && (done.result.Ok? <==>
                  s.active && !s.failed && !threw && forall i :: 0 <= i < |s.writes| ==> StillHolds(table, s.writes[i]))
            && (done.result.Err? ==> done.table == table)
            && (other !in s.overlay ==> (other in done.table <==> other in table) && (other in table ==> done.table[other] == table[other]))
  {
    hide ApplyAll, Overridden;
    BatchIsOverlay(s, table);
    OverriddenAt(table, s.overlay, other);
    forall i | 0 <= i < |s.writes| ensures Holds(table, s.writes[i]) <==> StillHolds(table, s.writes[i]) { }
  }

  lemma {:induction false} SpoiltStays(s: Sys, events: seq<Event>)
    requires Spoilt(s.staging)
    ensures Spoilt(Run(s, events).staging)
    decreases |events|
  {
    hide Step, Spoilt;
    if events != [] {
      SpoiltInAStep(s, events[0]);
      SpoiltStays(Step(s, events[0]), events[1..]);
    }
  }

  /** A handle passes exactly if it is the open transaction's own. */
  lemma HandlesPassExactly(s: Staging, handle: string)
    ensures AssertHandle(s, handle).result.Ok? <==> s.active && s.id == handle
    ensures AssertHandle(s, handle).result.Ok? ==> AssertHandle(s, handle).staging == s
  {
  }

  /** A nested throw or a foreign handle, caught or not, lets no later commit go through. */
  lemma CaughtFailuresAbort(s: Sys, cause: Event, after: seq<Event>, threw: bool)
    requires cause.NestedThrow? || (cause.Checking? && cause.handle != s.staging.id)
    ensures var t := Run(Step(s, cause), after);
            Commit(t.staging, t.table, threw).result.Err? && Commit(t.staging, t.table, threw).table == t.table
  {
    SpoiltStays(Step(s, cause), after);
  }
}
