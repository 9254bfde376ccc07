/**
 What every step of the snapshot store keeps.  The key fact is in ProcOk: a
 writer based on revision r can be missing a staged chunk only once HEAD has
 moved past r, and then its swap cannot succeed.
 */
module SnapshotInvariant {
  import opened Common
  import opened SnapshotStore

  // --------------------------------------------------------------- chunks

  lemma PartsFacts(value: string, part: nat)
    ensures part < Parts(value) <==> part * PART_LENGTH < |value|
    ensures Parts(value) * PART_LENGTH >= |value|
  {
  }

  lemma {:induction false} JoinIsPrefix(value: string, got: seq<(nat, string)>)
    requires |got| <= Parts(value)
    requires forall i :: 0 <= i < |got| ==> got[i] == (i, Chunk(value, i))
    ensures Join(got) == value[..Min(|got| * PART_LENGTH, |value|)]
  {
    if got != [] {
      var n := |got| - 1;
      PartsFacts(value, n);
      JoinIsPrefix(value, got[..n]);
      assert got[n] == (n, Chunk(value, n));
      assert value[..n * PART_LENGTH] + Chunk(value, n) == value[..Min((n + 1) * PART_LENGTH, |value|)];
    }
  }

  // --------------------------------------------------------------- the invariant

  ghost predicate HeadLogged(s: System, h: Head) {
    1 <= h.revision <= |s.log| && s.log[h.revision - 1].head == h
  }

  ghost predicate CommitOk(c: Codec, s: System, i: nat)
    requires i < |s.log|
  {
    var commit := s.log[i];
    && commit.head.revision == i + 1
    && commit.head.prefix.revision == i + 1
    && commit.head.prefix in s.sealed
    && var value := s.sealed[commit.head.prefix];
       && commit.head.parts == Parts(value)
       && commit.head.checksum == c.digest(value)
       && c.open(value) == commit.doc
       && commit.doc == commit.op(DocAt(s.log, i))
  }

  ghost predicate LogOk(c: Codec, s: System) {
    && (s.head.None? <==> s.log == [])
    && (s.head.Some? ==> s.head.value == s.log[|s.log| - 1].head)
    && forall i :: 0 <= i < |s.log| ==> CommitOk(c, s, i)
  }

  ghost predicate HeadRows(s: System) {
    s.head.Some? ==> forall k :: 0 <= k < s.head.value.parts ==> RowKey(s.head.value.prefix, k) in s.rows
  }

  ghost predicate RowsOk(s: System) {
    forall key :: key in s.rows ==>
      && key.prefix in s.sealed
      && key.part < Parts(s.sealed[key.prefix])
      && s.rows[key] == Chunk(s.sealed[key.prefix], key.part)
  }

  ghost predicate Unlogged(s: System, prefix: Prefix) {
    forall i :: 0 <= i < |s.log| ==> s.log[i].head.prefix != prefix
  }

  ghost predicate NotCommitted(s: System, p: nat) {
    forall i :: 0 <= i < |s.log| ==> s.log[i].caller != p
  }

  ghost predicate ScanOk(s: System, head: Head, next: nat, got: seq<(nat, string)>) {
    && HeadLogged(s, head)
    && head.prefix in s.sealed
    && head.parts == Parts(s.sealed[head.prefix])
    && (forall i :: 0 <= i < |got| ==> got[i].0 < next && got[i].0 < head.parts)
    && (forall i, j :: 0 <= i < j < |got| ==> got[i].0 < got[j].0)
    && (forall i :: 0 <= i < |got| ==> got[i].1 == Chunk(s.sealed[head.prefix], got[i].0))
    && (|s.log| == head.revision ==> |got| == next)
  }

  ghost predicate StageOk(c: Codec, s: System, p: nat, pc: Proc)
    requires pc.Staging?
  {
    && pc.call.Mutate?
    && pc.revision <= |s.log|
    && pc.prefix.revision == pc.revision + 1
    && pc.prefix in s.sealed && s.sealed[pc.prefix] == pc.value
    && pc.prefix in s.owner && s.owner[pc.prefix] == p
    && Unlogged(s, pc.prefix)
    && pc.doc == pc.call.op(DocAt(s.log, pc.revision))
    && c.open(pc.value) == pc.doc
    && pc.next <= Parts(pc.value)
    && (|s.log| == pc.revision ==> forall k :: 0 <= k < pc.next ==> RowKey(pc.prefix, k) in s.rows)
  }

  ghost predicate ProcOk(c: Codec, s: System, p: nat, pc: Proc) {
    match pc
    case ReadingHead(_, _, _) => NotCommitted(s, p)
    case Scanning(_, _, _, head, next, got) => NotCommitted(s, p) && ScanOk(s, head, next, got)
    case Rechecking(_, _, _, head) => NotCommitted(s, p) && HeadLogged(s, head) && head.revision < |s.log|
    case Loaded(_, _, revision, doc) => NotCommitted(s, p) && revision <= |s.log| && doc == DocAt(s.log, revision)
    case Staging(_, _, _, _, _, _, _) => NotCommitted(s, p) && StageOk(c, s, p, pc)
    case CleaningUp(_, _, prefix) => NotCommitted(s, p) && Unlogged(s, prefix) && prefix in s.owner && s.owner[prefix] == p
    case BeforeCollect(call, revision) => CommittedAs(s, p, call, revision)
    case Collecting(call, revision, head) => CommittedAs(s, p, call, revision) && HeadLogged(s, head)
    case Returned(call, outcome) => OutcomeOk(s, p, call, outcome)
  }

  ghost predicate CommittedAs(s: System, p: nat, call: Call, revision: nat) {
    1 <= revision <= |s.log| && s.log[revision - 1].caller == p && call.Mutate? && s.log[revision - 1].op == call.op
  }

  ghost predicate OutcomeOk(s: System, p: nat, call: Call, outcome: Outcome) {
    match outcome
    case Read(revision, doc) => NotCommitted(s, p) && revision <= |s.log| && doc == DocAt(s.log, revision)
    case Committed(revision) => CommittedAs(s, p, call, revision)
    case Unchanged(revision) => NotCommitted(s, p) && revision <= |s.log|
    case Failed(error) => error != Unavailable && (error != Crashed ==> NotCommitted(s, p))
  }

  ghost predicate ProcsOk(c: Codec, s: System) {
    forall p :: p in s.procs ==> ProcOk(c, s, p, s.procs[p])
  }

  ghost predicate OwnersOk(s: System) {
    && s.sealed.Keys == s.owner.Keys
    && (forall i :: 0 <= i < |s.log| ==> s.log[i].caller in s.procs)
    && (forall i, j :: 0 <= i < j < |s.log| ==> s.log[i].caller != s.log[j].caller)
  }

  // A logged token that the lock row no longer carries can never come back.
  ghost predicate Replaced(s: System, fence: Fence) {
    !(fence.key in s.locks && s.locks[fence.key].token == fence.token)
  }

  ghost predicate Rivals(log: seq<Commit>, i: nat, j: nat)
    requires i < |log| && j < |log|
  {
    var a, b := log[i].fence, log[j].fence;
    a.Some? && b.Some? && a.value.key == b.value.key && a.value.token != b.value.token
  }

  ghost predicate SameToken(log: seq<Commit>, i: nat, j: nat)
    requires i < |log| && j < |log|
  {
    log[i].fence.Some? && log[i].fence == log[j].fence
  }

  ghost predicate FencesOk(s: System) {
    && (forall key :: key in s.locks ==> Issued(s, Fence(key, s.locks[key].token)))
    && (forall i :: 0 <= i < |s.log| && s.log[i].fence.Some? ==> Issued(s, s.log[i].fence.value))
    && (forall i, j :: 0 <= i < j < |s.log| && Rivals(s.log, i, j) ==> Replaced(s, s.log[i].fence.value))
    && Blocks(s.log)
  }

  /** Between two commits under one token no other token commits under that key. */
  ghost predicate Blocks(log: seq<Commit>) {
    forall i, j, k :: 0 <= i < j < k < |log| && SameToken(log, i, k) ==> !Rivals(log, i, j)
  }

  ghost predicate CallsFenced(s: System) {
    forall p :: p in s.procs && FenceOf(s.procs[p].call).Some? ==> Issued(s, FenceOf(s.procs[p].call).value)
  }

  /** The table, the log and the calls in progress. */
  ghost predicate Core(c: Codec, s: System) {
    && LogOk(c, s) && HeadRows(s) && RowsOk(s) && ProcsOk(c, s) && OwnersOk(s)
  }

  /** The lock rows, the tokens and the commits made under them. */
  ghost predicate Fenced(s: System) {
    FencesOk(s) && CallsFenced(s)
  }

  // --------------------------------------------------------------- one step at a time

  // The past is the same, and no prefix has lost its text or its owner.
  ghost predicate SamePast(s: System, t: System) {
    && t.head == s.head && t.log == s.log
    && (forall x :: x in s.sealed ==> x in t.sealed && t.sealed[x] == s.sealed[x])
    && (forall x :: x in s.owner ==> x in t.owner && t.owner[x] == s.owner[x])
  }

  lemma ProcFrame(c: Codec, s: System, t: System, q: nat, pc: Proc)
    requires SamePast(s, t) && ProcOk(c, s, q, pc)
    requires pc.Staging? && pc.revision == |s.log| ==> forall k :: RowKey(pc.prefix, k) in s.rows ==> RowKey(pc.prefix, k) in t.rows
    ensures ProcOk(c, t, q, pc)
  {
  }

  lemma LogFrame(c: Codec, s: System, t: System)
    requires SamePast(s, t) && LogOk(c, s)
    ensures LogOk(c, t)
  {
    forall i | 0 <= i < |t.log| ensures CommitOk(c, t, i) {
      assert CommitOk(c, s, i);
    }
  }

  // A step that only moves its caller on.
  lemma MovesOn(c: Codec, s: System, p: nat, pc: Proc)
    requires Core(c, s) && p in s.procs
    requires ProcOk(c, s, p, pc)
    ensures Core(c, At(s, p, pc))
  {
    var t := At(s, p, pc);
    forall q | q in t.procs ensures ProcOk(c, t, q, t.procs[q]) {
      ProcFrame(c, s, t, q, t.procs[q]);
    }
    LogFrame(c, s, t);
  }

  lemma RowsOkDelete(s: System, key: RowKey)
    requires RowsOk(s)
    ensures RowsOk(s.(rows := s.rows - {key}))
  {
  }

  lemma RowsOkAdd(s: System, key: RowKey)
    requires RowsOk(s)
    requires key.prefix in s.sealed && key.part < Parts(s.sealed[key.prefix])
    ensures RowsOk(s.(rows := s.rows[key := Chunk(s.sealed[key.prefix], key.part)]))
  {
  }

  lemma ProcsFrame(c: Codec, s: System, t: System)
    requires SamePast(s, t) && ProcsOk(c, s) && t.procs == s.procs
    requires forall q, k :: q in s.procs && s.procs[q].Staging? && s.procs[q].revision == |s.log| && RowKey(s.procs[q].prefix, k) in s.rows ==>
               RowKey(s.procs[q].prefix, k) in t.rows
    ensures ProcsOk(c, t)
  {
  }

  // Deleting a row is harmless unless it belongs to HEAD or to a writer that can still win.
  lemma DeleteKeeps(c: Codec, s: System, key: RowKey)
    requires Core(c, s)
    requires s.head.Some? ==> key.prefix != s.head.value.prefix
    requires forall q :: q in s.procs && s.procs[q].Staging? && s.procs[q].revision == |s.log| ==> s.procs[q].prefix != key.prefix
    ensures Core(c, s.(rows := s.rows - {key}))
  {
    var t := s.(rows := s.rows - {key});
    ProcsFrame(c, s, t);
    LogFrame(c, s, t);
    RowsOkDelete(s, key);
  }

  lemma DeleteStagedKeeps(c: Codec, s: System, p: nat, part: nat)
    requires Core(c, s) && p in s.procs && s.procs[p].CleaningUp?
    ensures Core(c, s.(rows := s.rows - {RowKey(s.procs[p].prefix, part)}))
  {
    var prefix := s.procs[p].prefix;
    assert ProcOk(c, s, p, s.procs[p]);
    forall q | q in s.procs && s.procs[q].Staging? ensures s.procs[q].prefix != prefix {
      assert ProcOk(c, s, q, s.procs[q]);
    }
    DeleteKeeps(c, s, RowKey(prefix, part));
  }

  lemma DeleteOldKeeps(c: Codec, s: System, p: nat, key: RowKey)
    requires Core(c, s) && p in s.procs && s.procs[p].Collecting?
    requires key.prefix.revision <= s.procs[p].head.revision && key.prefix != s.procs[p].head.prefix
    ensures Core(c, s.(rows := s.rows - {key}))
  {
    assert ProcOk(c, s, p, s.procs[p]);
    assert CommitOk(c, s, |s.log| - 1);
    forall q | q in s.procs && s.procs[q].Staging? && s.procs[q].revision == |s.log|
      ensures s.procs[q].prefix != key.prefix
    {
      assert ProcOk(c, s, q, s.procs[q]);
    }
    DeleteKeeps(c, s, key);
  }

  lemma AddRowKeeps(c: Codec, s: System, key: RowKey)
    requires Core(c, s)
    requires key.prefix in s.sealed && key.part < Parts(s.sealed[key.prefix])
    requires key !in s.rows
    ensures Core(c, s.(rows := s.rows[key := Chunk(s.sealed[key.prefix], key.part)]))
  {
    var t := s.(rows := s.rows[key := Chunk(s.sealed[key.prefix], key.part)]);
    ProcsFrame(c, s, t);
    LogFrame(c, s, t);
    RowsOkAdd(s, key);
  }

  lemma StageAdvances(c: Codec, s: System, p: nat, pc: Proc)
    requires pc.Staging? && ProcOk(c, s, p, pc) && pc.next < Parts(pc.value)
    requires RowKey(pc.prefix, pc.next) in s.rows
    ensures ProcOk(c, s, p, OneMoreStaged(pc))
  {
  }

  lemma StageMayStop(c: Codec, s: System, p: nat, pc: Proc)
    requires pc.Staging? && ProcOk(c, s, p, pc)
    ensures ProcOk(c, s, p, CleaningUp(pc.call, pc.tries, pc.prefix))
    ensures ProcOk(c, s, p, Returned(pc.call, Failed(Crashed)))
    ensures ProcOk(c, s, p, Returned(pc.call, Failed(LockLost)))
    ensures pc.call.Mutate? && pc.prefix in s.sealed && s.sealed[pc.prefix] == pc.value
  {
  }

  lemma StagePartKeeps(c: Codec, s: System, p: nat, acknowledged: bool)
    requires Core(c, s) && p in s.procs && s.procs[p].Staging?
    ensures Core(c, StagePart(s, p, s.procs[p], acknowledged))
  {
    var pc := s.procs[p];
    var key := RowKey(pc.prefix, pc.next);
    StageMayStop(c, s, p, pc);
    if pc.next < Parts(pc.value) {
      if key in s.rows {
        MovesOn(c, s, p, CleaningUp(pc.call, pc.tries, pc.prefix));
      } else {
        PutRowKeeps(c, s, p, acknowledged);
      }
    }
  }

  lemma PutRowKeeps(c: Codec, s: System, p: nat, acknowledged: bool)
    requires Core(c, s) && p in s.procs && s.procs[p].Staging?
    requires s.procs[p].next < Parts(s.procs[p].value)
    requires RowKey(s.procs[p].prefix, s.procs[p].next) !in s.rows
    ensures Core(c, StagePart(s, p, s.procs[p], acknowledged))
  {
    var pc := s.procs[p];
    var key := RowKey(pc.prefix, pc.next);
    StageMayStop(c, s, p, pc);
    AddRowKeeps(c, s, key);
    var t := s.(rows := s.rows[key := Chunk(pc.value, pc.next)]);
    StageMayStop(c, t, p, pc);
    StageAdvances(c, t, p, pc);
    var after := if acknowledged then OneMoreStaged(pc) else Returned(pc.call, Failed(Crashed));
    MovesOn(c, t, p, after);
  }

  lemma SealKeeps(c: Codec, s: System, p: nat, prefix: Prefix, value: string)
    requires Core(c, s) && prefix !in s.sealed
    ensures Core(c, s.(sealed := s.sealed[prefix := value], owner := s.owner[prefix := p]))
  {
    var t := s.(sealed := s.sealed[prefix := value], owner := s.owner[prefix := p]);
    forall q | q in t.procs ensures ProcOk(c, t, q, t.procs[q]) {
      ProcFrame(c, s, t, q, t.procs[q]);
    }
    LogFrame(c, s, t);
  }

  lemma FreshIsUnlogged(c: Codec, s: System, prefix: Prefix)
    requires LogOk(c, s) && prefix !in s.sealed
    ensures Unlogged(s, prefix)
  {
    forall i | 0 <= i < |s.log| ensures s.log[i].head.prefix != prefix {
      assert CommitOk(c, s, i);
    }
  }

  lemma ChoosePrefixKeeps(c: Codec, s: System, p: nat, nonce: nat, iv: nat)
    requires Faithful(c) && Core(c, s) && p in s.procs && s.procs[p].Loaded? && s.procs[p].call.Mutate?
    requires Prefix(s.procs[p].revision + 1, nonce) !in s.sealed
    ensures Core(c, ChooseFor(c, s, p, s.procs[p], nonce, iv))
  {
    var pc := s.procs[p];
    var prefix := Prefix(pc.revision + 1, nonce);
    var doc := pc.call.op(pc.doc);
    var value := c.seal(doc, iv);
    var u := s.(sealed := s.sealed[prefix := value], owner := s.owner[prefix := p]);
    SealKeeps(c, s, p, prefix, value);
    FreshIsUnlogged(c, s, prefix);
    hide Parts, Chunk;
    var after := Staging(pc.call, pc.tries, pc.revision, doc, prefix, value, 0);
    FirstStage(c, s, u, p, after);
    MovesOn(c, u, p, after);
  }

  lemma FirstStage(c: Codec, s: System, u: System, p: nat, pc: Proc)
    requires Faithful(c)
    requires p in s.procs && s.procs[p].Loaded? && ProcOk(c, s, p, s.procs[p])
    requires SamePast(s, u) && pc.Staging? && pc.next == 0 && pc.call == s.procs[p].call && pc.call.Mutate?
    requires pc.revision == s.procs[p].revision && pc.doc == pc.call.op(s.procs[p].doc)
    requires exists iv :: pc.value == c.seal(pc.doc, iv)
    requires pc.prefix.revision == pc.revision + 1 && pc.prefix in u.sealed && u.sealed[pc.prefix] == pc.value
    requires pc.prefix in u.owner && u.owner[pc.prefix] == p && Unlogged(s, pc.prefix)
    ensures ProcOk(c, u, p, pc)
  {
  }

  // --------------------------------------------------------------- the commit

  // A writer that may swap HEAD still has every chunk it staged.
  lemma WinnerHasAllChunks(c: Codec, s: System, p: nat)
    requires Core(c, s) && p in s.procs && s.procs[p].Staging?
    requires s.procs[p].next == Parts(s.procs[p].value) && RevisionOf(s.head) == s.procs[p].revision
    ensures |s.log| == s.procs[p].revision
    ensures forall k :: 0 <= k < Parts(s.procs[p].value) ==> RowKey(s.procs[p].prefix, k) in s.rows
  {
    assert ProcOk(c, s, p, s.procs[p]);
    if s.head.Some? {
      assert CommitOk(c, s, |s.log| - 1);
    }
  }

  // What the other callers know survives somebody else's commit.
  lemma OthersSurviveCommit(c: Codec, s: System, commit: Commit, q: nat, pc: Proc)
    requires ProcOk(c, s, q, pc)
    requires commit.caller != q
    requires (pc.Staging? || pc.CleaningUp?) ==> pc.prefix != commit.head.prefix
    ensures ProcOk(c, Appended(s, commit), q, pc)
  {
    var t := Appended(s, commit);
    assert forall i :: 0 <= i < |s.log| ==> t.log[i] == s.log[i];
    assert forall r: nat :: r <= |s.log| ==> DocAt(t.log, r) == DocAt(s.log, r);
  }

  lemma CommitLogOk(c: Codec, s: System, commit: Commit)
    requires LogOk(c, s) && CommitOk(c, Appended(s, commit), |s.log|)
    ensures LogOk(c, Appended(s, commit))
  {
    var t := Appended(s, commit);
    forall i | 0 <= i < |t.log| ensures CommitOk(c, t, i) {
      if i < |s.log| {
        assert CommitOk(c, s, i);
        assert DocAt(t.log, i) == DocAt(s.log, i);
      }
    }
  }

  lemma NewCommitOk(c: Codec, s: System, p: nat, pc: Proc)
    requires pc.Staging? && ProcOk(c, s, p, pc) && |s.log| == pc.revision
    ensures CommitOk(c, Appended(s, CommitOf(c, p, pc)), |s.log|)
  {
  }

  lemma CommitProcsOk(c: Codec, s: System, p: nat, after: Proc)
    requires ProcsOk(c, s) && p in s.procs && s.procs[p].Staging? && s.procs[p].call.Mutate?
    requires ProcOk(c, Appended(s, CommitOf(c, p, s.procs[p])), p, after)
    ensures ProcsOk(c, At(Appended(s, CommitOf(c, p, s.procs[p])), p, after))
  {
    var commit := CommitOf(c, p, s.procs[p]);
    var u := Appended(s, commit);
    var t := At(u, p, after);
    assert ProcOk(c, s, p, s.procs[p]);
    forall q | q in t.procs ensures ProcOk(c, t, q, t.procs[q]) {
      if q != p {
        assert ProcOk(c, s, q, s.procs[q]);
        OthersSurviveCommit(c, s, commit, q, s.procs[q]);
      }
      ProcFrame(c, u, t, q, t.procs[q]);
    }
  }

  lemma AppendOwnersOk(s: System, commit: Commit, after: Proc)
    requires OwnersOk(s) && commit.caller in s.procs && NotCommitted(s, commit.caller)
    ensures OwnersOk(At(Appended(s, commit), commit.caller, after))
  {
  }

  lemma CommitKeeps(c: Codec, s: System, p: nat, after: Proc)
    requires Core(c, s) && p in s.procs && s.procs[p].Staging? && s.procs[p].call.Mutate?
    requires s.procs[p].next == Parts(s.procs[p].value) && RevisionOf(s.head) == s.procs[p].revision
    requires after == BeforeCollect(s.procs[p].call, s.procs[p].revision + 1) || after == Returned(s.procs[p].call, Failed(Crashed))
    ensures Core(c, At(Appended(s, CommitOf(c, p, s.procs[p])), p, after))
  {
    var pc := s.procs[p];
    var commit := CommitOf(c, p, pc);
    var u := Appended(s, commit);
    assert ProcOk(c, s, p, pc);
    WinnerHasAllChunks(c, s, p);
    NewCommitOk(c, s, p, pc);
    CommitLogOk(c, s, commit);
    LogFrame(c, u, At(u, p, after));
    CommitProcsOk(c, s, p, after);
    AppendOwnersOk(s, commit, after);
  }

  lemma SwapHeadKeeps(c: Codec, s: System, p: nat, now: int, acknowledged: bool)
    requires Core(c, s) && p in s.procs && s.procs[p].Staging?
    ensures Core(c, SwapHead(c, s, p, s.procs[p], now, acknowledged))
  {
    var pc := s.procs[p];
    StageMayStop(c, s, p, pc);
    if pc.next != Parts(pc.value) {
    } else if MaySwap(s, pc, now) {
      CommitKeeps(c, s, p, AfterSwap(pc, acknowledged));
    } else {
      MovesOn(c, s, p, CleaningUp(pc.call, pc.tries, pc.prefix));
    }
  }

  // --------------------------------------------------------------- the remaining steps of a caller

  // Distinct part numbers in order below n: a full count leaves no gap.
  lemma {:induction false} FullCountIsAll(got: seq<(nat, string)>, n: nat)
    requires forall i :: 0 <= i < |got| ==> got[i].0 < n
    requires forall i, j :: 0 <= i < j < |got| ==> got[i].0 < got[j].0
    ensures |got| <= n
    ensures forall i :: 0 <= i < |got| ==> got[i].0 <= n - (|got| - i)
    ensures |got| == n ==> forall i :: 0 <= i < |got| ==> got[i].0 == i
  {
    if got != [] {
      FullCountIsAll(got[..|got| - 1], got[|got| - 1].0);
    }
  }

  /** A scan that met as many rows as HEAD announces has met exactly the sealed text. */
  lemma CompleteScanIsWhole(c: Codec, s: System, head: Head, next: nat, got: seq<(nat, string)>)
    requires LogOk(c, s) && ScanOk(s, head, next, got) && |got| == head.parts
    ensures c.digest(Join(got)) == head.checksum
    ensures c.open(Join(got)) == DocAt(s.log, head.revision)
  {
    assert CommitOk(c, s, head.revision - 1);
    var value := s.sealed[head.prefix];
    FullCountIsAll(got, head.parts);
    forall i | 0 <= i < |got| ensures got[i] == (i, Chunk(value, i)) {
    }
    JoinIsPrefix(value, got);
    PartsFacts(value, 0);
    assert Join(got) == value;
  }

  lemma GetRowKeeps(s: System, head: Head, next: nat, got: seq<(nat, string)>, part: nat)
    requires HeadRows(s) && RowsOk(s) && ScanOk(s, head, next, got)
    requires s.head.Some? && s.head.value == s.log[|s.log| - 1].head
    requires next <= part && RowKey(head.prefix, part) in s.rows
    requires forall k :: next <= k < part ==> RowKey(head.prefix, k) !in s.rows
    ensures ScanOk(s, head, part + 1, got + [(part, s.rows[RowKey(head.prefix, part)])])
  {
    assert |s.log| == head.revision && next < head.parts ==> RowKey(head.prefix, next) in s.rows;
  }

  /** A scan can only come up short when HEAD has moved on meanwhile. */
  lemma ShortScanIsSuperseded(c: Codec, s: System, head: Head, next: nat, got: seq<(nat, string)>)
    requires LogOk(c, s) && HeadRows(s) && ScanOk(s, head, next, got)
    requires s.head.Some?
    requires forall k :: k in s.rows && k.prefix == head.prefix ==> k.part < next
    requires |got| != head.parts || c.digest(Join(got)) != head.checksum
    ensures head.revision < |s.log|
  {
    if head.revision == |s.log| {
      FullCountIsAll(got, head.parts);
      assert next < head.parts ==> RowKey(head.prefix, next) in s.rows;
      CompleteScanIsWhole(c, s, head, next, got);
    }
  }

  lemma ScanStepOk(c: Codec, s: System, p: nat, pc: Proc, a: Action)
    requires LogOk(c, s) && HeadRows(s) && RowsOk(s) && pc.Scanning? && ProcOk(c, s, p, pc)
    requires a.GetRow? || a.EndRows?
    ensures ProcOk(c, s, p, Observe(c, s, pc, a))
  {
    if Observe(c, s, pc, a) != pc {
      if a.GetRow? {
        GetRowKeeps(s, pc.head, pc.next, pc.got, a.part);
      } else if |pc.got| == pc.head.parts && c.digest(Join(pc.got)) == pc.head.checksum {
        CompleteScanIsWhole(c, s, pc.head, pc.next, pc.got);
      } else {
        ShortScanIsSuperseded(c, s, pc.head, pc.next, pc.got);
      }
    }
  }

  lemma OtherObservationOk(c: Codec, s: System, p: nat, pc: Proc, a: Action)
    requires LogOk(c, s) && ProcOk(c, s, p, pc)
    requires !a.GetRow? && !a.EndRows?
    ensures ProcOk(c, s, p, Observe(c, s, pc, a))
  {
    if s.head.Some? {
      assert CommitOk(c, s, |s.log| - 1);
    }
  }

  lemma ObserveKeeps(c: Codec, s: System, p: nat, a: Action)
    requires Core(c, s) && p in s.procs
    ensures Core(c, At(s, p, Observe(c, s, s.procs[p], a)))
  {
    if a.GetRow? || a.EndRows? {
      if s.procs[p].Scanning? {
        ScanStepOk(c, s, p, s.procs[p], a);
      }
    } else {
      OtherObservationOk(c, s, p, s.procs[p], a);
    }
    MovesOn(c, s, p, Observe(c, s, s.procs[p], a));
  }

  lemma WriteKeeps(c: Codec, s: System, p: nat, a: Action)
    requires Faithful(c) && Core(c, s) && p in s.procs
    ensures Core(c, Write(c, s, p, s.procs[p], a))
  {
    if Write(c, s, p, s.procs[p], a) != s {
      match a
      case ChoosePrefix(nonce, iv) => ChoosePrefixKeeps(c, s, p, nonce, iv);
      case PutPart(acknowledged) => StagePartKeeps(c, s, p, acknowledged);
      case CommitHead(now, acknowledged) => SwapHeadKeeps(c, s, p, now, acknowledged);
      case DeleteStaged(part) => DeleteStagedKeeps(c, s, p, part);
      case DeleteOld(row) => DeleteOldKeeps(c, s, p, row);
    }
  }

  lemma CallerStepKeeps(c: Codec, s: System, p: nat, a: Action)
    requires Faithful(c) && Core(c, s) && p in s.procs
    ensures Core(c, CallerStep(c, s, p, a))
  {
    if Writes(a) {
      WriteKeeps(c, s, p, a);
    } else {
      ObserveKeeps(c, s, p, a);
    }
  }

  // --------------------------------------------------------------- locks and tokens

  lemma CommitFencesOk(s: System, commit: Commit)
    requires FencesOk(s)
    requires commit.fence.Some? ==> Issued(s, commit.fence.value) && !Replaced(s, commit.fence.value)
    ensures FencesOk(Appended(s, commit))
  {
    var t := Appended(s, commit);
    var n := |s.log|;
    forall i, j | 0 <= i < j < |t.log| && Rivals(t.log, i, j) ensures Replaced(t, t.log[i].fence.value) {
      if j < n {
        assert Rivals(s.log, i, j);
      }
    }
    forall i, j, k | 0 <= i < j < k < |t.log| && SameToken(t.log, i, k) ensures !Rivals(t.log, i, j) {
      if k < n {
        assert SameToken(s.log, i, k);
      }
      assert Rivals(t.log, i, j) == Rivals(s.log, i, j);
    }
  }

  // The caller's call never changes; only its position does.
  ghost predicate MovedOnly(s: System, t: System, p: nat)
    requires p in s.procs
  {
    t.procs == s.procs || (p in t.procs && t.procs == s.procs[p := t.procs[p]] && t.procs[p].call == s.procs[p].call)
  }

  lemma FencesFrame(s: System, t: System, p: nat)
    requires FencesOk(s) && CallsFenced(s) && p in s.procs && MovedOnly(s, t, p)
    requires t.log == s.log && t.locks == s.locks && t.tokens == s.tokens
    ensures Fenced(t)
  {
    assert FencesOk(s) == FencesOk(t);
    forall q | q in t.procs && FenceOf(t.procs[q].call).Some? ensures Issued(t, FenceOf(t.procs[q].call).value) {
      assert t.procs[q].call == s.procs[q].call;
    }
  }

  // A commit appends one entry and moves its caller.
  lemma AppendedShape(s: System, commit: Commit, p: nat, after: Proc)
    requires p in s.procs && after.call == s.procs[p].call
    ensures var t := At(Appended(s, commit), p, after);
            t.locks == s.locks && t.tokens == s.tokens && t.log == Appended(s, commit).log && MovedOnly(s, t, p)
  {
    AtMoves(s, Appended(s, commit), p, after);
  }

  lemma StoodShape(s: System, p: nat, after: Proc)
    requires p in s.procs && after.call == s.procs[p].call
    ensures var t := At(s, p, after);
            t.locks == s.locks && t.tokens == s.tokens && t.log == s.log && MovedOnly(s, t, p)
  {
    AtMoves(s, s, p, after);
  }

  // A swap either leaves the log alone or appends under a token the lock row carries.
  lemma SwapHeadShape(c: Codec, s: System, p: nat, now: int, acknowledged: bool)
    requires p in s.procs && s.procs[p].Staging?
    ensures var t := SwapHead(c, s, p, s.procs[p], now, acknowledged);
            && t.locks == s.locks && t.tokens == s.tokens && MovedOnly(s, t, p)
            && (t.log == s.log ||
                (s.procs[p].call.Mutate? && t.log == Appended(s, CommitOf(c, p, s.procs[p])).log
                 && LockConditionHolds(s, s.procs[p].call.fence, now)))
  {
    hide Parts, CommitOf, MovedOnly, At, Appended, LockConditionHolds;
    var pc := s.procs[p];
    Unmoved(s, p);
    StoodShape(s, p, CleaningUp(pc.call, pc.tries, pc.prefix));
    if pc.call.Mutate? {
      AppendedShape(s, CommitOf(c, p, pc), p, AfterSwap(pc, acknowledged));
    }
  }

  lemma Unmoved(s: System, p: nat)
    requires p in s.procs
    ensures MovedOnly(s, s, p)
  {
  }

  lemma AtMoves(s: System, u: System, p: nat, after: Proc)
    requires p in s.procs && u.procs == s.procs && after.call == s.procs[p].call
    ensures MovedOnly(s, At(u, p, after), p)
  {
  }

  lemma AppendKeepsFenced(s: System, t: System, p: nat, commit: Commit)
    requires Fenced(s) && p in s.procs && MovedOnly(s, t, p)
    requires t.locks == s.locks && t.tokens == s.tokens && t.log == Appended(s, commit).log
    requires commit.fence.Some? ==> Issued(s, commit.fence.value) && !Replaced(s, commit.fence.value)
    ensures Fenced(t)
  {
    CommitFencesOk(s, commit);
    FencesFrame(Appended(s, commit), t, p);
  }

  lemma CommitKeepsFenced(c: Codec, s: System, p: nat, now: int, acknowledged: bool)
    requires Fenced(s) && p in s.procs && s.procs[p].Staging?
    ensures Fenced(SwapHead(c, s, p, s.procs[p], now, acknowledged))
  {
    var t := SwapHead(c, s, p, s.procs[p], now, acknowledged);
    SwapHeadShape(c, s, p, now, acknowledged);
    if t.log == s.log {
      FencesFrame(s, t, p);
    } else {
      assert FenceOf(s.procs[p].call) == s.procs[p].call.fence;
      AppendKeepsFenced(s, t, p, CommitOf(c, p, s.procs[p]));
    }
  }

  // t differs from s only in rows, prefixes and where caller p stands.
  ghost predicate NoCommit(s: System, t: System, p: nat)
    requires p in s.procs
  {
    t.log == s.log && t.locks == s.locks && t.tokens == s.tokens && MovedOnly(s, t, p)
  }

  lemma AtIsNoCommit(s: System, u: System, p: nat, after: Proc)
    requires p in s.procs && after.call == s.procs[p].call
    requires u.log == s.log && u.locks == s.locks && u.tokens == s.tokens && u.procs == s.procs
    ensures NoCommit(s, At(u, p, after), p)
  {
  }

  lemma PutIsNoCommit(s: System, p: nat, acknowledged: bool)
    requires p in s.procs && s.procs[p].Staging?
    ensures NoCommit(s, StagePart(s, p, s.procs[p], acknowledged), p)
  {
    var pc := s.procs[p];
    var key := RowKey(pc.prefix, pc.next);
    if pc.next < Parts(pc.value) {
      if key in s.rows {
        AtIsNoCommit(s, s, p, CleaningUp(pc.call, pc.tries, pc.prefix));
      } else {
        AtIsNoCommit(s, s.(rows := s.rows[key := Chunk(pc.value, pc.next)]), p,
                     if acknowledged then OneMoreStaged(pc) else Returned(pc.call, Failed(Crashed)));
      }
    }
  }

  lemma ChooseIsNoCommit(c: Codec, s: System, p: nat, nonce: nat, iv: nat)
    requires p in s.procs && s.procs[p].Loaded? && s.procs[p].call.Mutate?
    ensures NoCommit(s, ChooseFor(c, s, p, s.procs[p], nonce, iv), p)
  {
    var t := ChooseFor(c, s, p, s.procs[p], nonce, iv);
    AtIsNoCommit(s, s.(sealed := t.sealed, owner := t.owner), p, t.procs[p]);
  }

  // Everything but a commit leaves the log and the locks alone.
  lemma OnlyCommitsLog(c: Codec, s: System, p: nat, a: Action)
    requires p in s.procs && !a.CommitHead?
    ensures NoCommit(s, CallerStep(c, s, p, a), p)
  {
    var pc := s.procs[p];
    if !Writes(a) {
      AtIsNoCommit(s, s, p, Observe(c, s, pc, a));
    } else if Write(c, s, p, pc, a) == s {
    } else if a.ChoosePrefix? {
      ChooseIsNoCommit(c, s, p, a.nonce, a.iv);
    } else if a.PutPart? {
      PutIsNoCommit(s, p, a.acknowledged);
    }
  }

  lemma CallerStepKeepsFenced(c: Codec, s: System, p: nat, a: Action)
    requires Fenced(s) && p in s.procs
    ensures Fenced(CallerStep(c, s, p, a))
  {
    if !a.CommitHead? {
      OnlyCommitsLog(c, s, p, a);
      FencesFrame(s, CallerStep(c, s, p, a), p);
    } else if s.procs[p].Staging? {
      CommitKeepsFenced(c, s, p, a.now, a.acknowledged);
    }
  }

  lemma BeginKeepsFenced(s: System, p: nat, call: Call)
    requires Fenced(s) && (FenceOf(call).Some? ==> Issued(s, FenceOf(call).value))
    ensures Fenced(At(s, p, ReadingHead(call, 0, 0)))
  {
    assert FencesOk(s) == FencesOk(At(s, p, ReadingHead(call, 0, 0)));
  }

  // Lock rows and tokens may change in any way that brings no old token back.
  lemma LockChangeKeepsFenced(s: System, t: System)
    requires Fenced(s) && t == s.(locks := t.locks, tokens := t.tokens, lapsed := t.lapsed)
    requires forall token :: token in s.tokens ==> token in t.tokens && t.tokens[token] == s.tokens[token]
    requires forall key :: key in t.locks ==> Issued(t, Fence(key, t.locks[key].token))
    requires forall key :: key in t.locks && t.locks[key].token in s.tokens ==> key in s.locks && s.locks[key].token == t.locks[key].token
    ensures Fenced(t)
  {
    forall i, j | 0 <= i < j < |t.log| && Rivals(t.log, i, j) ensures Replaced(t, t.log[i].fence.value) {
      assert Rivals(s.log, i, j);
    }
    assert Blocks(t.log);
  }

  lemma AcquireKeepsFenced(s: System, key: string, token: nat, expires: int)
    requires Fenced(s) && token !in s.tokens
    ensures Fenced(s.(locks := s.locks[key := Lock(token, expires)], tokens := s.tokens[token := key]))
  {
    LockChangeKeepsFenced(s, s.(locks := s.locks[key := Lock(token, expires)], tokens := s.tokens[token := key]));
  }

  lemma RenewKeepsFenced(s: System, token: nat, expires: int)
    requires Fenced(s) && HoldsLock(s, token)
    ensures Fenced(s.(locks := s.locks[s.tokens[token] := Lock(token, expires)]))
  {
    LockChangeKeepsFenced(s, s.(locks := s.locks[s.tokens[token] := Lock(token, expires)]));
  }

  lemma ReleaseKeepsFenced(s: System, token: nat)
    requires Fenced(s) && HoldsLock(s, token)
    ensures Fenced(s.(locks := s.locks - {s.tokens[token]}))
  {
    LockChangeKeepsFenced(s, s.(locks := s.locks - {s.tokens[token]}));
  }

  // --------------------------------------------------------------- every step

  lemma BeginKeeps(c: Codec, s: System, p: nat, call: Call)
    requires Core(c, s) && p !in s.procs
    ensures Core(c, At(s, p, ReadingHead(call, 0, 0)))
  {
    var t := At(s, p, ReadingHead(call, 0, 0));
    forall q | q in t.procs ensures ProcOk(c, t, q, t.procs[q]) {
      ProcFrame(c, s, t, q, t.procs[q]);
    }
    LogFrame(c, s, t);
  }

  lemma LockStepKeeps(c: Codec, s: System, t: System)
    requires Core(c, s) && t == s.(locks := t.locks, tokens := t.tokens, lapsed := t.lapsed)
    ensures Core(c, t)
  {
    ProcsFrame(c, s, t);
    LogFrame(c, s, t);
  }

  lemma OutsideStepKeeps(c: Codec, s: System, p: nat, a: Action)
    requires Core(c, s)
    ensures Core(c, OutsideStep(s, p, a))
  {
    var t := OutsideStep(s, p, a);
    if a.Begin? {
      if t != s {
        BeginKeeps(c, s, p, a.call);
      }
    } else {
      LockStepKeeps(c, s, t);
    }
  }

  lemma OutsideStepKeepsFenced(s: System, p: nat, a: Action)
    requires Fenced(s)
    ensures Fenced(OutsideStep(s, p, a))
  {
    if OutsideStep(s, p, a) != s {
      match a
      case Begin(call) => BeginKeepsFenced(s, p, call);
      case Acquire(lock, token, expires, _) => AcquireKeepsFenced(s, lock, token, expires);
      case Renew(token, expires, _) => RenewKeepsFenced(s, token, expires);
      case Release(token) => ReleaseKeepsFenced(s, token);
      case _ => LockChangeKeepsFenced(s, OutsideStep(s, p, a));
    }
  }

  lemma StepKeepsFenced(c: Codec, s: System, e: Event)
    requires Fenced(s)
    ensures Fenced(Step(c, s, e))
  {
    if OutsideCalls(e.action) {
      OutsideStepKeepsFenced(s, e.caller, e.action);
    } else if e.caller in s.procs {
      CallerStepKeepsFenced(c, s, e.caller, e.action);
    }
  }

  lemma StepKeeps(c: Codec, s: System, e: Event)
    requires Faithful(c) && Core(c, s) && Fenced(s)
    ensures Core(c, Step(c, s, e)) && Fenced(Step(c, s, e))
  {
    if OutsideCalls(e.action) {
      OutsideStepKeeps(c, s, e.caller, e.action);
    } else if e.caller in s.procs {
      CallerStepKeeps(c, s, e.caller, e.action);
    }
    StepKeepsFenced(c, s, e);
  }

  lemma {:induction false} RunKeeps(c: Codec, s: System, events: seq<Event>)
    requires Faithful(c) && Core(c, s) && Fenced(s)
    ensures Core(c, Run(c, s, events)) && Fenced(Run(c, s, events))
    decreases |events|
  {
    if events != [] {
      StepKeeps(c, s, events[0]);
      RunKeeps(c, Step(c, s, events[0]), events[1..]);
    }
  }
}
