/**
 The encrypted snapshot store of adapters/aws/src/commerce.ts.

 One deployment's state is sealed, cut into chunks and staged under a fresh
 prefix; moving the HEAD row by compare-and-swap is the commit point, and
 whoever commits deletes superseded chunks while other writers and readers are
 still at work.  Every read, conditional write and deletion below is one atomic
 step of the table; a run is any interleaving of such steps by any number of
 callers, any of which may stop for good after any step.
 */
module SnapshotStore {
  import opened Common

  /** A deployment's logical state: JSON records by kind and id. */
  type Doc = map<string, string>

  type Operation = Doc -> Doc

  const NOTHING: Doc := map[]

  // The name of a staging area: the revision it aims for and a random id.
  datatype Prefix = Prefix(revision: nat, nonce: nat)

  datatype RowKey = RowKey(prefix: Prefix, part: nat)

  datatype Head = Head(revision: nat, prefix: Prefix, parts: nat, checksum: nat)

  datatype Lock = Lock(token: nat, expires: int)

  /** What a caller under withLock carries: the lock row's key and its token. */
  datatype Fence = Fence(key: string, token: nat)

  /** Encryption (with its random vector), decryption and the checksum. */
  datatype Codec = Codec(seal: (Doc, nat) -> string, open: string -> Doc, digest: string -> nat)

  ghost predicate Faithful(c: Codec) {
    forall doc: Doc, iv: nat :: |c.seal(doc, iv)| > 0 && c.open(c.seal(doc, iv)) == doc
  }

  datatype Call = Load | Mutate(op: Operation, fence: Option<Fence>)

  datatype Error = Busy | Unavailable | LockLost | Crashed

  datatype Outcome =
    | Read(revision: nat, doc: Doc)
    | Committed(revision: nat)
    | Unchanged(revision: nat)
    | Failed(error: Error)

  /** Where a call stands between two of its steps. */
  datatype Proc =
    | ReadingHead(call: Call, tries: nat, loads: nat)
    | Scanning(call: Call, tries: nat, loads: nat, head: Head, next: nat, got: seq<(nat, string)>)
    | Rechecking(call: Call, tries: nat, loads: nat, head: Head)
    | Loaded(call: Call, tries: nat, revision: nat, doc: Doc)
    | Staging(call: Call, tries: nat, revision: nat, doc: Doc, prefix: Prefix, value: string, next: nat)
    | CleaningUp(call: Call, tries: nat, prefix: Prefix)
    | BeforeCollect(call: Call, revision: nat)
    | Collecting(call: Call, revision: nat, head: Head)
    | Returned(call: Call, outcome: Outcome)

  /** One successful HEAD swap: who made it, from what, and the state it stored. */
  datatype Commit = Commit(caller: nat, op: Operation, doc: Doc, head: Head, fence: Option<Fence>)

  /**
   head, rows and locks are the table; procs are the calls in progress and
   lapsed the lock contexts whose renewal failed.  The rest records the past:
   the commits in order, the sealed text and the caller of every prefix ever
   chosen, and the lock key of every token ever issued.
   */
  datatype System = System(
    head: Option<Head>, rows: map<RowKey, string>, locks: map<string, Lock>,
    procs: map<nat, Proc>, lapsed: set<nat>,
    log: seq<Commit>, sealed: map<Prefix, string>, owner: map<Prefix, nat>, tokens: map<nat, string>)

  const START := System(None, map[], map[], map[], {}, [], map[], map[], map[])

  datatype Action =
    | Begin(call: Call)
    | GetHead
    | GetRow(part: nat)
    | EndRows
    | Recheck
    | ReturnUnchanged(now: int)
    | ChoosePrefix(nonce: nat, iv: nat)
    | PutPart(acknowledged: bool)
    | CheckContext
    | CommitHead(now: int, acknowledged: bool)
    | DeleteStaged(part: nat)
    | Retry(now: int)
    | ReadHeadToCollect
    | DeleteOld(row: RowKey)
    | EndCollect
    | Crash
    | Acquire(lock: string, token: nat, expires: int, now: int)
    | Renew(token: nat, expires: int, now: int)
    | RenewalFailed(token: nat)
    | Release(token: nat)

  datatype Event = Event(caller: nat, action: Action)

  // --------------------------------------------------------------- chunks

  const PART_LENGTH: nat := 180000

  function Parts(value: string): nat {
    (|value| + PART_LENGTH - 1) / PART_LENGTH
  }

  function Chunk(value: string, part: nat): string
    requires part < Parts(value)
  {
    value[part * PART_LENGTH..Min((part + 1) * PART_LENGTH, |value|)]
  }

  function Join(got: seq<(nat, string)>): string {
    if got == [] then "" else Join(got[..|got| - 1]) + got[|got| - 1].1
  }

  // --------------------------------------------------------------- the steps

  function RevisionOf(head: Option<Head>): nat {
    if head.Some? then head.value.revision else 0
  }

  function DocAt(log: seq<Commit>, revision: nat): Doc
    requires revision <= |log|
  {
    if revision == 0 then NOTHING else log[revision - 1].doc
  }

  // The lock context's own mark, set when a renewal failed.
  predicate Lapsed(s: System, fence: Option<Fence>) {
    fence.Some? && fence.value.token in s.lapsed
  }

  // assertFence: without a lock context there is nothing to check.
  predicate FenceHolds(s: System, fence: Option<Fence>, now: int) {
    fence.Some? ==>
      && fence.value.token !in s.lapsed
      && fence.value.key in s.locks
      && s.locks[fence.value.key].token == fence.value.token
      && s.locks[fence.value.key].expires >= now
  }

  // The lock half of the commit's conditional write; it does not look at lapsed.
  predicate LockConditionHolds(s: System, fence: Option<Fence>, now: int) {
    fence.Some? ==>
      && fence.value.key in s.locks
      && s.locks[fence.value.key].token == fence.value.token
      && s.locks[fence.value.key].expires >= now
  }

  function FenceOf(call: Call): Option<Fence> {
    if call.Mutate? then call.fence else None
  }

  function At(s: System, p: nat, pc: Proc): System {
    s.(procs := s.procs[p := pc])
  }

  function AfterLoad(call: Call, tries: nat, revision: nat, doc: Doc): Proc {
    if call.Load? then Returned(call, Read(revision, doc)) else Loaded(call, tries, revision, doc)
  }

  predicate OutsideCalls(a: Action) {
    a.Begin? || a.Acquire? || a.Renew? || a.RenewalFailed? || a.Release?
  }

  predicate Writes(a: Action) {
    a.ChoosePrefix? || a.PutPart? || a.CommitHead? || a.DeleteStaged? || a.DeleteOld?
  }

  /**
   One event.  An event that its caller is not ready for changes nothing, so
   every sequence of events is a run.
   */
  function Step(c: Codec, s: System, e: Event): System {
    if OutsideCalls(e.action) then OutsideStep(s, e.caller, e.action)
    else if e.caller in s.procs then CallerStep(c, s, e.caller, e.action)
    else s
  }

  // A new call, or a step of withLock around calls.
  function OutsideStep(s: System, p: nat, a: Action): System {
    match a
    case Begin(call) =>
      if p in s.procs || (FenceOf(call).Some? && !Issued(s, FenceOf(call).value)) then s
      else At(s, p, ReadingHead(call, 0, 0))
    case Acquire(lock, token, expires, now) =>
      if token in s.tokens || (lock in s.locks && !(s.locks[lock].expires < now)) then s
      else s.(locks := s.locks[lock := Lock(token, expires)], tokens := s.tokens[token := lock])
    case Renew(token, expires, now) =>
      if HoldsLock(s, token) && s.locks[s.tokens[token]].expires >= now
      then s.(locks := s.locks[s.tokens[token] := Lock(token, expires)])
      else s
    case RenewalFailed(token) => s.(lapsed := s.lapsed + {token})
    case Release(token) =>
      if HoldsLock(s, token) then s.(locks := s.locks - {s.tokens[token]}) else s
    case _ => s
  }

  // A call in progress either writes to the table or only reads and moves on.
  function CallerStep(c: Codec, s: System, p: nat, a: Action): System
    requires p in s.procs
  {
    if Writes(a) then Write(c, s, p, s.procs[p], a) else At(s, p, Observe(c, s, s.procs[p], a))
  }

  predicate Issued(s: System, fence: Fence) {
    fence.token in s.tokens && s.tokens[fence.token] == fence.key
  }

  predicate HoldsLock(s: System, token: nat) {
    && token in s.tokens
    && s.tokens[token] in s.locks
    && s.locks[s.tokens[token]].token == token
  }

  /** Where a call goes next after a step that writes nothing. */
  function Observe(c: Codec, s: System, pc: Proc, a: Action): Proc {
    match a
    case GetHead => if pc.ReadingHead? then AfterHead(s, pc) else pc
    case GetRow(part) => if pc.Scanning? then AfterRow(s, pc, part) else pc
    case EndRows => if pc.Scanning? then AfterRows(c, s, pc) else pc
    case Recheck => if pc.Rechecking? then AfterRecheck(s, pc) else pc
    case ReturnUnchanged(now) =>
      if pc.Loaded? && pc.call.Mutate? && pc.call.op(pc.doc) == pc.doc
      then Returned(pc.call, if FenceHolds(s, pc.call.fence, now) then Unchanged(pc.revision) else Failed(LockLost))
      else pc
    case CheckContext =>
      if pc.Staging? && pc.next == Parts(pc.value) && Lapsed(s, FenceOf(pc.call)) then Returned(pc.call, Failed(LockLost)) else pc
    case Retry(now) => if pc.CleaningUp? then AfterCleanUp(s, pc, now) else pc
    case ReadHeadToCollect =>
      if !pc.BeforeCollect? then pc
      else if s.head.None? then Returned(pc.call, Committed(pc.revision))
      else Collecting(pc.call, pc.revision, s.head.value)
    case EndCollect =>
      // Also how a collection that failed is swallowed.
      if pc.Collecting? || pc.BeforeCollect? then Returned(pc.call, Committed(pc.revision)) else pc
    case Crash => if pc.Returned? then pc else Returned(pc.call, Failed(Crashed))
    case _ => pc
  }

  function AfterHead(s: System, pc: Proc): Proc
    requires pc.ReadingHead?
  {
    if s.head.None? then AfterLoad(pc.call, pc.tries, 0, NOTHING)
    else Scanning(pc.call, pc.tries, pc.loads, s.head.value, 0, [])
  }

  // The next row in key order that the query meets.
  function AfterRow(s: System, pc: Proc, part: nat): Proc
    requires pc.Scanning?
  {
    var key := RowKey(pc.head.prefix, part);
    if pc.next <= part && key in s.rows && (forall k :: pc.next <= k < part ==> RowKey(pc.head.prefix, k) !in s.rows)
    then Scanning(pc.call, pc.tries, pc.loads, pc.head, part + 1, pc.got + [(part, s.rows[key])])
    else pc
  }

  // The query has met every row there is from here on.
  function AfterRows(c: Codec, s: System, pc: Proc): Proc
    requires pc.Scanning?
  {
    if exists k :: k in s.rows && k.prefix == pc.head.prefix && pc.next <= k.part then pc
    else if |pc.got| == pc.head.parts && c.digest(Join(pc.got)) == pc.head.checksum
    then AfterLoad(pc.call, pc.tries, pc.head.revision, c.open(Join(pc.got)))
    else Rechecking(pc.call, pc.tries, pc.loads, pc.head)
  }

  // An unusable load: commerce_storage_unavailable if HEAD has not moved, else
  // another of the four tries, else commerce_busy.
  function AfterRecheck(s: System, pc: Proc): Proc
    requires pc.Rechecking?
  {
    if s.head.Some? && s.head.value.revision == pc.head.revision then Returned(pc.call, Failed(Unavailable))
    else if pc.loads < 3 then ReadingHead(pc.call, pc.tries, pc.loads + 1)
    else Returned(pc.call, Failed(Busy))
  }

  function AfterCleanUp(s: System, pc: Proc, now: int): Proc
    requires pc.CleaningUp?
  {
    if !FenceHolds(s, FenceOf(pc.call), now) then Returned(pc.call, Failed(LockLost))
    else if pc.tries < 7 then ReadingHead(pc.call, pc.tries + 1, 0)
    else Returned(pc.call, Failed(Busy))
  }

  function Write(c: Codec, s: System, p: nat, pc: Proc, a: Action): System
    requires p in s.procs
  {
    match a
    case ChoosePrefix(nonce, iv) =>
      if pc.Loaded? && pc.call.Mutate? && pc.call.op(pc.doc) != pc.doc && Prefix(pc.revision + 1, nonce) !in s.sealed
      then ChooseFor(c, s, p, pc, nonce, iv)
      else s
    case PutPart(acknowledged) => if pc.Staging? then StagePart(s, p, pc, acknowledged) else s
    case CommitHead(now, acknowledged) => if pc.Staging? then SwapHead(c, s, p, pc, now, acknowledged) else s
    case DeleteStaged(part) => if pc.CleaningUp? then s.(rows := s.rows - {RowKey(pc.prefix, part)}) else s
    case DeleteOld(row) =>
      if pc.Collecting? && row.prefix.revision <= pc.head.revision && row.prefix != pc.head.prefix
      then s.(rows := s.rows - {row})
      else s
    case _ => s
  }

  // The changed state is sealed under a name nobody has used.
  function ChooseFor(c: Codec, s: System, p: nat, pc: Proc, nonce: nat, iv: nat): System
    requires pc.Loaded? && pc.call.Mutate? && p in s.procs
  {
    var prefix := Prefix(pc.revision + 1, nonce);
    var doc := pc.call.op(pc.doc);
    var value := c.seal(doc, iv);
    At(s.(sealed := s.sealed[prefix := value], owner := s.owner[prefix := p]), p,
       Staging(pc.call, pc.tries, pc.revision, doc, prefix, value, 0))
  }

  function OneMoreStaged(pc: Proc): Proc
    requires pc.Staging?
  {
    Staging(pc.call, pc.tries, pc.revision, pc.doc, pc.prefix, pc.value, pc.next + 1)
  }

  // PutCommand with attribute_not_exists; a lost reply leaves an orphan row.
  function StagePart(s: System, p: nat, pc: Proc, acknowledged: bool): System
    requires pc.Staging? && p in s.procs
  {
    var key := RowKey(pc.prefix, pc.next);
    if pc.next >= Parts(pc.value) then s
    else if key in s.rows then At(s, p, CleaningUp(pc.call, pc.tries, pc.prefix))
    else
      At(s.(rows := s.rows[key := Chunk(pc.value, pc.next)]), p,
         if acknowledged then OneMoreStaged(pc) else Returned(pc.call, Failed(Crashed)))
  }

  // HEAD moves only from the revision that was loaded, and only while the
  // caller's lock row still carries its token.
  predicate MaySwap(s: System, pc: Proc, now: int)
    requires pc.Staging?
  {
    RevisionOf(s.head) == pc.revision && LockConditionHolds(s, FenceOf(pc.call), now)
  }

  // The commit point.  The lock context was checked before, and may lapse while
  // the write is on its way.
  function SwapHead(c: Codec, s: System, p: nat, pc: Proc, now: int, acknowledged: bool): System
    requires pc.Staging? && p in s.procs
  {
    if pc.next != Parts(pc.value) || pc.call.Load? then s
    else if MaySwap(s, pc, now) then At(Appended(s, CommitOf(c, p, pc)), p, AfterSwap(pc, acknowledged))
    else At(s, p, CleaningUp(pc.call, pc.tries, pc.prefix))
  }

  function AfterSwap(pc: Proc, acknowledged: bool): Proc
    requires pc.Staging?
  {
    if acknowledged then BeforeCollect(pc.call, pc.revision + 1) else Returned(pc.call, Failed(Crashed))
  }

  function CommitOf(c: Codec, p: nat, pc: Proc): Commit
    requires pc.Staging? && pc.call.Mutate?
  {
    Commit(p, pc.call.op, pc.doc, Head(pc.revision + 1, pc.prefix, Parts(pc.value), c.digest(pc.value)), pc.call.fence)
  }

  function Appended(s: System, commit: Commit): System {
    s.(head := Some(commit.head), log := s.log + [commit])
  }

  function Run(c: Codec, s: System, events: seq<Event>): System
    decreases |events|
  {
    if events == [] then s else Run(c, Step(c, s, events[0]), events[1..])
  }
}
