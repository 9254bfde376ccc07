/**
 Website hosting records of one workspace (adapters/local/src/websites.ts):
 targets with their desired and active generations, deployment attempts, publish
 intents and the outbox, each call an atomic block that commits or rolls back.
 */
module Hosting {
  import opened Common

  datatype Serving = Unpublished | Live | Suspended

  datatype Lock = Lock(attemptId: string, executionId: string)

  datatype Target = Target(
    id: string, websiteId: string, revision: int, adapterId: string, family: string, connectionId: Option<string>,
    accountId: string, remoteId: string, details: string,
    desired: int, active: int, activeAttemptId: Option<string>, activeReleaseId: Option<string>, activeDigest: Option<string>,
    removalRequired: bool, serving: Serving, lock: Option<Lock>)

  datatype AttemptState = Underway | Published | Withdrawn | Failed | Unknown | Dropped

  // details stands for the fields no store method looks at.
  datatype Attempt = Attempt(
    id: string, targetId: string, intentId: string, generation: int, revision: int, connectionRevision: Option<int>,
    accountId: string, state: AttemptState, digest: Option<string>, executionId: Option<string>, activationStarted: bool,
    details: string)

  datatype Intent = Intent(id: string, actorId: string, fingerprint: string, createdAt: int, attemptIds: seq<string>)

  datatype BindingRef = BindingRef(id: string, revision: int)

  datatype Plan = Plan(id: string, actorId: string, fingerprint: string, expiresAt: int, binding: Option<BindingRef>)

  datatype Binding = Binding(revision: int, enabled: bool)

  datatype Connection = Connection(revision: int, accountId: string, connected: bool)

  datatype Root = Root(family: string, accountId: string, remoteId: string)

  // A remote root managed by a target here or by one of another workspace.
  datatype Owner = Mine(targetId: string) | Foreign

  datatype Records = Records(
    targets: map<string, Target>, attempts: map<string, Attempt>, intents: map<string, Intent>, outbox: set<string>,
    roots: map<Root, Owner>, plans: map<string, Plan>, bindings: map<string, Binding>, connections: map<string, Connection>)

  datatype Error =
    | RevisionConflict | RootInUse | IdentityChanged | IdempotencyConflict | InvalidApproval | BindingChanged
    | GenerationConflict | ReconnectRequired | WriterFenced | TargetNotFound

  const MAX_SAFE := 9007199254740991

  // --------------------------------------------------------------- single records

  predicate RevisionFits(id: string, revision: int, expected: int) {
    id != "" && 0 <= expected <= MAX_SAFE && revision == expected + 1
  }

  /** A record is made at revision 1, or replaces the one at the expected revision. */
  function SaveAttempt(attempts: map<string, Attempt>, a: Attempt, expected: int): Option<map<string, Attempt>> {
    if !RevisionFits(a.id, a.revision, expected) then None
    else if expected == 0 then (if a.id in attempts then None else Some(attempts[a.id := a]))
    else if a.id in attempts && attempts[a.id].revision == expected then Some(attempts[a.id := a])
    else None
  }

  function SaveTargetRecord(targets: map<string, Target>, t: Target, expected: int): Option<map<string, Target>> {
    if !RevisionFits(t.id, t.revision, expected) then None
    else if expected == 0 then (if t.id in targets then None else Some(targets[t.id := t]))
    else if t.id in targets && targets[t.id].revision == expected then Some(targets[t.id := t])
    else None
  }

  function RootOf(t: Target): Root {
    Root(t.family, t.accountId, t.remoteId)
  }

  predicate SameIdentity(a: Target, b: Target) {
    a.websiteId == b.websiteId && a.accountId == b.accountId && a.remoteId == b.remoteId
    && a.connectionId == b.connectionId && a.adapterId == b.adapterId
  }

  // The caller's configuration with the deployment's own fields kept.
  function Configured(prior: Target, t: Target): Target {
    t.(desired := prior.desired, active := prior.active, activeAttemptId := prior.activeAttemptId,
       activeReleaseId := prior.activeReleaseId, activeDigest := prior.activeDigest, serving := prior.serving,
       removalRequired := prior.removalRequired, lock := prior.lock)
  }

  function SaveTarget(s: Records, t: Target, expected: int): Result<Records, Error> {
    var root := RootOf(t);
    if root in s.roots && s.roots[root] != Mine(t.id) then Err(RootInUse)
    else if t.id in s.targets && !SameIdentity(s.targets[t.id], t) then Err(IdentityChanged)
    else
      var value := if t.id in s.targets then Configured(s.targets[t.id], t) else t;
      var saved := SaveTargetRecord(s.targets, value, expected);
      if saved.None? then Err(RevisionConflict)
      else Ok(s.(targets := saved.value, roots := s.roots[root := Mine(t.id)]))
  }

  function SetServingState(s: Records, id: string, serving: Serving, operatorRequired: bool): Result<Records, Error> {
    if id !in s.targets then Err(TargetNotFound)
    else Ok(s.(targets := s.targets[id := s.targets[id].(serving := serving, removalRequired := operatorRequired)]))
  }

  // --------------------------------------------------------------- acceptance

  datatype Acceptance = Acceptance(intent: Intent, plan: Option<Plan>, targets: seq<Target>, attempts: seq<Attempt>)

  function AttemptFor(attempts: seq<Attempt>, targetId: string): (a: Option<Attempt>)
    ensures a.Some? ==> a.value in attempts && a.value.targetId == targetId
  {
    if attempts == [] then None
    else if attempts[0].targetId == targetId then Some(attempts[0]) else AttemptFor(attempts[1..], targetId)
  }

  predicate Connected(s: Records, target: Target, a: Attempt) {
    target.connectionId.Some? && target.connectionId.value != "" ==>
      && target.connectionId.value in s.connections
      && var c := s.connections[target.connectionId.value];
         c.connected && c.accountId == a.accountId && Some(c.revision) == a.connectionRevision
  }

  /** One target of a publication: its next generation, the attempt for it and the outbox entry. */
  function AcceptTarget(s: Records, expected: Target, attempts: seq<Attempt>): Result<Records, Error> {
    if expected.id !in s.targets then Err(RevisionConflict)
    else
      var target := s.targets[expected.id];
      var attempt := AttemptFor(attempts, target.id);
      if target.revision != expected.revision || target.desired != expected.desired then Err(RevisionConflict)
      else if attempt.None? || attempt.value.generation != target.desired + 1 then Err(GenerationConflict)
      else if !Connected(s, target, attempt.value) then Err(ReconnectRequired)
      else
        var saved := SaveAttempt(s.attempts, attempt.value, 0);
        if saved.None? || attempt.value.id in s.outbox then Err(RevisionConflict)
        else
          Ok(s.(targets := s.targets[expected.id := target.(desired := attempt.value.generation)],
                attempts := saved.value, outbox := s.outbox + {attempt.value.id}))
  }

  function AcceptTargets(s: Records, targets: seq<Target>, n: nat, attempts: seq<Attempt>): Result<Records, Error>
    requires n <= |targets|
  {
    if n == 0 then Ok(s)
    else
      var before := AcceptTargets(s, targets, n - 1, attempts);
      if before.Err? then before else AcceptTarget(before.value, targets[n - 1], attempts)
  }

  function Refusal(s: Records, input: Acceptance): Option<Error> {
    var intent := input.intent;
    if input.plan.Some? && (input.plan.value.id !in s.plans
                            || s.plans[input.plan.value.id].fingerprint != intent.fingerprint
                            || s.plans[input.plan.value.id].actorId != intent.actorId
                            || s.plans[input.plan.value.id].expiresAt <= intent.createdAt)
    then Some(InvalidApproval)
    else if input.plan.Some? && input.plan.value.binding.Some?
            && (input.plan.value.binding.value.id !in s.bindings
                || !s.bindings[input.plan.value.binding.value.id].enabled
                || s.bindings[input.plan.value.binding.value.id].revision != input.plan.value.binding.value.revision)
    then Some(BindingChanged)
    else None
  }

  function AcceptIntent(s: Records, input: Acceptance): Result<Records, Error> {
    var intent := input.intent;
    if intent.id in s.intents then
      if s.intents[intent.id].fingerprint != intent.fingerprint || s.intents[intent.id].attemptIds != intent.attemptIds
      then Err(IdempotencyConflict) else Ok(s)
    else if Refusal(s, input).Some? then Err(Refusal(s, input).value)
    else
      var accepted := AcceptTargets(s, input.targets, |input.targets|, input.attempts);
      if accepted.Err? then accepted
      else if intent.id == "" then Err(RevisionConflict)
      else Ok(accepted.value.(intents := s.intents[intent.id := intent]))
  }

  // --------------------------------------------------------------- the writer's lock

  predicate Claimable(s: Records, targetId: string, attemptId: string) {
    && targetId in s.targets && attemptId in s.attempts
    && s.attempts[attemptId].targetId == targetId
    && (s.targets[targetId].lock.Some? ==>
          s.targets[targetId].lock.value.attemptId == attemptId && !s.attempts[attemptId].activationStarted)
  }

  function Claim(s: Records, targetId: string, attemptId: string, executionId: string): (Records, bool) {
    if !Claimable(s, targetId, attemptId) then (s, false)
    else
      var a := s.attempts[attemptId];
      (s.(targets := s.targets[targetId := s.targets[targetId].(lock := Some(Lock(attemptId, executionId)))],
          attempts := s.attempts[attemptId := a.(executionId := Some(executionId), revision := a.revision + 1)]),
       true)
  }

  predicate Owns(s: Records, targetId: string, attemptId: string, executionId: string) {
    targetId in s.targets && s.targets[targetId].lock == Some(Lock(attemptId, executionId))
  }

  function UpdateAttempt(s: Records, a: Attempt, expected: int, executionId: string): Result<Records, Error> {
    if !Owns(s, a.targetId, a.id, executionId) then Err(WriterFenced)
    else
      var saved := SaveAttempt(s.attempts, a, expected);
      if saved.None? then Err(RevisionConflict) else Ok(s.(attempts := saved.value))
  }

  datatype Outcome = Outcome(releaseId: string, disabled: bool)

  /** The target after a finish: the release served, unless a later generation is active already. */
  function Finished(t: Target, a: Attempt, outcome: Option<Outcome>): Target {
    var lock := if a.state == Unknown then t.lock else None;
    if outcome.Some? && a.generation >= t.active then
      t.(removalRequired := !outcome.value.disabled && t.removalRequired,
         active := a.generation, activeAttemptId := Some(a.id), activeReleaseId := Some(outcome.value.releaseId),
         activeDigest := a.digest,
         serving := if outcome.value.disabled then Unpublished else if t.serving == Suspended then Suspended else Live,
         lock := lock)
    else t.(lock := lock)
  }

  function Finish(s: Records, a: Attempt, expected: int, executionId: string, outcome: Option<Outcome>): Result<Records, Error> {
    if !Owns(s, a.targetId, a.id, executionId) then Err(WriterFenced)
    else
      var saved := SaveAttempt(s.attempts, a, expected);
      if saved.None? then Err(RevisionConflict)
      else Ok(s.(attempts := saved.value, targets := s.targets[a.targetId := Finished(s.targets[a.targetId], a, outcome)],
                 outbox := s.outbox - {a.id}))
  }

  function Acknowledge(s: Records, id: string): Records {
    s.(outbox := s.outbox - {id})
  }

  // --------------------------------------------------------------- runs

  datatype Event =
    | Saving(target: Target, expected: int)
    | SettingServing(id: string, serving: Serving, operatorRequired: bool)
    | Accepting(input: Acceptance)
    | Claiming(targetId: string, attemptId: string, executionId: string)
    | Updating(attempt: Attempt, expected: int, executionId: string)
    | Finishing(attempt: Attempt, expected: int, executionId: string, outcome: Option<Outcome>)
    | Acknowledging(id: string)
    // Whatever else writes plans, bindings and connections, and other workspaces' roots.
    | Elsewhere(plans: map<string, Plan>, bindings: map<string, Binding>, connections: map<string, Connection>, root: Root)

  function Committed(s: Records, r: Result<Records, Error>): Records {
    if r.Ok? then r.value else s
  }

  function Step(s: Records, e: Event): Records {
    match e
    case Saving(target, expected) => Committed(s, SaveTarget(s, target, expected))
    case SettingServing(id, serving, operatorRequired) => Committed(s, SetServingState(s, id, serving, operatorRequired))
    case Accepting(input) => Committed(s, AcceptIntent(s, input))
    case Claiming(target, attempt, execution) => Claim(s, target, attempt, execution).0
    case Updating(attempt, expected, execution) => Committed(s, UpdateAttempt(s, attempt, expected, execution))
    case Finishing(attempt, expected, execution, outcome) => Committed(s, Finish(s, attempt, expected, execution, outcome))
    case Acknowledging(id) => Acknowledge(s, id)
    case Elsewhere(plans, bindings, connections, root) =>
      s.(plans := plans, bindings := bindings, connections := connections,
         roots := if root in s.roots then s.roots else s.roots[root := Foreign])
  }

  function Run(s: Records, events: seq<Event>): Records
    decreases |events|
  {
    if events == [] then s else Run(Step(s, events[0]), events[1..])
  }

  const EMPTY := Records(map[], map[], map[], {}, map[], map[], map[], map[])

  /**
   What the store leaves to its callers: a new target starts unlocked at
   generation 0, and an attempt is written back for its own target and generation.
   */
  predicate WellBehaved(s: Records, e: Event) {
    && (e.Saving? && e.target.id !in s.targets ==>
          e.target.desired == 0 && e.target.active == 0 && e.target.activeAttemptId.None? && e.target.lock.None?)
    && (e.Updating? && e.attempt.id in s.attempts ==> SamePlace(s.attempts[e.attempt.id], e.attempt))
    && (e.Finishing? && e.attempt.id in s.attempts ==> SamePlace(s.attempts[e.attempt.id], e.attempt))
  }

  predicate SamePlace(a: Attempt, b: Attempt) {
    a.targetId == b.targetId && a.generation == b.generation
  }

  ghost predicate AllWellBehaved(s: Records, events: seq<Event>)
    decreases |events|
  {
    events != [] ==> WellBehaved(s, events[0]) && AllWellBehaved(Step(s, events[0]), events[1..])
  }
}
