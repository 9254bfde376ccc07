/** What every run of the hosting store keeps. */
module HostingTheorems {
  import opened Common
  import opened Hosting

  // --------------------------------------------------------------- generations

  ghost predicate IsAttemptOf(attempts: map<string, Attempt>, id: string, targetId: string, generation: int) {
    id in attempts && attempts[id].targetId == targetId && attempts[id].generation == generation
  }

  /** Some attempt has the generation. */
  ghost predicate Numbered(attempts: map<string, Attempt>, targetId: string, generation: int) {
    exists id :: IsAttemptOf(attempts, id, targetId, generation)
  }

  ghost predicate TargetOk(s: Records, t: string) {
    t in s.targets ==>
      var target := s.targets[t];
      && target.id == t
      && 0 <= target.active <= target.desired
      && (forall g :: 1 <= g <= target.desired ==> Numbered(s.attempts, t, g))
      && (target.activeAttemptId.Some? ==> IsAttemptOf(s.attempts, target.activeAttemptId.value, t, target.active))
      && (target.lock.Some? ==> target.lock.value.attemptId in s.attempts && s.attempts[target.lock.value.attemptId].targetId == t)
  }

  ghost predicate AttemptOk(s: Records, a: string) {
    a in s.attempts ==>
      && s.attempts[a].id == a && a != "" && 1 <= s.attempts[a].revision
      && s.attempts[a].targetId in s.targets
      && 1 <= s.attempts[a].generation <= s.targets[s.attempts[a].targetId].desired
  }

  ghost predicate DistinctGenerations(attempts: map<string, Attempt>) {
    forall a, b :: (a in attempts && b in attempts && SamePlace(attempts[a], attempts[b])) ==> a == b
  }

  ghost predicate Inv(s: Records) {
    && (forall t :: TargetOk(s, t))
    && (forall a :: AttemptOk(s, a))
    && DistinctGenerations(s.attempts)
    && s.outbox <= s.attempts.Keys
  }

  // Attempts written back keep their place; targets move generations within bounds.
  ghost predicate SamePlaces(s: Records, t: Records) {
    && s.attempts.Keys == t.attempts.Keys
    && (forall a :: a in s.attempts ==> SamePlace(s.attempts[a], t.attempts[a]) && t.attempts[a].id == s.attempts[a].id && t.attempts[a].revision >= 1)
    && s.targets.Keys <= t.targets.Keys
    && (forall x :: x in s.targets ==> t.targets[x].desired == s.targets[x].desired)
  }

  ghost predicate NewOrSame(s: Records, t: Records, x: string) {
    x in t.targets ==>
      var after := t.targets[x];
      && after.id == x && 0 <= after.active <= after.desired
      && (x !in s.targets ==> after.desired == 0)
      && (after.activeAttemptId.Some? ==> IsAttemptOf(t.attempts, after.activeAttemptId.value, x, after.active))
      && (after.lock.Some? ==> after.lock.value.attemptId in t.attempts && t.attempts[after.lock.value.attemptId].targetId == x)
  }

  lemma NumberedStays(s: Records, t: Records, x: string, g: int)
    requires SamePlaces(s, t) && Numbered(s.attempts, x, g)
    ensures Numbered(t.attempts, x, g)
  {
    var id :| IsAttemptOf(s.attempts, id, x, g);
    assert IsAttemptOf(t.attempts, id, x, g);
  }

  lemma PlacesKeepInv(s: Records, t: Records)
    requires Inv(s) && SamePlaces(s, t) && t.outbox <= s.outbox
    requires forall x :: NewOrSame(s, t, x)
    ensures Inv(t)
  {
    forall x ensures TargetOk(t, x) {
      assert TargetOk(s, x) && NewOrSame(s, t, x);
      forall g | x in t.targets && 1 <= g <= t.targets[x].desired ensures Numbered(t.attempts, x, g) {
        NumberedStays(s, t, x, g);
      }
    }
    forall a ensures AttemptOk(t, a) { assert AttemptOk(s, a); }
  }

  lemma SavingKeepsInv(s: Records, target: Target, expected: int)
    requires Inv(s) && WellBehaved(s, Saving(target, expected)) && SaveTarget(s, target, expected).Ok?
    ensures Inv(SaveTarget(s, target, expected).value)
  {
    var t := SaveTarget(s, target, expected).value;
    forall a ensures a in s.attempts ==> s.attempts[a].id == a && s.attempts[a].revision >= 1 { assert AttemptOk(s, a); }
    forall x ensures NewOrSame(s, t, x) { assert TargetOk(s, x); }
    PlacesKeepInv(s, t);
  }

  lemma ServingKeepsInv(s: Records, id: string, serving: Serving, operatorRequired: bool)
    requires Inv(s) && SetServingState(s, id, serving, operatorRequired).Ok?
    ensures Inv(SetServingState(s, id, serving, operatorRequired).value)
  {
    var t := SetServingState(s, id, serving, operatorRequired).value;
    forall a ensures a in s.attempts ==> s.attempts[a].revision >= 1 { assert AttemptOk(s, a); }
    forall x ensures NewOrSame(s, t, x) { assert TargetOk(s, x); }
    PlacesKeepInv(s, t);
  }

  lemma ClaimKeepsPlaces(s: Records, targetId: string, attemptId: string, executionId: string)
    requires Inv(s) && Claimable(s, targetId, attemptId)
    ensures SamePlaces(s, Claim(s, targetId, attemptId, executionId).0)
  {
    forall a ensures a in s.attempts ==> s.attempts[a].revision >= 1 { assert AttemptOk(s, a); }
  }

  lemma ClaimKeepsInv(s: Records, targetId: string, attemptId: string, executionId: string)
    requires Inv(s)
    ensures Inv(Claim(s, targetId, attemptId, executionId).0)
  {
    if Claimable(s, targetId, attemptId) {
      var t := Claim(s, targetId, attemptId, executionId).0;
      forall x ensures NewOrSame(s, t, x) { assert TargetOk(s, x); }
      ClaimKeepsPlaces(s, targetId, attemptId, executionId);
      PlacesKeepInv(s, t);
    }
  }

  lemma WritingKeepsPlaces(s: Records, a: Attempt, expected: int, t: Records)
    requires Inv(s) && a.id in s.attempts && SamePlace(s.attempts[a.id], a) && SaveAttempt(s.attempts, a, expected) == Some(t.attempts)
    requires t.targets.Keys == s.targets.Keys && forall x :: x in s.targets ==> t.targets[x].desired == s.targets[x].desired
    ensures SamePlaces(s, t)
  {
    forall i ensures i in s.attempts ==> s.attempts[i].id == i && s.attempts[i].revision >= 1 { assert AttemptOk(s, i); }
  }

  lemma OwnerIsStored(s: Records, targetId: string, attemptId: string, executionId: string)
    requires Inv(s) && Owns(s, targetId, attemptId, executionId)
    ensures attemptId in s.attempts && s.attempts[attemptId].targetId == targetId
  {
    assert TargetOk(s, targetId);
  }

  lemma UpdateKeepsInv(s: Records, a: Attempt, expected: int, executionId: string)
    requires Inv(s) && WellBehaved(s, Updating(a, expected, executionId)) && UpdateAttempt(s, a, expected, executionId).Ok?
    ensures Inv(UpdateAttempt(s, a, expected, executionId).value)
  {
    var t := UpdateAttempt(s, a, expected, executionId).value;
    OwnerIsStored(s, a.targetId, a.id, executionId);
    WritingKeepsPlaces(s, a, expected, t);
    forall x ensures NewOrSame(s, t, x) { assert TargetOk(s, x); }
    PlacesKeepInv(s, t);
  }

  lemma FinishKeepsInv(s: Records, a: Attempt, expected: int, executionId: string, outcome: Option<Outcome>)
    requires Inv(s) && WellBehaved(s, Finishing(a, expected, executionId, outcome)) && Finish(s, a, expected, executionId, outcome).Ok?
    ensures Inv(Finish(s, a, expected, executionId, outcome).value)
  {
    var t := Finish(s, a, expected, executionId, outcome).value;
    OwnerIsStored(s, a.targetId, a.id, executionId);
    WritingKeepsPlaces(s, a, expected, t);
    assert AttemptOk(s, a.id);
    forall x ensures NewOrSame(s, t, x) { assert TargetOk(s, x); }
    PlacesKeepInv(s, t);
  }

  lemma AcceptTargetKeepsInv(s: Records, expected: Target, attempts: seq<Attempt>)
    requires Inv(s) && AcceptTarget(s, expected, attempts).Ok?
    ensures Inv(AcceptTarget(s, expected, attempts).value)
  {
    var t := AcceptTarget(s, expected, attempts).value;
    var target := s.targets[expected.id];
    assert TargetOk(s, expected.id);
    var a := AttemptFor(attempts, target.id).value;
    assert t.attempts == s.attempts[a.id := a];
    forall x ensures TargetOk(t, x) {
      assert TargetOk(s, x);
      forall g | x in t.targets && 1 <= g <= t.targets[x].desired ensures Numbered(t.attempts, x, g) {
        if x == expected.id && g == a.generation {
          assert IsAttemptOf(t.attempts, a.id, x, g);
        } else {
          assert Numbered(s.attempts, x, g);
          var id :| IsAttemptOf(s.attempts, id, x, g);
          assert IsAttemptOf(t.attempts, id, x, g);
        }
      }
    }
    forall i ensures AttemptOk(t, i) { assert AttemptOk(s, i); }
    forall i, j | i in t.attempts && j in t.attempts && SamePlace(t.attempts[i], t.attempts[j])
      ensures i == j
    {
      assert AttemptOk(s, i) && AttemptOk(s, j);
    }
  }

  lemma {:induction false} AcceptTargetsKeepInv(s: Records, targets: seq<Target>, n: nat, attempts: seq<Attempt>)
    requires Inv(s) && n <= |targets| && AcceptTargets(s, targets, n, attempts).Ok?
    ensures Inv(AcceptTargets(s, targets, n, attempts).value)
    ensures AcceptTargets(s, targets, n, attempts).value.intents == s.intents
  {
    hide Inv;
    if n > 0 {
      AcceptTargetsKeepInv(s, targets, n - 1, attempts);
      AcceptTargetKeepsInv(AcceptTargets(s, targets, n - 1, attempts).value, targets[n - 1], attempts);
    }
  }

  lemma OtherTablesKeepInv(s: Records, t: Records)
    requires Inv(s) && t.targets == s.targets && t.attempts == s.attempts && t.outbox <= s.outbox
    ensures Inv(t)
  {
    forall x ensures TargetOk(t, x) { assert TargetOk(s, x); }
    forall a ensures AttemptOk(t, a) { assert AttemptOk(s, a); }
  }

  lemma AcceptKeepsInv(s: Records, input: Acceptance)
    requires Inv(s) && AcceptIntent(s, input).Ok?
    ensures Inv(AcceptIntent(s, input).value)
  {
    hide Inv, Refusal;
    if AcceptTargets(s, input.targets, |input.targets|, input.attempts).Ok? {
      var accepted := AcceptTargets(s, input.targets, |input.targets|, input.attempts).value;
      AcceptTargetsKeepInv(s, input.targets, |input.targets|, input.attempts);
      OtherTablesKeepInv(accepted, accepted.(intents := s.intents[input.intent.id := input.intent]));
    }
  }

  lemma StepKeepsInv(s: Records, e: Event)
    requires Inv(s) && WellBehaved(s, e)
    ensures Inv(Step(s, e))
  {
    hide Inv, SaveTarget, AcceptIntent, Claim, UpdateAttempt, Finish, WellBehaved, SetServingState;
    match e
    case Saving(target, expected) =>
      if SaveTarget(s, target, expected).Ok? { SavingKeepsInv(s, target, expected); }
    case SettingServing(id, serving, operatorRequired) =>
      if SetServingState(s, id, serving, operatorRequired).Ok? { ServingKeepsInv(s, id, serving, operatorRequired); }
    case Accepting(input) =>
      if AcceptIntent(s, input).Ok? { AcceptKeepsInv(s, input); }
    case Claiming(target, attempt, execution) => ClaimKeepsInv(s, target, attempt, execution);
    case Updating(attempt, expected, execution) =>
      if UpdateAttempt(s, attempt, expected, execution).Ok? { UpdateKeepsInv(s, attempt, expected, execution); }
    case Finishing(attempt, expected, execution, outcome) =>
      if Finish(s, attempt, expected, execution, outcome).Ok? { FinishKeepsInv(s, attempt, expected, execution, outcome); }
    case Acknowledging(id) => OtherTablesKeepInv(s, Acknowledge(s, id));
    case Elsewhere(plans, bindings, connections, root) => OtherTablesKeepInv(s, Step(s, e));
  }

  lemma {:induction false} RunKeepsInv(s: Records, events: seq<Event>)
    requires Inv(s) && AllWellBehaved(s, events)
    ensures Inv(Run(s, events))
    decreases |events|
  {
    hide Inv, Step;
    if events != [] {
      StepKeepsInv(s, events[0]);
      RunKeepsInv(Step(s, events[0]), events[1..]);
    }
  }

  /**
   The attempts accepted for a target are numbered 1 to its desired generation,
   each number once, and the active generation is one of them or none.
   */
  lemma AttemptsAreNumbered(events: seq<Event>, t: string, g: int)
    requires AllWellBehaved(EMPTY, events) && t in Run(EMPTY, events).targets
    ensures var s := Run(EMPTY, events);
            && (Numbered(s.attempts, t, g) <==> 1 <= g <= s.targets[t].desired)
            && (forall a, b :: IsAttemptOf(s.attempts, a, t, g) && IsAttemptOf(s.attempts, b, t, g) ==> a == b)
            && 0 <= s.targets[t].active <= s.targets[t].desired
  {
    var s := Run(EMPTY, events);
    assert Inv(EMPTY);
    RunKeepsInv(EMPTY, events);
    assert TargetOk(s, t);
    if Numbered(s.attempts, t, g) {
      var a :| IsAttemptOf(s.attempts, a, t, g);
      assert AttemptOk(s, a);
    }
    forall a, b | IsAttemptOf(s.attempts, a, t, g) && IsAttemptOf(s.attempts, b, t, g) ensures a == b {
      assert SamePlace(s.attempts[a], s.attempts[b]);
    }
  }

  // --------------------------------------------------------------- who may change what

  ghost predicate ActiveRelease(t: Target, u: Target) {
    t.active == u.active && t.activeAttemptId == u.activeAttemptId && t.activeReleaseId == u.activeReleaseId && t.activeDigest == u.activeDigest
  }

  /** Targets only gain generations, attempts and outbox entries are only added. */
  ghost predicate Grew(s: Records, t: Records) {
    && s.targets.Keys == t.targets.Keys
    && (forall x :: x in s.targets ==>
          t.targets[x] == s.targets[x].(desired := t.targets[x].desired) && s.targets[x].desired <= t.targets[x].desired)
    && (forall a :: a in s.attempts ==> a in t.attempts && t.attempts[a] == s.attempts[a])
    && s.outbox <= t.outbox
  }

  lemma AcceptTargetGrows(s: Records, expected: Target, attempts: seq<Attempt>)
    requires AcceptTarget(s, expected, attempts).Ok?
    ensures Grew(s, AcceptTarget(s, expected, attempts).value)
  {
    hide Connected;
  }

  lemma {:induction false} AcceptingLeaves(s: Records, targets: seq<Target>, n: nat, attempts: seq<Attempt>)
    requires n <= |targets| && AcceptTargets(s, targets, n, attempts).Ok?
    ensures Grew(s, AcceptTargets(s, targets, n, attempts).value)
  {
    hide AcceptTarget;
    if n > 0 {
      AcceptingLeaves(s, targets, n - 1, attempts);
      AcceptTargetGrows(AcceptTargets(s, targets, n - 1, attempts).value, targets[n - 1], attempts);
    }
  }

  lemma AcceptanceLeaves(s: Records, input: Acceptance)
    requires AcceptIntent(s, input).Ok?
    ensures Grew(s, AcceptIntent(s, input).value)
  {
    hide Refusal, AcceptTargets;
    if AcceptTargets(s, input.targets, |input.targets|, input.attempts).Ok? {
      AcceptingLeaves(s, input.targets, |input.targets|, input.attempts);
    }
  }

  // The call was made by the execution that holds the target's lock for the attempt.
  ghost predicate ByHolder(s: Records, e: Event, a: string) {
    || (e.Updating? && e.attempt.id == a && Owns(s, e.attempt.targetId, a, e.executionId))
    || (e.Finishing? && e.attempt.id == a && Owns(s, e.attempt.targetId, a, e.executionId))
  }

  // The same deployment: what is served, its lock and policy; generations may be added.
  ghost predicate SameDeployment(t: Target, u: Target) {
    ActiveRelease(t, u) && u.serving == t.serving && u.removalRequired == t.removalRequired && u.lock == t.lock && t.desired <= u.desired
  }

  /** The ways a call changes a target's deployment. */
  ghost predicate TargetStep(s: Records, e: Event, t: Target, u: Target, x: string) {
    || SameDeployment(t, u)
    || (e.SettingServing? && e.id == x && u == t.(serving := e.serving, removalRequired := e.operatorRequired))
    || (e.Claiming? && e.targetId == x && Claimable(s, x, e.attemptId) && u == t.(lock := Some(Lock(e.attemptId, e.executionId))))
    || (e.Finishing? && e.attempt.targetId == x && ByHolder(s, e, e.attempt.id) && u == Finished(t, e.attempt, e.outcome))
  }

  lemma SavingLeavesDeployments(s: Records, target: Target, expected: int, x: string)
    requires x in s.targets && SaveTarget(s, target, expected).Ok?
    ensures x in SaveTarget(s, target, expected).value.targets
    ensures SameDeployment(s.targets[x], SaveTarget(s, target, expected).value.targets[x])
  {
  }

  lemma FinishingChangesItsTarget(s: Records, a: Attempt, expected: int, executionId: string, outcome: Option<Outcome>, x: string)
    requires x in s.targets && Finish(s, a, expected, executionId, outcome).Ok?
    ensures var t := Finish(s, a, expected, executionId, outcome).value;
            x in t.targets && t.targets[x] == if x == a.targetId then Finished(s.targets[x], a, outcome) else s.targets[x]
    ensures Owns(s, a.targetId, a.id, executionId)
  {
  }

  lemma StepTarget(s: Records, e: Event, x: string)
    requires x in s.targets
    ensures x in Step(s, e).targets
    ensures TargetStep(s, e, s.targets[x], Step(s, e).targets[x], x)
  {
    hide AcceptIntent, Finished, Claimable, SaveTarget, Finish, UpdateAttempt, SameDeployment;
    AsItWas(s.targets[x]);
    match e
    case Accepting(input) =>
      if AcceptIntent(s, input).Ok? {
        AcceptanceLeaves(s, input);
        MoreDesired(s.targets[x], AcceptIntent(s, input).value.targets[x]);
      }
    case Saving(target, expected) =>
      if SaveTarget(s, target, expected).Ok? { SavingLeavesDeployments(s, target, expected, x); }
    case Finishing(a, expected, execution, outcome) =>
      if Finish(s, a, expected, execution, outcome).Ok? { FinishingChangesItsTarget(s, a, expected, execution, outcome, x); }
    case Updating(a, expected, execution) => UpdatingLeavesTargets(s, a, expected, execution);
    case _ =>
  }

  lemma AsItWas(t: Target)
    ensures SameDeployment(t, t)
  {
  }

  lemma MoreDesired(t: Target, u: Target)
    requires u == t.(desired := u.desired) && t.desired <= u.desired
    ensures SameDeployment(t, u)
  {
  }

  lemma UpdatingLeavesTargets(s: Records, a: Attempt, expected: int, executionId: string)
    ensures Committed(s, UpdateAttempt(s, a, expected, executionId)).targets == s.targets
  {
  }

  /** Only the lock's execution, or a claim that takes the lock, changes an attempt. */
  lemma OnlyTheHolderChangesAttempts(s: Records, e: Event, a: string)
    requires a in s.attempts
    ensures a in Step(s, e).attempts
    ensures Step(s, e).attempts[a] != s.attempts[a] ==>
      ByHolder(s, e, a) || (e.Claiming? && e.attemptId == a && Owns(Step(s, e), e.targetId, a, e.executionId))
  {
    hide AcceptIntent;
    if e.Accepting? && AcceptIntent(s, e.input).Ok? {
      AcceptanceLeaves(s, e.input);
    }
  }

  /** Only a finish by the lock's execution changes what a target serves. */
  lemma OnlyTheHolderChangesTheRelease(s: Records, e: Event, x: string)
    requires x in s.targets
    ensures x in Step(s, e).targets
    ensures !ActiveRelease(s.targets[x], Step(s, e).targets[x]) ==>
      e.Finishing? && e.attempt.targetId == x && ByHolder(s, e, e.attempt.id)
  {
    hide Step;
    StepTarget(s, e, x);
  }

  lemma GenerationsRiseInAStep(s: Records, e: Event, x: string)
    requires x in s.targets
    ensures x in Step(s, e).targets
    ensures s.targets[x].active <= Step(s, e).targets[x].active && s.targets[x].desired <= Step(s, e).targets[x].desired
  {
    hide Step;
    StepTarget(s, e, x);
  }

  /** Generations, desired and active, never go back. */
  lemma {:induction false} GenerationsRise(s: Records, events: seq<Event>, x: string)
    requires x in s.targets
    ensures x in Run(s, events).targets
    ensures s.targets[x].active <= Run(s, events).targets[x].active && s.targets[x].desired <= Run(s, events).targets[x].desired
    decreases |events|
  {
    hide Step;
    if events != [] {
      GenerationsRiseInAStep(s, events[0], x);
      GenerationsRise(Step(s, events[0]), events[1..], x);
    }
  }

  // --------------------------------------------------------------- what is served

  // A finish that goes through and says what it released.
  ghost predicate Releases(s: Records, e: Event, x: string) {
    && e.Finishing? && e.attempt.targetId == x && e.outcome.Some?
    && Finish(s, e.attempt, e.expected, e.executionId, e.outcome).Ok?
  }

  predicate Reports(e: Event, a: Attempt, outcome: Outcome) {
    e.Finishing? && e.attempt == a && e.outcome == Some(outcome)
  }

  ghost predicate OnlyOlder(s: Records, events: seq<Event>, x: string, generation: int)
    decreases |events|
  {
    events != [] ==>
      && (Releases(s, events[0], x) ==> events[0].attempt.generation < generation)
      && OnlyOlder(Step(s, events[0]), events[1..], x, generation)
  }

  /** Of the releases in the run, the last one of the highest generation is this. */
  ghost predicate Newest(s: Records, events: seq<Event>, x: string, a: Attempt, outcome: Outcome)
    decreases |events|
  {
    && events != []
    && var e, t := events[0], Step(s, events[0]);
       || (Releases(s, e, x) && Reports(e, a, outcome) && OnlyOlder(t, events[1..], x, a.generation))
       || ((Releases(s, e, x) ==> e.attempt.generation <= a.generation) && Newest(t, events[1..], x, a, outcome))
  }

  ghost predicate Serves(t: Target, a: Attempt, outcome: Outcome) {
    && t.active == a.generation && t.activeAttemptId == Some(a.id)
    && t.activeReleaseId == Some(outcome.releaseId) && t.activeDigest == a.digest
  }

  lemma ReleasingInAStep(s: Records, e: Event, x: string)
    requires x in s.targets
    ensures x in Step(s, e).targets
    ensures !Releases(s, e, x) ==> ActiveRelease(s.targets[x], Step(s, e).targets[x])
    ensures Releases(s, e, x) && e.attempt.generation < s.targets[x].active ==> ActiveRelease(s.targets[x], Step(s, e).targets[x])
    ensures Releases(s, e, x) && s.targets[x].active <= e.attempt.generation ==> Serves(Step(s, e).targets[x], e.attempt, e.outcome.value)
  {
    if e.Finishing? {
      hide AcceptIntent;
    } else {
      hide Step;
      StepTarget(s, e, x);
    }
  }

  lemma {:induction false} OlderReleasesChangeNothing(s: Records, events: seq<Event>, x: string, a: Attempt, outcome: Outcome)
    requires x in s.targets && Serves(s.targets[x], a, outcome) && OnlyOlder(s, events, x, a.generation)
    ensures x in Run(s, events).targets && Serves(Run(s, events).targets[x], a, outcome)
    decreases |events|
  {
    hide Step, Releases;
    if events != [] {
      ReleasingInAStep(s, events[0], x);
      OlderReleasesChangeNothing(Step(s, events[0]), events[1..], x, a, outcome);
    }
  }

  /**
   In whatever order attempts finish, what a target serves in the end is the
   last release of the highest generation.
   */
  lemma {:induction false} NewestReleaseIsServed(s: Records, events: seq<Event>, x: string, a: Attempt, outcome: Outcome)
    requires x in s.targets && s.targets[x].active <= a.generation && Newest(s, events, x, a, outcome)
    ensures x in Run(s, events).targets && Serves(Run(s, events).targets[x], a, outcome)
    decreases |events|
  {
    hide Step, Releases;
    var e, t := events[0], Step(s, events[0]);
    ReleasingInAStep(s, e, x);
    if Releases(s, e, x) && Reports(e, a, outcome) && OnlyOlder(t, events[1..], x, a.generation) {
      OlderReleasesChangeNothing(t, events[1..], x, a, outcome);
    } else {
      NewestReleaseIsServed(t, events[1..], x, a, outcome);
    }
  }

  // --------------------------------------------------------------- uncertain activation

  /** The target is locked by an attempt that may have begun to serve. */
  ghost predicate Activating(s: Records, x: string, lock: Lock) {
    && x in s.targets && s.targets[x].lock == Some(lock)
    && lock.attemptId in s.attempts && s.attempts[lock.attemptId].activationStarted
  }

  /** The holder finishes with a known outcome, or takes the mark back. */
  predicate Resolves(e: Event, lock: Lock) {
    || (e.Finishing? && e.attempt.id == lock.attemptId && e.executionId == lock.executionId
        && (e.attempt.state != Unknown || !e.attempt.activationStarted))
    || (e.Updating? && e.attempt.id == lock.attemptId && e.executionId == lock.executionId && !e.attempt.activationStarted)
  }

  // What the holder of an attempt leaves of it is what it wrote.
  lemma HoldersWrite(s: Records, e: Event, a: string)
    requires a in s.attempts && ByHolder(s, e, a)
    ensures a in Step(s, e).attempts
    ensures Step(s, e).attempts[a] == s.attempts[a] || Step(s, e).attempts[a] == e.attempt
  {
  }

  lemma ClaimingKeepsActivation(s: Records, e: Event, x: string, lock: Lock)
    requires Inv(s) && Activating(s, x, lock) && e.Claiming?
    ensures Activating(Step(s, e), x, lock)
  {
    assert TargetOk(s, x) && TargetOk(s, e.targetId);
  }

  lemma ActivationHoldsInAStep(s: Records, e: Event, x: string, lock: Lock)
    requires Inv(s) && Activating(s, x, lock) && !Resolves(e, lock)
    ensures Activating(Step(s, e), x, lock)
    ensures e.Claiming? && e.targetId == x ==> !Claim(s, x, e.attemptId, e.executionId).1
  {
    hide Step;
    assert TargetOk(s, x);
    if e.Claiming? {
      ClaimingKeepsActivation(s, e, x, lock);
    } else {
      StepTarget(s, e, x);
      OnlyTheHolderChangesAttempts(s, e, lock.attemptId);
      if ByHolder(s, e, lock.attemptId) {
        assert TargetOk(s, e.attempt.targetId);
        HoldersWrite(s, e, lock.attemptId);
      }
    }
  }

  /**
   While a possibly activated attempt holds the lock, nobody else gets it: the
   lock stays, and every claim fails, until its holder finishes with a known
   outcome or takes the mark back.
   */
  lemma {:induction false} ActivationBlocksClaims(s: Records, events: seq<Event>, x: string, lock: Lock, attemptId: string, executionId: string)
    requires Inv(s) && AllWellBehaved(s, events) && Activating(s, x, lock)
    requires forall i :: 0 <= i < |events| ==> !Resolves(events[i], lock)
    ensures Activating(Run(s, events), x, lock)
    ensures Claim(Run(s, events), x, attemptId, executionId) == (Run(s, events), false)
    decreases |events|
  {
    hide Inv, Step;
    if events != [] {
      ActivationHoldsInAStep(s, events[0], x, lock);
      StepKeepsInv(s, events[0]);
      ActivationBlocksClaims(Step(s, events[0]), events[1..], x, lock, attemptId, executionId);
    }
  }

  // --------------------------------------------------------------- fencing

  ghost predicate NotHeldBy(s: Records, x: string, executionId: string) {
    x in s.targets && s.targets[x].lock.Some? ==> s.targets[x].lock.value.executionId != executionId
  }

  lemma FencedInAStep(s: Records, e: Event, x: string, executionId: string)
    requires x in s.targets && NotHeldBy(s, x, executionId) && !(e.Claiming? && e.targetId == x && e.executionId == executionId)
    ensures x in Step(s, e).targets && NotHeldBy(Step(s, e), x, executionId)
  {
    hide Step;
    StepTarget(s, e, x);
  }

  /** An execution that lost a target's lock writes nothing for that target until it claims again. */
  lemma {:induction false} DisplacedExecutionIsFenced(s: Records, events: seq<Event>, x: string, executionId: string,
                                                     a: Attempt, expected: int, outcome: Option<Outcome>)
    requires x in s.targets && NotHeldBy(s, x, executionId) && a.targetId == x
    requires forall i :: 0 <= i < |events| ==> !(events[i].Claiming? && events[i].targetId == x && events[i].executionId == executionId)
    ensures UpdateAttempt(Run(s, events), a, expected, executionId) == Err(WriterFenced)
    ensures Finish(Run(s, events), a, expected, executionId, outcome) == Err(WriterFenced)
    decreases |events|
  {
    hide Step;
    if events != [] {
      FencedInAStep(s, events[0], x, executionId);
      DisplacedExecutionIsFenced(Step(s, events[0]), events[1..], x, executionId, a, expected, outcome);
    }
  }

  // --------------------------------------------------------------- suspension, outbox, idempotency

  /** A policy decision, or an unpublication finished. */
  predicate Lifts(e: Event, x: string) {
    || (e.SettingServing? && e.id == x)
    || (e.Finishing? && e.attempt.targetId == x && e.outcome.Some? && e.outcome.value.disabled)
  }

  lemma SuspensionInAStep(s: Records, e: Event, x: string)
    requires x in s.targets && s.targets[x].serving == Suspended && !Lifts(e, x)
    ensures x in Step(s, e).targets && Step(s, e).targets[x].serving == Suspended
  {
    hide Step;
    StepTarget(s, e, x);
  }

  /** A suspension survives every publication that finishes. */
  lemma {:induction false} SuspensionSurvivesPublishing(s: Records, events: seq<Event>, x: string)
    requires x in s.targets && s.targets[x].serving == Suspended
    requires forall i :: 0 <= i < |events| ==> !Lifts(events[i], x)
    ensures x in Run(s, events).targets && Run(s, events).targets[x].serving == Suspended
    decreases |events|
  {
    hide Step;
    if events != [] {
      SuspensionInAStep(s, events[0], x);
      SuspensionSurvivesPublishing(Step(s, events[0]), events[1..], x);
    }
  }

  // Within one acceptance a target's generation is as before or its attempt's.
  lemma {:induction false} RaisedByItsAttempt(s: Records, targets: seq<Target>, n: nat, attempts: seq<Attempt>, x: string)
    requires Inv(s) && n <= |targets| && AcceptTargets(s, targets, n, attempts).Ok? && x in s.targets
    ensures var t := AcceptTargets(s, targets, n, attempts).value;
            var a := AttemptFor(attempts, x);
            && x in t.targets
            && (t.targets[x].desired == s.targets[x].desired || (a.Some? && t.targets[x].desired == a.value.generation))
  {
    hide Connected, Inv;
    if n > 0 {
      RaisedByItsAttempt(s, targets, n - 1, attempts, x);
      AcceptTargetsKeepInv(s, targets, n - 1, attempts);
      InvNames(AcceptTargets(s, targets, n - 1, attempts).value, targets[n - 1].id);
    }
  }

  lemma InvNames(s: Records, x: string)
    requires Inv(s)
    ensures x in s.targets ==> s.targets[x].id == x
  {
    assert TargetOk(s, x);
  }

  lemma AcceptTargetQueues(s: Records, expected: Target, attempts: seq<Attempt>)
    requires AcceptTarget(s, expected, attempts).Ok? && s.targets[expected.id].id == expected.id
    ensures Queued(s, AcceptTarget(s, expected, attempts).value, expected.id, AttemptFor(attempts, expected.id))
  {
  }

  lemma {:induction false} AcceptedAreQueued(s: Records, targets: seq<Target>, n: nat, attempts: seq<Attempt>, k: nat)
    requires Inv(s) && n <= |targets| && AcceptTargets(s, targets, n, attempts).Ok? && k < n
    ensures Queued(s, AcceptTargets(s, targets, n, attempts).value, targets[k].id, AttemptFor(attempts, targets[k].id))
  {
    hide AcceptTarget, Inv;
    var before := AcceptTargets(s, targets, n - 1, attempts).value;
    var after := AcceptTarget(before, targets[n - 1], attempts).value;
    AcceptTargetsKeepInv(s, targets, n - 1, attempts);
    AcceptingLeaves(s, targets, n - 1, attempts);
    AcceptTargetIsStored(before, targets[n - 1], attempts);
    InvNames(before, targets[n - 1].id);
    AcceptTargetQueues(before, targets[n - 1], attempts);
    AcceptTargetGrows(before, targets[n - 1], attempts);
    if k < n - 1 {
      AcceptedAreQueued(s, targets, n - 1, attempts, k);
      RaisedByItsAttempt(s, targets, n, attempts, targets[k].id);
    } else {
      RaisedByItsAttempt(s, targets, n - 1, attempts, targets[k].id);
    }
  }

  lemma AcceptTargetIsStored(s: Records, expected: Target, attempts: seq<Attempt>)
    requires AcceptTarget(s, expected, attempts).Ok?
    ensures expected.id in s.targets
  {
  }

  /** The target has its next generation, with the new attempt for it stored and queued. */
  ghost predicate Queued(s: Records, t: Records, x: string, a: Option<Attempt>) {
    && x in s.targets && x in t.targets && a.Some? && a.value.id !in s.attempts
    && a.value.id in t.attempts && t.attempts[a.value.id] == a.value && a.value.id in t.outbox
    && a.value.generation == s.targets[x].desired + 1 == t.targets[x].desired
  }

  /**
   An accepted publication gives each of its targets exactly the next generation,
   with its new attempt stored and queued; accepting it again changes nothing.
   */
  lemma AcceptanceQueuesEveryTarget(s: Records, input: Acceptance, k: nat)
    requires Inv(s) && AcceptIntent(s, input).Ok? && input.intent.id !in s.intents && k < |input.targets|
    ensures var t := AcceptIntent(s, input).value;
            Queued(s, t, input.targets[k].id, AttemptFor(input.attempts, input.targets[k].id)) && AcceptIntent(t, input) == Ok(t)
  {
    AcceptedAreQueued(s, input.targets, |input.targets|, input.attempts, k);
  }

  lemma QueuedInAStep(s: Records, e: Event, a: string)
    requires a in s.outbox && !(e.Acknowledging? && e.id == a) && !(e.Finishing? && e.attempt.id == a)
    ensures a in Step(s, e).outbox
  {
    hide AcceptIntent;
    if e.Accepting? && AcceptIntent(s, e.input).Ok? {
      AcceptanceLeaves(s, e.input);
    }
  }

  /** A queued attempt stays queued until it is acknowledged or finished. */
  lemma {:induction false} QueuedUntilHandled(s: Records, events: seq<Event>, a: string)
    requires a in s.outbox
    requires forall i :: 0 <= i < |events| ==> !(events[i].Acknowledging? && events[i].id == a) && !(events[i].Finishing? && events[i].attempt.id == a)
    ensures a in Run(s, events).outbox
    decreases |events|
  {
    hide Step;
    if events != [] {
      QueuedInAStep(s, events[0], a);
      QueuedUntilHandled(Step(s, events[0]), events[1..], a);
    }
  }
}
