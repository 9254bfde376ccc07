/**
 What each hosting call does, on the records themselves: when it goes through, and
 what a target then serves.
 */
module HostingEffects {
  import opened Common
  import opened Hosting

  // --------------------------------------------------------------- targets

  /**
   A target is saved exactly at its next revision, on a remote root nobody else
   has, and with its website, adapter, connection, account and root unchanged.
   What is deployed there stays as it was, whatever the caller says.
   */
  lemma TargetsAreSavedExactly(s: Records, t: Target, expected: int)
    ensures var r, root := SaveTarget(s, t, expected), Root(t.family, t.accountId, t.remoteId);
            && (r.Ok? <==>
                  && t.id != "" && 0 <= expected <= 9007199254740991 && t.revision == expected + 1
                  && (if expected == 0 then t.id !in s.targets else t.id in s.targets && s.targets[t.id].revision == expected)
                  && (root in s.roots ==> s.roots[root] == Mine(t.id))
                  && (t.id in s.targets ==>
                        var was := s.targets[t.id];
                        && was.websiteId == t.websiteId && was.adapterId == t.adapterId && was.connectionId == t.connectionId
                        && was.accountId == t.accountId && was.remoteId == t.remoteId))
            && (r.Ok? ==>
                  && r.value.roots == s.roots[root := Mine(t.id)] && r.value.attempts == s.attempts && r.value.outbox == s.outbox
                  && t.id in r.value.targets
                  && var v := r.value.targets[t.id];
                     && r.value.targets == s.targets[t.id := v]
                     && (t.id !in s.targets ==> v == t)
                     && (t.id in s.targets ==>
                           var was := s.targets[t.id];
                           && v == t.(desired := v.desired, active := v.active, activeAttemptId := v.activeAttemptId,
                                      activeReleaseId := v.activeReleaseId, activeDigest := v.activeDigest,
                                      removalRequired := v.removalRequired, serving := v.serving, lock := v.lock)
                           && v.desired == was.desired && v.active == was.active && v.activeAttemptId == was.activeAttemptId
                           && v.activeReleaseId == was.activeReleaseId && v.activeDigest == was.activeDigest
                           && v.removalRequired == was.removalRequired && v.serving == was.serving && v.lock == was.lock))
  {
  }

  // --------------------------------------------------------------- acceptance

  /** The first attempt offered for the target. */
  ghost predicate IsOfferedFor(attempts: seq<Attempt>, target: string, a: Option<Attempt>) {
    match a
    case None => forall i :: 0 <= i < |attempts| ==> attempts[i].targetId != target
    case Some(x) => exists i :: 0 <= i < |attempts| && attempts[i] == x && x.targetId == target
                                && forall j :: 0 <= j < i ==> attempts[j].targetId != target
  }

  lemma {:induction false} OfferedFor(attempts: seq<Attempt>, target: string)
    ensures IsOfferedFor(attempts, target, AttemptFor(attempts, target))
  {
    if attempts != [] && attempts[0].targetId != target {
      OfferedFor(attempts[1..], target);
      var a := AttemptFor(attempts[1..], target);
      if a.Some? {
        var i :| 0 <= i < |attempts[1..]| && attempts[1..][i] == a.value && forall j :: 0 <= j < i ==> attempts[1..][j].targetId != target;
        forall j | 0 <= j < i + 1 ensures attempts[j].targetId != target {
          assert j > 0 ==> attempts[j] == attempts[1..][j - 1];
        }
        assert attempts[i + 1] == a.value;
      } else {
        forall j | 0 <= j < |attempts| ensures attempts[j].targetId != target {
          assert j > 0 ==> attempts[j] == attempts[1..][j - 1];
        }
      }
    } else if attempts != [] {
      assert attempts[0].targetId == target;
    }
  }

  /**
   A target may be published to: it is as the caller saw it, the attempt offered
   takes its next generation under an id not used, and its connection, if it needs
   one, is up and is the one the attempt was made for.
   */
  ghost predicate MayPublish(s: Records, seen: Target, offered: Option<Attempt>) {
    && seen.id in s.targets && s.targets[seen.id].revision == seen.revision && s.targets[seen.id].desired == seen.desired
    && offered.Some?
    && var a := offered.value;
       && a.generation == seen.desired + 1
       && a.id != "" && a.revision == 1 && a.id !in s.attempts && a.id !in s.outbox
       && var connection := s.targets[seen.id].connectionId;
          connection.Some? && connection.value != "" ==>
            && connection.value in s.connections
            && s.connections[connection.value].connected && s.connections[connection.value].accountId == a.accountId
            && a.connectionRevision == Some(s.connections[connection.value].revision)
  }

  lemma TargetAcceptedExactly(s: Records, seen: Target, attempts: seq<Attempt>)
    requires forall x :: x in s.targets ==> s.targets[x].id == x
    ensures var r, offered := AcceptTarget(s, seen, attempts), AttemptFor(attempts, seen.id);
            && (r.Ok? <==> MayPublish(s, seen, offered))
            && (r.Ok? ==>
                  && r.value.targets == s.targets[seen.id := s.targets[seen.id].(desired := seen.desired + 1)]
                  && r.value.attempts == s.attempts[offered.value.id := offered.value]
                  && r.value.outbox == s.outbox + {offered.value.id} && r.value.connections == s.connections)
  {
  }

  /** Every target may be published to, no target twice, and no attempt id twice. */
  ghost predicate AllMayPublish(s: Records, targets: seq<Target>, n: nat, attempts: seq<Attempt>)
    requires n <= |targets|
  {
    && (forall k :: 0 <= k < n ==> MayPublish(s, targets[k], AttemptFor(attempts, targets[k].id)))
    && (forall j, k :: 0 <= j < k < n ==>
          && targets[j].id != targets[k].id
          && AttemptFor(attempts, targets[j].id).value.id != AttemptFor(attempts, targets[k].id).value.id)
  }

  ghost predicate IsTarget(targets: seq<Target>, n: nat, x: string)
    requires n <= |targets|
  {
    exists k :: 0 <= k < n && targets[k].id == x
  }

  ghost predicate IsAttempt(targets: seq<Target>, n: nat, attempts: seq<Attempt>, a: string)
    requires n <= |targets|
  {
    exists k :: 0 <= k < n && AttemptFor(attempts, targets[k].id).Some? && AttemptFor(attempts, targets[k].id).value.id == a
  }

  /** The records after the first n targets: each a generation on, with its attempt stored and queued, and nothing else. */
  ghost predicate AcceptedSoFar(s: Records, u: Records, targets: seq<Target>, n: nat, attempts: seq<Attempt>)
    requires n <= |targets|
  {
    && u.targets.Keys == s.targets.Keys && u.connections == s.connections
    && (forall x :: x in s.targets ==>
          u.targets[x] == if IsTarget(targets, n, x) then s.targets[x].(desired := s.targets[x].desired + 1) else s.targets[x])
    && (forall a :: a in u.attempts <==> a in s.attempts || IsAttempt(targets, n, attempts, a))
    && (forall a :: a in u.outbox <==> a in s.outbox || IsAttempt(targets, n, attempts, a))
  }

  lemma {:induction false} AllAcceptedExactly(s: Records, targets: seq<Target>, n: nat, attempts: seq<Attempt>)
    requires n <= |targets| && forall x :: x in s.targets ==> s.targets[x].id == x
    ensures var r := AcceptTargets(s, targets, n, attempts);
            && (r.Ok? <==> AllMayPublish(s, targets, n, attempts))
            && (r.Ok? ==> AcceptedSoFar(s, r.value, targets, n, attempts))
  {
    hide AcceptedSoFar, AcceptTarget, AllMayPublish;
    if n == 0 {
      NoneYet(s, targets, attempts);
    } else {
      FewerMayPublish(s, targets, n, attempts);
      AllAcceptedExactly(s, targets, n - 1, attempts);
      var before := AcceptTargets(s, targets, n - 1, attempts);
      if before.Ok? {
        NextAcceptedExactly(s, before.value, targets, n - 1, attempts);
      }
    }
  }

  lemma FewerMayPublish(s: Records, targets: seq<Target>, n: nat, attempts: seq<Attempt>)
    requires 0 < n <= |targets|
    ensures AllMayPublish(s, targets, n, attempts) ==> AllMayPublish(s, targets, n - 1, attempts)
  {
    hide MayPublish, AttemptFor;
  }

  lemma NoneYet(s: Records, targets: seq<Target>, attempts: seq<Attempt>)
    ensures AcceptedSoFar(s, s, targets, 0, attempts) && AllMayPublish(s, targets, 0, attempts)
  {
  }

  // One more target, after the first n were accepted.
  lemma NextAcceptedExactly(s: Records, u: Records, targets: seq<Target>, n: nat, attempts: seq<Attempt>)
    requires n < |targets| && (forall x :: x in s.targets ==> s.targets[x].id == x)
    requires AllMayPublish(s, targets, n, attempts) && AcceptedSoFar(s, u, targets, n, attempts)
    ensures var r := AcceptTarget(u, targets[n], attempts);
            && (r.Ok? <==> AllMayPublish(s, targets, n + 1, attempts))
            && (r.Ok? ==> AcceptedSoFar(s, r.value, targets, n + 1, attempts))
  {
    NamesStay(s, u, targets, n, attempts);
    TargetAcceptedExactly(u, targets[n], attempts);
    hide AcceptTarget, AttemptFor, MayPublish, AllMayPublish, AcceptedSoFar;
    if MayPublish(u, targets[n], AttemptFor(attempts, targets[n].id)) {
      SeenOnce(s, u, targets, n, attempts);
      OneMoreAccepted(s, u, AcceptTarget(u, targets[n], attempts).value, targets, n, attempts);
    }
    if AllMayPublish(s, targets, n + 1, attempts) {
      StillPublishable(s, u, targets, n, attempts);
    }
  }

  lemma NamesStay(s: Records, u: Records, targets: seq<Target>, n: nat, attempts: seq<Attempt>)
    requires n <= |targets| && (forall x :: x in s.targets ==> s.targets[x].id == x) && AcceptedSoFar(s, u, targets, n, attempts)
    ensures forall x :: x in u.targets ==> u.targets[x].id == x
  {
    hide AttemptFor;
  }

  lemma OneMoreTarget(targets: seq<Target>, n: nat, attempts: seq<Attempt>, x: string)
    requires n < |targets|
    ensures IsTarget(targets, n + 1, x) <==> IsTarget(targets, n, x) || x == targets[n].id
    ensures IsAttempt(targets, n + 1, attempts, x) <==>
              IsAttempt(targets, n, attempts, x)
              || (AttemptFor(attempts, targets[n].id).Some? && AttemptFor(attempts, targets[n].id).value.id == x)
  {
    hide AttemptFor;
    if x == targets[n].id {
      assert IsTarget(targets, n + 1, x);
    }
    if AttemptFor(attempts, targets[n].id).Some? && AttemptFor(attempts, targets[n].id).value.id == x {
      assert IsAttempt(targets, n + 1, attempts, x);
    }
  }

  lemma OneMoreAccepted(s: Records, u: Records, v: Records, targets: seq<Target>, n: nat, attempts: seq<Attempt>)
    requires n < |targets| && AcceptedSoFar(s, u, targets, n, attempts) && AllMayPublish(s, targets, n + 1, attempts)
    requires var seen, offered := targets[n], AttemptFor(attempts, targets[n].id);
             && seen.id in u.targets && offered.Some?
             && v.targets == u.targets[seen.id := u.targets[seen.id].(desired := seen.desired + 1)]
             && v.attempts == u.attempts[offered.value.id := offered.value]
             && v.outbox == u.outbox + {offered.value.id} && v.connections == u.connections
    ensures AcceptedSoFar(s, v, targets, n + 1, attempts)
  {
    hide AttemptFor, IsTarget, IsAttempt;
    assert MayPublish(s, targets[n], AttemptFor(attempts, targets[n].id));
    FirstTime(s, targets, n, attempts);
    forall x ensures IsTarget(targets, n + 1, x) <==> IsTarget(targets, n, x) || x == targets[n].id
             ensures IsAttempt(targets, n + 1, attempts, x) <==>
                       IsAttempt(targets, n, attempts, x)
                       || (AttemptFor(attempts, targets[n].id).Some? && AttemptFor(attempts, targets[n].id).value.id == x)
    {
      OneMoreTarget(targets, n, attempts, x);
    }
  }

  lemma FirstTime(s: Records, targets: seq<Target>, n: nat, attempts: seq<Attempt>)
    requires n < |targets| && AllMayPublish(s, targets, n + 1, attempts)
    ensures AttemptFor(attempts, targets[n].id).Some?
    ensures !IsTarget(targets, n, targets[n].id) && !IsAttempt(targets, n, attempts, AttemptFor(attempts, targets[n].id).value.id)
  {
    hide AttemptFor;
    assert MayPublish(s, targets[n], AttemptFor(attempts, targets[n].id));
  }

  lemma ListedNames(targets: seq<Target>, n: nat, attempts: seq<Attempt>, j: nat)
    requires j < n <= |targets|
    ensures IsTarget(targets, n, targets[j].id)
    ensures AttemptFor(attempts, targets[j].id).Some? ==> IsAttempt(targets, n, attempts, AttemptFor(attempts, targets[j].id).value.id)
  {
    hide AttemptFor;
  }

  // A target or an attempt already taken could not be taken again.
  lemma SeenOnce(s: Records, u: Records, targets: seq<Target>, n: nat, attempts: seq<Attempt>)
    requires n < |targets| && AllMayPublish(s, targets, n, attempts) && AcceptedSoFar(s, u, targets, n, attempts)
    requires MayPublish(u, targets[n], AttemptFor(attempts, targets[n].id))
    ensures AllMayPublish(s, targets, n + 1, attempts)
  {
    hide AttemptFor, IsTarget, IsAttempt;
    var seen, offered := targets[n], AttemptFor(attempts, targets[n].id).value;
    forall j | 0 <= j < n
      ensures targets[j].id != seen.id && AttemptFor(attempts, targets[j].id).value.id != offered.id
    {
      assert MayPublish(s, targets[j], AttemptFor(attempts, targets[j].id));
      ListedNames(targets, n, attempts, j);
    }
    assert MayPublish(s, seen, AttemptFor(attempts, seen.id)) by {
      if IsTarget(targets, n, seen.id) {
        NotAgain(targets, n, seen.id);
      }
    }
  }

  lemma NotAgain(targets: seq<Target>, n: nat, x: string)
    requires n <= |targets| && IsTarget(targets, n, x)
    ensures exists j :: 0 <= j < n && targets[j].id == x
  {
  }

  lemma StillPublishable(s: Records, u: Records, targets: seq<Target>, n: nat, attempts: seq<Attempt>)
    requires n < |targets| && AllMayPublish(s, targets, n + 1, attempts) && AcceptedSoFar(s, u, targets, n, attempts)
    ensures MayPublish(u, targets[n], AttemptFor(attempts, targets[n].id))
  {
    hide AttemptFor, IsTarget, IsAttempt;
    assert MayPublish(s, targets[n], AttemptFor(attempts, targets[n].id));
    FirstTime(s, targets, n, attempts);
  }

  /** What was approved: the saved plan, for the actor, in time, and its binding enabled and unchanged. */
  ghost predicate IsApproved(s: Records, input: Acceptance) {
    input.plan.Some? ==>
      && input.plan.value.id in s.plans
      && var saved := s.plans[input.plan.value.id];
         && saved.fingerprint == input.intent.fingerprint && saved.actorId == input.intent.actorId
         && input.intent.createdAt < saved.expiresAt
         && (input.plan.value.binding.Some? ==>
               var binding := input.plan.value.binding.value;
               binding.id in s.bindings && s.bindings[binding.id].enabled && s.bindings[binding.id].revision == binding.revision)
  }

  /**
   A new publication is accepted exactly if it is as approved and every target may
   be published to; a known one exactly if it is the same approval and attempts.
   */
  lemma PublicationsAreAcceptedExactly(s: Records, input: Acceptance)
    requires forall x :: x in s.targets ==> s.targets[x].id == x
    ensures var id := input.intent.id;
            && (id !in s.intents ==>
                  (AcceptIntent(s, input).Ok? <==>
                     id != "" && IsApproved(s, input) && AllMayPublish(s, input.targets, |input.targets|, input.attempts)))
            && (id in s.intents ==>
                  (AcceptIntent(s, input).Ok? <==>
                     s.intents[id].fingerprint == input.intent.fingerprint && s.intents[id].attemptIds == input.intent.attemptIds))
            && (id in s.intents && AcceptIntent(s, input).Ok? ==> AcceptIntent(s, input).value == s)
  {
    hide AllMayPublish;
    AllAcceptedExactly(s, input.targets, |input.targets|, input.attempts);
  }

  // --------------------------------------------------------------- claims

  /**
   An attempt is claimed exactly if it is the target's, and no other holds the
   lock, nor its own earlier execution once it may have begun to serve.  Then the
   claiming execution is in the lock and on the attempt.
   */
  lemma ClaimsSucceedExactly(s: Records, x: string, a: string, execution: string)
    ensures var t, claimed := Claim(s, x, a, execution).0, Claim(s, x, a, execution).1;
            && (claimed <==>
                  && x in s.targets && a in s.attempts && s.attempts[a].targetId == x
                  && (s.targets[x].lock.Some? ==> s.targets[x].lock.value.attemptId == a && !s.attempts[a].activationStarted))
            && (!claimed ==> t == s)
            && (claimed ==>
                  && t.targets == s.targets[x := s.targets[x].(lock := Some(Lock(a, execution)))]
                  && t.attempts == s.attempts[a := s.attempts[a].(executionId := Some(execution), revision := s.attempts[a].revision + 1)]
                  && t.outbox == s.outbox && t.intents == s.intents)
  {
  }

  // --------------------------------------------------------------- updates and finishes

  ghost predicate HoldsLock(s: Records, a: Attempt, execution: string) {
    a.targetId in s.targets && s.targets[a.targetId].lock == Some(Lock(a.id, execution))
  }

  ghost predicate WritesNext(s: Records, a: Attempt, expected: int) {
    && a.id != "" && 0 <= expected <= 9007199254740991 && a.revision == expected + 1
    && (if expected == 0 then a.id !in s.attempts else a.id in s.attempts && s.attempts[a.id].revision == expected)
  }

  /** An attempt is written exactly by the execution that holds the lock for it, at its next revision. */
  lemma UpdatesGoThroughExactly(s: Records, a: Attempt, expected: int, execution: string)
    ensures var r := UpdateAttempt(s, a, expected, execution);
            && (r.Ok? <==> HoldsLock(s, a, execution) && WritesNext(s, a, expected))
            && (r.Ok? ==> r.value == s.(attempts := s.attempts[a.id := a]))
  {
  }

  /**
   A finish goes through on the same terms.  It takes the attempt off the outbox
   and gives up the lock unless the outcome is unknown.  A release of at least the
   active generation is then what the target serves: disabled, it is unpublished
   and nothing is left to remove; otherwise it is live, or suspended if it was.
   Any other finish leaves what is served alone.
   */
  lemma FinishesDecideExactly(s: Records, a: Attempt, expected: int, execution: string, outcome: Option<Outcome>)
    ensures var r := Finish(s, a, expected, execution, outcome);
            && (r.Ok? <==> HoldsLock(s, a, execution) && WritesNext(s, a, expected))
            && (r.Ok? ==>
                  && r.value.attempts == s.attempts[a.id := a] && r.value.outbox == s.outbox - {a.id}
                  && r.value.targets.Keys == s.targets.Keys
                  && (forall x :: x in s.targets && x != a.targetId ==> r.value.targets[x] == s.targets[x])
                  && var before, after := s.targets[a.targetId], r.value.targets[a.targetId];
                     && after.desired == before.desired && after.revision == before.revision
                     && (a.state == Unknown ==> after.lock == before.lock) && (a.state != Unknown ==> after.lock.None?)
                     && (outcome.Some? && before.active <= a.generation ==>
                           && after.active == a.generation && after.activeAttemptId == Some(a.id)
                           && after.activeReleaseId == Some(outcome.value.releaseId) && after.activeDigest == a.digest
                           && (outcome.value.disabled ==> after.serving == Unpublished && !after.removalRequired)
                           && (!outcome.value.disabled ==>
                                 && after.serving == (if before.serving == Suspended then Suspended else Live)
                                 && after.removalRequired == before.removalRequired))
                     && (outcome.None? || a.generation < before.active ==> after == before.(lock := after.lock)))
  {
  }

  /** The serving state is the caller's to set, for a target there is. */
  lemma ServingIsSetExactly(s: Records, x: string, serving: Serving, operatorRequired: bool)
    ensures var r := SetServingState(s, x, serving, operatorRequired);
            && (r.Ok? <==> x in s.targets)
            && (r.Ok? ==> r.value == s.(targets := s.targets[x := s.targets[x].(serving := serving, removalRequired := operatorRequired)]))
  {
  }
}
