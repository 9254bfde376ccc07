/** The store itself: rows updated in place inside atomic blocks, each method proved to compute its function. */
module HostingStoreClass {
  import opened Common
  import opened Hosting

  class SqliteWebsiteStore {
    var targets: map<string, Target>
    var attempts: map<string, Attempt>
    var intents: map<string, Intent>
    var outbox: set<string>
    var roots: map<Root, Owner>
    var plans: map<string, Plan>
    var bindings: map<string, Binding>
    var connections: map<string, Connection>

    function Contents(): Records
      reads this
    {
      Records(targets, attempts, intents, outbox, roots, plans, bindings, connections)
    }

    constructor ()
      ensures Contents() == EMPTY
    {
      targets, attempts, intents, outbox := map[], map[], map[], {};
      roots, plans, bindings, connections := map[], map[], map[], map[];
    }

    method Rollback(s: Records)
      modifies this
      ensures Contents() == s
    {
      targets, attempts, intents, outbox := s.targets, s.attempts, s.intents, s.outbox;
      roots, plans, bindings, connections := s.roots, s.plans, s.bindings, s.connections;
    }

    // INSERT OR IGNORE at revision 1, UPDATE at the expected revision otherwise.
    method SaveAttempt(a: Attempt, expected: int) returns (ok: bool)
      modifies this`attempts
      ensures ok <==> Hosting.SaveAttempt(old(attempts), a, expected).Some?
      ensures attempts == if ok then Hosting.SaveAttempt(old(attempts), a, expected).value else old(attempts)
    {
      if !RevisionFits(a.id, a.revision, expected) {
        return false;
      }
      if expected == 0 {
        ok := a.id !in attempts;
      } else {
        ok := a.id in attempts && attempts[a.id].revision == expected;
      }
      if ok {
        attempts := attempts[a.id := a];
      }
    }

    method SaveTarget(t: Target, expected: int) returns (r: Result<bool, Error>)
      modifies this
      ensures Contents() == Committed(old(Contents()), Hosting.SaveTarget(old(Contents()), t, expected))
      ensures r.Ok? <==> Hosting.SaveTarget(old(Contents()), t, expected).Ok?
    {
      var root := RootOf(t);
      if root in roots && roots[root] != Mine(t.id) {
        return Err(RootInUse);
      }
      if t.id in targets && !SameIdentity(targets[t.id], t) {
        return Err(IdentityChanged);
      }
      var value := if t.id in targets then Configured(targets[t.id], t) else t;
      var fits := if expected == 0 then t.id !in targets else t.id in targets && targets[t.id].revision == expected;
      if !RevisionFits(t.id, t.revision, expected) || !fits {
        return Err(RevisionConflict);
      }
      roots := roots[root := Mine(t.id)];
      targets := targets[t.id := value];
      r := Ok(true);
    }

    method SetServingState(id: string, serving: Serving, operatorRequired: bool) returns (r: Result<bool, Error>)
      modifies this`targets
      ensures Contents() == Committed(old(Contents()), Hosting.SetServingState(old(Contents()), id, serving, operatorRequired))
      ensures r.Ok? <==> id in old(targets)
    {
      if id !in targets {
        return Err(TargetNotFound);
      }
      targets := targets[id := targets[id].(serving := serving, removalRequired := operatorRequired)];
      r := Ok(true);
    }

    /** One target of a publication; the caller rolls back when it is refused. */
    method AcceptTarget(expected: Target, offered: seq<Attempt>) returns (r: Result<bool, Error>)
      modifies this`targets, this`attempts, this`outbox
      ensures r.Ok? <==> Hosting.AcceptTarget(old(Contents()), expected, offered).Ok?
      ensures r.Ok? ==> Contents() == Hosting.AcceptTarget(old(Contents()), expected, offered).value
      ensures r.Err? ==> r.error == Hosting.AcceptTarget(old(Contents()), expected, offered).error
    {
      hide Connected;
      if expected.id !in targets {
        return Err(RevisionConflict);
      }
      var target := targets[expected.id];
      if target.revision != expected.revision || target.desired != expected.desired {
        return Err(RevisionConflict);
      }
      var attempt := AttemptFor(offered, target.id);
      if attempt.None? || attempt.value.generation != target.desired + 1 {
        return Err(GenerationConflict);
      }
      if !Connected(Contents(), target, attempt.value) {
        return Err(ReconnectRequired);
      }
      targets := targets[expected.id := target.(desired := attempt.value.generation)];
      var saved := SaveAttempt(attempt.value, 0);
      if !saved || attempt.value.id in outbox {
        return Err(RevisionConflict);
      }
      outbox := outbox + {attempt.value.id};
      r := Ok(true);
    }

    /** All targets, or none: the first refusal rolls everything back. */
    method AcceptIntent(input: Acceptance) returns (r: Result<Intent, Error>)
      modifies this
      ensures Contents() == Committed(old(Contents()), Hosting.AcceptIntent(old(Contents()), input))
      ensures r.Ok? <==> Hosting.AcceptIntent(old(Contents()), input).Ok?
      ensures r.Ok? ==> r.value.fingerprint == input.intent.fingerprint && r.value.attemptIds == input.intent.attemptIds
      ensures r.Err? ==> r.error == Hosting.AcceptIntent(old(Contents()), input).error
    {
      hide Hosting.AcceptTarget, Refusal;
      var before, intent := Contents(), input.intent;
      if intent.id in intents {
        if intents[intent.id].fingerprint != intent.fingerprint || intents[intent.id].attemptIds != intent.attemptIds {
          return Err(IdempotencyConflict);
        }
        return Ok(intents[intent.id]);
      }
      var refusal := Refusal(before, input);
      if refusal.Some? {
        return Err(refusal.value);
      }
      for n := 0 to |input.targets|
        invariant AcceptTargets(before, input.targets, n, input.attempts) == Ok(Contents())
      {
        var accepted := AcceptTarget(input.targets[n], input.attempts);
        if accepted.Err? {
          RefusalStands(before, input.targets, n + 1, |input.targets|, input.attempts);
          Rollback(before);
          return Err(accepted.error);
        }
      }
      if intent.id == "" {
        Rollback(before);
        return Err(RevisionConflict);
      }
      AcceptingKeepsIntents(before, input.targets, |input.targets|, input.attempts);
      intents := intents[intent.id := intent];
      r := Ok(intent);
    }

    method Claim(targetId: string, attemptId: string, executionId: string) returns (claimed: bool)
      modifies this`targets, this`attempts
      ensures (Contents(), claimed) == Hosting.Claim(old(Contents()), targetId, attemptId, executionId)
    {
      if targetId !in targets || attemptId !in attempts || attempts[attemptId].targetId != targetId {
        return false;
      }
      var t, a := targets[targetId], attempts[attemptId];
      if t.lock.Some? && t.lock.value.attemptId != attemptId {
        return false;
      }
      if t.lock.Some? && a.activationStarted {
        return false;
      }
      targets := targets[targetId := t.(lock := Some(Lock(attemptId, executionId)))];
      attempts := attempts[attemptId := a.(executionId := Some(executionId), revision := a.revision + 1)];
      claimed := true;
    }

    method UpdateAttempt(a: Attempt, expected: int, executionId: string) returns (r: Result<bool, Error>)
      modifies this`attempts
      ensures Contents() == Committed(old(Contents()), Hosting.UpdateAttempt(old(Contents()), a, expected, executionId))
      ensures r.Ok? <==> Hosting.UpdateAttempt(old(Contents()), a, expected, executionId).Ok?
    {
      if !Owns(Contents(), a.targetId, a.id, executionId) {
        return Err(WriterFenced);
      }
      var saved := SaveAttempt(a, expected);
      r := if saved then Ok(true) else Err(RevisionConflict);
    }

    method Finish(a: Attempt, expected: int, executionId: string, outcome: Option<Outcome>) returns (r: Result<bool, Error>)
      modifies this`attempts, this`targets, this`outbox
      ensures Contents() == Committed(old(Contents()), Hosting.Finish(old(Contents()), a, expected, executionId, outcome))
      ensures r.Ok? <==> Hosting.Finish(old(Contents()), a, expected, executionId, outcome).Ok?
    {
      hide Finished;
      if !Owns(Contents(), a.targetId, a.id, executionId) {
        return Err(WriterFenced);
      }
      var saved := SaveAttempt(a, expected);
      if !saved {
        return Err(RevisionConflict);
      }
      targets := targets[a.targetId := Finished(targets[a.targetId], a, outcome)];
      outbox := outbox - {a.id};
      r := Ok(true);
    }
  }

  lemma {:induction false} RefusalStands(s: Records, targets: seq<Target>, k: nat, n: nat, attempts: seq<Attempt>)
    requires k <= n <= |targets| && AcceptTargets(s, targets, k, attempts).Err?
    ensures AcceptTargets(s, targets, n, attempts) == AcceptTargets(s, targets, k, attempts)
  {
    hide AcceptTarget;
    if k < n {
      RefusalStands(s, targets, k, n - 1, attempts);
    }
  }

  lemma {:induction false} AcceptingKeepsIntents(s: Records, targets: seq<Target>, n: nat, attempts: seq<Attempt>)
    requires n <= |targets| && AcceptTargets(s, targets, n, attempts).Ok?
    ensures AcceptTargets(s, targets, n, attempts).value.intents == s.intents
  {
    if n > 0 {
      AcceptingKeepsIntents(s, targets, n - 1, attempts);
    }
  }
}
