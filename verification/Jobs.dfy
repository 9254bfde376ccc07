/**
 The lease machine both durable job queues implement: one job, its attempts and
 the tokens it was ever leased under.
 */
module Jobs {
  datatype Phase = Queued | Leased(token: string) | Retrying | Completed | DeadLettered | Cancelled

  // recoveries and handed record the job's history: recoveries so far, and the tokens it was leased under.
  datatype Job = Job(phase: Phase, attempt: int, max: int, recoveries: nat, handed: set<string>)

  datatype Verdict = Done | Failed | TryAgain

  datatype Label =
    | Nothing
    | Hand(token: string)
    | Expire(dead: bool)
    | Settle(token: string, verdict: Verdict)
    | Stop
    | Revive

  predicate Waiting(p: Phase) {
    p == Queued || p == Retrying
  }

  function After(j: Job, verdict: Verdict): Phase {
    match verdict
    case Done => Completed
    case Failed => DeadLettered
    case TryAgain => if j.attempt >= j.max then DeadLettered else Retrying
  }

  /** What a job may do under each label. */
  predicate Next(a: Job, l: Label, b: Job) {
    match l
    case Nothing => b == a
    case Hand(token) =>
      && (Waiting(a.phase) || a.phase.Leased?) && token !in a.handed
      && b == a.(phase := Leased(token), attempt := a.attempt + 1, handed := a.handed + {token})
    case Expire(dead) => a.phase.Leased? && b == a.(phase := if dead then DeadLettered else Retrying)
    case Settle(token, verdict) => a.phase == Leased(token) && b == a.(phase := After(a, verdict))
    case Stop => b == a.(phase := Cancelled)
    case Revive => (a.phase == Retrying || a.phase == DeadLettered) && b == a.(phase := Queued, recoveries := a.recoveries + 1)
  }

  /** An expired lease counts against the budget: it is tried again only while attempts remain. */
  predicate InBudget(a: Job, l: Label) {
    && (l.Expire? && !l.dead ==> a.attempt < a.max)
    && (l.Hand? && a.phase.Leased? ==> a.attempt < a.max)
  }

  ghost predicate Chain(jobs: seq<Job>, labels: seq<Label>) {
    && |jobs| == |labels| + 1
    && forall i :: 0 <= i < |labels| ==> Next(jobs[i], labels[i], jobs[i + 1])
  }

  // --------------------------------------------------------------- the retry budget

  ghost predicate WithinBudget(j: Job) {
    && j.attempt <= j.max + j.recoveries
    && (Waiting(j.phase) ==> j.attempt < j.max + j.recoveries)
  }

  lemma BudgetStep(a: Job, l: Label, b: Job)
    requires WithinBudget(a) && Next(a, l, b) && InBudget(a, l)
    ensures WithinBudget(b) && b.max == a.max
  {
  }

  /** Attempts never exceed the maximum and the recoveries, whatever crashes, retries and cancels happen. */
  lemma {:induction false} AttemptsAreBounded(jobs: seq<Job>, labels: seq<Label>, i: nat)
    requires Chain(jobs, labels) && i < |jobs| && WithinBudget(jobs[0])
    requires forall k :: 0 <= k < |labels| ==> InBudget(jobs[k], labels[k])
    ensures WithinBudget(jobs[i]) && jobs[i].max == jobs[0].max
  {
    if i > 0 {
      AttemptsAreBounded(jobs, labels, i - 1);
      BudgetStep(jobs[i - 1], labels[i - 1], jobs[i]);
    }
  }

  // --------------------------------------------------------------- tokens

  /** The token was handed out and is no longer the lease. */
  predicate Displaced(j: Job, token: string) {
    token in j.handed && j.phase != Leased(token)
  }

  lemma DisplacedStep(a: Job, l: Label, b: Job, token: string)
    requires Displaced(a, token) && Next(a, l, b)
    ensures Displaced(b, token) && !(l.Settle? && l.token == token)
  {
  }

  /** A worker that lost its lease never settles the job again, and never gets that lease back. */
  lemma {:induction false} DisplacedNeverSettles(jobs: seq<Job>, labels: seq<Label>, i: nat, k: nat, token: string)
    requires Chain(jobs, labels) && i <= k < |labels| && Displaced(jobs[i], token)
    ensures Displaced(jobs[k], token) && !(labels[k].Settle? && labels[k].token == token)
  {
    if k > i {
      DisplacedNeverSettles(jobs, labels, i, k - 1, token);
      DisplacedStep(jobs[k - 1], labels[k - 1], jobs[k], token);
    }
    DisplacedStep(jobs[k], labels[k], jobs[k + 1], token);
  }

  ghost predicate Leaseholder(j: Job) {
    j.phase.Leased? ==> j.phase.token in j.handed
  }

  /** Each token settles the job at most once. */
  lemma TokensSettleOnce(jobs: seq<Job>, labels: seq<Label>, i: nat, k: nat, token: string)
    requires Chain(jobs, labels) && i < k < |labels| && Leaseholder(jobs[i])
    requires labels[i].Settle? && labels[i].token == token
    ensures !(labels[k].Settle? && labels[k].token == token)
  {
    assert Next(jobs[i], labels[i], jobs[i + 1]);
    DisplacedNeverSettles(jobs, labels, i + 1, k, token);
  }

  predicate Over(p: Phase) {
    p == Completed || p == Cancelled
  }

  lemma OverStep(a: Job, l: Label, b: Job)
    requires Over(a.phase) && Next(a, l, b)
    ensures Over(b.phase) && b.attempt == a.attempt
  {
  }

  /** A completed or cancelled job is never leased, retried or recovered again, so it is completed at most once. */
  lemma {:induction false} OverIsForGood(jobs: seq<Job>, labels: seq<Label>, i: nat, k: nat)
    requires Chain(jobs, labels) && i <= k < |jobs| && Over(jobs[i].phase)
    ensures Over(jobs[k].phase) && jobs[k].attempt == jobs[i].attempt
  {
    if k > i {
      OverIsForGood(jobs, labels, i, k - 1);
      OverStep(jobs[k - 1], labels[k - 1], jobs[k]);
    }
  }
}
