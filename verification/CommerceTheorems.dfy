/** What holds of purchases, gifts and grants over whole runs of the service. */
module CommerceTheorems {
  import opened Common
  import opened Commerce
  import opened CommerceInvariant
  import opened CommerceSteps

  lemma Reached(events: seq<Event>)
    ensures Inv(Run(EMPTY, events))
  {
    hide Inv;
    EmptyIsGood();
    RunIsGood(EMPTY, events);
    GoodIsInv(EMPTY, Run(EMPTY, events));
  }

  lemma GoodIsInv(db: Db, t: Db)
    requires Good(db, t)
    ensures Inv(t) && Advances(db, t)
  {
  }

  lemma Later(events: seq<Event>, more: seq<Event>)
    ensures Inv(Run(EMPTY, events)) && Inv(Run(Run(EMPTY, events), more))
    ensures Advances(Run(EMPTY, events), Run(Run(EMPTY, events), more))
  {
    hide Inv, Advances;
    Reached(events);
    RunIsGood(Run(EMPTY, events), more);
    GoodIsInv(Run(EMPTY, events), Run(Run(EMPTY, events), more));
  }

  // --------------------------------------------------------------- what is final

  ghost predicate NoAccess(db: Db, p: PaymentKey) {
    (p in db.purchases ==> db.purchases[p].state == Revoked) && Quiet(db.grants, OfPurchase(p))
  }

  /**
   A refunded or reversed payment has no active purchase and no active grant,
   and stays so whatever happens next, even if the refund came first.
   */
  lemma RefundIsFinal(events: seq<Event>, more: seq<Event>, p: PaymentKey)
    requires p in Run(EMPTY, events).payments && Terminal(Run(EMPTY, events).payments[p].state)
    ensures var db, t := Run(EMPTY, events), Run(Run(EMPTY, events), more);
            && NoAccess(db, p) && NoAccess(t, p)
            && p in t.payments && Terminal(t.payments[p].state)
            && (db.payments[p].state == Reversed ==> t.payments[p].state == Reversed)
  {
    var db, t := Run(EMPTY, events), Run(Run(EMPTY, events), more);
    hide Run, Terminal, Quiet;
    Later(events, more);
    assert FinalOk(db, p) && PaymentMoves(db, t, p) && FinalOk(t, p);
  }

  /** A revoked gift has no active grant and is never revived. */
  lemma RevokedGiftIsFinal(events: seq<Event>, more: seq<Event>, g: GiftKey)
    requires g in Run(EMPTY, events).gifts && Run(EMPTY, events).gifts[g].state == Withdrawn
    ensures var db, t := Run(EMPTY, events), Run(Run(EMPTY, events), more);
            && g in t.gifts && t.gifts[g].state == Withdrawn
            && Quiet(db.grants, OfGift(g)) && Quiet(t.grants, OfGift(g))
  {
    var db, t := Run(EMPTY, events), Run(Run(EMPTY, events), more);
    hide Run, Quiet;
    Later(events, more);
    assert GiftOk(db, g) && GiftMoves(db, t, g) && GiftOk(t, g);
  }

  /** Once no grant of a purchase or claimed gift is active, none ever is again. */
  lemma LastRevocationIsFinal(events: seq<Event>, more: seq<Event>, origin: Origin)
    requires Settled(Run(EMPTY, events), origin) && Quiet(Run(EMPTY, events).grants, origin)
    ensures Quiet(Run(Run(EMPTY, events), more).grants, origin)
  {
    hide Run, Quiet, Settled;
    Later(events, more);
    assert StaysQuiet(Run(EMPTY, events), Run(Run(EMPTY, events), more), origin);
  }

  lemma HeldTogether(db: Db, id: GrantId, subject: string)
    requires Base(db) && id in db.grants && db.grants[id].customerId == Some(subject) && db.grants[id].origin != ByHand
    ensures Settled(db, db.grants[id].origin)
    ensures forall j :: j in db.grants && db.grants[j].origin == db.grants[id].origin ==> db.grants[j].customerId == Some(subject)
  {
    assert GrantOk(db, id);
    forall j | j in db.grants && db.grants[j].origin == db.grants[id].origin ensures db.grants[j].customerId == Some(subject) {
      assert GrantOk(db, j);
    }
  }

  /** Every grant an erased customer held stays revoked. */
  lemma ErasureIsFinal(events: seq<Event>, subject: string, more: seq<Event>, id: GrantId)
    requires EraseCustomer(Run(EMPTY, events), subject).Ok?
    requires id in Run(EMPTY, events).grants && Run(EMPTY, events).grants[id].customerId == Some(subject)
    ensures var t := Run(EraseCustomer(Run(EMPTY, events), subject).value, more);
            id in t.grants && t.grants[id].state == Revoked
  {
    var db := Run(EMPTY, events);
    var after := EraseCustomer(db, subject).value;
    var t := Run(after, more);
    hide Run;
    Reached(events);
    ErasingIsGood(db, subject);
    RunIsGood(after, more);
    assert GrantMoves(db, after, id) && GrantMoves(after, t, id);
    var origin := db.grants[id].origin;
    if origin != ByHand {
      HeldTogether(db, id, subject);
      assert Quiet(after.grants, origin);
      assert StaysQuiet(after, t, origin);
    }
  }

  // --------------------------------------------------------------- terms

  /**
   Grants are never lost and never change what, when or for whom they are; all
   grants of one purchase or gift share one start and end, with one per benefit.
   */
  lemma TermsAreFixed(events: seq<Event>, more: seq<Event>, id: GrantId, other: GrantId)
    requires id in Run(EMPTY, events).grants && other in Run(Run(EMPTY, events), more).grants
    ensures var db, t := Run(EMPTY, events), Run(Run(EMPTY, events), more);
            var g := db.grants[id];
            && id in t.grants && t.grants[id].origin == g.origin && t.grants[id].benefit == g.benefit
            && t.grants[id].startsAt == g.startsAt && t.grants[id].endsAt == g.endsAt
            && (g.customerId.Some? ==> t.grants[id].customerId == g.customerId)
            && (t.grants[other].origin == g.origin != ByHand ==>
                  && t.grants[other].startsAt == g.startsAt && t.grants[other].endsAt == g.endsAt
                  && t.grants[other].customerId == t.grants[id].customerId
                  && (t.grants[other].benefit == g.benefit ==> other == id))
  {
    var db, t := Run(EMPTY, events), Run(Run(EMPTY, events), more);
    hide Run;
    Later(events, more);
    assert GrantMoves(db, t, id);
    assert GrantOk(t, id) && GrantOk(t, other);
    if t.grants[other].origin == db.grants[id].origin != ByHand {
      assert SameTerms(t.grants[other], t.grants[id]);
    }
  }
}
