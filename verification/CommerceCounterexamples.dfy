/** A run of the service in which a grant revoked by hand is active again. */
module CommerceCounterexamples {
  import opened Common
  import opened Commerce
  import opened CommerceInvariant
  import opened CommerceSteps
  import opened CommerceRevisions
  import CommerceTheorems

  const SHOP := Scope("maker", Live)
  const GIFT := GiftKey(SHOP, "request1")
  const FIRST := Gallery("first")
  const SECOND := Gallery("second")

  // Three editions of one collection: both galleries, the second only, both again.
  function Edition(id: string, version: int, benefits: seq<Benefit>): Offer {
    Offer(id, SHOP, "collection", version, None, true, "c", "m", "EUR", 100, benefits, [], None, None)
  }

  const WHOLE := Edition("v1", 1, [FIRST, SECOND])
  const PART := Edition("v2", 2, [SECOND])
  const AGAIN := Edition("v3", 3, [FIRST, SECOND])

  function GrantOf(benefit: Benefit): GrantId {
    GrantId(OfGift(GIFT), benefit, 0)
  }

  const GIVEN := [
    Elsewhere([WHOLE], [], map[], map["ann" := Customer({"ann@example.org"}, false)], map[]),
    GiftOffered(GIFT, "v1", "ann@example.org", None),
    LibraryOpened("ann", [GIFT], 0)]

  const REVOKED := GrantRevoked(GrantOf(FIRST))
  const DROPPED := Revised(PART, [], [GIFT], 1)
  const RESTORED := Revised(AGAIN, [], [GIFT], 2)

  // --------------------------------------------------------------- the gift is claimed

  lemma WholeAccess(contents: Offer)
    requires contents.hasRoots && contents.files == []
    ensures contents.benefits == [FIRST, SECOND] ==> AccessBenefits(WHOLE, contents) == [FIRST, SECOND]
    ensures contents.benefits == [SECOND] ==> AccessBenefits(WHOLE, contents) == [SECOND]
  {
    assert [FIRST, SECOND][1..] == [SECOND] && [SECOND][1..] == [];
    assert Kept([SECOND]) == [];
    assert Kept(WHOLE.benefits) == [];
    if contents.benefits == [FIRST, SECOND] {
      assert contents.benefits[1..] == [SECOND] && Galleries([SECOND]) == [SECOND];
    } else if contents.benefits == [SECOND] {
      assert Galleries([SECOND]) == [SECOND];
    }
  }

  lemma WholeIsCurrent()
    ensures CurrentContents([WHOLE], WHOLE) == WHOLE
  {
    assert [WHOLE][..0] == [];
  }

  ghost predicate Holding(db: Db, now: int) {
    && Inv(db) && FindOffer(db.offers, "v1") == Some(WHOLE)
    && db.purchases == map[] && db.gifts.Keys == {GIFT}
    && db.gifts[GIFT].state == Claimed && db.gifts[GIFT].offerVersionId == "v1"
    && GrantOf(FIRST) in db.grants && GrantOf(SECOND) in db.grants
    && db.grants[GrantOf(SECOND)].origin == OfGift(GIFT)
    && IsActive(db.grants[GrantOf(SECOND)], now) && db.grants[GrantOf(SECOND)].endsAt.None?
  }

  lemma BothInserted()
    ensures var t := InsertGrants(map[], OfGift(GIFT), [FIRST, SECOND], 2, Some("ann"), Terms(0, None), WHOLE, 0);
            t == Some(map[GrantOf(FIRST) := NewGrant(OfGift(GIFT), FIRST, Some("ann"), Terms(0, None), WHOLE, 0),
                          GrantOf(SECOND) := NewGrant(OfGift(GIFT), SECOND, Some("ann"), Terms(0, None), WHOLE, 0)])
  {
    assert InsertGrants(map[], OfGift(GIFT), [FIRST, SECOND], 0, Some("ann"), Terms(0, None), WHOLE, 0) == Some(map[]);
    var one := InsertGrants(map[], OfGift(GIFT), [FIRST, SECOND], 1, Some("ann"), Terms(0, None), WHOLE, 0);
    assert one == Some(map[GrantOf(FIRST) := NewGrant(OfGift(GIFT), FIRST, Some("ann"), Terms(0, None), WHOLE, 0)]);
  }

  const OFFERED := Gift("v1", None, "ann@example.org", None, None, None, None, Unclaimed)

  lemma GiftIsOffered()
    ensures var b := Step(Step(EMPTY, GIVEN[0]), GIVEN[1]);
            && b.gifts == map[GIFT := OFFERED] && b.offers == [WHOLE] && b.grants == map[] && b.purchases == map[]
            && b.customers == map["ann" := Customer({"ann@example.org"}, false)]
  {
    assert FindOffer([WHOLE], "v1") == Some(WHOLE);
  }

  lemma ClaimedByAnn(b: Db)
    requires b.gifts == map[GIFT := OFFERED] && b.offers == [WHOLE] && b.grants == map[] && b.purchases == map[]
    requires b.customers == map["ann" := Customer({"ann@example.org"}, false)]
    ensures var c := ClaimGift(b, "ann", GIFT, 0);
            && c.Ok? && c.value.offers == [WHOLE] && c.value.purchases == map[] && FindOffer([WHOLE], "v1") == Some(WHOLE)
            && c.value.gifts.Keys == {GIFT} && c.value.gifts[GIFT].state == Claimed && c.value.gifts[GIFT].offerVersionId == "v1"
            && c.value.grants == map[GrantOf(FIRST) := NewGrant(OfGift(GIFT), FIRST, Some("ann"), Terms(0, None), WHOLE, 0),
                                     GrantOf(SECOND) := NewGrant(OfGift(GIFT), SECOND, Some("ann"), Terms(0, None), WHOLE, 0)]
  {
    assert FindOffer([WHOLE], "v1") == Some(WHOLE);
    WholeIsCurrent();
    WholeAccess(WHOLE);
    BothInserted();
    hide InsertGrants, AccessBenefits, CurrentContents, FindOffer;
  }

  lemma GiftIsClaimed()
    ensures var db := Run(EMPTY, GIVEN);
            Holding(db, 1) && db.offers == [WHOLE] && db.grants[GrantOf(FIRST)].state == Active
  {
    var b := Step(Step(EMPTY, GIVEN[0]), GIVEN[1]);
    GiftIsOffered();
    ClaimedByAnn(b);
    LibraryIsOpened(b);
    hide Step, ClaimGift, Inv, Run;
    TwoSteps(EMPTY, GIVEN[0], GIVEN[1]);
    TwoSteps(b, GIVEN[2], GIVEN[2]);
    RunsOn(EMPTY, [GIVEN[0], GIVEN[1]], [GIVEN[2]]);
    assert GIVEN == [GIVEN[0], GIVEN[1]] + [GIVEN[2]];
    CommerceTheorems.Reached(GIVEN);
  }

  lemma LibraryIsOpened(b: Db)
    requires "ann" in b.customers && !b.customers["ann"].erased && ClaimGift(b, "ann", GIFT, 0).Ok?
    ensures Step(b, GIVEN[2]) == ClaimGift(b, "ann", GIFT, 0).value
  {
    hide ClaimGift;
    assert ClaimGifts(b, "ann", [GIFT], 0, 0) == Ok(b);
  }

  lemma {:induction false} RunsOn(db: Db, events: seq<Event>, more: seq<Event>)
    ensures Run(db, events + more) == Run(Run(db, events), more)
    decreases |events|
  {
    hide Step;
    if events == [] {
      assert events + more == more;
    } else {
      RunsOn(Step(db, events[0]), events[1..], more);
      assert (events + more)[1..] == events[1..] + more;
    }
  }

  lemma TwoSteps(db: Db, x: Event, y: Event)
    ensures Run(db, [x]) == Step(db, x) && Run(db, [x, y]) == Step(Step(db, x), y)
  {
    hide Step;
    assert [x, y][1..] == [y];
    assert Run(Step(db, x), []) == Step(db, x) && Run(Step(db, x), [y]) == Run(Step(Step(db, x), y), []);
  }

  // --------------------------------------------------------------- and its first grant revoked, dropped and given back

  lemma RevokedByHand(db: Db, now: int)
    requires Holding(db, now)
    ensures var t := Step(db, REVOKED);
            && Holding(t, now) && t.grants[GrantOf(FIRST)].state == Revoked
            && t.grants[GrantOf(FIRST)].contentRemoved == db.grants[GrantOf(FIRST)].contentRemoved
  {
    RevokingOneIsGood(db, GrantOf(FIRST));
  }

  lemma VersionKeepsHolding(db: Db, offer: Offer, now: int)
    requires Holding(db, now)
    ensures Holding(db.(offers := db.offers + [offer]), now)
  {
    SameAccessIsGood(db, db.(offers := db.offers + [offer]));
    StillFound(db.offers, offer);
  }

  lemma {:induction false} StillFound(offers: seq<Offer>, offer: Offer)
    requires FindOffer(offers, "v1").Some?
    ensures FindOffer(offers + [offer], "v1") == FindOffer(offers, "v1")
  {
    if offers[0].id != "v1" {
      StillFound(offers[1..], offer);
      assert (offers + [offer])[1..] == offers[1..] + [offer];
    }
  }

  // Each edition applies to the gift and, giving the second gallery, keeps that grant active.
  lemma RevisedEdition(db: Db, edition: Offer, now: int)
    requires Holding(db, now) && (edition == PART || edition == AGAIN)
    ensures var t := Step(db, Revised(edition, [], [GIFT], now));
            && Holding(t, now + 1)
            && (edition == PART ==> t.grants[GrantOf(FIRST)].contentRemoved && t.grants[GrantOf(FIRST)].state == Revoked)
            && (edition == AGAIN && db.grants[GrantOf(FIRST)].contentRemoved ==> t.grants[GrantOf(FIRST)].state == Active)
  {
    var start := db.(offers := db.offers + [edition]);
    var t := UpdateAccessContents(start, edition, [], [GIFT], now);
    hide Inv, UpdateAccessContents, AccessBenefits, UpdateRecord;
    VersionKeepsHolding(db, edition, now);
    WholeAccess(edition);
    assert Applies(start, OfGift(GIFT), edition, now);
    RevisionSelectsAccess(start, edition, [], [GIFT], now, GrantOf(FIRST));
    RevisionSelectsAccess(start, edition, [], [GIFT], now, GrantOf(SECOND));
    RecordStays(start, OfGift(GIFT), edition, now, OfGift(GIFT));
    RevisedRecordStays(start, edition, [], [GIFT], now, OfGift(GIFT));
    TermsStay(start, t, GrantOf(SECOND), edition, now);
    OnlyTheGift(start, edition, now);
  }

  lemma TermsStay(db: Db, t: Db, g: GrantId, edition: Offer, now: int)
    requires Inv(db) && g in db.grants && t == UpdateAccessContents(db, edition, [], [GIFT], now)
    ensures g in t.grants && t.grants[g].origin == db.grants[g].origin
    ensures t.grants[g].startsAt == db.grants[g].startsAt && t.grants[g].endsAt == db.grants[g].endsAt
  {
    assert UpdatePurchases(db, [], 0, edition, now) == db;
    hide UpdateGifts, UpdatePurchases, Inv;
    UpdatingGiftsIsGood(db, [GIFT], 1, edition, now);
    assert GrantMoves(db, t, g);
  }

  lemma OnlyTheGift(db: Db, edition: Offer, now: int)
    requires Holding(db, now)
    ensures var t := UpdateAccessContents(db, edition, [], [GIFT], now);
            t.purchases == map[] && t.gifts.Keys == {GIFT} && t.offers == db.offers
  {
    hide UpdateGrants, AccessBenefits, ActiveTerms, Updates, Inv;
    assert UpdatePurchases(db, [], 0, edition, now) == db;
    assert UpdateGifts(db, [GIFT], 0, edition, now) == db;
  }

  /** From nothing: a gift claimed, one of its grants revoked by hand, its gallery dropped and given back. */
  lemma HandRevokedGrantComesBack()
    ensures var revoked := Run(EMPTY, GIVEN + [REVOKED]);
            var after := Run(revoked, [DROPPED, RESTORED]);
            && GrantOf(FIRST) in revoked.grants && revoked.grants[GrantOf(FIRST)].state == Revoked
            && GrantOf(FIRST) in after.grants && after.grants[GrantOf(FIRST)].state == Active
  {
    var given := Run(EMPTY, GIVEN);
    var revoked := Step(given, REVOKED);
    hide Run, Step, Edition;
    GiftIsClaimed();
    RevokedByHand(given, 1);
    RevisedEdition(revoked, PART, 1);
    var dropped := Step(revoked, DROPPED);
    RevisedEdition(dropped, AGAIN, 2);
    RunsOn(EMPTY, GIVEN, [REVOKED]);
    TwoSteps(given, REVOKED, REVOKED);
    TwoSteps(revoked, DROPPED, RESTORED);
  }

  /** From nothing: dropped first and revoked by hand then, one revision brings the grant back. */
  lemma DroppedThenRevokedComesBack()
    ensures var revoked := Run(EMPTY, GIVEN + [DROPPED, REVOKED]);
            var after := Run(revoked, [RESTORED]);
            && GrantOf(FIRST) in revoked.grants && revoked.grants[GrantOf(FIRST)].state == Revoked
            && GrantOf(FIRST) in after.grants && after.grants[GrantOf(FIRST)].state == Active
  {
    var given := Run(EMPTY, GIVEN);
    var dropped := Step(given, DROPPED);
    var revoked := Step(dropped, REVOKED);
    hide Run, Step, Edition;
    GiftIsClaimed();
    RevisedEdition(given, PART, 1);
    RevokedByHand(dropped, 2);
    RevisedEdition(revoked, AGAIN, 2);
    RunsOn(EMPTY, GIVEN, [DROPPED, REVOKED]);
    TwoSteps(given, DROPPED, REVOKED);
    TwoSteps(revoked, RESTORED, RESTORED);
  }
}
