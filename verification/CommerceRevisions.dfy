/**
 What revised contents do to the grants of every purchase and gift, and whether a
 grant revoked by hand comes back.
 */
module CommerceRevisions {
  import opened Common
  import opened Commerce
  import opened CommerceInvariant
  import opened CommerceSteps

  // --------------------------------------------------------------- purchases and gifts alike

  /** A purchase or gift a revision looks at. */
  ghost predicate InUse(db: Db, o: Origin) {
    match o
    case OfPurchase(p) => p in db.purchases && db.purchases[p].state == Active
    case OfGift(g) => g in db.gifts && db.gifts[g].state == Claimed
    case ByHand => false
  }

  ghost function VersionOf(db: Db, o: Origin): string
    requires InUse(db, o)
  {
    match o
    case OfPurchase(p) => db.purchases[p].offerVersionId
    case OfGift(g) => db.gifts[g].offerVersionId
  }

  ghost function HolderOf(db: Db, o: Origin): Option<string>
    requires InUse(db, o)
  {
    match o
    case OfPurchase(p) => db.purchases[p].customerId
    case OfGift(g) => db.gifts[g].customerId
  }

  ghost function ScopeOf(db: Db, o: Origin): Scope
    requires InUse(db, o)
  {
    match o
    case OfPurchase(p) => p.scope
    case OfGift(g) => g.scope
  }

  /** The revision changes the purchase or gift. */
  ghost predicate Applies(db: Db, o: Origin, revised: Offer, now: int) {
    InUse(db, o) && Updates(db, o, VersionOf(db, o), ScopeOf(db, o), revised, now)
  }

  /** What the original offer of a purchase or gift gives of the revised contents. */
  ghost function AccessFor(db: Db, o: Origin, revised: Offer): seq<Benefit>
    requires InUse(db, o) && FindOffer(db.offers, VersionOf(db, o)).Some?
  {
    AccessBenefits(FindOffer(db.offers, VersionOf(db, o)).value, revised)
  }

  ghost function UpdateRecord(db: Db, o: Origin, revised: Offer, now: int): Db {
    match o
    case OfPurchase(p) => UpdatePurchase(db, p, revised, now)
    case OfGift(g) => UpdateGift(db, g, revised, now)
    case ByHand => db
  }

  lemma RecordIsGood(db: Db, o: Origin, revised: Offer, now: int)
    requires Inv(db)
    ensures Good(db, UpdateRecord(db, o, revised, now))
  {
    hide Inv, Advances, UpdatePurchase, UpdateGift;
    match o
    case OfPurchase(p) => UpdatingPurchaseIsGood(db, p, revised, now);
    case OfGift(g) => UpdatingGiftIsGood(db, g, revised, now);
    case ByHand => AdvancesNot(db);
  }

  lemma RecordIsSound(db: Db, o: Origin, revised: Offer, now: int)
    requires Inv(db)
    ensures Inv(UpdateRecord(db, o, revised, now))
  {
    hide Inv, Advances, UpdateRecord;
    RecordIsGood(db, o, revised, now);
  }

  lemma RecordUpdated(db: Db, o: Origin, revised: Offer, now: int)
    ensures UpdateRecord(db, o, revised, now).grants
         == if Applies(db, o, revised, now)
            then UpdateGrants(db.grants, o, AccessFor(db, o, revised), HolderOf(db, o), ActiveTerms(db.grants, o, now), revised, now)
            else db.grants
  {
    hide UpdateGrants, AccessBenefits, ActiveTerms, FindOffer, Reaches, HasActive;
  }

  // --------------------------------------------------------------- one record does not touch another

  ghost predicate SameGrantsOf(a: map<GrantId, Grant>, b: map<GrantId, Grant>, o: Origin) {
    forall id: GrantId :: id.origin == o ==> (id in a <==> id in b) && (id in a ==> a[id] == b[id])
  }

  // The record, its grants and its original offer are the same.
  ghost predicate SameRecord(db: Db, t: Db, o: Origin) {
    && t.offers == db.offers && (InUse(t, o) <==> InUse(db, o))
    && (InUse(db, o) ==> VersionOf(t, o) == VersionOf(db, o) && HolderOf(t, o) == HolderOf(db, o))
    && SameGrantsOf(t.grants, db.grants, o)
  }

  // Purchases and gifts keep all but the contents they were last revised to.
  ghost predicate SameHoldings(db: Db, t: Db) {
    && t.offers == db.offers && t.purchases.Keys == db.purchases.Keys && t.gifts.Keys == db.gifts.Keys
    && (forall p :: p in db.purchases ==> t.purchases[p] == db.purchases[p].(contentOfferVersionId := t.purchases[p].contentOfferVersionId))
    && (forall g :: g in db.gifts ==> t.gifts[g] == db.gifts[g].(contentOfferVersionId := t.gifts[g].contentOfferVersionId))
  }

  lemma PurchaseKeepsHoldings(db: Db, p: PaymentKey, revised: Offer, now: int)
    ensures SameHoldings(db, UpdatePurchase(db, p, revised, now))
  {
    hide UpdateGrants, AccessBenefits, ActiveTerms, FindOffer, Updates;
    var t := UpdatePurchase(db, p, revised, now);
    if t != db {
      assert t.purchases == db.purchases[p := db.purchases[p].(contentOfferVersionId := Some(revised.id))];
    }
  }

  lemma GiftKeepsHoldings(db: Db, g: GiftKey, revised: Offer, now: int)
    ensures SameHoldings(db, UpdateGift(db, g, revised, now))
  {
    hide UpdateGrants, AccessBenefits, ActiveTerms, FindOffer, Updates;
    var t := UpdateGift(db, g, revised, now);
    if t != db {
      assert t.gifts == db.gifts[g := db.gifts[g].(contentOfferVersionId := Some(revised.id))];
    }
  }

  lemma RecordStays(db: Db, other: Origin, revised: Offer, now: int, o: Origin)
    ensures var t := UpdateRecord(db, other, revised, now);
            && t.offers == db.offers && (InUse(t, o) <==> InUse(db, o))
            && (InUse(db, o) ==> VersionOf(t, o) == VersionOf(db, o) && HolderOf(t, o) == HolderOf(db, o))
  {
    hide UpdatePurchase, UpdateGift;
    match other
    case OfPurchase(p) => PurchaseKeepsHoldings(db, p, revised, now);
    case OfGift(g) => GiftKeepsHoldings(db, g, revised, now);
    case ByHand =>
  }

  lemma OtherRecordsStay(db: Db, other: Origin, revised: Offer, now: int, o: Origin)
    requires Inv(db) && other != o
    ensures SameRecord(db, UpdateRecord(db, other, revised, now), o)
  {
    hide AccessBenefits, ActiveTerms, UpdateRecord, Applies, InUse;
    RecordStays(db, other, revised, now, o);
    RecordUpdated(db, other, revised, now);
    forall id: GrantId | id.origin == o ensures GrantOk(db, id) { }
  }

  lemma SameRecordAsItself(db: Db, o: Origin)
    ensures SameRecord(db, db, o)
  {
  }

  lemma SameRecordTwice(a: Db, b: Db, c: Db, o: Origin)
    requires SameRecord(a, b, o) && SameRecord(b, c, o)
    ensures SameRecord(a, c, o)
  {
    hide InUse;
  }

  lemma TermsAgree(db: Db, o: Origin, now: int, id: GrantId)
    requires Inv(db) && HasActive(db.grants, o, now) && o != ByHand
    requires id in db.grants && id.origin == o
    ensures ActiveTerms(db.grants, o, now) == Terms(db.grants[id].startsAt, db.grants[id].endsAt)
  {
    assert GrantOk(db, id);
    var active :| active in db.grants && db.grants[active].origin == o && IsActive(db.grants[active], now)
                  && ActiveTerms(db.grants, o, now) == Terms(db.grants[active].startsAt, db.grants[active].endsAt);
    assert SameTerms(db.grants[id], db.grants[active]);
  }

  lemma ActiveAlike(db: Db, t: Db, o: Origin, now: int)
    requires Inv(db) && SameGrantsOf(t.grants, db.grants, o) && HasActive(db.grants, o, now) && o != ByHand
    ensures exists id :: id in db.grants && id in t.grants && id.origin == o && t.grants[id] == db.grants[id] && IsActive(db.grants[id], now)
  {
    var id :| id in db.grants && db.grants[id].origin == o && IsActive(db.grants[id], now);
    assert GrantOk(db, id);
  }

  // What an update makes of a record depends on that record alone.
  lemma SameRecordUpdates(db: Db, t: Db, o: Origin, revised: Offer, now: int)
    requires Inv(db) && Inv(t) && SameRecord(db, t, o)
    ensures Applies(t, o, revised, now) <==> Applies(db, o, revised, now)
    ensures SameGrantsOf(UpdateRecord(t, o, revised, now).grants, UpdateRecord(db, o, revised, now).grants, o)
  {
    hide UpdateRecord, UpdateGrants, AccessBenefits, FindOffer, Reaches, ActiveTerms;
    RecordUpdated(db, o, revised, now);
    RecordUpdated(t, o, revised, now);
    SameActive(db, t, o, now);
    if Applies(db, o, revised, now) {
      ActiveAlike(db, t, o, now);
      var id :| id in db.grants && id in t.grants && id.origin == o && t.grants[id] == db.grants[id] && IsActive(db.grants[id], now);
      TermsAgree(db, o, now, id);
      TermsAgree(t, o, now, id);
      AlikeUpdated(db, t, o, AccessFor(db, o, revised), HolderOf(db, o), ActiveTerms(db.grants, o, now), revised, now);
    }
  }

  lemma SameActive(db: Db, t: Db, o: Origin, now: int)
    requires Inv(db) && Inv(t) && SameGrantsOf(t.grants, db.grants, o)
    ensures o != ByHand ==> (HasActive(t.grants, o, now) <==> HasActive(db.grants, o, now))
  {
    if o != ByHand && HasActive(db.grants, o, now) {
      ActiveAlike(db, t, o, now);
      var id :| id in db.grants && id in t.grants && id.origin == o && t.grants[id] == db.grants[id] && IsActive(db.grants[id], now);
      assert GrantOk(t, id);
    }
    if o != ByHand && HasActive(t.grants, o, now) {
      ActiveAlike(t, db, o, now);
      var id :| id in t.grants && id in db.grants && id.origin == o && db.grants[id] == t.grants[id] && IsActive(t.grants[id], now);
      assert GrantOk(db, id);
    }
  }

  lemma AlikeUpdated(db: Db, t: Db, o: Origin, access: seq<Benefit>, customer: Option<string>, terms: Terms, revised: Offer, now: int)
    requires SameGrantsOf(t.grants, db.grants, o)
    ensures SameGrantsOf(UpdateGrants(t.grants, o, access, customer, terms, revised, now),
                         UpdateGrants(db.grants, o, access, customer, terms, revised, now), o)
  {
    hide AssetsOf;
  }

  // --------------------------------------------------------------- every record in turn

  ghost function UpdateRecords(db: Db, records: seq<Origin>, n: nat, revised: Offer, now: int): Db
    requires n <= |records|
  {
    if n == 0 then db else UpdateRecord(UpdateRecords(db, records, n - 1, revised, now), records[n - 1], revised, now)
  }

  function Records(purchases: seq<PaymentKey>, gifts: seq<GiftKey>): seq<Origin> {
    seq(|purchases| + |gifts|, i requires 0 <= i < |purchases| + |gifts| =>
      if i < |purchases| then OfPurchase(purchases[i]) else OfGift(gifts[i - |purchases|]))
  }

  lemma {:induction false} PurchasesInTurn(db: Db, purchases: seq<PaymentKey>, gifts: seq<GiftKey>, n: nat, revised: Offer, now: int)
    requires n <= |purchases|
    ensures UpdateRecords(db, Records(purchases, gifts), n, revised, now) == UpdatePurchases(db, purchases, n, revised, now)
  {
    hide UpdatePurchase;
    if n > 0 {
      PurchasesInTurn(db, purchases, gifts, n - 1, revised, now);
    }
  }

  lemma {:induction false} GiftsInTurn(db: Db, purchases: seq<PaymentKey>, gifts: seq<GiftKey>, n: nat, revised: Offer, now: int)
    requires n <= |gifts|
    ensures UpdateRecords(db, Records(purchases, gifts), |purchases| + n, revised, now)
         == UpdateGifts(UpdatePurchases(db, purchases, |purchases|, revised, now), gifts, n, revised, now)
  {
    hide UpdateGift, UpdatePurchases;
    if n > 0 {
      GiftsInTurn(db, purchases, gifts, n - 1, revised, now);
    } else {
      PurchasesInTurn(db, purchases, gifts, |purchases|, revised, now);
    }
  }

  ghost predicate DistinctRecords(records: seq<Origin>) {
    forall i, j :: 0 <= i < j < |records| ==> records[i] != records[j]
  }

  lemma {:induction false} RecordsAreSound(db: Db, records: seq<Origin>, n: nat, revised: Offer, now: int)
    requires Inv(db) && n <= |records|
    ensures Inv(UpdateRecords(db, records, n, revised, now))
  {
    hide Inv, UpdateRecord;
    if n > 0 {
      RecordsAreSound(db, records, n - 1, revised, now);
      RecordIsSound(UpdateRecords(db, records, n - 1, revised, now), records[n - 1], revised, now);
    }
  }

  lemma {:induction false} UnlistedStay(db: Db, records: seq<Origin>, n: nat, revised: Offer, now: int, o: Origin)
    requires Inv(db) && n <= |records| && o !in records[..n]
    ensures SameRecord(db, UpdateRecords(db, records, n, revised, now), o)
  {
    hide Inv, UpdateRecord, SameGrantsOf, InUse;
    if n > 0 {
      var before := UpdateRecords(db, records, n - 1, revised, now);
      assert forall i :: 0 <= i < n ==> records[..n][i] == records[i];
      assert forall i :: 0 <= i < n - 1 ==> records[..n - 1][i] == records[i];
      UnlistedStay(db, records, n - 1, revised, now, o);
      RecordsAreSound(db, records, n - 1, revised, now);
      OtherRecordsStay(before, records[n - 1], revised, now, o);
      SameRecordTwice(db, before, UpdateRecords(db, records, n, revised, now), o);
    } else {
      SameRecordAsItself(db, o);
    }
  }

  lemma SameGrantsTwice(a: map<GrantId, Grant>, b: map<GrantId, Grant>, c: map<GrantId, Grant>, o: Origin)
    requires SameGrantsOf(a, b, o) && SameGrantsOf(b, c, o)
    ensures SameGrantsOf(a, c, o) && SameGrantsOf(b, a, o)
  {
  }

  // A record listed once is updated once, in whatever place.
  lemma {:induction false} ListedAreUpdated(db: Db, records: seq<Origin>, n: nat, revised: Offer, now: int, k: nat)
    requires Inv(db) && k < n <= |records| && DistinctRecords(records)
    ensures SameGrantsOf(UpdateRecords(db, records, n, revised, now).grants, UpdateRecord(db, records[k], revised, now).grants, records[k])
  {
    hide Inv, UpdateRecord, SameGrantsOf, InUse;
    var o, before := records[k], UpdateRecords(db, records, n - 1, revised, now);
    RecordsAreSound(db, records, n - 1, revised, now);
    if k == n - 1 {
      UnlistedStay(db, records, k, revised, now, o);
      SameRecordUpdates(db, before, o, revised, now);
    } else {
      ListedAreUpdated(db, records, n - 1, revised, now, k);
      OtherRecordsStay(before, records[n - 1], revised, now, o);
      SameGrantsTwice(UpdateRecords(db, records, n, revised, now).grants, before.grants, UpdateRecord(db, o, revised, now).grants, o);
    }
  }

  /** Orders that list every active purchase and claimed gift, each once, as the store does. */
  ghost predicate ListsEach(db: Db, purchases: seq<PaymentKey>, gifts: seq<GiftKey>) {
    && (forall i, j :: 0 <= i < j < |purchases| ==> purchases[i] != purchases[j])
    && (forall i, j :: 0 <= i < j < |gifts| ==> gifts[i] != gifts[j])
    && (forall p :: p in db.purchases && db.purchases[p].state == Active ==> p in purchases)
    && (forall g :: g in db.gifts && db.gifts[g].state == Claimed ==> g in gifts)
  }

  lemma EachIsListed(db: Db, purchases: seq<PaymentKey>, gifts: seq<GiftKey>, o: Origin)
    requires ListsEach(db, purchases, gifts)
    ensures DistinctRecords(Records(purchases, gifts))
    ensures InUse(db, o) ==> o in Records(purchases, gifts)
  {
    var records := Records(purchases, gifts);
    if InUse(db, o) {
      match o
      case OfPurchase(p) =>
        var i :| 0 <= i < |purchases| && purchases[i] == p;
        assert records[i] == o;
      case OfGift(g) =>
        var i :| 0 <= i < |gifts| && gifts[i] == g;
        assert records[|purchases| + i] == o;
    }
  }

  lemma IdleRecord(db: Db, o: Origin, revised: Offer, now: int)
    requires !InUse(db, o)
    ensures UpdateRecord(db, o, revised, now) == db
  {
  }

  /**
   A revision reaches every purchase and gift, and makes of the grants of each
   what it would make of them alone: no record's update touches another's grants.
   */
  lemma RevisionReachesEachAlone(db: Db, revised: Offer, purchases: seq<PaymentKey>, gifts: seq<GiftKey>, now: int, o: Origin)
    requires Inv(db) && ListsEach(db, purchases, gifts)
    ensures SameGrantsOf(UpdateAccessContents(db, revised, purchases, gifts, now).grants, UpdateRecord(db, o, revised, now).grants, o)
  {
    hide Inv, UpdateRecord, SameGrantsOf, InUse, ListsEach, Records;
    var records := Records(purchases, gifts);
    RecordsLength(purchases, gifts);
    EachIsListed(db, purchases, gifts, o);
    GiftsInTurn(db, purchases, gifts, |gifts|, revised, now);
    if o in records {
      var k :| 0 <= k < |records| && records[k] == o;
      ListedAreUpdated(db, records, |records|, revised, now, k);
    } else {
      assert records[..|records|] == records;
      UnlistedStay(db, records, |records|, revised, now, o);
      IdleRecord(db, o, revised, now);
    }
  }

  lemma RecordsLength(purchases: seq<PaymentKey>, gifts: seq<GiftKey>)
    ensures |Records(purchases, gifts)| == |purchases| + |gifts|
  {
  }

  // --------------------------------------------------------------- what a revision leaves

  /**
   After a revision that applies to a purchase or gift, its grants not marked
   removed are exactly those for the benefits the original offer gives of the new
   contents, with their files; the others are revoked.  A grant it gives is active
   exactly if it is new, was active, or had been removed by a revision.
   */
  lemma RevisionSelectsAccess(db: Db, revised: Offer, purchases: seq<PaymentKey>, gifts: seq<GiftKey>, now: int, g: GrantId)
    requires Inv(db) && ListsEach(db, purchases, gifts) && Applies(db, g.origin, revised, now) && g.serial == 0
    ensures var grants := UpdateAccessContents(db, revised, purchases, gifts, now).grants;
            if g.benefit in AccessFor(db, g.origin, revised) then
              && g in grants && !grants[g].contentRemoved && grants[g].assets == AssetsOf(g.benefit, revised)
              && (grants[g].state == Active <==> g !in db.grants || db.grants[g].state == Active || db.grants[g].contentRemoved)
            else
              && (g in grants <==> g in db.grants)
              && (g in grants ==> grants[g].contentRemoved && grants[g].state == Revoked)
  {
    hide UpdateAccessContents, AccessBenefits, ActiveTerms, AssetsOf, Updates, ListsEach;
    RevisionReachesEachAlone(db, revised, purchases, gifts, now, g.origin);
    RecordUpdated(db, g.origin, revised, now);
    assert GrantOk(db, g);
  }

  /** A revision that does not apply to a purchase or gift leaves its grants alone, and those made by hand. */
  lemma RevisionLeavesOthersAlone(db: Db, revised: Offer, purchases: seq<PaymentKey>, gifts: seq<GiftKey>, now: int, o: Origin)
    requires Inv(db) && ListsEach(db, purchases, gifts) && !Applies(db, o, revised, now)
    ensures SameGrantsOf(UpdateAccessContents(db, revised, purchases, gifts, now).grants, db.grants, o)
  {
    hide UpdateAccessContents, Updates, ListsEach, Inv, Applies;
    RevisionReachesEachAlone(db, revised, purchases, gifts, now, o);
    RecordUpdated(db, o, revised, now);
  }

  ghost predicate SameGrantAccess(g: Grant, h: Grant) {
    g.state == h.state && g.assets == h.assets && g.contentRemoved == h.contentRemoved
  }

  // As RevisionSelectsAccess has it, on the grants of one record.
  lemma UpdatedTwice(grants: map<GrantId, Grant>, origin: Origin, access: seq<Benefit>, customer: Option<string>, terms: Terms,
                     customer2: Option<string>, terms2: Terms, revised: Offer, now: int, later: int, g: GrantId)
    requires g in grants ==> grants[g].origin == g.origin && grants[g].benefit == g.benefit
    ensures var once := UpdateGrants(grants, origin, access, customer, terms, revised, now);
            var twice := UpdateGrants(once, origin, access, customer2, terms2, revised, later);
            (g in twice <==> g in once) && (g in once ==> SameGrantAccess(twice[g], once[g]))
  {
  }

  lemma RecordTwice(db: Db, o: Origin, revised: Offer, now: int, later: int, g: GrantId)
    requires Inv(db) && (Applies(db, o, revised, later) ==> Applies(db, o, revised, now))
    ensures var once := UpdateRecord(db, o, revised, now).grants;
            var twice := UpdateRecord(UpdateRecord(db, o, revised, now), o, revised, later).grants;
            (g in twice <==> g in once) && (g in once ==> SameGrantAccess(twice[g], once[g]))
  {
    hide UpdateRecord, UpdateGrants, AccessBenefits, ActiveTerms, Updates, Applies;
    var once := UpdateRecord(db, o, revised, now);
    RecordUpdated(db, o, revised, now);
    RecordUpdated(once, o, revised, later);
    if Applies(db, o, revised, now) {
      RecordStays(db, o, revised, now, o);
      assert GrantOk(db, g);
      if Applies(once, o, revised, later) {
        ApplyingTwice(db, once, o, revised, now, later, g);
      }
    } else {
      UnchangedRecord(db, o, revised, now);
    }
  }

  lemma ApplyingTwice(db: Db, once: Db, o: Origin, revised: Offer, now: int, later: int, g: GrantId)
    requires Inv(db) && Applies(db, o, revised, now) && Applies(once, o, revised, later)
    requires once == UpdateRecord(db, o, revised, now)
    ensures var twice := UpdateRecord(once, o, revised, later).grants;
            (g in twice <==> g in once.grants) && (g in once.grants ==> SameGrantAccess(twice[g], once.grants[g]))
  {
    hide UpdateRecord, UpdateGrants, AccessBenefits, ActiveTerms, Reaches, FindOffer;
    RecordUpdated(db, o, revised, now);
    RecordUpdated(once, o, revised, later);
    RecordStays(db, o, revised, now, o);
    assert GrantOk(db, g);
    UpdatedTwice(db.grants, o, AccessFor(db, o, revised), HolderOf(db, o), ActiveTerms(db.grants, o, now),
                 HolderOf(once, o), ActiveTerms(once.grants, o, later), revised, now, later, g);
  }

  lemma UnchangedRecord(db: Db, o: Origin, revised: Offer, now: int)
    requires !Applies(db, o, revised, now)
    ensures UpdateRecord(db, o, revised, now) == db
  {
    hide UpdateGrants, AccessBenefits, ActiveTerms;
  }

  lemma RevisedRecordStays(db: Db, revised: Offer, purchases: seq<PaymentKey>, gifts: seq<GiftKey>, now: int, o: Origin)
    requires Inv(db) && ListsEach(db, purchases, gifts)
    ensures Inv(UpdateAccessContents(db, revised, purchases, gifts, now))
    ensures SameRecord(UpdateRecord(db, o, revised, now), UpdateAccessContents(db, revised, purchases, gifts, now), o)
  {
    hide Inv, UpdateRecord, InUse, ListsEach, Records, SameGrantsOf;
    var records := Records(purchases, gifts);
    RecordsLength(purchases, gifts);
    GiftsInTurn(db, purchases, gifts, |gifts|, revised, now);
    RecordsAreSound(db, records, |records|, revised, now);
    RecordsStay(db, records, |records|, revised, now, o);
    RecordStays(db, o, revised, now, o);
    RevisionReachesEachAlone(db, revised, purchases, gifts, now, o);
  }

  lemma {:induction false} RecordsStay(db: Db, records: seq<Origin>, n: nat, revised: Offer, now: int, o: Origin)
    requires n <= |records|
    ensures var t := UpdateRecords(db, records, n, revised, now);
            && t.offers == db.offers && (InUse(t, o) <==> InUse(db, o))
            && (InUse(db, o) ==> VersionOf(t, o) == VersionOf(db, o) && HolderOf(t, o) == HolderOf(db, o))
  {
    hide InUse, UpdateRecord;
    if n > 0 {
      RecordsStay(db, records, n - 1, revised, now, o);
      RecordStays(UpdateRecords(db, records, n - 1, revised, now), records[n - 1], revised, now, o);
    }
  }

  /**
   The same revision made again, in whatever order and at whatever time, changes
   no grant's state, files or mark and adds none, unless it now applies to a
   purchase or gift it did not apply to before.
   */
  lemma RevisingTwiceIsRevisingOnce(db: Db, revised: Offer, purchases: seq<PaymentKey>, gifts: seq<GiftKey>, now: int,
                                    purchases2: seq<PaymentKey>, gifts2: seq<GiftKey>, later: int, g: GrantId)
    requires Inv(db) && ListsEach(db, purchases, gifts)
    requires ListsEach(UpdateAccessContents(db, revised, purchases, gifts, now), purchases2, gifts2)
    requires Applies(db, g.origin, revised, later) ==> Applies(db, g.origin, revised, now)
    ensures var once := UpdateAccessContents(db, revised, purchases, gifts, now);
            var twice := UpdateAccessContents(once, revised, purchases2, gifts2, later);
            (g in twice.grants <==> g in once.grants) && (g in once.grants ==> SameGrantAccess(twice.grants[g], once.grants[g]))
  {
    hide Inv, UpdateAccessContents, UpdateRecord, Applies, ListsEach, InUse;
    var o, once := g.origin, UpdateAccessContents(db, revised, purchases, gifts, now);
    RevisedRecordStays(db, revised, purchases, gifts, now, o);
    RevisionReachesEachAlone(db, revised, purchases, gifts, now, o);
    RevisionReachesEachAlone(once, revised, purchases2, gifts2, later, o);
    RecordIsSound(db, o, revised, now);
    SameRecordUpdates(UpdateRecord(db, o, revised, now), once, o, revised, later);
    RecordTwice(db, o, revised, now, later, g);
  }
}
