/**
 Retiring a migrated creator from the source cell
 (apps/reference-api/src/migration-cell.ts:74-116): an ordered deletion over
 every repository of the cell, which a crash may stop after any one removal.
 */
module Retirement {
  import opened Common

  // In the order in which retiring visits them; audit events are never removed.
  datatype Kind =
    | WorkMembership | ReconciliationSnapshot | SyncCursor | IntegrationJob | PublicationIntent | Publication
    | ModerationEvidence | ModerationHold | ReviewCase | UsageEvent | CreditLot | CreditReservation | Balance
    | ExportManifest | ImportCheckpoint | IntegrationAccount | Asset | Collection | Work | Creator | AuditEvent

  datatype Key = Key(kind: Kind, id: string)

  // The links a record may carry; details stands for the rest of it.
  datatype Record = Record(
    creatorId: Option<string>, workId: Option<string>, collectionId: Option<string>, publicationId: Option<string>,
    integrationId: Option<string>, subjectId: Option<string>, accountId: Option<string>, details: string)

  type Cell = map<Key, Record>

  const PHASES := [
    WorkMembership, ReconciliationSnapshot, SyncCursor, IntegrationJob, PublicationIntent, Publication,
    ModerationEvidence, ModerationHold, ReviewCase, UsageEvent, CreditLot, CreditReservation, Balance,
    ExportManifest, ImportCheckpoint, IntegrationAccount, Asset, Collection, Work, Creator]

  function Phase(kind: Kind): (p: nat)
    ensures p <= 20 && (p < 20 <==> kind != AuditEvent)
    ensures p < 20 ==> PHASES[p] == kind
  {
    match kind
    case WorkMembership => 0
    case ReconciliationSnapshot => 1
    case SyncCursor => 2
    case IntegrationJob => 3
    case PublicationIntent => 4
    case Publication => 5
    case ModerationEvidence => 6
    case ModerationHold => 7
    case ReviewCase => 8
    case UsageEvent => 9
    case CreditLot => 10
    case CreditReservation => 11
    case Balance => 12
    case ExportManifest => 13
    case ImportCheckpoint => 14
    case IntegrationAccount => 15
    case Asset => 16
    case Collection => 17
    case Work => 18
    case Creator => 19
    case AuditEvent => 20
  }

  // --------------------------------------------------------------- what the code selects

  datatype Owners = Owners(works: set<string>, assets: set<string>, collections: set<string>, integrations: set<string>, publications: set<string>)

  function IdsOf(c: Cell, kind: Kind, creator: string): set<string> {
    set k | k in c && k.kind == kind && c[k].creatorId == Some(creator) :: k.id
  }

  /** The ids retiring collects before it removes anything. */
  function OwnersOf(c: Cell, creator: string): Owners {
    var works := IdsOf(c, Work, creator);
    Owners(works, IdsOf(c, Asset, creator), IdsOf(c, Collection, creator), IdsOf(c, IntegrationAccount, creator),
           set k | k in c && k.kind == Publication && c[k].workId.Some? && c[k].workId.value in works :: k.id)
  }

  predicate Names(id: Option<string>, ids: set<string>) {
    id.Some? && id.value in ids
  }

  predicate IsSubject(o: Owners, creator: string, subject: Option<string>) {
    subject == Some(creator) || Names(subject, o.works) || Names(subject, o.assets) || Names(subject, o.collections)
  }

  predicate Selected(o: Owners, creator: string, k: Key, r: Record) {
    match k.kind
    case WorkMembership => Names(r.workId, o.works) || Names(r.collectionId, o.collections)
    case ReconciliationSnapshot => Names(r.publicationId, o.publications)
    case SyncCursor => Names(r.integrationId, o.integrations)
    case IntegrationJob => Names(r.integrationId, o.integrations)
    case PublicationIntent => Names(r.workId, o.works)
    case Publication => Names(r.workId, o.works)
    case ModerationEvidence => IsSubject(o, creator, r.subjectId)
    case ModerationHold => IsSubject(o, creator, r.subjectId)
    case ReviewCase => IsSubject(o, creator, r.subjectId)
    case UsageEvent => r.accountId == Some(creator)
    case CreditLot => r.accountId == Some(creator)
    case CreditReservation => r.accountId == Some(creator)
    case Balance => r.accountId == Some(creator)
    case ExportManifest => r.creatorId == Some(creator)
    case ImportCheckpoint => r.creatorId == Some(creator)
    case IntegrationAccount => r.creatorId == Some(creator)
    case Asset => r.creatorId == Some(creator)
    case Collection => r.creatorId == Some(creator)
    case Work => r.creatorId == Some(creator)
    case Creator => k.id == creator
    case AuditEvent => false
  }

  predicate Owned(c: Cell, creator: string, k: Key) {
    k in c && Selected(OwnersOf(c, creator), creator, k, c[k])
  }

  // --------------------------------------------------------------- what being owned means

  function KeyTo(kind: Kind, id: Option<string>): set<Key> {
    if id.Some? then {Key(kind, id.value)} else {}
  }

  /** The records a record belongs to. */
  function Links(kind: Kind, r: Record): set<Key> {
    match kind
    case WorkMembership => KeyTo(Work, r.workId) + KeyTo(Collection, r.collectionId)
    case ReconciliationSnapshot => KeyTo(Publication, r.publicationId)
    case SyncCursor => KeyTo(IntegrationAccount, r.integrationId)
    case IntegrationJob => KeyTo(IntegrationAccount, r.integrationId)
    case PublicationIntent => KeyTo(Work, r.workId)
    case Publication => KeyTo(Work, r.workId)
    case ModerationEvidence => KeyTo(Creator, r.subjectId) + KeyTo(Work, r.subjectId) + KeyTo(Asset, r.subjectId) + KeyTo(Collection, r.subjectId)
    case ModerationHold => KeyTo(Creator, r.subjectId) + KeyTo(Work, r.subjectId) + KeyTo(Asset, r.subjectId) + KeyTo(Collection, r.subjectId)
    case ReviewCase => KeyTo(Creator, r.subjectId) + KeyTo(Work, r.subjectId) + KeyTo(Asset, r.subjectId) + KeyTo(Collection, r.subjectId)
    case UsageEvent => KeyTo(Creator, r.accountId)
    case CreditLot => KeyTo(Creator, r.accountId)
    case CreditReservation => KeyTo(Creator, r.accountId)
    case Balance => KeyTo(Creator, r.accountId)
    case Creator => {}
    case AuditEvent => {}
    case _ => KeyTo(Creator, r.creatorId)
  }

  /** Links lead to records that are removed later. */
  lemma LinksLeadLater(kind: Kind, r: Record, l: Key)
    requires l in Links(kind, r)
    ensures Phase(kind) < Phase(l.kind) < 20
  {
  }

  /** The creator itself, or a stored record one of whose links leads to the creator. */
  ghost predicate LeadsTo(c: Cell, creator: string, k: Key)
    decreases 20 - Phase(k.kind)
  {
    k == Key(Creator, creator)
    || (k in c && exists l :: l in Links(k.kind, c[k]) && Phase(k.kind) < Phase(l.kind) && LeadsTo(c, creator, l))
  }

  // An entity's only link is to the creator it names.
  lemma EntityLeads(c: Cell, creator: string, kind: Kind, id: string)
    requires kind == Work || kind == Asset || kind == Collection || kind == IntegrationAccount
    ensures id in IdsOf(c, kind, creator) <==> LeadsTo(c, creator, Key(kind, id))
  {
  }

  lemma PublicationLeads(c: Cell, creator: string, id: string)
    ensures id in OwnersOf(c, creator).publications <==> LeadsTo(c, creator, Key(Publication, id))
  {
    hide LeadsTo, IdsOf;
    var k := Key(Publication, id);
    if LeadsTo(c, creator, k) {
      LeadsFromWithin(c, creator, k);
    }
    if k in c {
      if c[k].workId.Some? {
        EntityLeads(c, creator, Work, c[k].workId.value);
        OneLinkLeads(c, creator, k, Key(Work, c[k].workId.value));
      } else if LeadsTo(c, creator, k) {
        LeadsByLink(c, creator, k);
      }
    }
  }

  lemma LeadsFromWithin(c: Cell, creator: string, k: Key)
    requires LeadsTo(c, creator, k) && k.kind != Creator
    ensures k in c
  {
  }

  lemma CreatorLeads(c: Cell, creator: string, id: string)
    ensures LeadsTo(c, creator, Key(Creator, id)) <==> id == creator
  {
  }

  // A record leads to the creator exactly when one of its links does.
  lemma NamedLeads(c: Cell, creator: string, k: Key, l: Key)
    requires k in c && l in Links(k.kind, c[k]) && LeadsTo(c, creator, l)
    ensures LeadsTo(c, creator, k)
  {
    LinksLeadLater(k.kind, c[k], l);
  }

  lemma SubjectLeads(c: Cell, creator: string, k: Key)
    requires k in c && (k.kind == ModerationEvidence || k.kind == ModerationHold || k.kind == ReviewCase)
    ensures IsSubject(OwnersOf(c, creator), creator, c[k].subjectId) <==> LeadsTo(c, creator, k)
  {
    hide LeadsTo;
    if LeadsTo(c, creator, k) {
      LeadsByLink(c, creator, k);
    }
    if c[k].subjectId.Some? {
      var s := c[k].subjectId.value;
      assert Links(k.kind, c[k]) == {Key(Creator, s), Key(Work, s), Key(Asset, s), Key(Collection, s)};
      CreatorLeads(c, creator, s);
      EntityLeads(c, creator, Work, s);
      EntityLeads(c, creator, Asset, s);
      EntityLeads(c, creator, Collection, s);
      if IsSubject(OwnersOf(c, creator), creator, c[k].subjectId) {
        var l := if s == creator then Key(Creator, s) else if s in OwnersOf(c, creator).works then Key(Work, s)
                 else if s in OwnersOf(c, creator).assets then Key(Asset, s) else Key(Collection, s);
        NamedLeads(c, creator, k, l);
      }
    }
  }

  lemma LeadsByLink(c: Cell, creator: string, k: Key)
    requires k.kind != Creator && LeadsTo(c, creator, k)
    ensures k in c && exists l :: l in Links(k.kind, c[k]) && LeadsTo(c, creator, l)
  {
  }

  lemma OneLinkLeads(c: Cell, creator: string, k: Key, l: Key)
    requires k in c && k.kind != Creator && Links(k.kind, c[k]) == {l}
    ensures LeadsTo(c, creator, k) <==> LeadsTo(c, creator, l)
  {
    hide LeadsTo;
    if LeadsTo(c, creator, k) {
      LeadsByLink(c, creator, k);
    }
    if LeadsTo(c, creator, l) {
      NamedLeads(c, creator, k, l);
    }
  }

  /** What retiring selects is exactly what leads to the creator. */
  lemma OwnedLeadsToCreator(c: Cell, creator: string, k: Key)
    requires k in c && k.kind != AuditEvent
    ensures Owned(c, creator, k) <==> LeadsTo(c, creator, k)
  {
    hide LeadsTo, IdsOf;
    var r := c[k];
    match k.kind
    case WorkMembership => MembershipLeads(c, creator, k);
    case ReconciliationSnapshot => LinkedLeads(c, creator, k, Publication, r.publicationId);
    case SyncCursor => LinkedLeads(c, creator, k, IntegrationAccount, r.integrationId);
    case IntegrationJob => LinkedLeads(c, creator, k, IntegrationAccount, r.integrationId);
    case PublicationIntent => LinkedLeads(c, creator, k, Work, r.workId);
    case Publication => LinkedLeads(c, creator, k, Work, r.workId);
    case ModerationEvidence => SubjectLeads(c, creator, k);
    case ModerationHold => SubjectLeads(c, creator, k);
    case ReviewCase => SubjectLeads(c, creator, k);
    case UsageEvent => LinkedLeads(c, creator, k, Creator, r.accountId);
    case CreditLot => LinkedLeads(c, creator, k, Creator, r.accountId);
    case CreditReservation => LinkedLeads(c, creator, k, Creator, r.accountId);
    case Balance => LinkedLeads(c, creator, k, Creator, r.accountId);
    case Creator => CreatorLeads(c, creator, k.id);
    case _ => LinkedLeads(c, creator, k, Creator, r.creatorId);
  }

  lemma LinkedLeads(c: Cell, creator: string, k: Key, kind: Kind, id: Option<string>)
    requires k in c && k.kind != Creator && Links(k.kind, c[k]) == KeyTo(kind, id)
    ensures id.None? ==> !LeadsTo(c, creator, k)
    ensures id.Some? ==> (LeadsTo(c, creator, k) <==> LeadsTo(c, creator, Key(kind, id.value)))
    ensures id.Some? && (kind == Work || kind == IntegrationAccount) ==>
      (id.value in IdsOf(c, kind, creator) <==> LeadsTo(c, creator, Key(kind, id.value)))
    ensures id.Some? && kind == Publication ==>
      (id.value in OwnersOf(c, creator).publications <==> LeadsTo(c, creator, Key(kind, id.value)))
    ensures id.Some? && kind == Creator ==> (LeadsTo(c, creator, Key(kind, id.value)) <==> id.value == creator)
  {
    hide LeadsTo;
    if id.Some? {
      OneLinkLeads(c, creator, k, Key(kind, id.value));
      if kind == Work || kind == IntegrationAccount {
        EntityLeads(c, creator, kind, id.value);
      }
      PublicationLeads(c, creator, id.value);
      CreatorLeads(c, creator, id.value);
    } else if LeadsTo(c, creator, k) {
      LeadsByLink(c, creator, k);
    }
  }

  lemma MembershipLeads(c: Cell, creator: string, k: Key)
    requires k in c && k.kind == WorkMembership
    ensures Owned(c, creator, k) <==> LeadsTo(c, creator, k)
  {
    hide LeadsTo;
    var r := c[k];
    if r.workId.Some? {
      EntityLeads(c, creator, Work, r.workId.value);
    }
    if r.collectionId.Some? {
      EntityLeads(c, creator, Collection, r.collectionId.value);
    }
    if Names(r.workId, IdsOf(c, Work, creator)) {
      NamedLeads(c, creator, k, Key(Work, r.workId.value));
    }
    if Names(r.collectionId, IdsOf(c, Collection, creator)) {
      NamedLeads(c, creator, k, Key(Collection, r.collectionId.value));
    }
    if LeadsTo(c, creator, k) {
      LeadsByLink(c, creator, k);
      var l :| l in Links(k.kind, c[k]) && LeadsTo(c, creator, l);
      assert l == Key(Work, l.id) || l == Key(Collection, l.id);
    }
  }

  // --------------------------------------------------------------- interrupted runs

  /** Part of the cell, from which only owned records are gone, and of a later phase only when none of an earlier is left. */
  ghost predicate Partway(c: Cell, d: Cell, creator: string) {
    && (forall k :: k in d ==> k in c && d[k] == c[k])
    && (forall k :: k in c && k !in d ==> Owned(c, creator, k))
    && (forall k, later :: later in c && later !in d && k in c && Owned(c, creator, k) && Phase(k.kind) < Phase(later.kind) ==> k !in d)
  }

  /** What is left in place: everything but what the creator owns. */
  ghost function Remaining(c: Cell, creator: string): Cell {
    map k | k in c && !Owned(c, creator, k) :: c[k]
  }

  /** A partial removal leaves every remaining record's link to the creator whole. */
  lemma {:induction false} LinksSurvive(c: Cell, d: Cell, creator: string, k: Key)
    requires Partway(c, d, creator) && k in d && k.kind != AuditEvent
    ensures LeadsTo(d, creator, k) <==> LeadsTo(c, creator, k)
    decreases 20 - Phase(k.kind)
  {
    if k != Key(Creator, creator) {
      if LeadsTo(d, creator, k) {
        var l :| l in Links(k.kind, d[k]) && Phase(k.kind) < Phase(l.kind) && LeadsTo(d, creator, l);
        LinksLeadLater(k.kind, d[k], l);
        if l in d {
          LinksSurvive(c, d, creator, l);
        }
        assert LeadsTo(c, creator, l);
      }
      if LeadsTo(c, creator, k) {
        var l :| l in Links(k.kind, c[k]) && Phase(k.kind) < Phase(l.kind) && LeadsTo(c, creator, l);
        LinksLeadLater(k.kind, c[k], l);
        OwnedLeadsToCreator(c, creator, k);
        if l in d {
          LinksSurvive(c, d, creator, l);
        } else {
          assert l !in c;
        }
        assert LeadsTo(d, creator, l);
      }
    }
  }

  lemma OwnershipSurvives(c: Cell, d: Cell, creator: string, k: Key)
    requires Partway(c, d, creator) && k in d
    ensures Owned(d, creator, k) <==> Owned(c, creator, k)
  {
    if k.kind != AuditEvent {
      LinksSurvive(c, d, creator, k);
      OwnedLeadsToCreator(c, creator, k);
      OwnedLeadsToCreator(d, creator, k);
    }
  }

  /** Starting again from a partial removal is still a partial removal of the first cell. */
  lemma PartwayAgain(c: Cell, d: Cell, e: Cell, creator: string)
    requires Partway(c, d, creator) && Partway(d, e, creator)
    ensures Partway(c, e, creator)
  {
    forall k | k in c && k !in e ensures Owned(c, creator, k) {
      if k in d {
        OwnershipSurvives(c, d, creator, k);
      }
    }
    forall k, later | later in c && later !in e && k in c && Owned(c, creator, k) && Phase(k.kind) < Phase(later.kind)
      ensures k !in e
    {
      if k in d && later in d {
        OwnershipSurvives(c, d, creator, k);
      }
    }
  }

  /** And what a finished run leaves of it is what an uninterrupted one leaves of the first cell. */
  lemma RemainingIsTheSame(c: Cell, d: Cell, creator: string)
    requires Partway(c, d, creator)
    ensures Remaining(d, creator) == Remaining(c, creator)
  {
    forall k ensures k in Remaining(d, creator) <==> k in Remaining(c, creator) {
      if k in d {
        OwnershipSurvives(c, d, creator, k);
      }
    }
    assert forall k :: k in Remaining(d, creator) ==> d[k] == c[k];
  }

  // --------------------------------------------------------------- the audit event

  function EventKey(checkpoint: string): Key {
    Key(AuditEvent, "regional_migration.source_retired:" + checkpoint)
  }

  function EventRecord(creator: string): Record {
    Record(None, None, None, None, None, Some(creator), None, "regional_migration.source_retired")
  }

  function WithEvent(c: Cell, creator: string, checkpoint: string): Cell {
    if EventKey(checkpoint) in c then c else c[EventKey(checkpoint) := EventRecord(creator)]
  }

  /** The cell after an uninterrupted retirement. */
  ghost function Retired(c: Cell, creator: string, checkpoint: string): Cell {
    WithEvent(Remaining(c, creator), creator, checkpoint)
  }

  lemma EventIsNobodys(c: Cell, creator: string, checkpoint: string, kind: Kind)
    requires kind != AuditEvent
    ensures IdsOf(WithEvent(c, creator, checkpoint), kind, creator) == IdsOf(c, kind, creator)
  {
  }

  lemma EventOwnsNothing(c: Cell, creator: string, checkpoint: string, k: Key)
    requires k in c
    ensures Owned(WithEvent(c, creator, checkpoint), creator, k) <==> Owned(c, creator, k)
  {
    hide IdsOf, Selected;
    var t := WithEvent(c, creator, checkpoint);
    EventIsNobodys(c, creator, checkpoint, Work);
    EventIsNobodys(c, creator, checkpoint, Asset);
    EventIsNobodys(c, creator, checkpoint, Collection);
    EventIsNobodys(c, creator, checkpoint, IntegrationAccount);
    assert OwnersOf(t, creator).publications == OwnersOf(c, creator).publications;
  }

  lemma AuditEventsAreNotOwned(c: Cell, creator: string, k: Key)
    requires k.kind == AuditEvent
    ensures !Owned(c, creator, k)
  {
  }

  // Nothing in a retired cell leads to the creator.
  lemma RetiredOwnsNothing(c: Cell, creator: string, checkpoint: string, k: Key)
    requires k in Retired(c, creator, checkpoint)
    ensures !Owned(Retired(c, creator, checkpoint), creator, k)
  {
    hide Owned;
    if k.kind == AuditEvent {
      AuditEventsAreNotOwned(Retired(c, creator, checkpoint), creator, k);
    } else {
      NothingOwnedRemains(c, creator, k);
      EventOwnsNothing(Remaining(c, creator), creator, checkpoint, k);
    }
  }

  lemma NothingOwnedRemains(c: Cell, creator: string, k: Key)
    requires k in Remaining(c, creator)
    ensures !Owned(Remaining(c, creator), creator, k)
  {
  }

  lemma {:induction false} RemainingLeads(c: Cell, creator: string, k: Key)
    requires LeadsTo(Remaining(c, creator), creator, k)
    ensures LeadsTo(c, creator, k)
    decreases 20 - Phase(k.kind)
  {
    var d := Remaining(c, creator);
    if k != Key(Creator, creator) {
      var l :| l in Links(k.kind, d[k]) && Phase(k.kind) < Phase(l.kind) && LeadsTo(d, creator, l);
      RemainingLeads(c, creator, l);
      assert l in Links(k.kind, c[k]);
    }
  }

  /** Retiring a retired creator changes nothing. */
  lemma RetiringTwice(c: Cell, creator: string, checkpoint: string)
    ensures Retired(Retired(c, creator, checkpoint), creator, checkpoint) == Retired(c, creator, checkpoint)
  {
    hide Owned;
    var t := Retired(c, creator, checkpoint);
    forall k | k in t ensures !Owned(t, creator, k) {
      RetiredOwnsNothing(c, creator, checkpoint, k);
    }
    assert Remaining(t, creator) == t;
  }

  /**
   A retired cell holds exactly the records that do not lead to the creator, each
   unchanged, every audit event among them, and the event of the retirement.
   */
  lemma RetirementTakesExactlyTheCreators(c: Cell, creator: string, checkpoint: string, k: Key)
    ensures var t := Retired(c, creator, checkpoint);
            && EventKey(checkpoint) in t
            && (k in c && k.kind != AuditEvent ==> (k in t <==> !LeadsTo(c, creator, k)))
            && (k in c && k.kind == AuditEvent ==> k in t)
            && (k in c && k in t ==> t[k] == c[k])
            && (k in t && k !in c ==> k == EventKey(checkpoint))
  {
    hide Owned, LeadsTo;
    if k.kind == AuditEvent {
      AuditEventsAreNotOwned(c, creator, k);
    } else if k in c {
      OwnedLeadsToCreator(c, creator, k);
    }
  }

  // --------------------------------------------------------------- the command

  class MigrationCell {
    var records: Cell

    constructor (records: Cell)
      ensures this.records == records
    {
      this.records := records;
    }

    /** One repository: remove what is selected, in whatever order it is listed, until the process stops. */
    method RemoveOwned(kind: Kind, owners: Owners, creator: string, budget: nat, ghost c: Cell, ghost start: Cell) returns (left: nat, done: bool)
      requires owners == OwnersOf(c, creator) && kind != AuditEvent && records == start && Partway(c, start, creator)
      requires forall k :: k in start && Owned(c, creator, k) ==> Phase(kind) <= Phase(k.kind)
      modifies this
      ensures Partway(c, records, creator)
      ensures done ==> forall k :: k in records && Owned(c, creator, k) ==> Phase(kind) < Phase(k.kind)
      ensures left <= budget && (!done ==> left == 0)
      ensures budget - left == |start| - |records|
    {
      hide Owned, Partway, Selected, OwnersOf, LeadsTo, Remaining, Retired;
      left := budget;
      var listed := set k | k in records && k.kind == kind;
      while listed != {}
        invariant left <= budget && budget - left == |start| - |records|
        invariant forall k :: k in records ==> k in start && records[k] == start[k]
        invariant forall k :: k in start && k !in records ==> k.kind == kind && Owned(c, creator, k) && k !in listed
        invariant forall k :: k in start && k.kind == kind && k !in listed && Owned(c, creator, k) ==> k !in records
        invariant forall k :: k in listed ==> k in records && k.kind == kind
        decreases listed
      {
        var k :| k in listed;
        SelectedIsOwned(c, start, creator, k);
        if Selected(owners, creator, k, records[k]) {
          if left == 0 {
            StoppedPartway(c, start, records, creator, kind);
            return 0, false;
          }
          left := left - 1;
          OneFewer(records, k);
          records := records - {k};
        }
        listed := listed - {k};
      }
      StoppedPartway(c, start, records, creator, kind);
      forall k | k in records && Owned(c, creator, k) ensures Phase(kind) < Phase(k.kind) {
        SamePhaseSameKind(kind, k.kind);
      }
      done := true;
    }

    // Every repository in order.
    method RemoveAll(creator: string, budget: nat) returns (left: nat, done: bool)
      modifies this
      ensures Partway(old(records), records, creator)
      ensures done ==> records == Remaining(old(records), creator)
      ensures left <= budget && (!done ==> left == 0)
      ensures budget - left == |old(records)| - |records|
    {
      hide Owned, OwnersOf;
      ghost var c := records;
      var owners := OwnersOf(records, creator);
      left, done := budget, true;
      PartwayAtFirst(c, creator);
      hide Partway;
      for phase := 0 to 20
        invariant Partway(c, records, creator) && done
        invariant left <= budget && budget - left == |c| - |records|
        invariant forall k :: k in records && Owned(c, creator, k) ==> phase <= Phase(k.kind)
      {
        PhaseKind(phase);
        left, done := RemoveOwned(PHASES[phase], owners, creator, left, c, records);
        if !done {
          return;
        }
      }
      AllRemoved(c, records, creator);
    }

    /**
     The whole command; it stops after as many writes as the process survives, and
     ends if that is more than there are records.
     */
    method Retire(creator: string, checkpoint: string, budget: nat) returns (done: bool)
      modifies this
      ensures budget > |old(records)| ==> done
      ensures !done ==> Partway(old(records), records, creator)
      ensures done ==> records == Retired(old(records), creator, checkpoint)
    {
      hide Partway, Remaining;
      var left: nat;
      left, done := RemoveAll(creator, budget);
      if done && EventKey(checkpoint) !in records {
        if left == 0 {
          return false;
        }
        records := records[EventKey(checkpoint) := EventRecord(creator)];
      }
    }

    /**
     Retiring stopped any number of times, after any number of removals each, and
     then run to its end: the records are those of one uninterrupted run.
     */
    method RetireThroughCrashes(creator: string, checkpoint: string, crashes: seq<nat>, enough: nat) returns (done: bool)
      modifies this
      ensures done ==> records == Retired(old(records), creator, checkpoint)
      ensures enough > |old(records)| + 1 ==> done
    {
      ghost var c := records;
      var finished := false;
      for i := 0 to |crashes|
        invariant finished ==> records == Retired(c, creator, checkpoint)
        invariant !finished ==> Partway(c, records, creator)
      {
        ghost var d := records;
        var ended := Retire(creator, checkpoint, crashes[i]);
        if finished {
          RetiringTwice(c, creator, checkpoint);
          RetiredIsStable(c, records, creator, checkpoint, ended);
        } else {
          AfterAttempt(c, d, records, creator, checkpoint, ended);
          finished := ended;
        }
      }
      ghost var d := records;
      if finished {
        RetiredSize(c, creator, checkpoint);
      } else {
        PartwaySize(c, records, creator);
      }
      done := Retire(creator, checkpoint, enough);
      if finished {
        RetiringTwice(c, creator, checkpoint);
      } else {
        AfterAttempt(c, d, records, creator, checkpoint, done);
      }
    }
  }

  lemma PartwayAtFirst(c: Cell, creator: string)
    ensures Partway(c, c, creator)
  {
  }

  lemma AllRemoved(c: Cell, d: Cell, creator: string)
    requires Partway(c, d, creator) && forall k :: k in d && Owned(c, creator, k) ==> 20 <= Phase(k.kind)
    ensures d == Remaining(c, creator)
  {
    hide Owned;
    forall k | k in d ensures k in c && d[k] == c[k] && !Owned(c, creator, k) {
      LastPhase(k.kind);
      if k.kind == AuditEvent {
        AuditEventsAreNotOwned(c, creator, k);
      }
    }
    assert d.Keys == Remaining(c, creator).Keys;
  }

  lemma LastPhase(kind: Kind)
    ensures Phase(kind) >= 20 ==> kind == AuditEvent
  {
  }

  lemma OneFewer(c: Cell, k: Key)
    requires k in c
    ensures |c - {k}| == |c| - 1
  {
    assert (c - {k}).Keys == c.Keys - {k};
  }

  lemma SmallerCell(c: Cell, d: Cell)
    requires d.Keys <= c.Keys
    ensures |d| <= |c|
  {
    SmallerSet(d.Keys, c.Keys);
  }

  lemma {:induction false} SmallerSet(a: set<Key>, b: set<Key>)
    requires a <= b
    ensures |a| <= |b|
  {
    if a != {} {
      var k :| k in a;
      SmallerSet(a - {k}, b - {k});
    }
  }

  lemma PartwaySize(c: Cell, d: Cell, creator: string)
    requires Partway(c, d, creator)
    ensures |d| <= |c|
  {
    SmallerCell(c, d);
  }

  lemma RetiredSize(c: Cell, creator: string, checkpoint: string)
    ensures |Retired(c, creator, checkpoint)| <= |c| + 1
  {
    var rest, t := Remaining(c, creator), Retired(c, creator, checkpoint);
    assert rest.Keys <= c.Keys;
    SmallerCell(c, rest);
    if t != rest {
      OneFewer(t, EventKey(checkpoint));
      assert t - {EventKey(checkpoint)} == rest;
    }
  }

  lemma SamePhaseSameKind(a: Kind, b: Kind)
    ensures Phase(a) == Phase(b) ==> a == b
  {
  }

  // Selecting by the ids collected at the start is owning in the cell as it was then.
  lemma SelectedIsOwned(c: Cell, d: Cell, creator: string, k: Key)
    requires Partway(c, d, creator) && k in d
    ensures Selected(OwnersOf(c, creator), creator, k, d[k]) <==> Owned(c, creator, k)
  {
    hide Selected;
  }

  lemma PhaseKind(phase: nat)
    requires phase < 20
    ensures Phase(PHASES[phase]) == phase && PHASES[phase] != AuditEvent
  {
  }

  // Removing only owned records of one phase, once no earlier one is left, is a partial removal.
  lemma StoppedPartway(c: Cell, start: Cell, d: Cell, creator: string, kind: Kind)
    requires Partway(c, start, creator) && forall k :: k in start && Owned(c, creator, k) ==> Phase(kind) <= Phase(k.kind)
    requires forall k :: k in d ==> k in start && d[k] == start[k]
    requires forall k :: k in start && k !in d ==> k.kind == kind && Owned(c, creator, k)
    ensures Partway(c, d, creator)
  {
  }

  lemma AfterAttempt(c: Cell, d: Cell, e: Cell, creator: string, checkpoint: string, done: bool)
    requires Partway(c, d, creator)
    requires if done then e == Retired(d, creator, checkpoint) else Partway(d, e, creator)
    ensures if done then e == Retired(c, creator, checkpoint) else Partway(c, e, creator)
  {
    if done {
      RemainingIsTheSame(c, d, creator);
    } else {
      PartwayAgain(c, d, e, creator);
    }
  }

  // Nothing is left to remove once a run has finished, so a further one, stopped or not, leaves the cell as it is.
  lemma RetiredIsStable(c: Cell, e: Cell, creator: string, checkpoint: string, done: bool)
    requires var t := Retired(c, creator, checkpoint);
             if done then e == Retired(t, creator, checkpoint) else Partway(t, e, creator)
    ensures e == Retired(c, creator, checkpoint)
  {
    hide Owned, Retired;
    var t := Retired(c, creator, checkpoint);
    RetiringTwice(c, creator, checkpoint);
    if !done {
      forall k | k in t ensures k in e {
        RetiredOwnsNothing(c, creator, checkpoint, k);
      }
    }
  }
}
