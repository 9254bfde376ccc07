/** What a retirement takes of each kind, and the event it leaves. */
module RetirementEffects {
  import opened Common
  import opened Retirement

  /** A stored record of the kind and id that names the creator. */
  ghost predicate IsCreators(c: Cell, creator: string, kind: Kind, id: string) {
    Key(kind, id) in c && c[Key(kind, id)].creatorId == Some(creator)
  }

  ghost predicate IsPublicationOf(c: Cell, creator: string, id: string) {
    && Key(Publication, id) in c && c[Key(Publication, id)].workId.Some?
    && IsCreators(c, creator, Work, c[Key(Publication, id)].workId.value)
  }

  ghost predicate IsAbout(c: Cell, creator: string, subject: string) {
    || subject == creator
    || IsCreators(c, creator, Work, subject) || IsCreators(c, creator, Asset, subject) || IsCreators(c, creator, Collection, subject)
  }

  lemma IdsAre(c: Cell, kind: Kind, creator: string, id: string)
    ensures id in IdsOf(c, kind, creator) <==> IsCreators(c, creator, kind, id)
  {
    if IsCreators(c, creator, kind, id) {
      assert Key(kind, id).id == id;
    }
  }

  lemma PublicationsAre(c: Cell, creator: string, id: string)
    ensures id in OwnersOf(c, creator).publications <==> IsPublicationOf(c, creator, id)
  {
    var k := Key(Publication, id);
    if k in c && c[k].workId.Some? {
      IdsAre(c, Work, creator, c[k].workId.value);
      assert k.id == id;
    }
  }

  ghost predicate IsTaken(c: Cell, creator: string, k: Key)
    requires k in c
  {
    var r := c[k];
    match k.kind
    case Creator => k.id == creator
    case Work => r.creatorId == Some(creator)
    case Collection => r.creatorId == Some(creator)
    case Asset => r.creatorId == Some(creator)
    case IntegrationAccount => r.creatorId == Some(creator)
    case ImportCheckpoint => r.creatorId == Some(creator)
    case ExportManifest => r.creatorId == Some(creator)
    case Balance => r.accountId == Some(creator)
    case CreditReservation => r.accountId == Some(creator)
    case CreditLot => r.accountId == Some(creator)
    case UsageEvent => r.accountId == Some(creator)
    case ReviewCase => r.subjectId.Some? && IsAbout(c, creator, r.subjectId.value)
    case ModerationHold => r.subjectId.Some? && IsAbout(c, creator, r.subjectId.value)
    case ModerationEvidence => r.subjectId.Some? && IsAbout(c, creator, r.subjectId.value)
    case Publication => r.workId.Some? && IsCreators(c, creator, Work, r.workId.value)
    case PublicationIntent => r.workId.Some? && IsCreators(c, creator, Work, r.workId.value)
    case IntegrationJob => r.integrationId.Some? && IsCreators(c, creator, IntegrationAccount, r.integrationId.value)
    case SyncCursor => r.integrationId.Some? && IsCreators(c, creator, IntegrationAccount, r.integrationId.value)
    case ReconciliationSnapshot => r.publicationId.Some? && IsPublicationOf(c, creator, r.publicationId.value)
    case WorkMembership =>
      || (r.workId.Some? && IsCreators(c, creator, Work, r.workId.value))
      || (r.collectionId.Some? && IsCreators(c, creator, Collection, r.collectionId.value))
    case AuditEvent => false
  }

  /** A record is gone after a retirement if and only if it is taken, kind by kind; the retirement's event is there. */
  lemma RetirementTakes(c: Cell, creator: string, checkpoint: string, k: Key)
    requires k in c
    ensures k in Retired(c, creator, checkpoint) <==> !IsTaken(c, creator, k)
    ensures k in Retired(c, creator, checkpoint) ==> Retired(c, creator, checkpoint)[k] == c[k]
  {
    TakenIsOwned(c, creator, k);
    RemainingAre(c, creator, k);
    hide Owned, IsTaken, Remaining, WithEvent;
    EventIsAdded(Remaining(c, creator), creator, checkpoint, k);
    if k.kind == AuditEvent {
      AuditEventsAreNotOwned(c, creator, k);
    }
  }

  lemma EventIsAdded(c: Cell, creator: string, checkpoint: string, k: Key)
    ensures k.kind != AuditEvent && k in WithEvent(c, creator, checkpoint) ==> k in c
    ensures k in c ==> k in WithEvent(c, creator, checkpoint) && WithEvent(c, creator, checkpoint)[k] == c[k]
  {
  }

  lemma RemainingAre(c: Cell, creator: string, k: Key)
    requires k in c
    ensures k in Remaining(c, creator) <==> !Owned(c, creator, k)
    ensures k in Remaining(c, creator) ==> Remaining(c, creator)[k] == c[k]
  {
    hide Owned;
  }

  lemma TakenIsOwned(c: Cell, creator: string, k: Key)
    requires k in c
    ensures Owned(c, creator, k) <==> IsTaken(c, creator, k)
  {
    hide IdsOf, IsCreators, IsPublicationOf;
    var r := c[k];
    NamesAre(c, creator, Work, r.workId);
    NamesAre(c, creator, Collection, r.collectionId);
    NamesAre(c, creator, IntegrationAccount, r.integrationId);
    NamedPublicationsAre(c, creator, r.publicationId);
    SubjectsAre(c, creator, r.subjectId);
    hide IsSubject, IsAbout, Names;
  }

  lemma NamesAre(c: Cell, creator: string, kind: Kind, id: Option<string>)
    ensures Names(id, IdsOf(c, kind, creator)) <==> id.Some? && IsCreators(c, creator, kind, id.value)
  {
    if id.Some? {
      IdsAre(c, kind, creator, id.value);
    }
  }

  lemma NamedPublicationsAre(c: Cell, creator: string, id: Option<string>)
    ensures Names(id, OwnersOf(c, creator).publications) <==> id.Some? && IsPublicationOf(c, creator, id.value)
  {
    if id.Some? {
      PublicationsAre(c, creator, id.value);
    }
  }

  lemma SubjectsAre(c: Cell, creator: string, subject: Option<string>)
    ensures IsSubject(OwnersOf(c, creator), creator, subject) <==> subject.Some? && IsAbout(c, creator, subject.value)
  {
    hide IdsOf, IsCreators;
    NamesAre(c, creator, Work, subject);
    NamesAre(c, creator, Asset, subject);
    NamesAre(c, creator, Collection, subject);
  }

  /** One event is written for a checkpoint, about the creator, unless it is there already. */
  lemma RetirementIsAudited(c: Cell, creator: string, checkpoint: string)
    ensures var k := Key(AuditEvent, "regional_migration.source_retired:" + checkpoint);
            && k in Retired(c, creator, checkpoint)
            && Retired(c, creator, checkpoint)[k] ==
               (if k in c then c[k] else Record(None, None, None, None, None, Some(creator), None, "regional_migration.source_retired"))
            && Retired(c, creator, checkpoint).Keys <= c.Keys + {k}
  {
    var k := Key(AuditEvent, "regional_migration.source_retired:" + checkpoint);
    AuditEventsAreNotOwned(c, creator, k);
    hide Owned;
  }
}
