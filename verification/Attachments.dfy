/**
 The attachment lists of one tenant's Works (adapters/local/src/creator-library.ts:212-380):
 each commit reads rows, builds a new list and overwrites the rows, or changes nothing.
 */
module Attachments {
  import opened Common

  datatype WorkStatus = Live | Archived | Deleted

  // references are the asset ids its saved body and media mention.
  datatype Work = Work(creatorId: string, status: WorkStatus, revision: int, primaryAssetId: Option<string>, references: seq<string>)

  datatype Role = Primary | Content

  datatype Attachment = Attachment(workId: string, assetId: string, position: int, role: Role)

  // processed: stored privately, with its bytes checked and its current version processed.
  datatype Asset = Asset(creatorId: string, isDeleted: bool, isPrivate: bool, processed: bool, checksum: string)

  datatype Library = Library(works: map<string, Work>, assets: map<string, Asset>, members: map<string, seq<Attachment>>)

  datatype Error = RevisionConflict | InvalidAsset | NotFound | AssetInUse | WorkExists | SlugTaken | InvalidAttachment

  const MAX_SAFE := 9007199254740991

  function Members(l: Library, work: string): seq<Attachment> {
    if work in l.members then l.members[work] else []
  }

  predicate Attached(list: seq<Attachment>, work: string, asset: string) {
    exists i :: 0 <= i < |list| && list[i].workId == work && list[i].assetId == asset
  }

  function NextPosition(list: seq<Attachment>): int {
    if list == [] then 0
    else if |list| == 1 then list[0].position + 1
    else Max(NextPosition(list[..|list| - 1]), list[|list| - 1].position + 1)
  }

  // The Work a commit was reviewed against.
  predicate Reviewed(l: Library, work: string, creator: string, expected: int) {
    && work in l.works && l.works[work].creatorId == creator && l.works[work].status != Deleted
    && 1 <= expected <= MAX_SAFE && l.works[work].revision == expected
  }

  // --------------------------------------------------------------- attaching

  /** A freshly uploaded asset is stored and attached at the end. */
  function Attach(l: Library, work: string, creator: string, previousRevision: int, revision: int, asset: Asset, attachment: Attachment): Result<Library, Error> {
    if work !in l.works || l.works[work].revision != previousRevision || revision != previousRevision + 1
       || l.works[work].creatorId != creator || l.works[work].status == Deleted
    then Err(RevisionConflict)
    else if asset.creatorId != creator || attachment.workId != work || attachment.position != NextPosition(Members(l, work)) then Err(InvalidAttachment)
    else if attachment.assetId in l.assets then Err(InvalidAsset)
    else
      var w := l.works[work];
      var primary := if w.primaryAssetId.Some? && w.primaryAssetId.value != "" then w.primaryAssetId else Some(attachment.assetId);
      Ok(Library(l.works[work := w.(primaryAssetId := primary, revision := revision)], l.assets[attachment.assetId := asset],
                 l.members[work := Members(l, work) + [attachment]]))
  }

  predicate Usable(w: Work, creator: string) {
    w.creatorId == creator && w.status == Live
  }

  /** An asset of another Work is attached at the end; one attached already changes nothing. */
  function AttachExisting(l: Library, work: string, source: string, asset: string, creator: string, expected: int, checksum: string): Result<Library, Error> {
    if work !in l.works || source !in l.works || !Usable(l.works[work], creator) || !Usable(l.works[source], creator)
       || asset !in l.assets || l.assets[asset].creatorId != creator || l.assets[asset].isDeleted || !l.assets[asset].isPrivate
       || l.assets[asset].checksum != checksum || !l.assets[asset].processed || !Attached(Members(l, source), source, asset)
    then Err(InvalidAsset)
    else if !(-MAX_SAFE <= expected <= MAX_SAFE) || l.works[work].revision != expected then Err(RevisionConflict)
    else if exists i :: 0 <= i < |Members(l, work)| && Members(l, work)[i].assetId == asset then Ok(l)
    else
      var w := l.works[work];
      var primary := if w.primaryAssetId.Some? && w.primaryAssetId.value != "" then w.primaryAssetId else Some(asset);
      var member := Attachment(work, asset, NextPosition(Members(l, work)), if primary == Some(asset) then Primary else Content);
      Ok(l.(works := l.works[work := w.(primaryAssetId := primary, revision := w.revision + 1)],
            members := l.members[work := Members(l, work) + [member]]))
  }

  // --------------------------------------------------------------- detaching and ordering

  function Without(list: seq<Attachment>, asset: string): seq<Attachment> {
    if list == [] then [] else Without(list[..|list| - 1], asset) + (if list[|list| - 1].assetId != asset then [list[|list| - 1]] else [])
  }

  function InsertByPosition(sorted: seq<Attachment>, a: Attachment): seq<Attachment> {
    if sorted == [] then [a]
    else
      var last := sorted[|sorted| - 1];
      if a.position < last.position then InsertByPosition(sorted[..|sorted| - 1], a) + [last] else sorted + [a]
  }

  function SortByPosition(list: seq<Attachment>): seq<Attachment> {
    if list == [] then [] else InsertByPosition(SortByPosition(list[..|list| - 1]), list[|list| - 1])
  }

  function RoleOf(asset: string, primary: Option<string>): Role {
    if primary == Some(asset) then Primary else Content
  }

  /** Positions as listed, and the primary's role. */
  function Renumber(list: seq<Attachment>, primary: Option<string>): (r: seq<Attachment>)
    ensures |r| == |list|
  {
    if list == [] then []
    else
      var last := list[|list| - 1];
      Renumber(list[..|list| - 1], primary) + [last.(position := |list| - 1, role := RoleOf(last.assetId, primary))]
  }

  function PrimaryAfter(w: Work, remaining: seq<Attachment>): Option<string> {
    if exists i :: 0 <= i < |remaining| && Some(remaining[i].assetId) == w.primaryAssetId then w.primaryAssetId
    else if remaining == [] then None else Some(remaining[0].assetId)
  }

  function Detach(l: Library, work: string, asset: string, creator: string, expected: int): Result<Library, Error> {
    if !Reviewed(l, work, creator, expected) then Err(RevisionConflict)
    else if !Attached(Members(l, work), work, asset) then Err(NotFound)
    else if asset in l.works[work].references then Err(AssetInUse)
    else
      var remaining := SortByPosition(Without(Members(l, work), asset));
      var primary := PrimaryAfter(l.works[work], remaining);
      Ok(l.(works := l.works[work := l.works[work].(primaryAssetId := primary, revision := expected + 1)],
            members := l.members[work := Renumber(remaining, primary)]))
  }

  predicate Distinct(ids: seq<string>) {
    forall i, j :: 0 <= i < j < |ids| ==> ids[i] != ids[j]
  }

  function AssetIds(list: seq<Attachment>): (ids: seq<string>)
    ensures |ids| == |list| && forall i :: 0 <= i < |ids| ==> ids[i] == list[i].assetId
  {
    seq(|list|, i requires 0 <= i < |list| => list[i].assetId)
  }

  function Find(list: seq<Attachment>, asset: string): (a: Option<Attachment>)
    ensures a.Some? ==> a.value in list && a.value.assetId == asset
    ensures a.None? ==> asset !in AssetIds(list)
  {
    if list == [] then None else if list[0].assetId == asset then Some(list[0])
    else
      var rest := Find(list[1..], asset);
      assert rest.None? ==> forall i :: 0 <= i < |list| ==> AssetIds(list)[i] != asset by {
        assert forall i :: 1 <= i < |list| ==> list[i] == list[1..][i - 1] && AssetIds(list[1..])[i - 1] == list[i].assetId;
      }
      rest
  }

  predicate NamesEveryAsset(list: seq<Attachment>, work: string, ids: seq<string>) {
    && Distinct(ids) && Distinct(AssetIds(list)) && |ids| == |list| && "" !in ids
    && forall i :: 0 <= i < |list| ==> list[i].workId == work && list[i].assetId in ids
  }

  function Ordered(list: seq<Attachment>, ids: seq<string>): seq<Attachment> {
    if ids == [] then []
    else
      var found := Find(list, ids[|ids| - 1]);
      Ordered(list, ids[..|ids| - 1]) + (if found.Some? then [found.value.(position := |ids| - 1)] else [])
  }

  function Reorder(l: Library, work: string, ids: seq<string>, creator: string, expected: int): Result<Library, Error> {
    if !Reviewed(l, work, creator, expected) then Err(RevisionConflict)
    else if !NamesEveryAsset(Members(l, work), work, ids) then Err(InvalidAsset)
    else
      Ok(l.(works := l.works[work := l.works[work].(revision := expected + 1)],
            members := if work in l.members then l.members[work := Ordered(Members(l, work), ids)] else l.members))
  }

  function WithRoles(list: seq<Attachment>, primary: string): (r: seq<Attachment>)
    ensures |r| == |list| && forall i :: 0 <= i < |r| ==> r[i] == list[i].(role := RoleOf(list[i].assetId, Some(primary)))
  {
    seq(|list|, i requires 0 <= i < |list| => list[i].(role := RoleOf(list[i].assetId, Some(primary))))
  }

  function SetPrimary(l: Library, work: string, asset: string, creator: string, expected: int): Result<Library, Error> {
    if !Reviewed(l, work, creator, expected) then Err(RevisionConflict)
    else if asset !in l.assets || l.assets[asset].creatorId != creator || l.assets[asset].isDeleted || !l.assets[asset].isPrivate
            || !Attached(Members(l, work), work, asset)
    then Err(InvalidAsset)
    else
      Ok(l.(works := l.works[work := l.works[work].(primaryAssetId := Some(asset), revision := expected + 1)],
            members := l.members[work := WithRoles(Members(l, work), asset)]))
  }

  // --------------------------------------------------------------- saving Works

  // slugFree: no other record of the creator has the slug the Work is saved with.
  function CreateWork(l: Library, id: string, w: Work, slugFree: bool): Result<Library, Error> {
    if w.references != [] then Err(InvalidAsset)
    else if id in l.works then Err(WorkExists)
    else if !slugFree then Err(SlugTaken)
    else Ok(l.(works := l.works[id := w]))
  }

  predicate MayReference(l: Library, work: string, creator: string, asset: string) {
    && asset in l.assets && l.assets[asset].creatorId == creator && !l.assets[asset].isDeleted && l.assets[asset].isPrivate
    && Attached(Members(l, work), work, asset)
  }

  function SaveWork(l: Library, id: string, w: Work, slugFree: bool): Result<Library, Error> {
    if id !in l.works || l.works[id].creatorId != w.creatorId || l.works[id].revision != w.revision - 1 then Err(RevisionConflict)
    else if exists i :: 0 <= i < |w.references| && !MayReference(l, id, w.creatorId, w.references[i]) then Err(InvalidAsset)
    else if !slugFree then Err(SlugTaken)
    else Ok(l.(works := l.works[id := w]))
  }

  // --------------------------------------------------------------- runs

  datatype Event =
    | Attaching(work: string, creator: string, previousRevision: int, revision: int, asset: Asset, attachment: Attachment)
    | AttachingExisting(work: string, source: string, assetId: string, creator: string, expected: int, checksum: string)
    | Detaching(work: string, assetId: string, creator: string, expected: int)
    | Reordering(work: string, ids: seq<string>, creator: string, expected: int)
    | SettingPrimary(work: string, assetId: string, creator: string, expected: int)
    | Creating(work: string, created: Work, slugFree: bool)
    | Saving(work: string, saved: Work, slugFree: bool)
    // Processing, deletion and whatever else rewrites a stored asset.
    | AssetChanging(assetId: string, asset: Asset)

  function Committed(l: Library, r: Result<Library, Error>): Library {
    if r.Ok? then r.value else l
  }

  function Step(l: Library, e: Event): Library {
    match e
    case Attaching(work, creator, previous, revision, asset, attachment) => Committed(l, Attach(l, work, creator, previous, revision, asset, attachment))
    case AttachingExisting(work, source, asset, creator, expected, checksum) => Committed(l, AttachExisting(l, work, source, asset, creator, expected, checksum))
    case Detaching(work, asset, creator, expected) => Committed(l, Detach(l, work, asset, creator, expected))
    case Reordering(work, ids, creator, expected) => Committed(l, Reorder(l, work, ids, creator, expected))
    case SettingPrimary(work, asset, creator, expected) => Committed(l, SetPrimary(l, work, asset, creator, expected))
    case Creating(work, created, slugFree) => Committed(l, CreateWork(l, work, created, slugFree))
    case Saving(work, saved, slugFree) => Committed(l, SaveWork(l, work, saved, slugFree))
    case AssetChanging(id, asset) => if id in l.assets then l.(assets := l.assets[id := asset]) else l
  }

  function Run(l: Library, events: seq<Event>): Library
    decreases |events|
  {
    if events == [] then l else Run(Step(l, events[0]), events[1..])
  }

  const EMPTY := Library(map[], map[], map[])

  // --------------------------------------------------------------- the invariant

  /** Distinct assets, each at its own index, all of this Work. */
  ghost predicate ListOk(list: seq<Attachment>, work: string) {
    && Distinct(AssetIds(list))
    && forall i :: 0 <= i < |list| ==> list[i].position == i && list[i].workId == work
  }

  ghost predicate WorkOk(l: Library, work: string) {
    && ListOk(Members(l, work), work)
    && (forall i :: 0 <= i < |Members(l, work)| ==> Members(l, work)[i].assetId in l.assets)
    && (work in l.works ==> forall r :: r in l.works[work].references ==> r in AssetIds(Members(l, work)))
    && (work in l.members ==> work in l.works)
  }

  ghost predicate Inv(l: Library) {
    forall work :: WorkOk(l, work)
  }

  // --------------------------------------------------------------- lists

  lemma {:induction false} NextIsLength(list: seq<Attachment>)
    requires forall i :: 0 <= i < |list| ==> list[i].position == i
    ensures NextPosition(list) == |list|
  {
    if |list| > 1 {
      NextIsLength(list[..|list| - 1]);
    }
  }

  lemma AppendKeepsList(list: seq<Attachment>, a: Attachment, work: string)
    requires ListOk(list, work) && a.workId == work && a.position == |list| && a.assetId !in AssetIds(list)
    ensures ListOk(list + [a], work) && AssetIds(list + [a]) == AssetIds(list) + [a.assetId]
  {
  }

  ghost predicate Rising(list: seq<Attachment>) {
    forall i, j :: 0 <= i < j < |list| ==> list[i].position < list[j].position
  }

  lemma {:induction false} WithoutIs(list: seq<Attachment>, asset: string)
    requires Rising(list)
    ensures Rising(Without(list, asset))
    ensures forall a :: a in Without(list, asset) <==> a in list && a.assetId != asset
  {
    if list != [] {
      var rest, last := list[..|list| - 1], list[|list| - 1];
      assert list == rest + [last];
      WithoutIs(rest, asset);
      forall a | a in Without(rest, asset) ensures a.position < last.position {
        var i :| 0 <= i < |rest| && rest[i] == a;
      }
    }
  }

  lemma {:induction false} SortedAlready(list: seq<Attachment>)
    requires Rising(list)
    ensures SortByPosition(list) == list
  {
    if list != [] {
      SortedAlready(list[..|list| - 1]);
      assert list == list[..|list| - 1] + [list[|list| - 1]];
    }
  }

  lemma {:induction false} RenumberedAre(list: seq<Attachment>, primary: Option<string>)
    ensures forall i :: 0 <= i < |list| ==>
      Renumber(list, primary)[i] == list[i].(position := i, role := RoleOf(list[i].assetId, primary))
  {
    if list != [] {
      RenumberedAre(list[..|list| - 1], primary);
    }
  }

  lemma RisingFromInvariant(list: seq<Attachment>, work: string)
    requires ListOk(list, work)
    ensures Rising(list)
  {
  }

  lemma DistinctSub(list: seq<Attachment>, sub: seq<Attachment>, work: string)
    requires ListOk(list, work) && Rising(sub) && forall a :: a in sub ==> a in list
    ensures Distinct(AssetIds(sub)) && forall i :: 0 <= i < |sub| ==> sub[i].workId == work
  {
    forall i, j | 0 <= i < j < |sub| ensures AssetIds(sub)[i] != AssetIds(sub)[j] {
      assert sub[i] in list && sub[j] in list;
      var x :| 0 <= x < |list| && list[x] == sub[i];
      var y :| 0 <= y < |list| && list[y] == sub[j];
      assert AssetIds(list)[x] == sub[i].assetId && AssetIds(list)[y] == sub[j].assetId;
    }
    forall i | 0 <= i < |sub| ensures sub[i].workId == work {
      assert sub[i] in list;
    }
  }

  lemma KeptIds(list: seq<Attachment>, asset: string, id: string)
    requires Rising(list)
    ensures id in AssetIds(Without(list, asset)) <==> id in AssetIds(list) && id != asset
  {
    var kept := Without(list, asset);
    WithoutIs(list, asset);
    hide Without, Rising;
    if id in AssetIds(kept) {
      var i :| 0 <= i < |kept| && AssetIds(kept)[i] == id;
      assert kept[i] in list;
      var j :| 0 <= j < |list| && list[j] == kept[i];
      assert AssetIds(list)[j] == id;
    }
    if id in AssetIds(list) && id != asset {
      var i :| 0 <= i < |list| && AssetIds(list)[i] == id;
      assert list[i] in kept;
      var j :| 0 <= j < |kept| && kept[j] == list[i];
      assert AssetIds(kept)[j] == id;
    }
  }

  lemma RenumberedList(list: seq<Attachment>, work: string, primary: Option<string>)
    requires Distinct(AssetIds(list)) && forall i :: 0 <= i < |list| ==> list[i].workId == work
    ensures ListOk(Renumber(list, primary), work) && AssetIds(Renumber(list, primary)) == AssetIds(list)
  {
  }

  lemma DetachedList(list: seq<Attachment>, work: string, asset: string, primary: Option<string>)
    requires ListOk(list, work)
    ensures var after := Renumber(SortByPosition(Without(list, asset)), primary);
            && ListOk(after, work)
            && (forall id :: id in AssetIds(after) <==> id in AssetIds(list) && id != asset)
  {
    hide Without, SortByPosition, Renumber, ListOk;
    var kept := Without(list, asset);
    RisingFromInvariant(list, work);
    WithoutIs(list, asset);
    SortedAlready(kept);
    DistinctSub(list, kept, work);
    RenumberedList(kept, work, primary);
    forall id ensures id in AssetIds(kept) <==> id in AssetIds(list) && id != asset {
      KeptIds(list, asset, id);
    }
  }

  lemma {:induction false} OrderedAre(list: seq<Attachment>, ids: seq<string>, work: string)
    requires (forall i :: 0 <= i < |ids| ==> ids[i] in AssetIds(list)) && forall i :: 0 <= i < |list| ==> list[i].workId == work
    ensures |Ordered(list, ids)| == |ids|
    ensures forall i :: 0 <= i < |ids| ==>
      Ordered(list, ids)[i].assetId == ids[i] && Ordered(list, ids)[i].position == i && Ordered(list, ids)[i].workId == work
  {
    if ids != [] {
      OrderedAre(list, ids[..|ids| - 1], work);
      assert ids[|ids| - 1] in AssetIds(list);
    }
  }

  // As many distinct names as there are attached assets, covering all of them, are those assets.
  lemma NamesAreTheAssets(list: seq<Attachment>, work: string, ids: seq<string>)
    requires NamesEveryAsset(list, work, ids)
    ensures forall i :: 0 <= i < |ids| ==> ids[i] in AssetIds(list)
    ensures forall a :: a in AssetIds(list) <==> a in ids
  {
    var have, named := set a | a in AssetIds(list), set a | a in ids;
    DistinctSize(AssetIds(list));
    DistinctSize(ids);
    assert have <= named;
    SubsetOfSameSize(have, named);
    assert forall i :: 0 <= i < |ids| ==> ids[i] in named;
  }

  lemma {:induction false} DistinctSize(ids: seq<string>)
    requires Distinct(ids)
    ensures |set a | a in ids| == |ids|
  {
    if ids != [] {
      var rest, last := ids[..|ids| - 1], ids[|ids| - 1];
      DistinctSize(rest);
      assert ids == rest + [last];
      assert (set a | a in ids) == (set a | a in rest) + {last};
      assert last !in rest;
    }
  }

  lemma SubsetOfSameSize(a: set<string>, b: set<string>)
    requires a <= b && |a| == |b|
    ensures a == b
  {
    assert b == a + (b - a);
    assert |b - a| == 0;
  }

  lemma ReorderedList(list: seq<Attachment>, work: string, ids: seq<string>)
    requires ListOk(list, work) && NamesEveryAsset(list, work, ids)
    ensures ListOk(Ordered(list, ids), work) && AssetIds(Ordered(list, ids)) == ids
    ensures forall a :: a in AssetIds(list) <==> a in ids
  {
    NamesAreTheAssets(list, work, ids);
    OrderedAre(list, ids, work);
  }

  // --------------------------------------------------------------- every commit

  // One Work's list replaced, over the same assets or more.
  lemma ListReplaced(l: Library, t: Library, work: string, list: seq<Attachment>)
    requires Inv(l) && work in l.works && t.members == l.members[work := list] && ListOk(list, work)
    requires t.works.Keys == l.works.Keys && (forall w :: w in l.works ==> t.works[w].references == l.works[w].references)
    requires l.assets.Keys <= t.assets.Keys && forall i :: 0 <= i < |list| ==> list[i].assetId in t.assets
    requires forall r :: r in l.works[work].references ==> r in AssetIds(list)
    ensures Inv(t)
  {
    forall w ensures WorkOk(t, w) {
      assert WorkOk(l, w);
    }
  }

  lemma AttachedIsListed(l: Library, work: string, asset: string)
    requires Inv(l)
    ensures Attached(Members(l, work), work, asset) <==> asset in AssetIds(Members(l, work))
  {
    assert WorkOk(l, work);
    var list := Members(l, work);
    if asset in AssetIds(list) {
      var i :| 0 <= i < |list| && AssetIds(list)[i] == asset;
      assert list[i].workId == work && list[i].assetId == asset;
    }
  }

  lemma AttachKeepsInv(l: Library, work: string, creator: string, previous: int, revision: int, asset: Asset, attachment: Attachment)
    requires Inv(l) && Attach(l, work, creator, previous, revision, asset, attachment).Ok?
    ensures Inv(Attach(l, work, creator, previous, revision, asset, attachment).value)
  {
    var t := Attach(l, work, creator, previous, revision, asset, attachment).value;
    assert WorkOk(l, work);
    NextIsLength(Members(l, work));
    AppendKeepsList(Members(l, work), attachment, work);
    ListReplaced(l, t, work, Members(l, work) + [attachment]);
  }

  lemma AttachExistingKeepsInv(l: Library, work: string, source: string, asset: string, creator: string, expected: int, checksum: string)
    requires Inv(l) && AttachExisting(l, work, source, asset, creator, expected, checksum).Ok?
    ensures Inv(AttachExisting(l, work, source, asset, creator, expected, checksum).value)
  {
    var t := AttachExisting(l, work, source, asset, creator, expected, checksum).value;
    assert WorkOk(l, work);
    if t != l {
      var list := Members(l, work);
      var member := Members(t, work)[|list|];
      NextIsLength(list);
      AppendKeepsList(list, member, work);
      ListReplaced(l, t, work, list + [member]);
    }
  }

  lemma DetachKeepsInv(l: Library, work: string, asset: string, creator: string, expected: int)
    requires Inv(l) && Detach(l, work, asset, creator, expected).Ok?
    ensures Inv(Detach(l, work, asset, creator, expected).value)
  {
    hide SortByPosition, Without, PrimaryAfter, Renumber;
    assert WorkOk(l, work);
    var list, t := Members(l, work), Detach(l, work, asset, creator, expected).value;
    DetachedList(list, work, asset, PrimaryAfter(l.works[work], SortByPosition(Without(list, asset))));
    var after := Members(t, work);
    forall i | 0 <= i < |after| ensures after[i].assetId in t.assets {
      assert AssetIds(after)[i] in AssetIds(list);
    }
    ListReplaced(l, t, work, after);
  }

  lemma ReorderKeepsInv(l: Library, work: string, ids: seq<string>, creator: string, expected: int)
    requires Inv(l) && Reorder(l, work, ids, creator, expected).Ok?
    ensures Inv(Reorder(l, work, ids, creator, expected).value)
  {
    hide Ordered, NamesEveryAsset;
    assert WorkOk(l, work);
    var list, t := Members(l, work), Reorder(l, work, ids, creator, expected).value;
    ReorderedList(list, work, ids);
    if work in l.members {
      var after := Members(t, work);
      forall i | 0 <= i < |after| ensures after[i].assetId in t.assets {
        assert AssetIds(after)[i] in AssetIds(list);
      }
      ListReplaced(l, t, work, after);
    } else {
      SameLists(l, t);
    }
  }

  lemma SetPrimaryKeepsInv(l: Library, work: string, asset: string, creator: string, expected: int)
    requires Inv(l) && SetPrimary(l, work, asset, creator, expected).Ok?
    ensures Inv(SetPrimary(l, work, asset, creator, expected).value)
  {
    assert WorkOk(l, work);
    var list, t := Members(l, work), SetPrimary(l, work, asset, creator, expected).value;
    assert AssetIds(WithRoles(list, asset)) == AssetIds(list);
    ListReplaced(l, t, work, WithRoles(list, asset));
  }

  lemma SameLists(l: Library, t: Library)
    requires Inv(l) && t.members == l.members && l.assets.Keys <= t.assets.Keys && l.works.Keys <= t.works.Keys
    requires forall w :: w in t.works && !(w in l.works && t.works[w].references == l.works[w].references) ==>
      forall r :: r in t.works[w].references ==> r in AssetIds(Members(l, w))
    ensures Inv(t)
  {
    forall w ensures WorkOk(t, w) {
      assert WorkOk(l, w);
    }
  }

  lemma SavingKeepsInv(l: Library, id: string, w: Work, slugFree: bool)
    requires Inv(l) && SaveWork(l, id, w, slugFree).Ok?
    ensures Inv(SaveWork(l, id, w, slugFree).value)
  {
    var t := SaveWork(l, id, w, slugFree).value;
    forall r | r in w.references ensures r in AssetIds(Members(l, id)) {
      var i :| 0 <= i < |w.references| && w.references[i] == r;
      assert MayReference(l, id, w.creatorId, w.references[i]);
      AttachedIsListed(l, id, r);
    }
    SameLists(l, t);
  }

  lemma StepKeepsInv(l: Library, e: Event)
    requires Inv(l)
    ensures Inv(Step(l, e))
  {
    hide Inv, Attach, AttachExisting, Detach, Reorder, SetPrimary, SaveWork;
    match e
    case Attaching(work, creator, previous, revision, asset, attachment) =>
      if Attach(l, work, creator, previous, revision, asset, attachment).Ok? { AttachKeepsInv(l, work, creator, previous, revision, asset, attachment); }
    case AttachingExisting(work, source, asset, creator, expected, checksum) =>
      if AttachExisting(l, work, source, asset, creator, expected, checksum).Ok? { AttachExistingKeepsInv(l, work, source, asset, creator, expected, checksum); }
    case Detaching(work, asset, creator, expected) =>
      if Detach(l, work, asset, creator, expected).Ok? { DetachKeepsInv(l, work, asset, creator, expected); }
    case Reordering(work, ids, creator, expected) =>
      if Reorder(l, work, ids, creator, expected).Ok? { ReorderKeepsInv(l, work, ids, creator, expected); }
    case SettingPrimary(work, asset, creator, expected) =>
      if SetPrimary(l, work, asset, creator, expected).Ok? { SetPrimaryKeepsInv(l, work, asset, creator, expected); }
    case Creating(work, created, slugFree) => CreatingKeepsInv(l, work, created, slugFree);
    case Saving(work, saved, slugFree) =>
      if SaveWork(l, work, saved, slugFree).Ok? { SavingKeepsInv(l, work, saved, slugFree); }
    case AssetChanging(id, asset) =>
      if id in l.assets { AssetChangeKeepsInv(l, id, asset); }
  }

  lemma CreatingKeepsInv(l: Library, id: string, w: Work, slugFree: bool)
    requires Inv(l)
    ensures Inv(Committed(l, CreateWork(l, id, w, slugFree)))
  {
    if CreateWork(l, id, w, slugFree).Ok? {
      SameLists(l, CreateWork(l, id, w, slugFree).value);
    }
  }

  lemma AssetChangeKeepsInv(l: Library, id: string, asset: Asset)
    requires Inv(l) && id in l.assets
    ensures Inv(l.(assets := l.assets[id := asset]))
  {
    SameLists(l, l.(assets := l.assets[id := asset]));
  }

  lemma {:induction false} RunKeepsInv(l: Library, events: seq<Event>)
    requires Inv(l)
    ensures Inv(Run(l, events))
    decreases |events|
  {
    hide Inv, Step;
    if events != [] {
      StepKeepsInv(l, events[0]);
      RunKeepsInv(Step(l, events[0]), events[1..]);
    }
  }

  /**
   Whatever is attached, detached, ordered, made primary and saved, a Work's list
   has distinct assets, the one at index i at position i, and every asset its
   saved content mentions is in it.
   */
  lemma ListsStayInOrder(events: seq<Event>, work: string)
    requires work in Run(EMPTY, events).works
    ensures var l := Run(EMPTY, events);
            && ListOk(Members(l, work), work)
            && forall r :: r in l.works[work].references ==> Attached(Members(l, work), work, r)
  {
    RunKeepsInv(EMPTY, events);
    var l := Run(EMPTY, events);
    assert WorkOk(l, work);
    forall r | r in l.works[work].references ensures Attached(Members(l, work), work, r) {
      AttachedIsListed(l, work, r);
    }
  }

  /** Detaching takes exactly its asset from the list; ordering gives exactly the order asked for. */
  lemma DetachingTakesOnlyItsAsset(l: Library, work: string, asset: string, creator: string, expected: int, id: string)
    requires Inv(l) && Detach(l, work, asset, creator, expected).Ok?
    ensures var t := Detach(l, work, asset, creator, expected).value;
            && (id in AssetIds(Members(t, work)) <==> id in AssetIds(Members(l, work)) && id != asset)
            && (Members(t, work) != [] ==>
                  t.works[work].primaryAssetId.Some? && t.works[work].primaryAssetId.value in AssetIds(Members(t, work)))
  {
    hide SortByPosition, Without, Renumber;
    assert WorkOk(l, work);
    var remaining := SortByPosition(Without(Members(l, work), asset));
    var primary := PrimaryAfter(l.works[work], remaining);
    DetachedList(Members(l, work), work, asset, primary);
    RenumberedAre(remaining, primary);
    if remaining != [] {
      var i :| 0 <= i < |remaining| && primary == Some(remaining[i].assetId);
      assert AssetIds(Renumber(remaining, primary))[i] == remaining[i].assetId;
    }
  }

  lemma AssetIdsSnoc(list: seq<Attachment>, a: Attachment)
    ensures AssetIds(list + [a]) == AssetIds(list) + [a.assetId]
  {
  }

  /** Attaching adds its asset at the end and leaves the rest; one attached already stays where it is. */
  lemma AttachingAddsAtTheEnd(l: Library, work: string, creator: string, expected: int, asset: Asset, attachment: Attachment, source: string, checksum: string)
    ensures var r := Attach(l, work, creator, expected, expected + 1, asset, attachment);
            r.Ok? ==> AssetIds(Members(r.value, work)) == AssetIds(Members(l, work)) + [attachment.assetId]
    ensures var r := AttachExisting(l, work, source, attachment.assetId, creator, expected, checksum);
            r.Ok? ==>
              AssetIds(Members(r.value, work))
              == AssetIds(Members(l, work)) + (if attachment.assetId in AssetIds(Members(l, work)) then [] else [attachment.assetId])
    ensures forall other :: other != work ==>
      && (Attach(l, work, creator, expected, expected + 1, asset, attachment).Ok? ==>
            Members(Attach(l, work, creator, expected, expected + 1, asset, attachment).value, other) == Members(l, other))
      && (AttachExisting(l, work, source, attachment.assetId, creator, expected, checksum).Ok? ==>
            Members(AttachExisting(l, work, source, attachment.assetId, creator, expected, checksum).value, other) == Members(l, other))
  {
    AssetIdsSnoc(Members(l, work), attachment);
    if AttachExisting(l, work, source, attachment.assetId, creator, expected, checksum).Ok? && attachment.assetId !in AssetIds(Members(l, work)) {
      var t := AttachExisting(l, work, source, attachment.assetId, creator, expected, checksum).value;
      var list := Members(l, work);
      assert forall i :: 0 <= i < |list| ==> AssetIds(list)[i] == list[i].assetId;
      AssetIdsSnoc(list, Members(t, work)[|list|]);
    }
  }

  lemma OrderingGivesTheOrder(l: Library, work: string, ids: seq<string>, creator: string, expected: int)
    requires Inv(l) && Reorder(l, work, ids, creator, expected).Ok?
    ensures AssetIds(Members(Reorder(l, work, ids, creator, expected).value, work)) == ids
    ensures multiset(ids) == multiset(AssetIds(Members(l, work)))
  {
    assert WorkOk(l, work);
    ReorderedList(Members(l, work), work, ids);
    SameDistinct(ids, AssetIds(Members(l, work)));
  }

  lemma {:induction false} DistinctCount(ids: seq<string>, a: string)
    requires Distinct(ids)
    ensures multiset(ids)[a] == if a in ids then 1 else 0
  {
    if ids != [] {
      DistinctCount(ids[..|ids| - 1], a);
      assert ids == ids[..|ids| - 1] + [ids[|ids| - 1]];
    }
  }

  lemma SameDistinct(ids: seq<string>, other: seq<string>)
    requires Distinct(ids) && Distinct(other) && forall a :: a in other <==> a in ids
    ensures multiset(ids) == multiset(other)
  {
    forall a ensures multiset(ids)[a] == multiset(other)[a] {
      DistinctCount(ids, a);
      DistinctCount(other, a);
    }
  }
}
