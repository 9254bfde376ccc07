/** The library's stored rows, rewritten by each commit; every method is proved to compute its function. */
module CreatorLibraryClass {
  import opened Common
  import opened Attachments

  // --------------------------------------------------------------- building lists

  method Filter(list: seq<Attachment>, asset: string) returns (kept: seq<Attachment>)
    ensures kept == Without(list, asset)
  {
    kept := [];
    for n := 0 to |list|
      invariant kept == Without(list[..n], asset)
    {
      assert list[..n + 1][..n] == list[..n];
      if list[n].assetId != asset {
        kept := kept + [list[n]];
      }
    }
    assert list[..|list|] == list;
  }

  method Renumbered(list: seq<Attachment>, primary: Option<string>) returns (r: seq<Attachment>)
    ensures r == Renumber(list, primary)
  {
    r := [];
    for n := 0 to |list|
      invariant r == Renumber(list[..n], primary)
    {
      assert list[..n + 1][..n] == list[..n];
      r := r + [list[n].(position := n, role := RoleOf(list[n].assetId, primary))];
    }
    assert list[..|list|] == list;
  }

  method InOrder(list: seq<Attachment>, ids: seq<string>) returns (r: seq<Attachment>)
    ensures r == Ordered(list, ids)
  {
    r := [];
    for n := 0 to |ids|
      invariant r == Ordered(list, ids[..n])
    {
      assert ids[..n + 1][..n] == ids[..n];
      var found := Find(list, ids[n]);
      if found.Some? {
        r := r + [found.value.(position := n)];
      }
    }
    assert ids[..|ids|] == ids;
  }

  method EndPosition(list: seq<Attachment>) returns (position: int)
    ensures position == NextPosition(list)
  {
    position := 0;
    for n := 0 to |list|
      invariant position == NextPosition(list[..n])
    {
      assert list[..n + 1][..n] == list[..n];
      position := if n == 0 then list[n].position + 1 else Max(position, list[n].position + 1);
    }
    assert list[..|list|] == list;
  }

  class LocalCreatorLibraryStore {
    var works: map<string, Work>
    var assets: map<string, Asset>
    var members: map<string, seq<Attachment>>

    function Contents(): Library
      reads this
    {
      Library(works, assets, members)
    }

    constructor ()
      ensures Contents() == EMPTY
    {
      works, assets, members := map[], map[], map[];
    }

    method CommitAssetAttachment(work: string, creator: string, previousRevision: int, revision: int, asset: Asset, attachment: Attachment)
      returns (r: Result<bool, Error>)
      modifies this
      ensures Contents() == Committed(old(Contents()), Attach(old(Contents()), work, creator, previousRevision, revision, asset, attachment))
      ensures r.Ok? <==> Attach(old(Contents()), work, creator, previousRevision, revision, asset, attachment).Ok?
    {
      if work !in works || works[work].revision != previousRevision || revision != previousRevision + 1
         || works[work].creatorId != creator || works[work].status == Deleted {
        return Err(RevisionConflict);
      }
      var list := Members(Contents(), work);
      var end := EndPosition(list);
      if asset.creatorId != creator || attachment.workId != work || attachment.position != end {
        return Err(InvalidAttachment);
      }
      if attachment.assetId in assets {
        return Err(InvalidAsset);
      }
      var w := works[work];
      var primary := if w.primaryAssetId.Some? && w.primaryAssetId.value != "" then w.primaryAssetId else Some(attachment.assetId);
      assets := assets[attachment.assetId := asset];
      members := members[work := list + [attachment]];
      works := works[work := w.(primaryAssetId := primary, revision := revision)];
      r := Ok(true);
    }

    method CommitExistingAssetAttachment(work: string, source: string, asset: string, creator: string, expected: int, checksum: string)
      returns (r: Result<bool, Error>)
      modifies this
      ensures Contents() == Committed(old(Contents()), AttachExisting(old(Contents()), work, source, asset, creator, expected, checksum))
      ensures r.Ok? <==> AttachExisting(old(Contents()), work, source, asset, creator, expected, checksum).Ok?
    {
      if work !in works || source !in works || !Usable(works[work], creator) || !Usable(works[source], creator)
         || asset !in assets || assets[asset].creatorId != creator || assets[asset].isDeleted || !assets[asset].isPrivate
         || assets[asset].checksum != checksum || !assets[asset].processed || !Attached(Members(Contents(), source), source, asset) {
        return Err(InvalidAsset);
      }
      if !(-MAX_SAFE <= expected <= MAX_SAFE) || works[work].revision != expected {
        return Err(RevisionConflict);
      }
      var list := Members(Contents(), work);
      for i := 0 to |list|
        invariant forall k :: 0 <= k < i ==> list[k].assetId != asset
      {
        if list[i].assetId == asset {
          return Ok(true);
        }
      }
      var w := works[work];
      var primary := if w.primaryAssetId.Some? && w.primaryAssetId.value != "" then w.primaryAssetId else Some(asset);
      var end := EndPosition(list);
      members := members[work := list + [Attachment(work, asset, end, if primary == Some(asset) then Primary else Content)]];
      works := works[work := w.(primaryAssetId := primary, revision := w.revision + 1)];
      r := Ok(true);
    }

    method CommitAssetDetachment(work: string, asset: string, creator: string, expected: int) returns (r: Result<bool, Error>)
      modifies this
      ensures Contents() == Committed(old(Contents()), Detach(old(Contents()), work, asset, creator, expected))
      ensures r.Ok? <==> Detach(old(Contents()), work, asset, creator, expected).Ok?
    {
      hide SortByPosition, Without, Renumber, PrimaryAfter;
      if !Reviewed(Contents(), work, creator, expected) {
        return Err(RevisionConflict);
      }
      var list := Members(Contents(), work);
      if !Attached(list, work, asset) {
        return Err(NotFound);
      }
      if asset in works[work].references {
        return Err(AssetInUse);
      }
      var kept := Filter(list, asset);
      var remaining := SortByPosition(kept);
      var primary := PrimaryAfter(works[work], remaining);
      var ordered := Renumbered(remaining, primary);
      members := members[work := ordered];
      works := works[work := works[work].(primaryAssetId := primary, revision := expected + 1)];
      r := Ok(true);
    }

    method CommitAssetOrder(work: string, ids: seq<string>, creator: string, expected: int) returns (r: Result<bool, Error>)
      modifies this
      ensures Contents() == Committed(old(Contents()), Reorder(old(Contents()), work, ids, creator, expected))
      ensures r.Ok? <==> Reorder(old(Contents()), work, ids, creator, expected).Ok?
    {
      hide Ordered, NamesEveryAsset;
      if !Reviewed(Contents(), work, creator, expected) {
        return Err(RevisionConflict);
      }
      var list := Members(Contents(), work);
      if !NamesEveryAsset(list, work, ids) {
        return Err(InvalidAsset);
      }
      var ordered := InOrder(list, ids);
      if work in members {
        members := members[work := ordered];
      }
      works := works[work := works[work].(revision := expected + 1)];
      r := Ok(true);
    }

    method CommitPrimaryAsset(work: string, asset: string, creator: string, expected: int) returns (r: Result<bool, Error>)
      modifies this
      ensures Contents() == Committed(old(Contents()), SetPrimary(old(Contents()), work, asset, creator, expected))
      ensures r.Ok? <==> SetPrimary(old(Contents()), work, asset, creator, expected).Ok?
    {
      if !Reviewed(Contents(), work, creator, expected) {
        return Err(RevisionConflict);
      }
      var list := Members(Contents(), work);
      if asset !in assets || assets[asset].creatorId != creator || assets[asset].isDeleted || !assets[asset].isPrivate || !Attached(list, work, asset) {
        return Err(InvalidAsset);
      }
      members := members[work := WithRoles(list, asset)];
      works := works[work := works[work].(primaryAssetId := Some(asset), revision := expected + 1)];
      r := Ok(true);
    }

    method UpdateWork(id: string, w: Work, slugFree: bool) returns (r: Result<bool, Error>)
      modifies this`works
      ensures Contents() == Committed(old(Contents()), SaveWork(old(Contents()), id, w, slugFree))
      ensures r.Ok? <==> SaveWork(old(Contents()), id, w, slugFree).Ok?
    {
      if id !in works || works[id].creatorId != w.creatorId || works[id].revision != w.revision - 1 {
        return Err(RevisionConflict);
      }
      for i := 0 to |w.references|
        invariant forall k :: 0 <= k < i ==> MayReference(Contents(), id, w.creatorId, w.references[k])
        invariant works == old(works)
      {
        if !MayReference(Contents(), id, w.creatorId, w.references[i]) {
          return Err(InvalidAsset);
        }
      }
      if !slugFree {
        return Err(SlugTaken);
      }
      works := works[id := w];
      r := Ok(true);
    }
  }
}
