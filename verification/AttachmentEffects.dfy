/** When each attachment commit goes through, and exactly what it then changes. */
module AttachmentEffects {
  import opened Common
  import opened Attachments

  // --------------------------------------------------------------- rows

  /** A Work without a row of attachments has none. */
  lemma MembersAre(l: Library, work: string)
    ensures work in l.members ==> Members(l, work) == l.members[work]
    ensures work !in l.members ==> Members(l, work) == []
  {
  }

  /** The next position is past every position of the list, and no further than it has to be. */
  lemma {:induction false} NextPositionIs(list: seq<Attachment>)
    ensures forall i :: 0 <= i < |list| ==> list[i].position < NextPosition(list)
    ensures if list == [] then NextPosition(list) == 0 else exists i :: 0 <= i < |list| && list[i].position == NextPosition(list) - 1
  {
    if |list| > 1 {
      var n := |list| - 1;
      NextPositionIs(list[..n]);
      assert forall i :: 0 <= i < n ==> list[..n][i] == list[i];
      if list[n].position + 1 < NextPosition(list[..n]) {
        var i :| 0 <= i < n && list[..n][i].position == NextPosition(list[..n]) - 1;
        assert list[i].position == NextPosition(list) - 1;
      }
    }
  }

  /** The creator's Work, not deleted, at the revision the commit was reviewed at. */
  ghost predicate AtRevision(l: Library, work: string, creator: string, expected: int) {
    && work in l.works && l.works[work].creatorId == creator && l.works[work].status != Deleted
    && 1 <= expected <= 9007199254740991 && l.works[work].revision == expected
  }

  ghost predicate HasRow(list: seq<Attachment>, work: string, asset: string) {
    exists i :: 0 <= i < |list| && list[i].workId == work && list[i].assetId == asset
  }

  /** The Work's row alone is rewritten, with a new primary and revision. */
  ghost predicate WorkMovesTo(l: Library, t: Library, work: string, primary: Option<string>, revision: int)
    requires work in l.works
  {
    && t.works.Keys == l.works.Keys && (forall w :: w in l.works && w != work ==> t.works[w] == l.works[w])
    && t.works[work].creatorId == l.works[work].creatorId && t.works[work].status == l.works[work].status
    && t.works[work].references == l.works[work].references
    && t.works[work].primaryAssetId == primary && t.works[work].revision == revision
  }

  ghost predicate ListMovesTo(l: Library, t: Library, work: string, list: seq<Attachment>) {
    Members(t, work) == list && forall w :: w != work ==> Members(t, w) == Members(l, w)
  }

  // The primary asset a Work has, or else the one attached.
  ghost function PrimaryOr(l: Library, work: string, asset: string): Option<string>
    requires work in l.works
  {
    if l.works[work].primaryAssetId == None || l.works[work].primaryAssetId == Some("") then Some(asset) else l.works[work].primaryAssetId
  }

  // --------------------------------------------------------------- attaching

  /** An upload is attached if and only if the Work is as it was read, the row is the creator's and next in the list, and the asset is new. */
  lemma UploadsAreAttachedExactly(l: Library, work: string, creator: string, previous: int, revision: int, asset: Asset, a: Attachment)
    ensures Attach(l, work, creator, previous, revision, asset, a).Ok? <==>
              && work in l.works && l.works[work].creatorId == creator && l.works[work].status != Deleted
              && l.works[work].revision == previous && revision == previous + 1
              && asset.creatorId == creator && a.workId == work && a.position == NextPosition(Members(l, work)) && a.assetId !in l.assets
    ensures Attach(l, work, creator, previous, revision, asset, a).Ok? ==>
              var t := Attach(l, work, creator, previous, revision, asset, a).value;
              && WorkMovesTo(l, t, work, PrimaryOr(l, work, a.assetId), revision) && ListMovesTo(l, t, work, Members(l, work) + [a])
              && t.assets == l.assets[a.assetId := asset]
  {
  }

  ghost predicate IsShareable(l: Library, source: string, asset: string, creator: string, checksum: string) {
    && asset in l.assets && l.assets[asset].creatorId == creator && !l.assets[asset].isDeleted && l.assets[asset].isPrivate
    && l.assets[asset].checksum == checksum && l.assets[asset].processed && HasRow(Members(l, source), source, asset)
  }

  /** An asset of another live Work is attached if and only if it is the creator's, private, processed and has the checksum. */
  lemma SharedAssetsAreAttachedExactly(l: Library, work: string, source: string, asset: string, creator: string, expected: int, checksum: string)
    ensures AttachExisting(l, work, source, asset, creator, expected, checksum).Ok? <==>
              && work in l.works && l.works[work].creatorId == creator && l.works[work].status == Live
              && source in l.works && l.works[source].creatorId == creator && l.works[source].status == Live
              && IsShareable(l, source, asset, creator, checksum)
              && -9007199254740991 <= expected <= 9007199254740991 && l.works[work].revision == expected
    ensures AttachExisting(l, work, source, asset, creator, expected, checksum).Ok? ==>
              var t, primary := AttachExisting(l, work, source, asset, creator, expected, checksum).value, PrimaryOr(l, work, asset);
              if exists i :: 0 <= i < |Members(l, work)| && Members(l, work)[i].assetId == asset then t == l
              else
                && WorkMovesTo(l, t, work, primary, expected + 1) && t.assets == l.assets
                && ListMovesTo(l, t, work, Members(l, work) + [Attachment(work, asset, NextPosition(Members(l, work)), if primary == Some(asset) then Primary else Content)])
  {
    assert HasRow(Members(l, source), source, asset) <==> Attached(Members(l, source), source, asset);
  }

  // --------------------------------------------------------------- detaching

  // Where an asset of the list ends up without the other: one place earlier if it came after it.
  ghost predicate ClosesUp(before: seq<Attachment>, after: seq<Attachment>, asset: string, primary: Option<string>) {
    exists at :: 0 <= at < |before| && ClosesUpAt(before, after, asset, primary, at)
  }

  ghost predicate ClosesUpAt(before: seq<Attachment>, after: seq<Attachment>, asset: string, primary: Option<string>, at: int)
    requires 0 <= at < |before|
  {
    && before[at].assetId == asset && |after| == |before| - 1
    && forall i :: 0 <= i < |after| ==>
         var was := if i < at then before[i] else before[i + 1];
         after[i] == Attachment(was.workId, was.assetId, i, if primary == Some(was.assetId) then Primary else Content)
  }

  lemma {:induction false} WithoutIsAll(list: seq<Attachment>, asset: string)
    requires forall i :: 0 <= i < |list| ==> list[i].assetId != asset
    ensures Without(list, asset) == list
  {
    if list != [] {
      WithoutIsAll(list[..|list| - 1], asset);
      assert list == list[..|list| - 1] + [list[|list| - 1]];
    }
  }

  lemma {:induction false} WithoutOneIs(list: seq<Attachment>, asset: string, at: nat)
    requires at < |list| && list[at].assetId == asset
    requires forall i :: 0 <= i < |list| && i != at ==> list[i].assetId != asset
    ensures Without(list, asset) == list[..at] + list[at + 1..]
  {
    var n := |list| - 1;
    if at == n {
      WithoutIsAll(list[..n], asset);
    } else {
      WithoutOneIs(list[..n], asset, at);
      assert list[..n][..at] == list[..at];
      assert list[..n][at + 1..] + [list[n]] == list[at + 1..];
    }
  }

  lemma OneRow(list: seq<Attachment>, work: string, asset: string) returns (at: nat)
    requires ListOk(list, work) && Attached(list, work, asset)
    ensures at < |list| && list[at].assetId == asset
    ensures forall i :: 0 <= i < |list| && i != at ==> list[i].assetId != asset
  {
    at :| 0 <= at < |list| && list[at].workId == work && list[at].assetId == asset;
    forall i | 0 <= i < |list| && i != at ensures list[i].assetId != asset {
      assert AssetIds(list)[i] == list[i].assetId && AssetIds(list)[at] == asset;
    }
  }

  lemma DetachedClosesUp(list: seq<Attachment>, work: string, asset: string, primary: Option<string>)
    requires ListOk(list, work) && Attached(list, work, asset)
    ensures ClosesUp(list, Renumber(SortByPosition(Without(list, asset)), primary), asset, primary)
  {
    hide Without, SortByPosition, Renumber, Rising, ListOk, Attached, ClosesUpAt;
    var at := OneRow(list, work, asset);
    WithoutOneIs(list, asset, at);
    RisingFromInvariant(list, work);
    WithoutIs(list, asset);
    SortedAlready(Without(list, asset));
    RenumberedCloses(list, asset, primary, at);
  }

  lemma RenumberedCloses(list: seq<Attachment>, asset: string, primary: Option<string>, at: nat)
    requires at < |list| && list[at].assetId == asset
    ensures ClosesUpAt(list, Renumber(list[..at] + list[at + 1..], primary), asset, primary, at)
  {
    var kept := list[..at] + list[at + 1..];
    RenumberedAre(kept, primary);
    hide Renumber;
    assert forall i :: 0 <= i < |kept| ==> kept[i] == if i < at then list[i] else list[i + 1];
  }

  /** Detaching goes through if and only if the reviewed Work has the asset and its saved content does not mention it. */
  lemma AssetsAreDetachedExactly(l: Library, work: string, asset: string, creator: string, expected: int)
    ensures Detach(l, work, asset, creator, expected).Ok? <==>
              && AtRevision(l, work, creator, expected) && HasRow(Members(l, work), work, asset)
              && forall i :: 0 <= i < |l.works[work].references| ==> l.works[work].references[i] != asset
  {
    hide Without, SortByPosition, Renumber, PrimaryAfter;
    assert HasRow(Members(l, work), work, asset) <==> Attached(Members(l, work), work, asset);
  }

  // The primary stays while it is listed; otherwise the first asset left is primary, if any is.
  ghost predicate IsPrimaryAfter(was: Option<string>, list: seq<Attachment>, primary: Option<string>) {
    if exists i :: 0 <= i < |list| && was == Some(list[i].assetId) then primary == was
    else if list == [] then primary == None
    else primary == Some(list[0].assetId)
  }

  lemma PrimaryAfterIs(w: Work, remaining: seq<Attachment>)
    ensures IsPrimaryAfter(w.primaryAssetId, Renumber(remaining, PrimaryAfter(w, remaining)), PrimaryAfter(w, remaining))
  {
    var primary := PrimaryAfter(w, remaining);
    RenumberedAre(remaining, primary);
    hide Renumber;
    var after := Renumber(remaining, primary);
    assert forall i :: 0 <= i < |remaining| ==> after[i].assetId == remaining[i].assetId;
  }

  /** The other rows keep their order and close up, and the Work gets its primary from them. */
  lemma DetachingClosesUp(l: Library, work: string, asset: string, creator: string, expected: int)
    requires ListOk(Members(l, work), work) && Detach(l, work, asset, creator, expected).Ok?
    ensures var t := Detach(l, work, asset, creator, expected).value;
            && work in t.works && ClosesUp(Members(l, work), Members(t, work), asset, t.works[work].primaryAssetId)
            && WorkMovesTo(l, t, work, t.works[work].primaryAssetId, expected + 1)
            && IsPrimaryAfter(l.works[work].primaryAssetId, Members(t, work), t.works[work].primaryAssetId)
            && t.assets == l.assets && (forall w :: w != work ==> Members(t, w) == Members(l, w))
  {
    hide Without, SortByPosition, Renumber, ClosesUp, PrimaryAfter, IsPrimaryAfter, ListOk, Attached;
    var remaining := SortByPosition(Without(Members(l, work), asset));
    var primary := PrimaryAfter(l.works[work], remaining);
    DetachedClosesUp(Members(l, work), work, asset, primary);
    PrimaryAfterIs(l.works[work], remaining);
  }

  // --------------------------------------------------------------- ordering

  ghost predicate NoRepeats(ids: seq<string>) {
    forall i, j :: 0 <= i < j < |ids| ==> ids[i] != ids[j]
  }

  ghost predicate IsOrderOf(list: seq<Attachment>, ids: seq<string>, work: string) {
    && NoRepeats(ids) && |ids| == |list| && (forall i :: 0 <= i < |ids| ==> ids[i] != "")
    && (forall i, j :: 0 <= i < j < |list| ==> list[i].assetId != list[j].assetId)
    && forall i :: 0 <= i < |list| ==> list[i].workId == work && list[i].assetId in ids
  }

  lemma OrdersAre(list: seq<Attachment>, ids: seq<string>, work: string)
    ensures NamesEveryAsset(list, work, ids) <==> IsOrderOf(list, ids, work)
  {
    assert forall i :: 0 <= i < |list| ==> AssetIds(list)[i] == list[i].assetId;
    if IsOrderOf(list, ids, work) {
      assert Distinct(AssetIds(list));
      assert Distinct(ids);
    }
    if NamesEveryAsset(list, work, ids) {
      forall i, j | 0 <= i < j < |list| ensures list[i].assetId != list[j].assetId {
        assert AssetIds(list)[i] != AssetIds(list)[j];
      }
    }
  }

  // The row of each name, renumbered.
  ghost predicate RowsInOrder(list: seq<Attachment>, after: seq<Attachment>, ids: seq<string>) {
    && |after| == |ids|
    && forall k :: 0 <= k < |ids| ==> exists i :: 0 <= i < |list| && list[i].assetId == ids[k] && after[k] == Attachment(list[i].workId, ids[k], k, list[i].role)
  }

  lemma {:induction false} OrderedRows(list: seq<Attachment>, ids: seq<string>)
    requires forall k :: 0 <= k < |ids| ==> ids[k] in AssetIds(list)
    ensures RowsInOrder(list, Ordered(list, ids), ids)
  {
    if ids != [] {
      var n := |ids| - 1;
      OrderedRows(list, ids[..n]);
      assert ids[n] in AssetIds(list);
      var found := Find(list, ids[n]).value;
      var i :| 0 <= i < |list| && list[i] == found;
      var before, after := Ordered(list, ids[..n]), Ordered(list, ids);
      assert after == before + [found.(position := n)];
      forall k | 0 <= k < |ids| ensures exists i :: 0 <= i < |list| && list[i].assetId == ids[k] && after[k] == Attachment(list[i].workId, ids[k], k, list[i].role) {
        if k == n {
          assert list[i].assetId == ids[k];
        } else {
          assert ids[..n][k] == ids[k];
        }
      }
    }
  }

  /** An order goes through if and only if it names every asset of the reviewed Work once; each row then moves to its place and keeps its role. */
  lemma OrdersGoThroughExactly(l: Library, work: string, ids: seq<string>, creator: string, expected: int)
    ensures Reorder(l, work, ids, creator, expected).Ok? <==>
              AtRevision(l, work, creator, expected) && IsOrderOf(Members(l, work), ids, work)
    ensures Reorder(l, work, ids, creator, expected).Ok? ==>
              var t := Reorder(l, work, ids, creator, expected).value;
              && WorkMovesTo(l, t, work, l.works[work].primaryAssetId, expected + 1) && t.assets == l.assets
              && RowsInOrder(Members(l, work), Members(t, work), ids) && (forall w :: w != work ==> Members(t, w) == Members(l, w))
  {
    var list := Members(l, work);
    OrdersAre(list, ids, work);
    hide IsOrderOf, NamesEveryAsset, Ordered, RowsInOrder;
    if NamesEveryAsset(list, work, ids) {
      NamesAreTheAssets(list, work, ids);
      OrderedRows(list, ids);
    }
    if Reorder(l, work, ids, creator, expected).Ok? && work !in l.members {
      NothingToOrder(list, work, ids);
    }
  }

  lemma NothingToOrder(list: seq<Attachment>, work: string, ids: seq<string>)
    requires list == [] && NamesEveryAsset(list, work, ids)
    ensures ids == [] && RowsInOrder(list, list, ids)
  {
  }

  // --------------------------------------------------------------- primary assets and saved Works

  /** A primary is set if and only if it is the creator's private asset, attached to the reviewed Work. */
  lemma PrimariesAreSetExactly(l: Library, work: string, asset: string, creator: string, expected: int)
    ensures SetPrimary(l, work, asset, creator, expected).Ok? <==>
              && AtRevision(l, work, creator, expected) && HasRow(Members(l, work), work, asset)
              && asset in l.assets && l.assets[asset].creatorId == creator && !l.assets[asset].isDeleted && l.assets[asset].isPrivate
    ensures SetPrimary(l, work, asset, creator, expected).Ok? ==>
              var t := SetPrimary(l, work, asset, creator, expected).value;
              && WorkMovesTo(l, t, work, Some(asset), expected + 1) && t.assets == l.assets
              && (forall w :: w != work ==> Members(t, w) == Members(l, w)) && |Members(t, work)| == |Members(l, work)|
              && forall i :: 0 <= i < |Members(l, work)| ==>
                   var was := Members(l, work)[i];
                   Members(t, work)[i] == Attachment(was.workId, was.assetId, was.position, if was.assetId == asset then Primary else Content)
  {
    assert HasRow(Members(l, work), work, asset) <==> Attached(Members(l, work), work, asset);
  }

  ghost predicate IsMentionable(l: Library, work: string, creator: string, asset: string) {
    && asset in l.assets && l.assets[asset].creatorId == creator && !l.assets[asset].isDeleted && l.assets[asset].isPrivate
    && HasRow(Members(l, work), work, asset)
  }

  lemma MentionableIs(l: Library, work: string, creator: string, asset: string)
    ensures MayReference(l, work, creator, asset) <==> IsMentionable(l, work, creator, asset)
  {
    assert HasRow(Members(l, work), work, asset) <==> Attached(Members(l, work), work, asset);
  }

  /** A Work is created without references under a new id and slug, and saved over the revision before it with all it mentions attached. */
  lemma WorksAreSavedExactly(l: Library, id: string, w: Work, slugFree: bool)
    ensures CreateWork(l, id, w, slugFree).Ok? <==> w.references == [] && id !in l.works && slugFree
    ensures SaveWork(l, id, w, slugFree).Ok? <==>
              && id in l.works && l.works[id].creatorId == w.creatorId && l.works[id].revision + 1 == w.revision && slugFree
              && forall i :: 0 <= i < |w.references| ==> IsMentionable(l, id, w.creatorId, w.references[i])
    ensures forall r :: r in {CreateWork(l, id, w, slugFree), SaveWork(l, id, w, slugFree)} && r.Ok? ==> r.value == Library(l.works[id := w], l.assets, l.members)
  {
    forall i | 0 <= i < |w.references| ensures MayReference(l, id, w.creatorId, w.references[i]) <==> IsMentionable(l, id, w.creatorId, w.references[i]) {
      MentionableIs(l, id, w.creatorId, w.references[i]);
    }
  }
}
