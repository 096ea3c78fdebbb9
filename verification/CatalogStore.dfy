/** The asset half of the memory store: three maps that every method updates together. */
module CatalogStore {
  import opened Order
  import opened Catalog

  class MemoryAssets {
    var assets: map<AssetId, Asset>
    var byURL: map<Url, AssetId>
    var locationByAsset: map<AssetId, string>

    function State(): Catalog
      reads this
    {
      Catalog(assets, byURL, locationByAsset)
    }

    ghost predicate Valid()
      reads this
    {
      Indexed(State())
    }

    constructor ()
      ensures Valid() && State() == EMPTY
    {
      assets, byURL, locationByAsset := map[], map[], map[];
    }

    /** The new ids stand for NewUUID: they have not been used before. */
    method UpsertDiscoveredFile(info: FileInfo, newAssetId: AssetId, newLocationId: string, now: Time)
      returns (asset: Asset, created: bool)
      requires Valid() && newAssetId !in assets
      modifies this
      ensures Valid()
      ensures State() == Upserted(old(State()), info, newAssetId, newLocationId, now)
      ensures created == (info.url !in old(byURL))
      ensures info.url in byURL && asset == assets[byURL[info.url]]
    {
      UpsertKeepsIndex(State(), info, newAssetId, newLocationId, now);
      if info.url in byURL {
        OwnerLists(State(), info.url);
      }
      asset, created := Write(info, newAssetId, newLocationId, now);
    }

    /** What UpsertDiscoveredFile does to the three maps. */
    method Write(info: FileInfo, newAssetId: AssetId, newLocationId: string, now: Time)
      returns (asset: Asset, created: bool)
      requires info.url in byURL ==> byURL[info.url] in assets
      modifies this
      ensures created == (info.url !in old(byURL)) && info.url in byURL
      ensures created ==>
        && asset == NewAsset(info, newAssetId, newLocationId, now) && byURL == old(byURL)[info.url := newAssetId]
        && assets == old(assets)[newAssetId := asset]
            && locationByAsset == old(locationByAsset)[newAssetId := newLocationId]
      ensures !created ==>
        && byURL == old(byURL) && locationByAsset == old(locationByAsset)
        && asset == Rescanned(old(assets)[byURL[info.url]], info, now)
            && assets == old(assets)[byURL[info.url] := asset]
    {
      if info.url in byURL {
        asset := Rescan(info, byURL[info.url], now);
        return asset, false;
      }
      var location := Location(newLocationId, newAssetId, info, Unhashed, "", "", now);
      asset := Asset(newAssetId, info.mediaKind, info.name, None, Some(map[]), now, now, [location]);
      assets := assets[newAssetId := asset];
      byURL := byURL[info.url := newAssetId];
      locationByAsset := locationByAsset[newAssetId := newLocationId];
      return asset, true;
    }

    /** The branch for a URL that is known: it always writes the first location. */
    method Rescan(info: FileInfo, assetId: AssetId, now: Time) returns (asset: Asset)
      requires assetId in assets
      modifies this`assets
      ensures asset == Rescanned(old(assets)[assetId], info, now) && assets == old(assets)[assetId := asset]
    {
      asset := assets[assetId];
      if |asset.locations| > 0 {
        var file := asset.locations[0].file.(size := info.size);
        file := file.(mtime := info.mtime);
        file := file.(mime := info.mime);
        file := file.(mediaKind := info.mediaKind);
        file := file.(extension := info.extension);
        var location := asset.locations[0].(file := file);
        location := location.(lastSeenAt := now);
        asset := asset.(locations := asset.locations[0 := location]);
      }
      asset := asset.(mediaKind := info.mediaKind);
      asset := asset.(displayName := info.name);
      asset := asset.(updatedAt := now);
      assets := assets[assetId := asset];
    }

    /** The walk over all assets, in any order, for one that already has this content. */
    method FindContent(assetId: AssetId, sha: string, bytes: int, newContentId: string)
      returns (target: AssetId, contentId: string)
      requires Valid() && assetId in assets
      ensures if Candidates(State(), assetId, sha, bytes) == {} then target == assetId && contentId == newContentId
              else target in Candidates(State(), assetId, sha, bytes) && Holds(assets[target], sha, bytes, contentId)
    {
      target, contentId := assetId, newContentId;
      var todo := assets.Keys;
      while todo != {}
        invariant todo <= assets.Keys
        invariant target == assetId && contentId == newContentId
        invariant forall id :: id in assets && id !in todo && id != assetId ==> !HasMatch(assets[id], sha, bytes)
        decreases todo
      {
        var candidate :| candidate in todo;
        todo := todo - {candidate};
        if candidate == assetId { continue; }
        var locations := assets[candidate].locations;
        for i := 0 to |locations|
          invariant forall j :: 0 <= j < i ==> !Matches(locations[j], sha, bytes)
        {
          if locations[i].hashStatus == Hashed && locations[i].sha == sha && locations[i].file.size == bytes {
            assert Matches(assets[candidate].locations[i], sha, bytes);
            assert HasMatch(assets[candidate], sha, bytes);
            assert candidate in Candidates(State(), assetId, sha, bytes);
            return candidate, locations[i].contentId;
          }
        }
      }
    }

    /** The asset now holding the locations of assetId; None when there is no such asset. */
    method UpdateLocationHash(assetId: AssetId, sha: string, bytes: int, newContentId: string, now: Time)
      returns (holder: Option<AssetId>)
      requires Valid()
      modifies this
      ensures Valid()
      ensures holder.None? <==> assetId !in old(assets)
      ensures byURL.Keys == old(byURL.Keys) && old(assets.Keys) - {assetId} <= assets.Keys
      ensures holder.None? ==> State() == old(State())
      ensures holder.Some? && Candidates(old(State()), assetId, sha, bytes) == {} ==>
        holder.value == assetId && State() == Rehashed(old(State()), assetId, sha, bytes, newContentId, now)
      ensures holder.Some? && Candidates(old(State()), assetId, sha, bytes) != {} ==>
        && holder.value in Candidates(old(State()), assetId, sha, bytes)
        && exists contentId :: Holds(old(assets)[holder.value], sha, bytes, contentId)
             && State() == MergedInto(old(State()), assetId, holder.value, sha, bytes, contentId, now)
    {
      if assetId !in assets {
        return None;
      }
      var asset := assets[assetId];
      var target, contentId := FindContent(assetId, sha, bytes, newContentId);
      asset := MarkLocations(asset, sha, bytes, contentId);
      if target != assetId {
        MergeMarked(asset, target, now, sha, bytes, contentId);
        return Some(target);
      }
      RehashKeepsIndex(State(), assetId, sha, bytes, contentId, now);
      assets := assets[assetId := asset.(updatedAt := now)];
      return Some(assetId);
    }

    /** The loop of UpdateLocationHash over the asset's own locations. */
    static method MarkLocations(was: Asset, sha: string, bytes: int, contentId: string) returns (asset: Asset)
      ensures asset == was.(locations := MarkedAll(was.locations, sha, bytes, contentId))
    {
      asset := was;
      for i := 0 to |was.locations|
        invariant |asset.locations| == |was.locations| && asset == was.(locations := asset.locations)
        invariant forall j :: 0 <= j < i ==> asset.locations[j] == Marked(was.locations[j], sha, bytes, contentId)
        invariant forall j :: i <= j < |was.locations| ==> asset.locations[j] == was.locations[j]
      {
        var l := asset.locations[i].(sha := sha, contentId := contentId, hashStatus := Hashed);
        if bytes >= 0 {
          l := l.(file := l.file.(size := bytes));
        }
        asset := asset.(locations := asset.locations[i := l]);
      }
      assert asset.locations == MarkedAll(was.locations, sha, bytes, contentId);
    }

    /** The merging branch, for an asset with its locations marked. */
    method MergeMarked(asset: Asset, target: AssetId, now: Time, ghost sha: string, ghost bytes: int,
                       ghost contentId: string)
      requires Valid() && asset.id in assets && target in assets && target != asset.id
      requires asset == assets[asset.id].(locations := MarkedAll(assets[asset.id].locations, sha, bytes, contentId))
      modifies this
      ensures Valid() && byURL.Keys == old(byURL.Keys) && old(assets.Keys) - {asset.id} <= assets.Keys
      ensures State() == MergedInto(old(State()), asset.id, target, sha, bytes, contentId, now)
    {
      MergeKeepsIndex(State(), asset.id, target, sha, bytes, contentId, now);
      MergeInto(asset, target, now);
    }

    /** What MergeMarked does to the three maps. */
    method MergeInto(asset: Asset, targetId: AssetId, now: Time)
      requires targetId in assets && asset.id in assets && targetId != asset.id
      modifies this
      ensures var moved := Moved(asset.locations, targetId);
        State() == Catalog(old(assets)[targetId := Absorbed(old(assets)[targetId], asset, moved, now)] - {asset.id},
                           old(byURL) + Pointing(Urls(moved), targetId),
                           old(locationByAsset) - {asset.id})
    {
      var target := assets[targetId];
      target := MoveLocations(asset, target, targetId);
      if target.takenAt.None? && asset.takenAt.Some? {
        target := target.(takenAt := asset.takenAt);
      }
      if asset.metadata.Some? {
        var known := if target.metadata.Some? then target.metadata.value else map[];
        var merged := AddMissing(known, asset.metadata.value);
        target := target.(metadata := Some(merged));
      }
      target := target.(updatedAt := now);
      assets := assets[targetId := target];
      assets := assets - {asset.id};
      locationByAsset := locationByAsset - {asset.id};
    }

    /** The loop over the metadata, in any order: an entry is copied if the target has none for its key. */
    static method AddMissing(known: map<string, string>, metadata: map<string, string>)
      returns (merged: map<string, string>)
      ensures merged == metadata + known
    {
      merged := known;
      var todo := metadata.Keys;
      while todo != {}
        invariant todo <= metadata.Keys
        invariant merged == (map key | key in metadata && key !in todo :: metadata[key]) + known
        decreases todo
      {
        var key :| key in todo;
        todo := todo - {key};
        if key !in merged {
          merged := merged[key := metadata[key]];
        }
      }
    }

    /** The loop of the merging branch: every location moves to the target and keeps its URL. */
    method MoveLocations(asset: Asset, was: Asset, targetId: AssetId) returns (target: Asset)
      modifies this`byURL
      ensures target == was.(locations := was.locations + Moved(asset.locations, targetId))
      ensures byURL == old(byURL) + Pointing(Urls(Moved(asset.locations, targetId)), targetId)
    {
      target := was;
      ghost var moved := Moved(asset.locations, targetId);
      var locations := target.locations;
      for i := 0 to |asset.locations|
        invariant locations == was.locations + moved[..i]
        invariant byURL == old(byURL) + Pointing(Urls(moved[..i]), targetId)
      {
        var l := asset.locations[i].(assetId := targetId);
        locations := locations + [l];
        UrlsSoFar(old(byURL), moved, i, targetId);
        byURL := byURL[l.file.url := targetId];
      }
      assert moved[..|moved|] == moved;
      target := target.(locations := locations);
    }

    method UpdateAssetMetadata(assetId: AssetId, takenAt: Option<Time>, metadata: map<string, string>, now: Time)
      returns (found: bool)
      requires Valid()
      modifies this
      ensures Valid()
      ensures found == (assetId in old(assets))
      ensures State() == if found then WithMetadata(old(State()), assetId, takenAt, metadata, now) else old(State())
    {
      if assetId !in assets {
        return false;
      }
      MetadataKeepsIndex(State(), assetId, takenAt, metadata, now);
      var asset := assets[assetId];
      if takenAt.Some? {
        asset := asset.(takenAt := takenAt);
      }
      if asset.metadata.None? {
        asset := asset.(metadata := Some(map[]));
      }
      asset := asset.(metadata := Some(asset.metadata.value + metadata));
      asset := asset.(updatedAt := now);
      assets := assets[assetId := asset];
      return true;
    }
  }

  lemma UrlsSoFar(before: map<Url, AssetId>, moved: seq<Location>, i: nat, targetId: AssetId)
    requires i < |moved|
    ensures moved[..i + 1] == moved[..i] + [moved[i]]
    ensures before + Pointing(Urls(moved[..i + 1]), targetId)
      == (before + Pointing(Urls(moved[..i]), targetId))[moved[i].file.url := targetId]
  {
    assert moved[..i + 1] == moved[..i] + [moved[i]];
    ConcatUrls(moved[..i], [moved[i]]);
    SingleUrl(moved[i]);
  }
}
