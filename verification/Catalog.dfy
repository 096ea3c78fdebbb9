/** The catalog of assets and its two indexes, as a value, with what each update makes of it. */
module Catalog {
  import opened Order

  type Url = string
  type AssetId = string
  type Time = int

  /** A discovered file. */
  datatype FileInfo = FileInfo(
    storageName: string, url: Url, relativePath: string, name: string, extension: string, mime: string,
    mediaKind: string, size: int, mtime: Time)

  datatype HashStatus = Unhashed | Hashed

  datatype Location = Location(
    id: string, assetId: AssetId, file: FileInfo, hashStatus: HashStatus, sha: string, contentId: string,
      lastSeenAt: Time)

  datatype Asset = Asset(
    id: AssetId, mediaKind: string, displayName: string, takenAt: Option<Time>, metadata: Option<map<string, string>>,
    firstSeenAt: Time, updatedAt: Time, locations: seq<Location>)

  datatype Catalog = Catalog(assets: map<AssetId, Asset>, byURL: map<Url, AssetId>, firstLocation: map<AssetId, string>)

  const EMPTY := Catalog(map[], map[], map[])

  // The index.

  function Urls(ls: seq<Location>): set<Url> {
    set i | 0 <= i < |ls| :: ls[i].file.url
  }

  predicate OwnsItsLocations(a: Asset, id: AssetId) {
    && a.id == id && a.locations != []
    && (forall i :: 0 <= i < |a.locations| ==> a.locations[i].assetId == id)
    && (forall i, j :: 0 <= i < j < |a.locations| ==> a.locations[i].file.url != a.locations[j].file.url)
  }

  /** The given URLs, all owned by one asset. */
  function Pointing(urls: set<Url>, id: AssetId): map<Url, AssetId> {
    map url | url in urls :: id
  }

  /** The URLs of every asset. */
  function UrlMap(assets: map<AssetId, Asset>): map<AssetId, set<Url>> {
    map id | id in assets :: Urls(assets[id].locations)
  }

  /** byURL maps exactly the listed URLs, each to the one asset that lists it. */
  ghost predicate Inverse(urls: map<AssetId, set<Url>>, byURL: map<Url, AssetId>) {
    && (forall url :: url in byURL ==> byURL[url] in urls && url in urls[byURL[url]])
    && (forall id, url :: id in urls && url in urls[id] ==> url in byURL && byURL[url] == id)
  }

  ghost predicate Indexed(c: Catalog) {
    && (forall id :: id in c.assets ==> OwnsItsLocations(c.assets[id], id))
    && Inverse(UrlMap(c.assets), c.byURL)
    && c.firstLocation.Keys == c.assets.Keys
    && (forall id :: id in c.assets ==> c.firstLocation[id] == c.assets[id].locations[0].id)
  }

  lemma OwnerLists(c: Catalog, url: Url)
    requires Indexed(c) && url in c.byURL
    ensures c.byURL[url] in c.assets && url in Urls(c.assets[c.byURL[url]].locations)
  {
    assert c.byURL[url] in UrlMap(c.assets);
  }

  lemma FirstUrl(c: Catalog, id: AssetId)
    requires Indexed(c) && id in c.assets
    ensures c.assets[id].locations != []
    ensures var url := c.assets[id].locations[0].file.url;
      url in Urls(c.assets[id].locations) && url in c.byURL && c.byURL[url] == id
  {
    assert OwnsItsLocations(c.assets[id], id);
    assert c.assets[id].locations[0].file.url in UrlMap(c.assets)[id];
  }

  lemma InverseIsUnique(urls: map<AssetId, set<Url>>, byURL: map<Url, AssetId>, other: map<Url, AssetId>)
    requires Inverse(urls, byURL) && Inverse(urls, other)
    ensures byURL == other
  {
  }

  lemma InverseAfterInsert(urls: map<AssetId, set<Url>>, byURL: map<Url, AssetId>, id: AssetId, url: Url)
    requires Inverse(urls, byURL) && id !in urls && url !in byURL
    ensures Inverse(urls[id := {url}], byURL[url := id])
  {
  }

  lemma InverseAfterMove(urls: map<AssetId, set<Url>>, byURL: map<Url, AssetId>, id: AssetId, target: AssetId)
    requires Inverse(urls, byURL) && id in urls && target in urls && id != target
    ensures var index := byURL + Pointing(urls[id], target);
      Inverse(urls[target := urls[target] + urls[id]] - {id}, index) && index.Keys == byURL.Keys
  {
    var index := byURL + Pointing(urls[id], target);
    assert forall url :: url in index <==> url in byURL || url in urls[id];
    assert forall url :: url in index ==> index[url] == if url in urls[id] then target else byURL[url];
  }

  /** The index is a function of the assets: two indexed catalogs with the same assets are the same. */
  lemma IndexIsDetermined(c: Catalog, d: Catalog)
    requires Indexed(c) && Indexed(d) && c.assets == d.assets
    ensures c == d
  {
    InverseIsUnique(UrlMap(c.assets), c.byURL, d.byURL);
    assert c.firstLocation == d.firstLocation;
  }

  /** Replacing an asset by one with the same URLs and the same first location keeps the index. */
  lemma ReplaceKeepsIndex(c: Catalog, id: AssetId, a: Asset)
    requires Indexed(c) && id in c.assets && OwnsItsLocations(a, id)
    requires Urls(a.locations) == Urls(c.assets[id].locations) && a.locations[0].id == c.assets[id].locations[0].id
    ensures Indexed(c.(assets := c.assets[id := a]))
  {
    assert UrlMap(c.assets[id := a]) == UrlMap(c.assets);
  }

  // Discovering a file.

  /** A rescan rewrites the file's size, dates and kind, and keeps name, path and hash. */
  function Refreshed(l: Location, f: FileInfo, now: Time): Location {
    l.(file := l.file.(
         size := f.size, mtime := f.mtime, mime := f.mime, mediaKind := f.mediaKind, extension := f.extension),
       lastSeenAt := now)
  }

  function Rescanned(a: Asset, f: FileInfo, now: Time): Asset {
    a.(locations := if a.locations == [] then [] else a.locations[0 := Refreshed(a.locations[0], f, now)],
       mediaKind := f.mediaKind, displayName := f.name, updatedAt := now)
  }

  function NewAsset(f: FileInfo, assetId: AssetId, locationId: string, now: Time): Asset {
    Asset(assetId, f.mediaKind, f.name, None, Some(map[]), now, now,
          [Location(locationId, assetId, f, Unhashed, "", "", now)])
  }

  function Upserted(c: Catalog, f: FileInfo, assetId: AssetId, locationId: string, now: Time): Catalog
    requires Indexed(c)
  {
    if f.url in c.byURL then
      var id := c.byURL[f.url];
      c.(assets := c.assets[id := Rescanned(c.assets[id], f, now)])
    else
      Catalog(c.assets[assetId := NewAsset(f, assetId, locationId, now)], c.byURL[f.url := assetId],
              c.firstLocation[assetId := locationId])
  }

  lemma SingleUrl(l: Location)
    ensures Urls([l]) == {l.file.url}
  {
    assert [l][0].file.url == l.file.url;
  }

  lemma UrlMapAfter(assets: map<AssetId, Asset>, id: AssetId, a: Asset)
    ensures UrlMap(assets[id := a]) == UrlMap(assets)[id := Urls(a.locations)]
  {
  }

  lemma RescannedOwns(a: Asset, id: AssetId, f: FileInfo, now: Time)
    requires OwnsItsLocations(a, id)
    ensures var b := Rescanned(a, f, now);
      OwnsItsLocations(b, id) && Urls(b.locations) == Urls(a.locations) && b.locations[0].id == a.locations[0].id
  {
    SameUrls(a.locations, Rescanned(a, f, now).locations);
  }

  lemma InsertKeepsIndex(c: Catalog, f: FileInfo, assetId: AssetId, locationId: string, now: Time)
    requires Indexed(c) && assetId !in c.assets && f.url !in c.byURL
    ensures Indexed(Upserted(c, f, assetId, locationId, now))
  {
    var a := NewAsset(f, assetId, locationId, now);
    InsertedInverse(c, a, f, assetId);
    assert OwnsItsLocations(a, assetId) && a.locations[0].id == locationId;
    InsertedOwners(c, a, assetId, locationId);
  }

  lemma InsertedInverse(c: Catalog, a: Asset, f: FileInfo, assetId: AssetId)
    requires Indexed(c) && assetId !in c.assets && f.url !in c.byURL && |a.locations| == 1 && a.locations[0].file == f
    ensures Inverse(UrlMap(c.assets[assetId := a]), c.byURL[f.url := assetId])
  {
    assert a.locations == [a.locations[0]];
    SingleUrl(a.locations[0]);
    UrlMapAfter(c.assets, assetId, a);
    InverseAfterInsert(UrlMap(c.assets), c.byURL, assetId, f.url);
  }

  lemma InsertedOwners(c: Catalog, a: Asset, assetId: AssetId, locationId: string)
    requires Indexed(c) && OwnsItsLocations(a, assetId) && a.locations[0].id == locationId
    ensures var assets, first := c.assets[assetId := a], c.firstLocation[assetId := locationId];
      && (forall id :: id in assets ==> OwnsItsLocations(assets[id], id))
      && first.Keys == assets.Keys && forall id :: id in assets ==> first[id] == assets[id].locations[0].id
  {
  }

  lemma UpsertKeepsIndex(c: Catalog, f: FileInfo, assetId: AssetId, locationId: string, now: Time)
    requires Indexed(c) && assetId !in c.assets
    ensures Indexed(Upserted(c, f, assetId, locationId, now))
    ensures Upserted(c, f, assetId, locationId, now).byURL.Keys == c.byURL.Keys + {f.url}
  {
    if f.url in c.byURL {
      var id := c.byURL[f.url];
      assert id in UrlMap(c.assets);
      RescannedOwns(c.assets[id], id, f, now);
      ReplaceKeepsIndex(c, id, Rescanned(c.assets[id], f, now));
    } else {
      InsertKeepsIndex(c, f, assetId, locationId, now);
    }
  }

  lemma SameUrls(ls: seq<Location>, ms: seq<Location>)
    requires |ls| == |ms| && forall i :: 0 <= i < |ls| ==> ls[i].file.url == ms[i].file.url
    ensures Urls(ls) == Urls(ms)
  {
    forall url | url in Urls(ls) ensures url in Urls(ms) {
      var i :| 0 <= i < |ls| && ls[i].file.url == url;
      assert ms[i].file.url == url;
    }
    forall url | url in Urls(ms) ensures url in Urls(ls) {
      var i :| 0 <= i < |ms| && ms[i].file.url == url;
      assert ls[i].file.url == url;
    }
  }

  /** A rescan reaches the location of its own URL exactly when that is the first of its asset. */
  lemma RescanReachesOwnLocation(c: Catalog, f: FileInfo, assetId: AssetId, locationId: string, now: Time, i: nat)
    requires Indexed(c) && f.url in c.byURL
    requires i < |c.assets[c.byURL[f.url]].locations| && c.assets[c.byURL[f.url]].locations[i].file.url == f.url
    requires c.assets[c.byURL[f.url]].locations[i].file.size != f.size
    ensures Upserted(c, f, assetId, locationId, now).assets[c.byURL[f.url]].locations[i].file.size == f.size <==> i == 0
  {
  }

  // Reporting a hash.

  function Marked(l: Location, sha: string, bytes: int, contentId: string): Location {
    l.(sha := sha, contentId := contentId, hashStatus := Hashed,
       file := if bytes >= 0 then l.file.(size := bytes) else l.file)
  }

  function MarkedAll(ls: seq<Location>, sha: string, bytes: int, contentId: string): (r: seq<Location>)
    ensures |r| == |ls| && forall i :: 0 <= i < |ls| ==> r[i] == Marked(ls[i], sha, bytes, contentId)
  {
    seq(|ls|, i requires 0 <= i < |ls| => Marked(ls[i], sha, bytes, contentId))
  }

  function Moved(ls: seq<Location>, target: AssetId): (r: seq<Location>)
    ensures |r| == |ls| && forall i :: 0 <= i < |ls| ==> r[i] == ls[i].(assetId := target)
  {
    seq(|ls|, i requires 0 <= i < |ls| => ls[i].(assetId := target))
  }

  predicate Matches(l: Location, sha: string, bytes: int) {
    l.hashStatus == Hashed && l.sha == sha && l.file.size == bytes
  }

  /** The first matching location of an asset has this content id. */
  predicate Holds(a: Asset, sha: string, bytes: int, contentId: string) {
    exists i :: 0 <= i < |a.locations| && Matches(a.locations[i], sha, bytes) && a.locations[i].contentId == contentId
      && forall j :: 0 <= j < i ==> !Matches(a.locations[j], sha, bytes)
  }

  predicate HasMatch(a: Asset, sha: string, bytes: int) {
    exists i :: 0 <= i < |a.locations| && Matches(a.locations[i], sha, bytes)
  }

  /** The other assets a hashed asset may be merged into. */
  ghost function Candidates(c: Catalog, id: AssetId, sha: string, bytes: int): set<AssetId> {
    set other | other in c.assets && other != id && HasMatch(c.assets[other], sha, bytes)
  }

  function Rehashed(c: Catalog, id: AssetId, sha: string, bytes: int, contentId: string, now: Time): Catalog
    requires id in c.assets
  {
    c.(assets := c.assets[id := c.assets[id].(
        locations := MarkedAll(c.assets[id].locations, sha, bytes, contentId), updatedAt := now)])
  }

  predicate HasKey(metadata: Option<map<string, string>>, key: string) {
    metadata.Some? && key in metadata.value
  }

  predicate Entry(metadata: Option<map<string, string>>, key: string, value: string) {
    HasKey(metadata, key) && metadata.value[key] == value
  }

  /** The target's own entries win. */
  function MergedMetadata(target: Option<map<string, string>>, source: Option<map<string, string>>)
    : (merged: Option<map<string, string>>)
    ensures merged.None? <==> target.None? && source.None?
    ensures merged.Some? ==> forall key, value ::
      key in merged.value && merged.value[key] == value <==>
      Entry(target, key, value) || (Entry(source, key, value) && !HasKey(target, key))
  {
    if source.None? then target else Some(source.value + if target.Some? then target.value else map[])
  }

  function Absorbed(target: Asset, source: Asset, moved: seq<Location>, now: Time): Asset {
    target.(locations := target.locations + moved,
            takenAt := if target.takenAt.None? then source.takenAt else target.takenAt,
            metadata := MergedMetadata(target.metadata, source.metadata),
            updatedAt := now)
  }

  function MergedInto(c: Catalog, id: AssetId, target: AssetId, sha: string, bytes: int, contentId: string,
                      now: Time): Catalog
    requires id in c.assets && target in c.assets
  {
    var moved := Moved(MarkedAll(c.assets[id].locations, sha, bytes, contentId), target);
    Catalog(c.assets[target := Absorbed(c.assets[target], c.assets[id], moved, now)] - {id},
            c.byURL + Pointing(Urls(moved), target),
            c.firstLocation - {id})
  }

  lemma RehashKeepsIndex(c: Catalog, id: AssetId, sha: string, bytes: int, contentId: string, now: Time)
    requires Indexed(c) && id in c.assets
    ensures Indexed(Rehashed(c, id, sha, bytes, contentId, now))
  {
    SameUrls(c.assets[id].locations, MarkedAll(c.assets[id].locations, sha, bytes, contentId));
    ReplaceKeepsIndex(c, id, Rehashed(c, id, sha, bytes, contentId, now).assets[id]);
  }

  lemma ConcatUrls(ls: seq<Location>, ms: seq<Location>)
    ensures Urls(ls + ms) == Urls(ls) + Urls(ms)
  {
    forall url | url in Urls(ls) ensures url in Urls(ls + ms) {
      var i :| 0 <= i < |ls| && ls[i].file.url == url;
      assert (ls + ms)[i].file.url == url;
    }
    forall url | url in Urls(ms) ensures url in Urls(ls + ms) {
      var i :| 0 <= i < |ms| && ms[i].file.url == url;
      assert (ls + ms)[|ls| + i].file.url == url;
    }
  }

  lemma AbsorbedOwns(a: Asset, b: Asset, id: AssetId, target: AssetId, moved: seq<Location>, now: Time)
    requires OwnsItsLocations(a, target) && OwnsItsLocations(b, id) && Urls(a.locations) !! Urls(moved)
    requires |moved| == |b.locations|
    requires forall i :: 0 <= i < |moved| ==> moved[i].file.url == b.locations[i].file.url && moved[i].assetId == target
    ensures OwnsItsLocations(Absorbed(a, b, moved, now), target)
  {
    var all := a.locations + moved;
    forall i, j | 0 <= i < j < |all| ensures all[i].file.url != all[j].file.url {
      if i < |a.locations| <= j {
        assert all[i].file.url in Urls(a.locations);
        assert moved[j - |a.locations|].file.url in Urls(moved);
      } else if |a.locations| <= i {
        assert b.locations[i - |a.locations|].file.url != b.locations[j - |a.locations|].file.url;
      }
    }
  }

  /** A merge keeps the index, whichever candidate it goes to, and conserves the set of URLs. */
  lemma MergeKeepsIndex(c: Catalog, id: AssetId, target: AssetId, sha: string, bytes: int, contentId: string, now: Time)
    requires Indexed(c) && id in c.assets && target in c.assets && target != id
    ensures Indexed(MergedInto(c, id, target, sha, bytes, contentId, now))
    ensures MergedInto(c, id, target, sha, bytes, contentId, now).byURL.Keys == c.byURL.Keys
  {
    var d := MergedInto(c, id, target, sha, bytes, contentId, now);
    var source, kept := c.assets[id].locations, c.assets[target].locations;
    var moved := Moved(MarkedAll(source, sha, bytes, contentId), target);
    SameUrls(source, moved);
    DisjointOwners(c, id, target);
    AbsorbedOwns(c.assets[target], c.assets[id], id, target, moved, now);
    MergedInverse(c, id, target, d.assets[target], moved);
  }

  lemma MergedInverse(c: Catalog, id: AssetId, target: AssetId, absorbed: Asset, moved: seq<Location>)
    requires Inverse(UrlMap(c.assets), c.byURL) && id in c.assets && target in c.assets && target != id
    requires absorbed.locations == c.assets[target].locations + moved && Urls(moved) == Urls(c.assets[id].locations)
    ensures var index := c.byURL + Pointing(Urls(moved), target);
      Inverse(UrlMap(c.assets[target := absorbed] - {id}), index) && index.Keys == c.byURL.Keys
  {
    var urls := UrlMap(c.assets);
    ConcatUrls(c.assets[target].locations, moved);
    InverseAfterMove(urls, c.byURL, id, target);
    assert UrlMap(c.assets[target := absorbed] - {id}) == urls[target := urls[target] + urls[id]] - {id};
  }

  lemma DisjointOwners(c: Catalog, id: AssetId, other: AssetId)
    requires Indexed(c) && id in c.assets && other in c.assets && id != other
    ensures Urls(c.assets[id].locations) !! Urls(c.assets[other].locations)
  {
    var urls := UrlMap(c.assets);
    forall url | url in urls[other] ensures url !in urls[id] {
      assert c.byURL[url] == other;
    }
  }

  // Metadata.

  function WithMetadata(c: Catalog, id: AssetId, takenAt: Option<Time>, metadata: map<string, string>,
                        now: Time): Catalog
    requires id in c.assets
  {
    var a := c.assets[id];
    c.(assets := c.assets[id := a.(
        takenAt := if takenAt.Some? then takenAt else a.takenAt,
        metadata := Some((if a.metadata.Some? then a.metadata.value else map[]) + metadata), updatedAt := now)])
  }

  lemma MetadataKeepsIndex(c: Catalog, id: AssetId, takenAt: Option<Time>, metadata: map<string, string>, now: Time)
    requires Indexed(c) && id in c.assets
    ensures Indexed(WithMetadata(c, id, takenAt, metadata, now))
  {
    ReplaceKeepsIndex(c, id, WithMetadata(c, id, takenAt, metadata, now).assets[id]);
  }
}
