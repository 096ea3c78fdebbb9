/**
 Content identity: while every URL's content stays what it is, two hashed URLs share an asset exactly
 when their contents are equal, in whatever order files are discovered and hashes reported.
 */
module Contents {
  import opened Order
  import opened Catalog

  datatype Content = Content(sha: string, size: nat)

  /** What each URL holds; a hash is never empty. */
  ghost predicate Fixed(content: Url -> Content) {
    forall url :: content(url).sha != ""
  }

  predicate IsHashed(a: Asset) { a.locations != [] && a.locations[0].hashStatus == Hashed }

  function ContentOf(a: Asset, content: Url -> Content): Content
    requires a.locations != []
  {
    content(a.locations[0].file.url)
  }

  function ContentId(a: Asset): string
    requires a.locations != []
  {
    a.locations[0].contentId
  }

  /** A location of a hashed asset shows the asset's one content and content id. */
  predicate ShowsContent(l: Location, known: Content, contentId: string, content: Url -> Content) {
    l.hashStatus == Hashed && content(l.file.url) == known && l.sha == known.sha && l.file.size == known.size
    && l.contentId == contentId
  }

  /** Sizes are right; a hashed asset shows one content, an unhashed one has a single unhashed location. */
  ghost predicate Sound(a: Asset, content: Url -> Content) {
    a.locations != [] &&
    if IsHashed(a) then
      && ContentId(a) != ""
      && forall i :: 0 <= i < |a.locations|
          ==> ShowsContent(a.locations[i], ContentOf(a, content), ContentId(a), content)
    else |a.locations| == 1 && a.locations[0].file.size == ContentOf(a, content).size
  }

  ghost predicate Apart(a: Asset, b: Asset, content: Url -> Content)
    requires a.locations != [] && b.locations != []
  {
    IsHashed(a) && IsHashed(b) ==> ContentOf(a, content) != ContentOf(b, content) && ContentId(a) != ContentId(b)
  }

  ghost predicate Faithful(c: Catalog, content: Url -> Content) {
    && (forall id :: id in c.assets ==> Sound(c.assets[id], content))
    && (forall id, other ::
          id in c.assets && other in c.assets && id != other ==> Apart(c.assets[id], c.assets[other], content))
  }

  // Events, with the ids NewUUID hands out.

  datatype Event =
    | Discover(file: FileInfo, assetId: AssetId, locationId: string)
    | Report(id: AssetId, contentId: string)
    | Describe(id: AssetId, takenAt: Option<Time>, metadata: map<string, string>)

  ghost predicate UnusedContentId(c: Catalog, contentId: string) {
    && contentId != ""
    && forall id :: id in c.assets && c.assets[id].locations != [] ==> ContentId(c.assets[id]) != contentId
  }

  /** One update of the store; a merge may go to any candidate. */
  ghost predicate StepTo(c: Catalog, e: Event, now: Time, d: Catalog, content: Url -> Content)
    requires Indexed(c)
  {
    match e
    case Discover(f, assetId, locationId) =>
      f.size == content(f.url).size && assetId !in c.assets && d == Upserted(c, f, assetId, locationId, now)
    case Describe(id, takenAt, metadata) => id in c.assets && d == WithMetadata(c, id, takenAt, metadata, now)
    case Report(id, contentId) =>
      id in c.assets && UnusedContentId(c, contentId) &&
      var known := ContentOf(c.assets[id], content);
      var candidates := Candidates(c, id, known.sha, known.size);
      if candidates == {} then d == Rehashed(c, id, known.sha, known.size, contentId, now)
      else exists target, shared :: target in candidates && Holds(c.assets[target], known.sha, known.size, shared)
             && d == MergedInto(c, id, target, known.sha, known.size, shared, now)
  }

  ghost predicate Runs(c: Catalog, events: seq<(Event, Time)>, d: Catalog, content: Url -> Content)
    requires Indexed(c)
    decreases |events|
  {
    if events == [] then c == d
    else exists m :: Indexed(m) && StepTo(c, events[0].0, events[0].1, m, content) && Runs(m, events[1..], d, content)
  }

  /** The index survives every step, whatever is reported: the runs above leave nothing out by asking for it. */
  lemma StepKeepsIndex(c: Catalog, e: Event, now: Time, d: Catalog, content: Url -> Content)
    requires Indexed(c) && StepTo(c, e, now, d, content)
    ensures Indexed(d)
  {
    match e
    case Discover(f, assetId, locationId) => UpsertKeepsIndex(c, f, assetId, locationId, now);
    case Describe(id, takenAt, metadata) => MetadataKeepsIndex(c, id, takenAt, metadata, now);
    case Report(id, contentId) =>
      var known := ContentOf(c.assets[id], content);
      if Candidates(c, id, known.sha, known.size) == {} {
        RehashKeepsIndex(c, id, known.sha, known.size, contentId, now);
      } else {
        var target, shared :| target in Candidates(c, id, known.sha, known.size)
          && Holds(c.assets[target], known.sha, known.size, shared)
          && d == MergedInto(c, id, target, known.sha, known.size, shared, now);
        MergeKeepsIndex(c, id, target, known.sha, known.size, shared, now);
      }
  }

  lemma FirstMatch(a: Asset, sha: string, bytes: int) returns (contentId: string)
    requires HasMatch(a, sha, bytes)
    ensures Holds(a, sha, bytes, contentId)
  {
    var i := 0;
    while !Matches(a.locations[i], sha, bytes)
      invariant 0 <= i < |a.locations| && (forall j :: 0 <= j < i ==> !Matches(a.locations[j], sha, bytes))
      invariant exists k :: i <= k < |a.locations| && Matches(a.locations[k], sha, bytes)
      decreases |a.locations| - i
    {
      i := i + 1;
    }
    contentId := a.locations[i].contentId;
  }

  /** A report for any asset of the store, with an unused content id, always has an outcome. */
  lemma ReportIsPossible(c: Catalog, id: AssetId, contentId: string, now: Time, content: Url -> Content)
    returns (d: Catalog)
    requires Indexed(c) && id in c.assets && UnusedContentId(c, contentId)
    ensures StepTo(c, Report(id, contentId), now, d, content) && Indexed(d)
  {
    var known := ContentOf(c.assets[id], content);
    var candidates := Candidates(c, id, known.sha, known.size);
    if candidates == {} {
      d := Rehashed(c, id, known.sha, known.size, contentId, now);
    } else {
      var target :| target in candidates;
      var shared := FirstMatch(c.assets[target], known.sha, known.size);
      d := MergedInto(c, id, target, known.sha, known.size, shared, now);
    }
    StepKeepsIndex(c, Report(id, contentId), now, d, content);
  }

  // Every step keeps the content identity.

  lemma MatchIsTheContent(c: Catalog, id: AssetId, sha: string, bytes: nat, content: Url -> Content)
    requires Faithful(c, content) && id in c.assets
    ensures HasMatch(c.assets[id], sha, bytes)
      <==> IsHashed(c.assets[id]) && ContentOf(c.assets[id], content) == Content(sha, bytes)
  {
    var a := c.assets[id];
    if HasMatch(a, sha, bytes) {
      var i :| 0 <= i < |a.locations| && Matches(a.locations[i], sha, bytes);
      assert IsHashed(a) ==> ShowsContent(a.locations[i], ContentOf(a, content), ContentId(a), content);
    } else if IsHashed(a) {
      assert ShowsContent(a.locations[0], ContentOf(a, content), ContentId(a), content);
      assert !Matches(a.locations[0], sha, bytes);
    }
  }

  /** At most one candidate, so the order in which the assets are walked cannot matter; and none if already hashed. */
  lemma OneCandidate(c: Catalog, id: AssetId, content: Url -> Content)
    requires Faithful(c, content) && id in c.assets
    ensures var known := ContentOf(c.assets[id], content);
      var candidates := Candidates(c, id, known.sha, known.size);
      && (forall a, b :: a in candidates && b in candidates ==> a == b)
      && (IsHashed(c.assets[id]) ==> candidates == {})
      && (forall a :: a in candidates ==> IsHashed(c.assets[a]) && ContentOf(c.assets[a], content) == known)
  {
    var known := ContentOf(c.assets[id], content);
    var candidates := Candidates(c, id, known.sha, known.size);
    forall a | a in candidates ensures IsHashed(c.assets[a]) && ContentOf(c.assets[a], content) == known {
      MatchIsTheContent(c, a, known.sha, known.size, content);
    }
    forall a, b | a in candidates && b in candidates ensures a == b {
      assert a != b ==> Apart(c.assets[a], c.assets[b], content);
    }
    if IsHashed(c.assets[id]) {
      assert forall a :: a in candidates ==> Apart(c.assets[a], c.assets[id], content);
    }
  }

  lemma HoldsTheContentId(a: Asset, sha: string, bytes: int, contentId: string, content: Url -> Content)
    requires Sound(a, content) && IsHashed(a) && Holds(a, sha, bytes, contentId)
    ensures contentId == ContentId(a)
  {
  }

  /** A report for the same content always has the same outcome. */
  lemma ReportIsDetermined(c: Catalog, e: Event, now: Time, d: Catalog, other: Catalog, content: Url -> Content)
    requires Indexed(c) && Faithful(c, content) && StepTo(c, e, now, d, content) && StepTo(c, e, now, other, content)
    ensures d == other
  {
    if e.Report? {
      OneCandidate(c, e.id, content);
      var known := ContentOf(c.assets[e.id], content);
      forall target, shared | target in Candidates(c, e.id, known.sha, known.size)
          && Holds(c.assets[target], known.sha, known.size, shared)
        ensures shared == ContentId(c.assets[target])
      {
        HoldsTheContentId(c.assets[target], known.sha, known.size, shared, content);
      }
    }
  }

  /** Replacing one asset by a sound one that stays apart from all others. */
  lemma ReplaceKeepsFaith(c: Catalog, d: Catalog, id: AssetId, content: Url -> Content)
    requires Faithful(c, content) && id in d.assets && Sound(d.assets[id], content)
    requires forall a :: a in d.assets && a != id ==> a in c.assets && d.assets[a] == c.assets[a]
    requires forall a :: a in d.assets && a != id ==> Apart(d.assets[id], d.assets[a], content)
    ensures Faithful(d, content)
  {
    forall a, b | a in d.assets && b in d.assets && a != b ensures Apart(d.assets[a], d.assets[b], content) {
      if b == id {
        assert Apart(d.assets[id], d.assets[a], content);
      }
    }
  }

  lemma RescanKeepsFaith(c: Catalog, f: FileInfo, now: Time, content: Url -> Content)
    requires Indexed(c) && Faithful(c, content) && f.url in c.byURL && f.size == content(f.url).size
    ensures var id := c.byURL[f.url];
      id in c.assets && Faithful(c.(assets := c.assets[id := Rescanned(c.assets[id], f, now)]), content)
  {
    var id := c.byURL[f.url];
    assert id in UrlMap(c.assets) && f.url in Urls(c.assets[id].locations);
    var a, b := c.assets[id], Rescanned(c.assets[id], f, now);
    RescannedIsSound(a, f, now, content);
    forall other | other in c.assets && other != id ensures Apart(b, c.assets[other], content) {
      assert Apart(a, c.assets[other], content);
    }
    ReplaceKeepsFaith(c, c.(assets := c.assets[id := b]), id, content);
  }

  lemma RescannedIsSound(a: Asset, f: FileInfo, now: Time, content: Url -> Content)
    requires Sound(a, content) && f.url in Urls(a.locations) && f.size == content(f.url).size
    ensures var b := Rescanned(a, f, now);
      Sound(b, content) && IsHashed(b) == IsHashed(a) && ContentOf(b, content) == ContentOf(a, content)
        && ContentId(b) == ContentId(a)
  {
    var b := Rescanned(a, f, now);
    var i :| 0 <= i < |a.locations| && a.locations[i].file.url == f.url;
    assert IsHashed(a) ==> ShowsContent(a.locations[i], ContentOf(a, content), ContentId(a), content);
    if IsHashed(a) {
      forall j | 0 <= j < |b.locations|
        ensures ShowsContent(b.locations[j], ContentOf(b, content), ContentId(b), content)
      {
        assert ShowsContent(a.locations[j], ContentOf(a, content), ContentId(a), content);
      }
    }
  }

  lemma DiscoverKeepsFaith(c: Catalog, f: FileInfo, assetId: AssetId, locationId: string, now: Time,
                           content: Url -> Content)
    requires Indexed(c) && Faithful(c, content) && assetId !in c.assets && f.size == content(f.url).size
    ensures Faithful(Upserted(c, f, assetId, locationId, now), content)
  {
    if f.url in c.byURL {
      RescanKeepsFaith(c, f, now, content);
    } else {
      ReplaceKeepsFaith(c, Upserted(c, f, assetId, locationId, now), assetId, content);
    }
  }

  lemma RehashKeepsFaith(c: Catalog, id: AssetId, contentId: string, now: Time, content: Url -> Content)
    requires Indexed(c) && Faithful(c, content) && Fixed(content) && id in c.assets && UnusedContentId(c, contentId)
    requires var known := ContentOf(c.assets[id], content); Candidates(c, id, known.sha, known.size) == {}
    ensures var known := ContentOf(c.assets[id], content);
      Faithful(Rehashed(c, id, known.sha, known.size, contentId, now), content)
  {
    var a, known := c.assets[id], ContentOf(c.assets[id], content);
    var d := Rehashed(c, id, known.sha, known.size, contentId, now);
    var b := d.assets[id];
    forall i | 0 <= i < |b.locations|
      ensures ShowsContent(b.locations[i], ContentOf(b, content), ContentId(b), content)
    {
      assert IsHashed(a) ==> ShowsContent(a.locations[i], known, ContentId(a), content);
      assert b.locations[i] == Marked(a.locations[i], known.sha, known.size, contentId);
    }
    forall other | other in d.assets && other != id ensures Apart(b, d.assets[other], content) {
      MatchIsTheContent(c, other, known.sha, known.size, content);
      assert other !in Candidates(c, id, known.sha, known.size);
    }
    ReplaceKeepsFaith(c, d, id, content);
  }

  lemma MergeKeepsFaith(c: Catalog, id: AssetId, target: AssetId, shared: string, now: Time, content: Url -> Content)
    requires Indexed(c) && Faithful(c, content) && id in c.assets
    requires var known := ContentOf(c.assets[id], content);
      target in Candidates(c, id, known.sha, known.size) && Holds(c.assets[target], known.sha, known.size, shared)
    ensures var known := ContentOf(c.assets[id], content);
      Faithful(MergedInto(c, id, target, known.sha, known.size, shared, now), content)
  {
    var known := ContentOf(c.assets[id], content);
    OneCandidate(c, id, content);
    HoldsTheContentId(c.assets[target], known.sha, known.size, shared, content);
    var a, t := c.assets[id], c.assets[target];
    var d := MergedInto(c, id, target, known.sha, known.size, shared, now);
    var b := d.assets[target];
    forall i | 0 <= i < |b.locations|
      ensures ShowsContent(b.locations[i], ContentOf(b, content), ContentId(b), content)
    {
      if i < |t.locations| {
        assert ShowsContent(t.locations[i], ContentOf(t, content), ContentId(t), content);
      } else {
        assert b.locations[i] == Marked(a.locations[0], known.sha, known.size, shared).(assetId := target);
      }
    }
    forall other | other in d.assets && other != target ensures Apart(b, d.assets[other], content) {
      assert Apart(t, c.assets[other], content);
    }
    ReplaceKeepsFaith(c, d, target, content);
  }

  lemma DescribeKeepsFaith(c: Catalog, id: AssetId, takenAt: Option<Time>, metadata: map<string, string>, now: Time,
                           content: Url -> Content)
    requires Indexed(c) && Faithful(c, content) && id in c.assets
    ensures Faithful(WithMetadata(c, id, takenAt, metadata, now), content)
  {
    assert forall other :: other in c.assets && other != id ==> Apart(c.assets[id], c.assets[other], content);
    ReplaceKeepsFaith(c, WithMetadata(c, id, takenAt, metadata, now), id, content);
  }

  lemma ReportKeepsFaith(c: Catalog, id: AssetId, contentId: string, now: Time, d: Catalog, content: Url -> Content)
    requires Fixed(content) && Indexed(c) && Faithful(c, content) && StepTo(c, Report(id, contentId), now, d, content)
    ensures Faithful(d, content)
  {
    var known := ContentOf(c.assets[id], content);
    if Candidates(c, id, known.sha, known.size) == {} {
      RehashKeepsFaith(c, id, contentId, now, content);
    } else {
      var target, shared :| target in Candidates(c, id, known.sha, known.size)
        && Holds(c.assets[target], known.sha, known.size, shared)
        && d == MergedInto(c, id, target, known.sha, known.size, shared, now);
      MergeKeepsFaith(c, id, target, shared, now, content);
    }
  }

  lemma StepKeeps(c: Catalog, e: Event, now: Time, d: Catalog, content: Url -> Content)
    requires Fixed(content) && Indexed(c) && Faithful(c, content) && StepTo(c, e, now, d, content)
    ensures Faithful(d, content)
  {
    match e
    case Discover(f, assetId, locationId) => DiscoverKeepsFaith(c, f, assetId, locationId, now, content);
    case Describe(id, takenAt, metadata) => DescribeKeepsFaith(c, id, takenAt, metadata, now, content);
    case Report(id, contentId) => ReportKeepsFaith(c, id, contentId, now, d, content);
  }

  lemma {:induction false} RunKeeps(c: Catalog, events: seq<(Event, Time)>, d: Catalog, content: Url -> Content)
    requires Fixed(content) && Indexed(c) && Faithful(c, content) && Runs(c, events, d, content)
    ensures Indexed(d) && Faithful(d, content)
    decreases |events|
  {
    if events != [] {
      var m :| Indexed(m) && StepTo(c, events[0].0, events[0].1, m, content) && Runs(m, events[1..], d, content);
      StepKeeps(c, events[0].0, events[0].1, m, content);
      RunKeeps(m, events[1..], d, content);
    }
  }

  // Results.

  predicate HashedUrl(c: Catalog, url: Url) {
    url in c.byURL && c.byURL[url] in c.assets && IsHashed(c.assets[c.byURL[url]])
  }

  /** Two hashed URLs share an asset exactly when their contents are equal. */
  lemma SameAssetIffSameContent(c: Catalog, u: Url, v: Url, content: Url -> Content)
    requires Indexed(c) && Faithful(c, content) && HashedUrl(c, u) && HashedUrl(c, v)
    ensures c.byURL[u] == c.byURL[v] <==> content(u) == content(v)
  {
    OwnerShows(c, u, content);
    OwnerShows(c, v, content);
    if c.byURL[u] != c.byURL[v] {
      assert Apart(c.assets[c.byURL[u]], c.assets[c.byURL[v]], content);
    }
  }

  lemma OwnerShows(c: Catalog, url: Url, content: Url -> Content)
    requires Indexed(c) && Faithful(c, content) && HashedUrl(c, url)
    ensures ContentOf(c.assets[c.byURL[url]], content) == content(url)
  {
    var a := c.assets[c.byURL[url]];
    assert url in Urls(a.locations);
    var i :| 0 <= i < |a.locations| && a.locations[i].file.url == url;
    assert ShowsContent(a.locations[i], ContentOf(a, content), ContentId(a), content);
  }

  lemma ReachedIsFaithful(events: seq<(Event, Time)>, c: Catalog, content: Url -> Content)
    requires Fixed(content) && Runs(EMPTY, events, c, content)
    ensures Indexed(c) && Faithful(c, content)
  {
    RunKeeps(EMPTY, events, c, content);
  }

  /** After any runs from the empty catalog, the grouping of the hashed URLs is the same, whatever the order. */
  lemma GroupingIsOrderFree(events: seq<(Event, Time)>, c: Catalog, others: seq<(Event, Time)>, d: Catalog,
                            u: Url, v: Url, content: Url -> Content)
    requires Fixed(content) && Runs(EMPTY, events, c, content) && Runs(EMPTY, others, d, content)
    requires HashedUrl(c, u) && HashedUrl(c, v) && HashedUrl(d, u) && HashedUrl(d, v)
    ensures c.byURL[u] == c.byURL[v] <==> d.byURL[u] == d.byURL[v]
  {
    ReachedIsFaithful(events, c, content);
    ReachedIsFaithful(others, d, content);
    SameAssetIffSameContent(c, u, v, content);
    SameAssetIffSameContent(d, u, v, content);
  }
}
