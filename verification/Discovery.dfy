/** The hash job: its targets, its loop over them, its counters. */
module Discovery {
  import opened Order
  import opened Catalog
  import opened CatalogStore
  import opened Contents

  /** What happens when the job comes to a target. */
  datatype Visit =
    | CancelSeen              // a cancel request was found first, or looking for one failed: the job ends
    | Unsafe                  // the storage refused the path: the job fails
    | Unreadable              // opening, reading or closing failed: an error is counted
    | Read(sha: string, bytes: nat, saved: bool)  // saved: the job's progress could be written afterwards

  datatype End = Finished | Canceled | Failed | NotSaved

  datatype Counters = Counters(hashed: int, errors: int, bytes: int, progress: int)

  predicate IsTarget(a: Asset, wanted: Asset -> bool) {
    a.locations != [] && a.locations[0].hashStatus != Hashed && wanted(a)
  }

  /** The assets to hash, in the listing's order. */
  method FilterHashTargets(assets: seq<Asset>, wanted: Asset -> bool) returns (targets: seq<Asset>)
    ensures targets == Targets(assets, wanted)
  {
    targets := [];
    for i := 0 to |assets|
      invariant targets == Targets(assets[..i], wanted)
    {
      assert assets[..i + 1][..i] == assets[..i];
      if |assets[i].locations| == 0 || assets[i].locations[0].hashStatus == Hashed { continue; }
      if !wanted(assets[i]) { continue; }
      targets := targets + [assets[i]];
    }
    assert assets[..|assets|] == assets;
  }

  function Targets(assets: seq<Asset>, wanted: Asset -> bool): seq<Asset> {
    if assets == [] then []
    else
      var last := assets[|assets| - 1];
      Targets(assets[..|assets| - 1], wanted) + if IsTarget(last, wanted) then [last] else []
  }

  predicate DistinctIds(assets: seq<Asset>) {
    forall i, j :: 0 <= i < j < |assets| ==> assets[i].id != assets[j].id
  }

  /** The targets are exactly the unhashed wanted assets, each once. */
  lemma {:induction false} TargetsAreTheUnhashed(assets: seq<Asset>, wanted: Asset -> bool)
    requires DistinctIds(assets)
    ensures DistinctIds(Targets(assets, wanted))
    ensures forall a :: a in Targets(assets, wanted) <==>
      a in assets && wanted(a) && |a.locations| > 0 && a.locations[0].hashStatus == Unhashed
  {
    if assets != [] {
      var last, before := assets[|assets| - 1], assets[..|assets| - 1];
      assert assets == before + [last];
      TargetsAreTheUnhashed(before, wanted);
      var targets := Targets(before, wanted);
      forall i | 0 <= i < |targets| ensures targets[i].id != last.id {
        assert targets[i] in before;
      }
    }
  }

  /** Targets and content ids a job may trust: a listing of this very store, real contents, unused ids. */
  ghost predicate Trusted(c: Catalog, targets: seq<Asset>, visits: seq<Visit>, contentIds: seq<string>,
                          content: Url -> Content)
  {
    && Fixed(content) && Faithful(c, content)
    && |visits| == |targets| == |contentIds|
    && (forall i :: 0 <= i < |targets| ==>
          targets[i].id in c.assets && c.assets[targets[i].id] == targets[i] && !IsHashed(targets[i]))
    && (forall i :: 0 <= i < |targets| && visits[i].Read? && targets[i].locations != [] ==>
          Content(visits[i].sha, visits[i].bytes) == ContentOf(targets[i], content))
    && (forall i :: 0 <= i < |targets| ==> UnusedContentId(c, contentIds[i]))
    && (forall i, j :: 0 <= i < j < |targets| ==> contentIds[i] != contentIds[j])
  }

  /** What a report for an asset does to everything else. */
  ghost predicate Spares(c: Catalog, id: AssetId, contentId: string, d: Catalog)
    requires id in c.assets && c.assets[id].locations != []
  {
    && HashedUrl(d, c.assets[id].locations[0].file.url)
    && (forall a :: a in c.assets && a != id && !IsHashed(c.assets[a]) ==> a in d.assets && d.assets[a] == c.assets[a])
    && (forall url :: HashedUrl(c, url) ==> HashedUrl(d, url))
    && (forall other :: other != contentId && UnusedContentId(c, other) ==> UnusedContentId(d, other))
  }

  lemma RehashSpares(c: Catalog, id: AssetId, sha: string, bytes: int, contentId: string, now: Time)
    requires Indexed(c) && id in c.assets
    ensures c.assets[id].locations != [] && Spares(c, id, contentId, Rehashed(c, id, sha, bytes, contentId, now))
  {
    FirstUrl(c, id);
    RehashKeepsHashed(c, id, sha, bytes, contentId, now);
  }

  lemma RehashKeepsHashed(c: Catalog, id: AssetId, sha: string, bytes: int, contentId: string, now: Time)
    requires Indexed(c) && id in c.assets
    ensures forall url :: HashedUrl(c, url) ==> HashedUrl(Rehashed(c, id, sha, bytes, contentId, now), url)
  {
    FirstUrl(c, id);
  }

  lemma MergeSpares(c: Catalog, id: AssetId, target: AssetId, sha: string, bytes: int, shared: string,
                    contentId: string, now: Time)
    requires Indexed(c) && id in c.assets && target in c.assets && target != id && IsHashed(c.assets[target])
    ensures c.assets[id].locations != [] && Spares(c, id, contentId, MergedInto(c, id, target, sha, bytes, shared, now))
  {
    var d := MergedInto(c, id, target, sha, bytes, shared, now);
    MergeEffect(c, id, target, sha, bytes, shared, now);
    MoveKeepsHashed(c, d, id, target, Urls(c.assets[id].locations));
    MoveUsesNoId(c, d, id, target);
  }

  /** What the rest of the job sees of a merge. */
  lemma MergeEffect(c: Catalog, id: AssetId, target: AssetId, sha: string, bytes: int, shared: string, now: Time)
    requires Indexed(c) && id in c.assets && target in c.assets && target != id && IsHashed(c.assets[target])
    ensures var d := MergedInto(c, id, target, sha, bytes, shared, now);
      && d.byURL == c.byURL + Pointing(Urls(c.assets[id].locations), target)
      && d.assets.Keys == c.assets.Keys - {id}
      && IsHashed(d.assets[target]) && ContentId(d.assets[target]) == ContentId(c.assets[target])
      && forall a :: a in c.assets && a != id && a != target ==> d.assets[a] == c.assets[a]
  {
    SameUrls(c.assets[id].locations, Moved(MarkedAll(c.assets[id].locations, sha, bytes, shared), target));
  }

  lemma MoveUsesNoId(c: Catalog, d: Catalog, id: AssetId, target: AssetId)
    requires target in c.assets && d.assets.Keys == c.assets.Keys - {id} && target in d.assets
    requires IsHashed(c.assets[target]) && IsHashed(d.assets[target])
    requires ContentId(d.assets[target]) == ContentId(c.assets[target])
    requires forall a :: a in c.assets && a != id && a != target ==> d.assets[a] == c.assets[a]
    ensures forall other :: UnusedContentId(c, other) ==> UnusedContentId(d, other)
  {
  }

  /** Moving URLs to a hashed asset leaves every hashed URL hashed, and the moved ones too. */
  lemma MoveKeepsHashed(c: Catalog, d: Catalog, id: AssetId, target: AssetId, urls: set<Url>)
    requires Indexed(c) && id in c.assets && urls == Urls(c.assets[id].locations)
    requires d.byURL == c.byURL + Pointing(urls, target)
    requires target in d.assets && IsHashed(d.assets[target])
    requires forall a :: a in c.assets && a != id && a != target ==> a in d.assets && d.assets[a] == c.assets[a]
    ensures c.assets[id].locations != [] && HashedUrl(d, c.assets[id].locations[0].file.url)
    ensures forall url :: HashedUrl(c, url) ==> HashedUrl(d, url)
  {
    FirstUrl(c, id);
    forall url | HashedUrl(c, url) ensures HashedUrl(d, url) {
      MovedUrlStaysHashed(c, d, id, target, urls, url);
    }
  }

  lemma MovedUrlStaysHashed(c: Catalog, d: Catalog, id: AssetId, target: AssetId, urls: set<Url>, url: Url)
    requires Indexed(c) && id in c.assets && urls == Urls(c.assets[id].locations) && HashedUrl(c, url)
    requires d.byURL == c.byURL + Pointing(urls, target)
    requires target in d.assets && IsHashed(d.assets[target])
    requires forall a :: a in c.assets && a != id && a != target ==> a in d.assets && d.assets[a] == c.assets[a]
    ensures HashedUrl(d, url)
  {
    OwnerLists(c, url);
  }

  lemma ReportSpares(c: Catalog, id: AssetId, contentId: string, now: Time, d: Catalog, content: Url -> Content)
    requires Fixed(content) && Indexed(c) && Faithful(c, content) && StepTo(c, Report(id, contentId), now, d, content)
    ensures Faithful(d, content) && c.assets[id].locations != [] && Spares(c, id, contentId, d)
  {
    StepKeeps(c, Report(id, contentId), now, d, content);
    OneCandidate(c, id, content);
    var known := ContentOf(c.assets[id], content);
    if Candidates(c, id, known.sha, known.size) == {} {
      RehashSpares(c, id, known.sha, known.size, contentId, now);
    } else {
      var target, shared :| target in Candidates(c, id, known.sha, known.size)
        && Holds(c.assets[target], known.sha, known.size, shared)
        && d == MergedInto(c, id, target, known.sha, known.size, shared, now);
      MergeSpares(c, id, target, known.sha, known.size, shared, contentId, now);
    }
  }

  /** Reads among the first visits, and how many of them failed. */
  function Reads(visits: seq<Visit>): nat {
    if visits == [] then 0 else Reads(visits[..|visits| - 1]) + if visits[|visits| - 1].Read? then 1 else 0
  }

  function BytesRead(visits: seq<Visit>): nat {
    if visits == [] then 0
    else BytesRead(visits[..|visits| - 1]) + if visits[|visits| - 1].Read? then visits[|visits| - 1].bytes else 0
  }

  /** The visits the job gets to see: up to the first that ends it. */
  predicate GoesOn(v: Visit) { v.Unreadable? || v.Read? }

  /** The progress of the job could not be written: the job ends there, with what it read recorded. */
  predicate Unsaved(v: Visit) { v.Read? && !v.saved }

  predicate Passed(visits: seq<Visit>, handled: nat)
    requires handled <= |visits|
  {
    forall i :: 0 <= i < handled ==> GoesOn(visits[i]) && !Unsaved(visits[i])
  }

  /** After the first visits of a trusted job: what is known of the store, done and still to do. */
  ghost predicate Progressed(start: Catalog, c: Catalog, targets: seq<Asset>, visits: seq<Visit>,
                             contentIds: seq<string>, content: Url -> Content, handled: nat)
    requires |visits| == |targets| == |contentIds|
  {
    && Faithful(c, content)
    && (forall i :: handled <= i < |targets| ==> targets[i].id in c.assets && c.assets[targets[i].id] == targets[i])
    && (forall i :: handled <= i < |targets| ==> UnusedContentId(c, contentIds[i]))
    && (forall i :: 0 <= i < handled && i < |targets| && visits[i].Read? ==>
          targets[i].locations != [] && HashedUrl(c, targets[i].locations[0].file.url))
    && (forall url :: HashedUrl(start, url) ==> HashedUrl(c, url))
  }

  lemma ProgressStep(start: Catalog, c: Catalog, d: Catalog, targets: seq<Asset>, visits: seq<Visit>,
                     contentIds: seq<string>, content: Url -> Content, handled: nat, now: Time)
    requires Trusted(start, targets, visits, contentIds, content) && DistinctIds(targets)
    requires handled < |targets| && Indexed(c) && Progressed(start, c, targets, visits, contentIds, content, handled)
    requires StepTo(c, Report(targets[handled].id, contentIds[handled]), now, d, content)
    ensures Progressed(start, d, targets, visits, contentIds, content, handled + 1)
  {
    var id, contentId := targets[handled].id, contentIds[handled];
    ReportSpares(c, id, contentId, now, d, content);
    SparesProgress(start, c, d, targets, visits, contentIds, content, handled);
  }

  lemma SparesProgress(start: Catalog, c: Catalog, d: Catalog, targets: seq<Asset>, visits: seq<Visit>,
                       contentIds: seq<string>, content: Url -> Content, handled: nat)
    requires |visits| == |targets| == |contentIds| && DistinctIds(targets) && handled < |targets|
    requires forall i, j :: 0 <= i < j < |targets| ==> contentIds[i] != contentIds[j]
    requires forall i :: 0 <= i < |targets| ==> !IsHashed(targets[i])
    requires Progressed(start, c, targets, visits, contentIds, content, handled) && Faithful(d, content)
    requires targets[handled].locations != [] && Spares(c, targets[handled].id, contentIds[handled], d)
    ensures Progressed(start, d, targets, visits, contentIds, content, handled + 1)
  {
    hide Faithful, UnusedContentId, HashedUrl, IsHashed;
    forall i | handled < i < |targets| ensures targets[i].id in d.assets && d.assets[targets[i].id] == targets[i] {
      assert targets[i].id != targets[handled].id && !IsHashed(c.assets[targets[i].id]);
    }
    forall i | handled < i < |targets| ensures UnusedContentId(d, contentIds[i]) {
      assert contentIds[i] != contentIds[handled];
    }
  }

  lemma SkipProgress(start: Catalog, c: Catalog, targets: seq<Asset>, visits: seq<Visit>, contentIds: seq<string>,
                     content: Url -> Content, handled: nat)
    requires |visits| == |targets| == |contentIds| && handled < |targets| && !visits[handled].Read?
    requires Progressed(start, c, targets, visits, contentIds, content, handled)
    ensures Progressed(start, c, targets, visits, contentIds, content, handled + 1)
  {
  }

  /** UpdateLocationHash as an event of the content model. */
  method ReportHash(store: MemoryAssets, id: AssetId, sha: string, bytes: nat, contentId: string, now: Time,
                    ghost content: Url -> Content) returns (found: bool)
    requires store.Valid()
    modifies store
    ensures store.Valid() && found == (id in old(store.assets))
    ensures store.byURL.Keys == old(store.byURL.Keys) && old(store.assets.Keys) - {id} <= store.assets.Keys
    ensures found && old(UnusedContentId(store.State(), contentId) && store.assets[id].locations != []
                         && Content(sha, bytes) == ContentOf(store.assets[id], content)) ==>
      old(Indexed(store.State())) && StepTo(old(store.State()), Report(id, contentId), now, store.State(), content)
  {
    var holder := store.UpdateLocationHash(id, sha, bytes, contentId, now);
    return holder.Some?;
  }

  /** The counters after the first visits. */
  ghost predicate Counted(counters: Counters, visits: seq<Visit>) {
    counters.hashed == counters.progress == Reads(visits) && counters.bytes == BytesRead(visits)
    && counters.hashed + counters.errors == |visits|
  }

  /** One target opened, read and reported, or its error counted. */
  method HashTarget(store: MemoryAssets, ghost start: Catalog, targets: seq<Asset>, visits: seq<Visit>,
                    contentIds: seq<string>, now: Time, ghost content: Url -> Content, ghost trusted: bool,
                    before: Counters, handled: nat)
    returns (counters: Counters)
    requires store.Valid() && |visits| == |targets| == |contentIds| && DistinctIds(targets)
    requires handled < |targets| && GoesOn(visits[handled]) && Counted(before, visits[..handled])
    requires forall i :: handled <= i < |targets| ==> targets[i].id in store.assets
    requires trusted ==> Trusted(start, targets, visits, contentIds, content)
                         && Progressed(start, store.State(), targets, visits, contentIds, content, handled)
    modifies store
    ensures store.Valid() && store.byURL.Keys == old(store.byURL.Keys)
    ensures forall i :: handled < i < |targets| ==> targets[i].id in store.assets
    ensures trusted ==> Progressed(start, store.State(), targets, visits, contentIds, content, handled + 1)
    ensures Counted(counters, visits[..handled + 1])
  {
    assert visits[..handled + 1][..handled] == visits[..handled];
    if visits[handled].Unreadable? {
      if trusted {
        SkipProgress(start, store.State(), targets, visits, contentIds, content, handled);
      }
      return before.(errors := before.errors + 1);
    }
    ReadTarget(store, start, targets, visits, contentIds, now, content, trusted, handled);
    var bytes := visits[handled].bytes;
    return before.(hashed := before.hashed + 1, bytes := before.bytes + bytes, progress := before.progress + 1);
  }

  /** A target that was read: its hash is reported, and the report is never refused. */
  method ReadTarget(store: MemoryAssets, ghost start: Catalog, targets: seq<Asset>, visits: seq<Visit>,
                    contentIds: seq<string>, now: Time, ghost content: Url -> Content, ghost trusted: bool,
                    handled: nat)
    requires store.Valid() && |visits| == |targets| == |contentIds| && DistinctIds(targets)
    requires handled < |targets| && visits[handled].Read?
    requires forall i :: handled <= i < |targets| ==> targets[i].id in store.assets
    requires trusted ==> Trusted(start, targets, visits, contentIds, content)
                         && Progressed(start, store.State(), targets, visits, contentIds, content, handled)
    modifies store
    ensures store.Valid() && store.byURL.Keys == old(store.byURL.Keys)
    ensures forall i :: handled < i < |targets| ==> targets[i].id in store.assets
    ensures trusted ==> Progressed(start, store.State(), targets, visits, contentIds, content, handled + 1)
  {
    ghost var c := store.State();
    var found := ReportHash(store, targets[handled].id, visits[handled].sha, visits[handled].bytes, contentIds[handled],
      now, content);
    assert found;
    if trusted {
      ProgressStep(start, c, store.State(), targets, visits, contentIds, content, handled, now);
    }
  }

  /**
   The loop of the hash job, running alone. A later target is never missing, so the only errors are
   read errors; and what was read is hashed in the end.
   */
  method HashUnhashed(store: MemoryAssets, targets: seq<Asset>, visits: seq<Visit>, contentIds: seq<string>, now: Time,
                      ghost content: Url -> Content)
    returns (end: End, counters: Counters, handled: nat)
    requires store.Valid() && |visits| == |targets| == |contentIds| && DistinctIds(targets)
    requires forall i :: 0 <= i < |targets| ==> targets[i].id in store.assets
    modifies store
    ensures store.Valid() && store.byURL.Keys == old(store.byURL.Keys)
    ensures handled <= |targets| && forall i :: 0 <= i < handled ==> GoesOn(visits[i])
    ensures match end
      case Finished => handled == |targets|
      case Canceled => handled < |targets| && visits[handled].CancelSeen?
      case Failed => handled < |targets| && visits[handled].Unsafe?
      case NotSaved => handled > 0 && Unsaved(visits[handled - 1])
    ensures forall i :: 0 <= i < handled && Unsaved(visits[i]) ==> end == NotSaved && i == handled - 1
    ensures Counted(if end.Failed? then counters.(errors := counters.errors - 1) else counters, visits[..handled])
    ensures old(Trusted(store.State(), targets, visits, contentIds, content)) ==>
      Progressed(old(store.State()), store.State(), targets, visits, contentIds, content, handled)
  {
    ghost var trusted := Trusted(store.State(), targets, visits, contentIds, content);
    ghost var start := store.State();
    counters, handled := Counters(0, 0, 0, 0), 0;
    while handled < |targets|
      invariant 0 <= handled <= |targets| && store.Valid() && store.byURL.Keys == old(store.byURL.Keys)
      invariant forall i :: handled <= i < |targets| ==> targets[i].id in store.assets
      invariant Passed(visits, handled)
      invariant Counted(counters, visits[..handled])
      invariant trusted ==> Progressed(start, store.State(), targets, visits, contentIds, content, handled)
    {
      if visits[handled].CancelSeen? {
        return Canceled, counters, handled;
      }
      if visits[handled].Unsafe? {
        return Failed, counters.(errors := counters.errors + 1), handled;
      }
      counters := HashTarget(store, start, targets, visits, contentIds, now, content, trusted, counters, handled);
      handled := handled + 1;
      if visits[handled - 1].Read? && !visits[handled - 1].saved {
        assert Passed(visits, handled - 1);
        return NotSaved, counters, handled;
      }
    }
    return Finished, counters, handled;
  }
}
