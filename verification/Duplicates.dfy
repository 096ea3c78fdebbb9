/** The statistics and the duplicate report: two ways of counting the same groups. */
module Duplicates {
  import opened Order
  import opened Catalog
  import opened Contents
  import opened Grouping

  datatype Stats = Stats(
    assets: nat, locations: nat, hashed: nat, unhashed: nat, duplicateGroups: nat, duplicateLocations: nat)

  function LocationSet(ls: seq<Location>): set<Location> {
    set i | 0 <= i < |ls| :: ls[i]
  }

  function All(assets: map<AssetId, Asset>): set<Location> {
    set id, i | id in assets && 0 <= i < |assets[id].locations| :: assets[id].locations[i]
  }

  function HashedOf(s: set<Location>): set<Location> {
    set l | l in s && l.hashStatus == Hashed
  }

  /** The statistics group by content id. */
  function StatsKey(l: Location): string {
    if l.contentId != "" then l.contentId else l.sha
  }

  function InStats(s: set<Location>): set<Location> {
    set l | l in s && l.hashStatus == Hashed && StatsKey(l) != ""
  }

  /** The duplicate report groups by hash and size. */
  function ReportKey(l: Location): (string, int) {
    (l.sha, l.file.size)
  }

  function InReport(s: set<Location>): set<Location> {
    set l | l in s && l.hashStatus == Hashed && l.sha != ""
  }

  ghost predicate Owned(assets: map<AssetId, Asset>) {
    forall id :: id in assets ==> OwnsItsLocations(assets[id], id)
  }

  lemma NextAsset(assets: map<AssetId, Asset>, todo: set<AssetId>, id: AssetId)
    requires Owned(assets) && id in assets && id in todo
    ensures All(assets - todo) !! LocationSet(assets[id].locations)
    ensures All(assets - (todo - {id})) == All(assets - todo) + LocationSet(assets[id].locations)
  {
    var done, next := assets - todo, assets - (todo - {id});
    forall l | l in All(done) ensures l.assetId in done && l in All(next) {
      var a, i :| a in done && 0 <= i < |done[a].locations| && done[a].locations[i] == l;
      assert OwnsItsLocations(assets[a], a);
      assert next[a].locations[i] == l;
    }
    forall l | l in LocationSet(assets[id].locations) ensures l.assetId == id && l in All(next) {
      assert OwnsItsLocations(assets[id], id);
      var i :| 0 <= i < |assets[id].locations| && assets[id].locations[i] == l;
      assert next[id].locations[i] == l;
    }
    forall l | l in All(next) ensures l in All(done) || l in LocationSet(assets[id].locations) {
      var a, i :| a in next && 0 <= i < |next[a].locations| && next[a].locations[i] == l;
      assert a != id ==> done[a].locations[i] == l;
    }
  }

  lemma NextLocation(ls: seq<Location>, i: nat)
    requires i < |ls| && forall j, k :: 0 <= j < k < |ls| ==> ls[j].file.url != ls[k].file.url
    ensures LocationSet(ls[..i + 1]) == LocationSet(ls[..i]) + {ls[i]} && ls[i] !in LocationSet(ls[..i])
    ensures ls[i] in LocationSet(ls)
  {
    forall l | l in LocationSet(ls[..i]) ensures l in LocationSet(ls[..i + 1]) {
      var j :| 0 <= j < i && ls[..i][j] == l;
      assert ls[..i + 1][j] == l;
    }
    assert ls[..i + 1][i] == ls[i];
  }

  lemma NextSeen(seen: set<Location>, ls: seq<Location>, i: nat)
    requires i < |ls| && seen !! LocationSet(ls)
    requires forall j, k :: 0 <= j < k < |ls| ==> ls[j].file.url != ls[k].file.url
    ensures seen + LocationSet(ls[..i + 1]) == (seen + LocationSet(ls[..i])) + {ls[i]}
      && ls[i] !in seen + LocationSet(ls[..i])
  {
    NextLocation(ls, i);
  }

  /** The statistics and the counts over a set of locations seen so far. */
  ghost predicate Ledger(stats: Stats, counts: map<string, nat>, seen: set<Location>) {
    && stats.locations == |seen| && stats.hashed == |HashedOf(seen)| && stats.unhashed == |seen - HashedOf(seen)|
    && Tallied(counts, InStats(seen), StatsKey)
  }

  /** What the statistics count. */
  ghost predicate StatsOf(assets: map<AssetId, Asset>, stats: Stats) {
    && stats.assets == |assets| && stats.locations == |All(assets)|
    && stats.hashed == |HashedOf(All(assets))| && stats.unhashed == |All(assets) - HashedOf(All(assets))|
    && stats.duplicateGroups == |Keys(Repeated(InStats(All(assets)), StatsKey), StatsKey)|
    && stats.duplicateLocations == |Repeated(InStats(All(assets)), StatsKey)|
  }

  /** Stats: the number of locations in groups of equal content id, and of such groups. */
  method CountStats(assets: map<AssetId, Asset>) returns (stats: Stats)
    requires Owned(assets)
    ensures StatsOf(assets, stats)
  {
    var counts;
    stats, counts := CountAssets(assets);
    var groups, locations := CountGroups(counts, InStats(All(assets)), StatsKey);
    RepeatedTotals(counts, InStats(All(assets)), StatsKey);
    stats := stats.(duplicateGroups := groups, duplicateLocations := locations);
  }

  /** The walk over all assets, in any order. */
  method CountAssets(assets: map<AssetId, Asset>) returns (stats: Stats, counts: map<string, nat>)
    requires Owned(assets)
    ensures stats.assets == |assets| && Ledger(stats, counts, All(assets))
  {
    stats, counts := Stats(|assets|, 0, 0, 0, 0, 0), map[];
    var todo := assets.Keys;
    assert assets - todo == map[];
    while todo != {}
      invariant todo <= assets.Keys
      invariant stats.assets == |assets| && Ledger(stats, counts, All(assets - todo))
      decreases todo
    {
      var id :| id in todo;
      NextAsset(assets, todo, id);
      stats, counts := CountAsset(stats, counts, assets[id], id, All(assets - todo));
      todo := todo - {id};
    }
    assert assets - {} == assets;
  }

  /** The inner loop, over one asset's locations. */
  method CountAsset(before: Stats, known: map<string, nat>, asset: Asset, id: AssetId, ghost seen: set<Location>)
    returns (stats: Stats, counts: map<string, nat>)
    requires OwnsItsLocations(asset, id) && seen !! LocationSet(asset.locations) && Ledger(before, known, seen)
    ensures stats.assets == before.assets && Ledger(stats, counts, seen + LocationSet(asset.locations))
  {
    stats, counts := before, known;
    var ls := asset.locations;
    ghost var all := seen;
    NothingSeen(seen, ls);
    for i := 0 to |ls|
      invariant all == seen + LocationSet(ls[..i])
      invariant stats.assets == before.assets && Ledger(stats, counts, all)
    {
      NextSeen(seen, ls, i);
      stats, counts := CountLocation(stats, counts, ls[i], all);
      all := all + {ls[i]};
    }
    assert ls[..|ls|] == ls;
  }

  lemma NothingSeen(seen: set<Location>, ls: seq<Location>)
    ensures seen + LocationSet(ls[..0]) == seen
  {
  }

  /** The body of the inner loop. */
  method CountLocation(before: Stats, known: map<string, nat>, l: Location, ghost seen: set<Location>)
    returns (stats: Stats, counts: map<string, nat>)
    requires l !in seen && Ledger(before, known, seen)
    ensures stats.assets == before.assets && Ledger(stats, counts, seen + {l})
  {
    stats, counts := before.(locations := before.locations + 1), known;
    SeenWith(seen, l);
    if l.hashStatus == Hashed {
      stats := stats.(hashed := stats.hashed + 1);
      var key := if l.contentId != "" then l.contentId else l.sha;
      if key != "" {
        TallyAdd(known, InStats(seen), StatsKey, l);
        counts := counts[key := (if key in counts then counts[key] else 0) + 1];
      }
    } else {
      stats := stats.(unhashed := stats.unhashed + 1);
    }
  }

  /** What one more location adds to the sets that are counted. */
  lemma SeenWith(seen: set<Location>, l: Location)
    requires l !in seen
    ensures |seen + {l}| == |seen| + 1
    ensures |HashedOf(seen + {l})| == |HashedOf(seen)| + if l.hashStatus == Hashed then 1 else 0
    ensures |(seen + {l}) - HashedOf(seen + {l})| == |seen - HashedOf(seen)| + if l.hashStatus == Hashed then 0 else 1
    ensures if l.hashStatus == Hashed && StatsKey(l) != ""
      then InStats(seen + {l}) == InStats(seen) + {l} && l !in InStats(seen)
      else InStats(seen + {l}) == InStats(seen)
  {
    if l.hashStatus == Hashed {
      assert HashedOf(seen + {l}) == HashedOf(seen) + {l};
      assert (seen + {l}) - HashedOf(seen + {l}) == seen - HashedOf(seen);
    } else {
      assert HashedOf(seen + {l}) == HashedOf(seen);
      assert (seen + {l}) - HashedOf(seen + {l}) == (seen - HashedOf(seen)) + {l};
    }
  }

  // The duplicate report.

  type GroupKey = (string, int)

  /** A store's listing: every asset once. */
  ghost predicate Listing(listed: seq<Asset>, assets: map<AssetId, Asset>) {
    && Owned(assets)
    && (forall i :: 0 <= i < |listed| ==> listed[i].id in assets && assets[listed[i].id] == listed[i])
    && (forall i, j :: 0 <= i < j < |listed| ==> listed[i].id != listed[j].id)
    && (forall id :: id in assets ==> exists i :: 0 <= i < |listed| && listed[i].id == id)
  }

  /** Every location with a key, listed once under it. */
  ghost predicate Collected(groups: map<GroupKey, seq<Location>>, s: set<Location>) {
    && groups.Keys == Keys(s, ReportKey)
    && forall k :: k in groups ==>
         LocationSet(groups[k]) == Fiber(s, ReportKey, k) && |groups[k]| == |Fiber(s, ReportKey, k)|
  }

  /** One more location in the group of its key leaves every group what it should be. */
  lemma GroupAdd(group: seq<Location>, s: set<Location>, l: Location, k: GroupKey)
    requires l !in s && LocationSet(group) == Fiber(s, ReportKey, k) && |group| == |Fiber(s, ReportKey, k)|
    ensures var after := if k == ReportKey(l) then group + [l] else group;
      LocationSet(after) == Fiber(s + {l}, ReportKey, k) && |after| == |Fiber(s + {l}, ReportKey, k)|
  {
    FiberAdd(s, ReportKey, l, k);
    LocationSetAppend(group, l);
  }

  lemma CollectAdd(groups: map<GroupKey, seq<Location>>, s: set<Location>, l: Location)
    requires Collected(groups, s) && l !in s
    ensures var k := ReportKey(l);
      Collected(groups[k := (if k in groups then groups[k] else []) + [l]], s + {l})
  {
    var after := groups[ReportKey(l) := (if ReportKey(l) in groups then groups[ReportKey(l)] else []) + [l]];
    forall k | k in after
      ensures LocationSet(after[k]) == Fiber(s + {l}, ReportKey, k) && |after[k]| == |Fiber(s + {l}, ReportKey, k)|
    {
      if k !in groups {
        NoFiber(s, ReportKey, k);
      }
      GroupAdd(if k in groups then groups[k] else [], s, l, k);
    }
    assert Keys(s + {l}, ReportKey) == Keys(s, ReportKey) + {ReportKey(l)};
  }

  lemma LocationSetAppend(ls: seq<Location>, l: Location)
    ensures LocationSet(ls + [l]) == LocationSet(ls) + {l}
  {
    forall m | m in LocationSet(ls) ensures m in LocationSet(ls + [l]) {
      var i :| 0 <= i < |ls| && ls[i] == m;
      assert (ls + [l])[i] == m;
    }
    assert (ls + [l])[|ls|] == l;
  }

  /** What the report shows: every class of two or more by hash and size, each member once. */
  ghost predicate ReportOf(assets: map<AssetId, Asset>, groups: map<GroupKey, seq<Location>>, total: nat) {
    var s := InReport(All(assets));
    && total == |groups| && groups.Keys == Keys(Repeated(s, ReportKey), ReportKey)
    && forall k :: k in groups ==>
         LocationSet(groups[k]) == Fiber(s, ReportKey, k) && |groups[k]| == |Fiber(s, ReportKey, k)|
  }

  /** The groups of two or more, before sorting and paging, and the page's total. */
  method BuildDuplicateGroups(listed: seq<Asset>, ghost assets: map<AssetId, Asset>)
    returns (groups: map<GroupKey, seq<Location>>, total: nat)
    requires Listing(listed, assets)
    ensures ReportOf(assets, groups, total)
  {
    var byKey := CollectAssets(listed, assets);
    KeptKeys(byKey, InReport(All(assets)));
    groups := map k | k in byKey && |byKey[k]| >= 2 :: byKey[k];
    total := |groups|;
  }

  method CollectAssets(listed: seq<Asset>, ghost assets: map<AssetId, Asset>)
    returns (groups: map<GroupKey, seq<Location>>)
    requires Listing(listed, assets)
    ensures Collected(groups, InReport(All(assets)))
  {
    groups := map[];
    NothingListed(listed, assets);
    for i := 0 to |listed|
      invariant Collected(groups, InReport(All(assets - Unlisted(listed, assets, i))))
    {
      NextListed(listed, assets, i);
      NextAsset(assets, Unlisted(listed, assets, i), listed[i].id);
      groups := CollectAsset(groups, listed[i], All(assets - Unlisted(listed, assets, i)));
    }
    AllListed(listed, assets);
  }

  /** The assets that come later in a listing. */
  ghost function Unlisted(listed: seq<Asset>, assets: map<AssetId, Asset>, i: nat): set<AssetId>
    requires i <= |listed|
  {
    set id | id in assets && forall j :: 0 <= j < i ==> listed[j].id != id
  }

  lemma NothingListed(listed: seq<Asset>, assets: map<AssetId, Asset>)
    ensures assets - Unlisted(listed, assets, 0) == map[]
  {
    assert Unlisted(listed, assets, 0) == assets.Keys;
  }

  lemma NextListed(listed: seq<Asset>, assets: map<AssetId, Asset>, i: nat)
    requires Listing(listed, assets) && i < |listed|
    ensures listed[i].id in Unlisted(listed, assets, i) && assets[listed[i].id] == listed[i]
    ensures Unlisted(listed, assets, i + 1) == Unlisted(listed, assets, i) - {listed[i].id}
  {
  }

  lemma AllListed(listed: seq<Asset>, assets: map<AssetId, Asset>)
    requires Listing(listed, assets)
    ensures assets - Unlisted(listed, assets, |listed|) == assets
  {
    assert Unlisted(listed, assets, |listed|) == {};
  }

  method CollectAsset(known: map<GroupKey, seq<Location>>, asset: Asset, ghost seen: set<Location>)
    returns (groups: map<GroupKey, seq<Location>>)
    requires OwnsItsLocations(asset, asset.id) && seen !! LocationSet(asset.locations)
      && Collected(known, InReport(seen))
    ensures Collected(groups, InReport(seen + LocationSet(asset.locations)))
  {
    groups := known;
    ghost var all := seen;
    for i := 0 to |asset.locations|
      invariant all == seen + LocationSet(asset.locations[..i])
      invariant Collected(groups, InReport(all))
    {
      NextLocation(asset.locations, i);
      var l := asset.locations[i];
      if l.hashStatus != Hashed || l.sha == "" {
        assert InReport(all + {l}) == InReport(all);
        all := all + {l};
        continue;
      }
      var k := (l.sha, l.file.size);
      CollectAdd(groups, InReport(all), l);
      assert InReport(all + {l}) == InReport(all) + {l};
      groups := groups[k := (if k in groups then groups[k] else []) + [l]];
      all := all + {l};
    }
    assert asset.locations[..|asset.locations|] == asset.locations;
  }

  lemma KeptKeys(groups: map<GroupKey, seq<Location>>, s: set<Location>)
    requires Collected(groups, s)
    ensures (set k | k in groups && |groups[k]| >= 2) == Keys(Repeated(s, ReportKey), ReportKey)
  {
    var counts: map<GroupKey, nat> := map k | k in groups :: |groups[k]|;
    ManyAreRepeated(counts, s, ReportKey);
    assert (set k | k in groups && |groups[k]| >= 2) == Many(counts);
  }

  // The two counts agree.

  /** In a faithful catalog the statistics and the report look at the same locations, and group them alike. */
  lemma SameLocations(c: Catalog, content: Url -> Content)
    requires Fixed(content) && Indexed(c) && Faithful(c, content)
    ensures InStats(All(c.assets)) == InReport(All(c.assets))
    ensures SameGroups(InReport(All(c.assets)), StatsKey, ReportKey)
  {
    forall l | l in All(c.assets) && l.hashStatus == Hashed ensures Shown(c, l, content) {
      HashedIsShown(c, l, content);
    }
    forall l, m | l in InReport(All(c.assets)) && m in InReport(All(c.assets))
      ensures StatsKey(l) == StatsKey(m) <==> ReportKey(l) == ReportKey(m)
    {
      assert Shown(c, l, content) && Shown(c, m, content);
      if l.assetId != m.assetId {
        assert Apart(c.assets[l.assetId], c.assets[m.assetId], content);
      }
    }
  }

  ghost predicate Shown(c: Catalog, l: Location, content: Url -> Content) {
    l.assetId in c.assets && IsHashed(c.assets[l.assetId]) && ContentId(c.assets[l.assetId]) != ""
    && ShowsContent(l, ContentOf(c.assets[l.assetId], content), ContentId(c.assets[l.assetId]), content)
  }

  lemma HashedIsShown(c: Catalog, l: Location, content: Url -> Content)
    requires Indexed(c) && Faithful(c, content) && l in All(c.assets) && l.hashStatus == Hashed
    ensures Shown(c, l, content)
  {
    var id, i :| id in c.assets && 0 <= i < |c.assets[id].locations| && c.assets[id].locations[i] == l;
    assert OwnsItsLocations(c.assets[id], id) && Sound(c.assets[id], content);
  }

  /** The numbers in the statistics, which come from groups by content id, are those of the report, whose groups are by
      hash and size: its total, and the members of all its groups. */
  lemma StatsAgreeWithReport(c: Catalog, content: Url -> Content, stats: Stats, groups: map<GroupKey, seq<Location>>,
                             total: nat)
    requires Fixed(content) && Indexed(c) && Faithful(c, content)
    requires StatsOf(c.assets, stats) && ReportOf(c.assets, groups, total)
    ensures stats.duplicateGroups == total && stats.duplicateLocations == Members(groups)
  {
    var s := InReport(All(c.assets));
    SameLocations(c, content);
    SameRepeated(s, StatsKey, ReportKey);
    assert |groups| == |groups.Keys|;
    MembersAreOver(groups, s, ReportKey);
    OverRepeated(s, ReportKey);
  }
}
