/** Plugin manifests: validation, and the dependency sort. */
module Plugins {
  import opened Order

  datatype SidecarHTTP = SidecarHTTP(baseURL: string, healthPath: string)

  datatype Manifest = Manifest(
    id: string, name: string, version: string, description: string, dependsOn: seq<string>,
    runtime: string, status: string, sidecar: Option<SidecarHTTP>)

  datatype SortError = Invalid(id: string) | Duplicate(id: string) | Cycle(id: string) | MissingDependency(id: string)

  type Graph = map<string, Manifest>

  // Manifests.

  /** Defaults for the runtime, the status and a sidecar's health path; everything else stays. */
  lemma NormalizeFillsIn(m: Manifest)
    ensures var n := Normalize(m);
      && n.id == m.id && n.name == m.name && n.version == m.version && n.description == m.description
      && n.dependsOn == m.dependsOn && (n.sidecar.Some? <==> m.sidecar.Some?)
      && (if m.runtime == "" then n.runtime == "builtin" else n.runtime == m.runtime)
      && (if m.status == "" then n.status == "loaded" else n.status == m.status)
      && (m.sidecar.Some? ==> n.sidecar.value.baseURL == m.sidecar.value.baseURL)
      && (m.sidecar.Some? ==>
            if m.runtime == "sidecar_http" && m.sidecar.value.healthPath == ""
            then n.sidecar.value.healthPath == "/health" else n.sidecar == m.sidecar)
  {
  }

  /** A manifest is accepted if it has a name, a version, and an id of lower-case letters and digits, dots and dashes
      that begins with a letter or digit; if it is built in, or a sidecar with a base URL. */
  lemma ValidAfterDefaults(m: Manifest)
    ensures Valid(Normalize(m)) <==>
      && |m.name| > 0 && |m.version| > 0 && |m.id| > 0
      && (forall i :: 0 <= i < |m.id| ==> var code := m.id[i] as int;
            97 <= code <= 122 || 48 <= code <= 57 || (i > 0 && (code == 45 || code == 46)))
      && (m.runtime in {"", "builtin"}
          || (m.runtime == "sidecar_http" && m.sidecar.Some? && |m.sidecar.value.baseURL| > 0))
  {
    NormalizeFillsIn(m);
    assert forall i :: 0 <= i < |m.id| ==>
      (IdStart(m.id[i]) <==> 97 <= m.id[i] as int <= 122 || 48 <= m.id[i] as int <= 57);
  }

  function Normalize(m: Manifest): Manifest {
    var n := m.(runtime := if m.runtime == "" then "builtin" else m.runtime,
                status := if m.status == "" then "loaded" else m.status);
    if n.runtime == "sidecar_http" && n.sidecar.Some? && n.sidecar.value.healthPath == "" then
      n.(sidecar := Some(n.sidecar.value.(healthPath := "/health")))
    else n
  }

  predicate IdStart(c: char) { 'a' <= c <= 'z' || '0' <= c <= '9' }

  predicate IdChar(c: char) { IdStart(c) || c == '.' || c == '-' }

  predicate ValidId(id: string) {
    id != [] && IdStart(id[0]) && forall i :: 0 <= i < |id| ==> IdChar(id[i])
  }

  predicate Valid(m: Manifest) {
    ValidId(m.id) && m.name != "" && m.version != "" &&
    if m.runtime == "sidecar_http" then m.sidecar.Some? && m.sidecar.value.baseURL != ""
    else m.runtime == "builtin"
  }

  // The depth-first visit, as a function of its variables.

  datatype Progress = Progress(visiting: set<string>, visited: set<string>, ordered: seq<Manifest>)

  datatype Outcome = Done(p: Progress) | Stopped(error: SortError)

  function VisitId(g: Graph, id: string, p: Progress): (r: Outcome)
    ensures r.Done? ==> Grown(p, r.p)
    decreases g.Keys - p.visiting - p.visited, 1, 0
  {
    if id in p.visited then Done(p)
    else if id in p.visiting then Stopped(Cycle(id))
    else if id !in g then Stopped(MissingDependency(id))
    else
      assert id in g.Keys - p.visiting - p.visited;
      assert id !in g.Keys - (p.visiting + {id}) - p.visited;
      match VisitAll(g, SortStrings(g[id].dependsOn), p.(visiting := p.visiting + {id}))
      case Stopped(e) => Stopped(e)
      case Done(q) => Done(Progress(q.visiting - {id}, q.visited + {id}, q.ordered + [g[id]]))
  }

  function VisitAll(g: Graph, ids: seq<string>, p: Progress): (r: Outcome)
    ensures r.Done? ==> Grown(p, r.p)
    decreases g.Keys - p.visiting - p.visited, 2, |ids|
  {
    if ids == [] then Done(p)
    else
      match VisitId(g, ids[0], p)
      case Stopped(e) => Stopped(e)
      case Done(q) => VisitAll(g, ids[1..], q)
  }

  /** A visit only adds: the ids being visited are the same afterwards. */
  predicate Grown(p: Progress, q: Progress) {
    q.visiting == p.visiting && p.visited <= q.visited
  }

  const START := Progress({}, {}, [])

  /** The ids of a graph in order. */
  ghost function SortedIds(ids: set<string>): (r: seq<string>)
    ensures Sorted(r) && multiset(r) == multiset(ids)
  {
    SortStrings(Enumerated(ids))
  }

  ghost function Enumerated(ids: set<string>): (r: seq<string>)
    ensures multiset(r) == multiset(ids)
  {
    if ids == {} then []
    else
      var id :| id in ids;
      [id] + Enumerated(ids - {id})
  }

  ghost function SortGraph(g: Graph): Outcome {
    VisitAll(g, SortedIds(g.Keys), START)
  }

  // What a visit keeps.

  ghost predicate WellKeyed(g: Graph) {
    forall id :: id in g ==> g[id].id == id
  }

  /** Every dependency of an ordered manifest is ordered before it. */
  ghost predicate DependenciesFirst(ordered: seq<Manifest>) {
    forall i, d :: 0 <= i < |ordered| && d in ordered[i].dependsOn ==> exists j :: 0 <= j < i && ordered[j].id == d
  }

  predicate DistinctIds(ms: seq<Manifest>) {
    forall i, j :: 0 <= i < j < |ms| ==> ms[i].id != ms[j].id
  }

  /** The ordered manifests are exactly the visited ones, each once, after their dependencies. */
  ghost predicate InOrder(g: Graph, p: Progress) {
    && p.visiting <= g.Keys && p.visiting !! p.visited
    && (forall i :: 0 <= i < |p.ordered| ==>
          p.ordered[i].id in p.visited && p.ordered[i].id in g && g[p.ordered[i].id] == p.ordered[i])
    && (forall id :: id in p.visited ==> exists i :: 0 <= i < |p.ordered| && p.ordered[i].id == id)
    && DistinctIds(p.ordered) && DependenciesFirst(p.ordered)
  }

  lemma {:induction false} VisitKeepsOrder(g: Graph, id: string, p: Progress)
    requires WellKeyed(g) && InOrder(g, p) && VisitId(g, id, p).Done?
    ensures InOrder(g, VisitId(g, id, p).p) && id in VisitId(g, id, p).p.visited
    decreases g.Keys - p.visiting - p.visited, 1, 0
  {
    if id !in p.visited {
      assert id in g.Keys - p.visiting - p.visited;
      assert id !in g.Keys - (p.visiting + {id}) - p.visited;
      var deps := SortStrings(g[id].dependsOn);
      var inner := p.(visiting := p.visiting + {id});
      VisitAllKeepsOrder(g, deps, inner);
      var q := VisitAll(g, deps, inner).p;
      forall d | d in g[id].dependsOn ensures d in q.visited {
        assert d in multiset(deps);
      }
      AppendKeepsOrder(g, q, id);
    }
  }

  lemma {:induction false} VisitAllKeepsOrder(g: Graph, ids: seq<string>, p: Progress)
    requires WellKeyed(g) && InOrder(g, p) && VisitAll(g, ids, p).Done?
    ensures InOrder(g, VisitAll(g, ids, p).p) && forall id :: id in ids ==> id in VisitAll(g, ids, p).p.visited
    decreases g.Keys - p.visiting - p.visited, 2, |ids|
  {
    if ids != [] {
      VisitKeepsOrder(g, ids[0], p);
      VisitAllKeepsOrder(g, ids[1..], VisitId(g, ids[0], p).p);
    }
  }

  /** The end of a visit: the id is visited, its manifest comes last. */
  lemma AppendKeepsBefore(ordered: seq<Manifest>, last: Manifest)
    requires DependenciesFirst(ordered)
    requires forall d :: d in last.dependsOn ==> exists j :: 0 <= j < |ordered| && ordered[j].id == d
    ensures DependenciesFirst(ordered + [last])
  {
    var all := ordered + [last];
    forall i, d | 0 <= i < |all| && d in all[i].dependsOn ensures exists j :: 0 <= j < i && all[j].id == d {
      if i < |ordered| {
        var j :| 0 <= j < i && ordered[j].id == d;
        assert all[j].id == d;
      } else {
        var j :| 0 <= j < |ordered| && ordered[j].id == d;
        assert all[j].id == d;
      }
    }
  }

  lemma AppendKeepsOrder(g: Graph, q: Progress, id: string)
    requires WellKeyed(g) && InOrder(g, q) && id in q.visiting && id in g
    requires forall d :: d in g[id].dependsOn ==> d in q.visited
    ensures InOrder(g, Progress(q.visiting - {id}, q.visited + {id}, q.ordered + [g[id]]))
  {
    var all := q.ordered + [g[id]];
    forall x | x in q.visited + {id} ensures exists i :: 0 <= i < |all| && all[i].id == x {
      if x == id {
        assert all[|q.ordered|].id == x;
      } else {
        var i :| 0 <= i < |q.ordered| && q.ordered[i].id == x;
        assert all[i].id == x;
      }
    }
    AppendKeepsBefore(q.ordered, g[id]);
  }

  // Why a visit stops.

  predicate Edge(g: Graph, a: string, b: string) { a in g && b in g[a].dependsOn }

  ghost predicate IsPath(g: Graph, path: seq<string>) {
    forall i :: 0 <= i < |path| - 1 ==> Edge(g, path[i], path[i + 1])
  }

  /** A path of at least one edge back to its start. */
  ghost predicate IsCycle(g: Graph, path: seq<string>) {
    |path| >= 2 && path[0] == path[|path| - 1] && IsPath(g, path)
  }

  ghost predicate Acyclic(g: Graph) { forall path :: !IsCycle(g, path) }

  ghost predicate DependenciesExist(g: Graph) {
    forall a, b :: Edge(g, a, b) ==> b in g
  }

  /** The stack of ids being visited is a path to the id about to be visited. */
  ghost predicate IsStack(g: Graph, stack: seq<string>, p: Progress) {
    IsPath(g, stack) && forall id :: id in p.visiting <==> id in stack
  }

  /** The error names what is wrong: an id on a cycle, or one that is missing and depended on. */
  ghost predicate Blames(g: Graph, e: SortError) {
    match e
    case Cycle(id) => exists path :: IsCycle(g, path) && path[0] == id
    case MissingDependency(id) => id !in g && exists a :: Edge(g, a, id)
    case _ => false
  }

  ghost predicate Blamed(g: Graph) { !DependenciesExist(g) || !Acyclic(g) }

  lemma BlameIsRight(g: Graph, e: SortError)
    requires Blames(g, e)
    ensures Blamed(g)
  {
  }

  lemma {:induction false} StopIsBlamed(g: Graph, id: string, p: Progress, stack: seq<string>)
    requires IsStack(g, stack, p) && (stack == [] ==> id in g) && (stack != [] ==> Edge(g, stack[|stack| - 1], id))
    requires VisitId(g, id, p).Stopped?
    ensures Blames(g, VisitId(g, id, p).error)
    decreases g.Keys - p.visiting - p.visited, 1, 0
  {
    if id in p.visiting {
      var k :| 0 <= k < |stack| && stack[k] == id;
      var path := stack[k..] + [id];
      assert IsCycle(g, path);
    } else if id !in g {
      assert Edge(g, stack[|stack| - 1], id);
    } else {
      assert id in g.Keys - p.visiting - p.visited;
      assert id !in g.Keys - (p.visiting + {id}) - p.visited;
      var deps := SortStrings(g[id].dependsOn);
      forall d | d in deps ensures Edge(g, id, d) {
        assert d in multiset(deps);
      }
      AllStopIsBlamed(g, deps, p.(visiting := p.visiting + {id}), stack + [id]);
    }
  }

  lemma {:induction false} AllStopIsBlamed(g: Graph, ids: seq<string>, p: Progress, stack: seq<string>)
    requires IsStack(g, stack, p)
    requires forall id :: id in ids ==> if stack == [] then id in g else Edge(g, stack[|stack| - 1], id)
    requires VisitAll(g, ids, p).Stopped?
    ensures Blames(g, VisitAll(g, ids, p).error)
    decreases g.Keys - p.visiting - p.visited, 2, |ids|
  {
    assert ids[0] in ids;
    if VisitId(g, ids[0], p).Stopped? {
      StopIsBlamed(g, ids[0], p, stack);
    } else {
      forall id | id in ids[1..] ensures id in ids {
        assert ids == [ids[0]] + ids[1..];
      }
      AllStopIsBlamed(g, ids[1..], VisitId(g, ids[0], p).p, stack);
    }
  }

  // An order rules out cycles.

  ghost predicate IsOrder(g: Graph, ordered: seq<Manifest>) {
    && DistinctIds(ordered) && DependenciesFirst(ordered)
    && (forall i :: 0 <= i < |ordered| ==> ordered[i].id in g && g[ordered[i].id] == ordered[i])
    && (forall id :: id in g ==> exists i :: 0 <= i < |ordered| && ordered[i].id == id)
  }

  ghost function Position(g: Graph, ordered: seq<Manifest>, id: string): (i: nat)
    requires IsOrder(g, ordered) && id in g
    ensures i < |ordered| && ordered[i].id == id
  {
    var i :| 0 <= i < |ordered| && ordered[i].id == id; i
  }

  lemma EdgeGoesBack(g: Graph, ordered: seq<Manifest>, a: string, b: string)
    requires IsOrder(g, ordered) && Edge(g, a, b)
    ensures b in g && Position(g, ordered, b) < Position(g, ordered, a)
  {
    var i := Position(g, ordered, a);
    assert g[a] == ordered[i];
    var j :| 0 <= j < i && ordered[j].id == b;
    assert b in g && Position(g, ordered, b) == j;
  }

  lemma {:induction false} PathGoesBack(g: Graph, ordered: seq<Manifest>, path: seq<string>)
    requires IsOrder(g, ordered) && |path| >= 2 && IsPath(g, path)
    ensures path[0] in g && path[|path| - 1] in g
    ensures Position(g, ordered, path[|path| - 1]) < Position(g, ordered, path[0])
  {
    EdgeGoesBack(g, ordered, path[0], path[1]);
    if |path| > 2 {
      forall i | 0 <= i < |path[1..]| - 1 ensures Edge(g, path[1..][i], path[1..][i + 1]) {
        assert Edge(g, path[i + 1], path[i + 2]);
      }
      PathGoesBack(g, ordered, path[1..]);
    }
  }

  lemma OrderRulesOutCycles(g: Graph, ordered: seq<Manifest>)
    requires IsOrder(g, ordered)
    ensures Acyclic(g) && DependenciesExist(g)
  {
    forall path ensures !IsCycle(g, path) {
      if IsCycle(g, path) {
        PathGoesBack(g, ordered, path);
      }
    }
    forall a, b | Edge(g, a, b) ensures b in g {
      EdgeGoesBack(g, ordered, a, b);
    }
  }

  lemma SortedIdsAreAll(g: Graph)
    ensures forall id :: id in SortedIds(g.Keys) <==> id in g
  {
    var ids := SortedIds(g.Keys);
    forall id ensures id in ids <==> id in g {
      assert id in multiset(ids) <==> id in multiset(g.Keys);
    }
  }

  /** The sort of a graph succeeds exactly when nothing is missing and nothing is cyclic, and then yields an order. */
  lemma GraphSorts(g: Graph)
    requires WellKeyed(g)
    ensures SortGraph(g).Done? <==> DependenciesExist(g) && Acyclic(g)
    ensures SortGraph(g).Done? ==> IsOrder(g, SortGraph(g).p.ordered)
    ensures SortGraph(g).Stopped? ==> Blames(g, SortGraph(g).error)
  {
    var ids := SortedIds(g.Keys);
    SortedIdsAreAll(g);
    if SortGraph(g).Done? {
      VisitAllKeepsOrder(g, ids, START);
      OrderRulesOutCycles(g, SortGraph(g).p.ordered);
    } else {
      AllStopIsBlamed(g, ids, START, []);
      BlameIsRight(g, SortGraph(g).error);
    }
  }

  // The order itself.

  /** An id that could stand at position k of a path: any id at its start, and after that a dependency. */
  predicate Choice(g: Graph, path: seq<string>, k: nat, id: string)
    requires k <= |path|
  {
    if k == 0 then id in g else Edge(g, path[k - 1], id)
  }

  ghost predicate Reaches(g: Graph, a: string, b: string) {
    exists path :: path != [] && path[0] == a && path[|path| - 1] == b && IsPath(g, path)
  }

  /** The path by which a sort comes to an id: at every position the smallest id that leads there. */
  ghost predicate FirstPath(g: Graph, path: seq<string>, id: string) {
    && path != [] && path[|path| - 1] == id && path[0] in g && IsPath(g, path)
    && forall k, d :: 0 <= k < |path| && Choice(g, path, k, d) && Reaches(g, d, id) ==> !Precedes(d, path[k])
  }

  /** The paths part, and there the first has the smaller id. */
  ghost predicate PartsBefore(p: seq<string>, q: seq<string>) {
    exists k: nat :: k < |p| && k < |q| && p[..k] == q[..k] && Precedes(p[k], q[k])
  }

  /** A path stands before another if it goes on where the other ends, or has the smaller id where they part. */
  ghost predicate PathBefore(p: seq<string>, q: seq<string>) {
    (|q| < |p| && p[..|q|] == q) || PartsBefore(p, q)
  }

  /** The manifests stand in the order of these paths. */
  ghost predicate Traced(g: Graph, ordered: seq<Manifest>, paths: seq<seq<string>>) {
    && |paths| == |ordered| && (forall i :: 0 <= i < |paths| ==> FirstPath(g, paths[i], ordered[i].id))
    && forall i, j :: 0 <= i < j < |paths| ==> PathBefore(paths[i], paths[j])
  }

  /** The ids on the way are the smallest but for those visited already. */
  ghost predicate OnFirstPath(g: Graph, p: Progress, stack: seq<string>) {
    && IsPath(g, stack) && (stack != [] ==> stack[0] in g)
    && forall k, d :: 0 <= k < |stack| && Choice(g, stack, k, d) && Precedes(d, stack[k]) ==> d in p.visited
  }

  ghost predicate AllPartBefore(paths: seq<seq<string>>, q: seq<string>) {
    forall i :: 0 <= i < |paths| ==> PartsBefore(paths[i], q)
  }

  ghost predicate AllBegin(paths: seq<seq<string>>, from: nat, q: seq<string>) {
    forall i :: from <= i < |paths| ==> q <= paths[i]
  }

  /** What a visited id depends on is visited. */
  lemma {:induction false} VisitedIsClosed(g: Graph, p: Progress, path: seq<string>)
    requires InOrder(g, p) && path != [] && path[0] in p.visited && IsPath(g, path)
    ensures path[|path| - 1] in p.visited
  {
    if |path| > 1 {
      assert Edge(g, path[0], path[1]);
      var i :| 0 <= i < |p.ordered| && p.ordered[i].id == path[0];
      var j :| 0 <= j < i && p.ordered[j].id == path[1];
      forall k | 0 <= k < |path[1..]| - 1 ensures Edge(g, path[1..][k], path[1..][k + 1]) {
        assert Edge(g, path[k + 1], path[k + 2]);
      }
      VisitedIsClosed(g, p, path[1..]);
    }
  }

  lemma UnvisitedIsFirst(g: Graph, p: Progress, stack: seq<string>, id: string)
    requires InOrder(g, p) && OnFirstPath(g, p, stack + [id]) && id !in p.visited
    ensures FirstPath(g, stack + [id], id)
  {
    var path := stack + [id];
    forall k, d | 0 <= k < |path| && Choice(g, path, k, d) && Reaches(g, d, id) ensures !Precedes(d, path[k]) {
      if Precedes(d, path[k]) {
        var way :| way != [] && way[0] == d && way[|way| - 1] == id && IsPath(g, way);
        VisitedIsClosed(g, p, way);
      }
    }
  }

  lemma ExtensionsPart(p: seq<string>, q: seq<string>, longer: seq<string>)
    requires PartsBefore(p, q) && q <= longer
    ensures PartsBefore(p, longer)
  {
    var k: nat :| k < |p| && k < |q| && p[..k] == q[..k] && Precedes(p[k], q[k]);
    assert q[..k] == longer[..k] && q[k] == longer[k];
  }

  lemma BeginVisit(g: Graph, id: string, p: Progress, stack: seq<string>)
    requires InOrder(g, p) && id in g && id !in p.visited && OnFirstPath(g, p, stack + [id])
    ensures var inner := p.(visiting := p.visiting + {id});
      InOrder(g, inner) && OnFirstPath(g, inner, stack + [id])
  {
  }

  /** The dependencies in order are the choices after an id. */
  lemma DepsAreChoices(g: Graph, id: string, stack: seq<string>)
    requires id in g
    ensures forall d :: d in SortStrings(g[id].dependsOn) <==> Choice(g, stack + [id], |stack + [id]|, d)
  {
    var deps := SortStrings(g[id].dependsOn);
    forall d ensures d in deps <==> Edge(g, id, d) {
      assert d in multiset(deps) <==> d in multiset(g[id].dependsOn);
    }
  }

  lemma DepsPartLater(paths: seq<seq<string>>, here: seq<string>)
    requires AllPartBefore(paths, here)
    ensures forall d :: AllPartBefore(paths, here + [d])
  {
    forall d, i | 0 <= i < |paths| ensures PartsBefore(paths[i], here + [d]) {
      ExtensionsPart(paths[i], here, here + [d]);
    }
  }

  lemma {:induction false} VisitTraces(g: Graph, id: string, p: Progress, stack: seq<string>, paths: seq<seq<string>>)
    returns (after: seq<seq<string>>)
    requires WellKeyed(g) && InOrder(g, p) && VisitId(g, id, p).Done? && Traced(g, p.ordered, paths)
    requires OnFirstPath(g, p, stack + [id]) && (id !in p.visited ==> AllPartBefore(paths, stack + [id]))
    ensures Traced(g, VisitId(g, id, p).p.ordered, after) && paths <= after
    ensures AllBegin(after, |paths|, stack + [id])
    decreases g.Keys - p.visiting - p.visited, 1, 0
  {
    hide Traced, FirstPath, PathBefore, PartsBefore, AllPartBefore, InOrder, OnFirstPath, Choice;
    if id in p.visited {
      return paths;
    }
    assert id in g.Keys - p.visiting - p.visited;
    assert id !in g.Keys - (p.visiting + {id}) - p.visited;
    var deps, inner, here := SortStrings(g[id].dependsOn), p.(visiting := p.visiting + {id}), stack + [id];
    BeginVisit(g, id, p, stack);
    DepsAreChoices(g, id, stack);
    DepsPartLater(paths, here);
    var mid := VisitAllTraces(g, deps, inner, here, paths);
    VisitAllKeepsOrder(g, deps, inner);
    UnvisitedIsFirst(g, p, stack, id);
    after := mid + [here];
    VisitedLast(g, VisitAll(g, deps, inner).p.ordered, g[id], paths, mid, here);
  }

  /** The visit ends with the path to the id itself, which the paths of its dependencies go on from. */
  lemma VisitedLast(g: Graph, ordered: seq<Manifest>, last: Manifest, paths: seq<seq<string>>, mid: seq<seq<string>>,
                    here: seq<string>)
    requires Traced(g, ordered, mid) && FirstPath(g, here, last.id) && paths <= mid && AllPartBefore(paths, here)
    requires forall i :: |paths| <= i < |mid| ==> |here| < |mid[i]| && here <= mid[i]
    ensures Traced(g, ordered + [last], mid + [here])
  {
    forall i | 0 <= i < |mid| ensures PathBefore(mid[i], here) {
      assert i < |paths| ==> mid[i] == paths[i];
    }
  }

  lemma {:induction false} VisitAllTraces(g: Graph, ids: seq<string>, p: Progress, stack: seq<string>,
                                          paths: seq<seq<string>>)
    returns (after: seq<seq<string>>)
    requires WellKeyed(g) && InOrder(g, p) && VisitAll(g, ids, p).Done? && Traced(g, p.ordered, paths)
    requires OnFirstPath(g, p, stack) && Sorted(ids)
    requires forall d :: d in ids ==>
      Choice(g, stack, |stack|, d) && (d !in p.visited ==> AllPartBefore(paths, stack + [d]))
    requires forall d :: Choice(g, stack, |stack|, d) ==> d in ids || d in p.visited
    ensures Traced(g, VisitAll(g, ids, p).p.ordered, after) && paths <= after
    ensures forall i :: |paths| <= i < |after| ==> |stack| < |after[i]| && stack <= after[i]
    decreases g.Keys - p.visiting - p.visited, 2, |ids|
  {
    hide Traced, FirstPath, PathBefore;
    if ids == [] {
      return paths;
    }
    var id, q := ids[0], VisitId(g, ids[0], p).p;
    SiblingIsOnFirstPath(g, ids, p, stack);
    var first := VisitTraces(g, id, p, stack, paths);
    VisitKeepsOrder(g, id, p);
    assert ids == [id] + ids[1..];
    forall d | d in ids[1..] && d !in q.visited ensures AllPartBefore(first, stack + [d]) {
      LaterParts(id, d, stack, paths, first);
    }
    after := VisitAllTraces(g, ids[1..], q, stack, first);
  }

  lemma SiblingIsOnFirstPath(g: Graph, ids: seq<string>, p: Progress, stack: seq<string>)
    requires OnFirstPath(g, p, stack) && Sorted(ids) && ids != [] && Choice(g, stack, |stack|, ids[0])
    requires forall d :: Choice(g, stack, |stack|, d) ==> d in ids || d in p.visited
    ensures OnFirstPath(g, p, stack + [ids[0]])
  {
    var path := stack + [ids[0]];
    forall i | 0 <= i < |path| - 1 ensures Edge(g, path[i], path[i + 1]) {
      assert i < |stack| - 1 ==> Edge(g, stack[i], stack[i + 1]);
    }
    forall k, d | 0 <= k < |path| && Choice(g, path, k, d) && Precedes(d, path[k]) ensures d in p.visited {
      if k < |stack| {
        assert Choice(g, stack, k, d);
      } else {
        assert Choice(g, stack, k, d);
        LessIsFirstDifference(d, ids[0]);
        LessAsymmetric(d, ids[0]);
      }
    }
  }

  /** Paths through an earlier sibling part before one through a later sibling. */
  lemma LaterParts(id: string, d: string, stack: seq<string>, paths: seq<seq<string>>, first: seq<seq<string>>)
    requires paths <= first && AllBegin(first, |paths|, stack + [id]) && AllPartBefore(paths, stack + [d])
    requires AtMost(id, d) && id != d
    ensures AllPartBefore(first, stack + [d])
  {
    LessIsFirstDifference(id, d);
    forall i | 0 <= i < |first| ensures PartsBefore(first[i], stack + [d]) {
      if i >= |paths| {
        var k := |stack|;
        assert (stack + [id])[k] == id && first[i][..k] == (stack + [id])[..k] == stack == (stack + [d])[..k];
        assert first[i][k] == (stack + [id])[k] && (stack + [d])[k] == d;
      } else {
        assert first[i] == paths[i];
      }
    }
  }

  /** The sorted manifests stand in the order of their first paths. */
  ghost predicate ByFirstPath(g: Graph, ordered: seq<Manifest>) {
    exists paths :: Traced(g, ordered, paths)
  }

  lemma SortIsByFirstPath(g: Graph)
    requires WellKeyed(g) && SortGraph(g).Done?
    ensures ByFirstPath(g, SortGraph(g).p.ordered)
  {
    hide InOrder, Traced;
    SortedIdsAreAll(g);
    StartsInOrder(g);
    var paths := VisitAllTraces(g, SortedIds(g.Keys), START, [], []);
  }

  lemma StartsInOrder(g: Graph)
    ensures InOrder(g, START) && Traced(g, START.ordered, [])
  {
  }

  /** One manifest depends on another, directly or not. */
  ghost predicate Needs(g: Graph, a: string, b: string) {
    exists path :: |path| >= 2 && path[0] == a && path[|path| - 1] == b && IsPath(g, path)
  }

  /** A manifest stands before one with a smaller id only because a manifest that is due by then needs it: the one with
      the smaller id itself, or one with an id smaller still. */
  lemma OutOfTurn(g: Graph, ordered: seq<Manifest>, i: nat, j: nat)
    requires IsOrder(g, ordered) && ByFirstPath(g, ordered)
    requires i < j < |ordered| && Precedes(ordered[j].id, ordered[i].id)
    ensures exists m :: (m == ordered[j].id || Precedes(m, ordered[j].id)) && Needs(g, m, ordered[i].id)
  {
    var paths :| Traced(g, ordered, paths);
    var m := DueByThen(g, paths[i], paths[j], ordered[i].id, ordered[j].id);
  }

  lemma DueByThen(g: Graph, p: seq<string>, q: seq<string>, x: string, y: string) returns (m: string)
    requires FirstPath(g, p, x) && FirstPath(g, q, y) && y in g && PathBefore(p, q) && Precedes(y, x)
    ensures (m == y || Precedes(m, y)) && Needs(g, m, x)
  {
    m := p[0];
    SmallestStart(g, q, y);
    EarlierStart(p, q);
    LessIsFirstDifference(y, x);
    StartsBefore(m, q[0], y, x);
    PathNeeds(g, p, x);
  }

  lemma EarlierStart(p: seq<string>, q: seq<string>)
    requires p != [] && q != [] && PathBefore(p, q)
    ensures AtMost(p[0], q[0])
  {
    if |q| < |p| && p[..|q|] == q {
      assert p[0] == q[0];
    } else {
      var k: nat :| k < |p| && k < |q| && p[..k] == q[..k] && Precedes(p[k], q[k]);
      if k > 0 {
        assert p[0] == p[..k][0] == q[..k][0] == q[0];
      } else {
        LessIsFirstDifference(p[0], q[0]);
      }
    }
  }

  lemma PathNeeds(g: Graph, path: seq<string>, id: string)
    requires FirstPath(g, path, id) && path[0] != id
    ensures Needs(g, path[0], id)
  {
  }

  /** The path to an id starts at an id that is no greater. */
  lemma SmallestStart(g: Graph, path: seq<string>, id: string)
    requires FirstPath(g, path, id) && id in g
    ensures AtMost(path[0], id)
  {
    assert IsPath(g, [id]) && Reaches(g, id, id);
    assert Choice(g, path, 0, id);
    LessIsFirstDifference(id, path[0]);
    LessTotal(path[0], id);
  }

  lemma StartsBefore(a: string, b: string, y: string, x: string)
    requires AtMost(a, b) && AtMost(b, y) && Less(y, x)
    ensures a != x && (a == y || Precedes(a, y))
  {
    LessIsFirstDifference(a, y);
    if a != b && b != y {
      LessTransitive(a, b, y);
    }
    LessAsymmetric(y, x);
  }

  /** Manifests that no other needs come out in ascending order of their ids. */
  lemma UnneededAscend(g: Graph, ordered: seq<Manifest>, i: nat, j: nat)
    requires IsOrder(g, ordered) && ByFirstPath(g, ordered)
    requires i < j < |ordered| && forall m :: !Needs(g, m, ordered[i].id)
    ensures Precedes(ordered[i].id, ordered[j].id)
  {
    LessTotal(ordered[i].id, ordered[j].id);
    LessIsFirstDifference(ordered[i].id, ordered[j].id);
    LessIsFirstDifference(ordered[j].id, ordered[i].id);
    if Precedes(ordered[j].id, ordered[i].id) {
      OutOfTurn(g, ordered, i, j);
    }
  }

  // The whole sort.

  predicate AllValid(ms: seq<Manifest>) {
    forall i :: 0 <= i < |ms| ==> Valid(Normalize(ms[i]))
  }

  /** Every manifest normalised and valid, and no id twice. */
  predicate Accepted(ms: seq<Manifest>) {
    AllValid(ms) && DistinctIds(ms)
  }

  function Normalized(ms: seq<Manifest>): (r: seq<Manifest>)
    ensures |r| == |ms| && forall i :: 0 <= i < |ms| ==> r[i] == Normalize(ms[i])
  {
    seq(|ms|, i requires 0 <= i < |ms| => Normalize(ms[i]))
  }

  function GraphOf(ms: seq<Manifest>): Graph {
    if ms == [] then map[]
    else
      var last := ms[|ms| - 1];
      GraphOf(ms[..|ms| - 1])[last.id := Normalize(last)]
  }

  lemma {:induction false} GraphComesFrom(ms: seq<Manifest>, id: string) returns (i: nat)
    requires id in GraphOf(ms)
    ensures i < |ms| && ms[i].id == id && GraphOf(ms)[id] == Normalize(ms[i])
  {
    i := |ms| - 1;
    if ms[i].id != id {
      i := GraphComesFrom(ms[..|ms| - 1], id);
    }
  }

  lemma {:induction false} GraphHasAll(ms: seq<Manifest>, i: nat)
    requires i < |ms|
    ensures ms[i].id in GraphOf(ms)
  {
    if i < |ms| - 1 {
      GraphHasAll(ms[..|ms| - 1], i);
    }
  }

  lemma GraphHolds(ms: seq<Manifest>, i: nat)
    requires DistinctIds(ms) && i < |ms|
    ensures ms[i].id in GraphOf(ms) && GraphOf(ms)[ms[i].id] == Normalize(ms[i])
  {
    GraphHasAll(ms, i);
    var j := GraphComesFrom(ms, ms[i].id);
  }

  /** The graph of accepted manifests does not depend on their order. */
  lemma GraphIsOrderFree(ms: seq<Manifest>, ns: seq<Manifest>)
    requires Accepted(ms) && Accepted(ns) && multiset(ms) == multiset(ns)
    ensures GraphOf(ms) == GraphOf(ns)
  {
    GraphWithin(ms, ns);
    GraphWithin(ns, ms);
  }

  lemma GraphWithin(ms: seq<Manifest>, ns: seq<Manifest>)
    requires Accepted(ns) && multiset(ms) == multiset(ns)
    ensures forall id :: id in GraphOf(ms) ==> id in GraphOf(ns) && GraphOf(ns)[id] == GraphOf(ms)[id]
  {
    forall id | id in GraphOf(ms) ensures id in GraphOf(ns) && GraphOf(ns)[id] == GraphOf(ms)[id] {
      var i := GraphComesFrom(ms, id);
      assert ms[i] in multiset(ns);
      var j :| 0 <= j < |ns| && ns[j] == ms[i];
      GraphHolds(ns, j);
    }
  }

  lemma AcceptedIsOrderFree(ms: seq<Manifest>, ns: seq<Manifest>)
    requires Accepted(ms) && multiset(ms) == multiset(ns)
    ensures Accepted(ns)
  {
    forall i | 0 <= i < |ns| ensures Valid(Normalize(ns[i])) {
      assert ns[i] in multiset(ms);
    }
    forall i, j | 0 <= i < j < |ns| ensures ns[i].id != ns[j].id {
      if ns[i].id == ns[j].id {
        var a: nat :| a < |ms| && ms[a] == ns[i] by { assert ns[i] in multiset(ms); }
        var b: nat :| b < |ms| && ms[b] == ns[j] by { assert ns[j] in multiset(ms); }
        assert ns[i] == ns[j];
        StillNoRepeats(ms, ns);
      }
    }
  }

  lemma OrderIsPermutation(ms: seq<Manifest>, ordered: seq<Manifest>)
    requires Accepted(ms) && IsOrder(GraphOf(ms), ordered)
    ensures multiset(ordered) == multiset(Normalized(ms))
  {
    var ns := Normalized(ms);
    forall m | m in ordered ensures m in ns {
      var i :| 0 <= i < |ordered| && ordered[i] == m;
      var j := GraphComesFrom(ms, m.id);
      assert ns[j] == m;
    }
    forall m | m in ns ensures m in ordered {
      var j :| 0 <= j < |ns| && ns[j] == m;
      GraphHolds(ms, j);
      var i :| 0 <= i < |ordered| && ordered[i].id == m.id;
      assert ordered[i] == m;
    }
    NormalizedIsDistinct(ms);
    SameElements(ordered, ns);
  }

  lemma NormalizedIsDistinct(ms: seq<Manifest>)
    requires Accepted(ms)
    ensures DistinctIds(Normalized(ms))
  {
  }

  lemma GraphAppend(before: seq<Manifest>, m: Manifest)
    ensures GraphOf(before + [m]) == GraphOf(before)[m.id := Normalize(m)]
  {
    assert (before + [m])[..|before|] == before;
  }

  lemma AllValidAppend(before: seq<Manifest>, m: Manifest)
    requires AllValid(before)
    ensures AllValid(before + [m]) <==> Valid(Normalize(m))
  {
    assert (before + [m])[|before|] == m;
  }

  lemma DistinctAppend(before: seq<Manifest>, m: Manifest)
    requires DistinctIds(before)
    ensures DistinctIds(before + [m]) <==> m.id !in GraphOf(before)
  {
    if m.id in GraphOf(before) {
      var j := GraphComesFrom(before, m.id);
      assert (before + [m])[j].id == (before + [m])[|before|].id;
    } else {
      forall j | 0 <= j < |before| ensures before[j].id != m.id {
        GraphHasAll(before, j);
      }
    }
  }

  lemma AcceptedPrefix(ms: seq<Manifest>, i: nat)
    requires i <= |ms| && Accepted(ms)
    ensures Accepted(ms[..i])
  {
  }

  lemma GraphIsKeyed(ms: seq<Manifest>)
    ensures WellKeyed(GraphOf(ms))
  {
    forall id | id in GraphOf(ms) ensures GraphOf(ms)[id].id == id {
      var i := GraphComesFrom(ms, id);
    }
  }

  /** What the sort promises of its result. */
  ghost predicate Sortable(ms: seq<Manifest>) {
    Accepted(ms) && DependenciesExist(GraphOf(ms)) && Acyclic(GraphOf(ms))
  }

  /** The same manifests in another order sort or fail alike, and sort to the same sequence. */
  lemma SortIsOrderFree(ms: seq<Manifest>, ns: seq<Manifest>)
    requires multiset(ms) == multiset(ns)
    ensures Sortable(ms) <==> Sortable(ns)
    ensures Sortable(ms) ==> SortGraph(GraphOf(ms)) == SortGraph(GraphOf(ns))
  {
    if Accepted(ms) {
      AcceptedIsOrderFree(ms, ns);
      GraphIsOrderFree(ms, ns);
    } else if Accepted(ns) {
      AcceptedIsOrderFree(ns, ms);
    }
  }

  /** The variables of the sort and its recursive visit. */
  class Sorter {
    const byID: Graph
    var visiting: set<string>
    var visited: set<string>
    var ordered: seq<Manifest>

    constructor (g: Graph)
      ensures byID == g && State() == START
    {
      byID := g;
      visiting, visited, ordered := {}, {}, [];
    }

    function State(): Progress
      reads this
    {
      Progress(visiting, visited, ordered)
    }

    method Visit(id: string) returns (err: Option<SortError>)
      modifies this
      ensures match VisitId(byID, id, old(State()))
        case Done(p) => err == None && State() == p
        case Stopped(e) => err == Some(e)
      decreases byID.Keys - visiting - visited, 1
    {
      if id in visited {
        return None;
      }
      if id in visiting {
        return Some(Cycle(id));
      }
      if id !in byID {
        return Some(MissingDependency(id));
      }
      var manifest := byID[id];
      assert id in byID.Keys - visiting - visited;
      visiting := visiting + {id};
      ghost var inner := State();
      assert id !in byID.Keys - visiting - visited;
      var deps := SortStrings(manifest.dependsOn);
      for i := 0 to |deps|
        invariant Grown(inner, State())
        invariant VisitAll(byID, deps, inner) == VisitAll(byID, deps[i..], State())
      {
        assert deps[i..][0] == deps[i] && deps[i..][1..] == deps[i + 1..];
        err := Visit(deps[i]);
        if err.Some? {
          return err;
        }
      }
      visiting := visiting - {id};
      visited := visited + {id};
      ordered := ordered + [manifest];
      return None;
    }
  }

  /** The error names a manifest that is not valid, or an id that is there twice. */
  ghost predicate Faulty(ms: seq<Manifest>, e: SortError) {
    match e
    case Invalid(id) => exists i :: 0 <= i < |ms| && ms[i].id == id && !Valid(Normalize(ms[i]))
    case Duplicate(id) => exists i, j :: 0 <= i < j < |ms| && ms[i].id == ms[j].id == id
    case _ => false
  }

  lemma FaultAt(ms: seq<Manifest>, i: nat)
    requires i < |ms|
    ensures !Valid(Normalize(ms[i])) ==> Faulty(ms, Invalid(ms[i].id))
    ensures ms[i].id in GraphOf(ms[..i]) ==> Faulty(ms, Duplicate(ms[i].id))
  {
    if ms[i].id in GraphOf(ms[..i]) {
      var j := GraphComesFrom(ms[..i], ms[i].id);
    }
  }

  /** The manifests by id, or the first fault in them. */
  method IndexManifests(ms: seq<Manifest>) returns (byID: Graph, err: Option<SortError>)
    ensures err.None? <==> Accepted(ms)
    ensures err.None? ==> byID == GraphOf(ms)
    ensures err.Some? ==> Faulty(ms, err.value)
  {
    byID := map[];
    for i := 0 to |ms|
      invariant Accepted(ms[..i]) && byID == GraphOf(ms[..i])
    {
      byID, err := AddManifest(ms, i, byID);
      if err.Some? {
        return;
      }
    }
    assert ms[..|ms|] == ms;
    return byID, None;
  }

  /** One round of the loop. */
  method AddManifest(ms: seq<Manifest>, i: nat, known: Graph) returns (byID: Graph, err: Option<SortError>)
    requires i < |ms| && Accepted(ms[..i]) && known == GraphOf(ms[..i])
    ensures err.None? ==> Accepted(ms[..i + 1]) && byID == GraphOf(ms[..i + 1])
    ensures err.Some? ==> Faulty(ms, err.value) && !Accepted(ms)
  {
    assert ms[..i + 1] == ms[..i] + [ms[i]];
    AllValidAppend(ms[..i], ms[i]);
    DistinctAppend(ms[..i], ms[i]);
    GraphAppend(ms[..i], ms[i]);
    FaultAt(ms, i);
    if Accepted(ms) {
      AcceptedPrefix(ms, i + 1);
    }
    var m := Normalize(ms[i]);
    if !Valid(m) {
      return known, Some(Invalid(m.id));
    }
    if m.id in known {
      return known, Some(Duplicate(m.id));
    }
    return known[m.id := m], None;
  }

  /** Sort: the ids in order, each visited in turn. */
  method Sort(ms: seq<Manifest>) returns (ordered: seq<Manifest>, err: Option<SortError>)
    ensures err.None? <==> Sortable(ms)
    ensures err.Some? ==> Faulty(ms, err.value) || Blames(GraphOf(ms), err.value)
    ensures err.None? ==>
      && multiset(ordered) == multiset(Normalized(ms)) && DependenciesFirst(ordered)
      && IsOrder(GraphOf(ms), ordered) && ByFirstPath(GraphOf(ms), ordered)
      && SortGraph(GraphOf(ms)).Done? && ordered == SortGraph(GraphOf(ms)).p.ordered
  {
    var byID;
    byID, err := IndexManifests(ms);
    if err.Some? {
      return [], err;
    }
    GraphIsKeyed(ms);
    GraphSorts(byID);
    ordered, err := VisitInOrder(byID);
    if err.None? {
      SortIsByFirstPath(byID);
      OrderIsPermutation(ms, ordered);
    }
  }

  /** The loop over the sorted ids. */
  method VisitInOrder(byID: Graph) returns (ordered: seq<Manifest>, err: Option<SortError>)
    ensures match SortGraph(byID)
      case Done(p) => err == None && ordered == p.ordered
      case Stopped(e) => err == Some(e)
  {
    var ids := KeysInOrder(byID);
    var sorter := new Sorter(byID);
    for i := 0 to |ids|
      invariant sorter.byID == byID
      invariant SortGraph(byID) == VisitAll(byID, ids[i..], sorter.State())
    {
      assert ids[i..][0] == ids[i] && ids[i..][1..] == ids[i + 1..];
      err := sorter.Visit(ids[i]);
      if err.Some? {
        return [], err;
      }
    }
    return sorter.ordered, None;
  }

  /** The keys of a map, gathered in any order and sorted. */
  method KeysInOrder(g: Graph) returns (ids: seq<string>)
    ensures ids == SortedIds(g.Keys)
  {
    ids := [];
    var todo := g.Keys;
    while todo != {}
      invariant multiset(ids) + multiset(todo) == multiset(g.Keys)
      decreases todo
    {
      var id :| id in todo;
      ids, todo := ids + [id], todo - {id};
    }
    ids := SortStrings(ids);
    SortedIsUnique(ids, SortedIds(g.Keys));
  }
}
