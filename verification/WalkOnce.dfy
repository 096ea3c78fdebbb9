/** No file is visited twice. */
module WalkOnce {
  import opened WalkTree
  import opened WalkMachine
  import opened WalkWork
  import opened WalkInvariant
  import opened WalkSteps
  import opened WalkTheorems

  predicate Distinct(ps: seq<Path>) {
    forall i, j :: 0 <= i < j < |ps| ==> ps[i] != ps[j]
  }

  /** Directory entries have one-segment names, no two alike. The names are taken to be what Stat makes of them: one
      that it would normalise to another, such as one ending in white space, is not well named. */
  predicate WellNamed(node: Node) {
    node.Folder? ==> WellNamedEntries(node.entries) && forall e :: e in node.entries ==> WellNamed(e.node)
  }

  predicate WellNamedEntries(entries: seq<Entry>) {
    && (forall e :: e in entries ==> |e.name| == 1)
    && (forall i, j :: 0 <= i < j < |entries| ==> entries[i].name != entries[j].name)
  }

  /** No prefix lies inside another. */
  predicate Separate(prefixes: seq<Entry>) {
    forall i, j :: 0 <= i < |prefixes| && 0 <= j < |prefixes| && i != j ==> !(prefixes[i].name <= prefixes[j].name)
  }

  lemma DistinctConcat(ps: seq<Path>, qs: seq<Path>)
    requires Distinct(ps) && Distinct(qs) && forall p :: p in ps ==> p !in qs
    ensures Distinct(ps + qs)
  {
    forall i, j | 0 <= i < j < |ps + qs| ensures (ps + qs)[i] != (ps + qs)[j] {
      if i < |ps| <= j {
        assert ps[i] in ps && qs[j - |ps|] in qs;
      }
    }
  }

  lemma {:induction false} NodeDistinct(c: Config, path: Path, node: Node)
    requires WellNamed(node)
    ensures Distinct(WalkNode(c, path, node)) && forall p :: p in WalkNode(c, path, node) ==> path <= p
    decreases node, 1
  {
    if node.Folder? {
      EntriesDistinct(c, path, node.entries);
    }
  }

  lemma {:induction false} EntriesDistinct(c: Config, parent: Path, entries: seq<Entry>)
    requires WellNamedEntries(entries) && forall e :: e in entries ==> WellNamed(e.node)
    ensures var ps := WalkEntries(c, parent, entries);
      && Distinct(ps)
      && forall p :: p in ps ==> parent <= p && |parent| < |p| && exists e :: e in entries && e.name == [p[|parent|]]
    decreases entries, 0
  {
    if entries != [] {
      var path, node, rest := parent + entries[0].name, entries[0].node, WalkEntries(c, parent, entries[1..]);
      assert entries[0] in entries;
      NodeDistinct(c, path, node);
      EntriesDistinct(c, parent, entries[1..]);
      var here := match node
        case Link => []
        case File(_, _) => WalkFile(c, path, node)
        case Folder(_, _) => WalkNode(c, path, node);
      assert WalkEntries(c, parent, entries) == here + rest;
      forall p | p in here ensures parent <= p && |parent| < |p| && entries[0].name == [p[|parent|]] && p !in rest {
        assert path <= p && p[|parent|] == path[|parent|];
      }
      DistinctConcat(here, rest);
    }
  }

  lemma {:induction false} PrefixesDistinct(c: Config, prefixes: seq<Entry>)
    requires Separate(prefixes) && forall e :: e in prefixes ==> WellNamed(e.node)
    ensures Distinct(WalkPrefixes(c, prefixes))
    ensures forall p :: p in WalkPrefixes(c, prefixes) ==> exists e :: e in prefixes && e.name <= p
  {
    if prefixes != [] {
      var here, rest := WalkNode(c, prefixes[0].name, prefixes[0].node), WalkPrefixes(c, prefixes[1..]);
      assert prefixes[0] in prefixes;
      NodeDistinct(c, prefixes[0].name, prefixes[0].node);
      PrefixesDistinct(c, prefixes[1..]);
      forall p | p in here ensures p !in rest {
        forall i | 0 < i < |prefixes| ensures !(prefixes[i].name <= p) {
          assert !(prefixes[i].name <= prefixes[0].name) && !(prefixes[0].name <= prefixes[i].name);
        }
      }
      DistinctConcat(here, rest);
    }
  }

  lemma {:induction false} DistinctCounts(ps: seq<Path>, p: Path)
    requires Distinct(ps)
    ensures multiset(ps)[p] <= 1
  {
    if ps != [] {
      assert ps == [ps[0]] + ps[1..];
      DistinctCounts(ps[1..], p);
      assert ps[0] !in ps[1..];
    }
  }

  /** Over separate prefixes no file is visited twice, in any run, disturbed or not. */
  lemma VisitsOnce(c: Config, schedule: seq<Choice>, t: State, p: Path)
    requires c.Valid() && Follows(c, Init(c), schedule, t)
    requires Separate(c.prefixes) && forall e :: e in c.prefixes ==> WellNamed(e.node)
    ensures t.sh.history.visited[p] <= 1
  {
    VisitsOnlyReference(c, schedule, t);
    PrefixesDistinct(c, c.prefixes);
    DistinctCounts(WalkPrefixes(c, c.prefixes), p);
  }
}
