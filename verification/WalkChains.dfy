/** Which files a walk is for: those at the end of a chain that leads from a prefix down through folders to walk. */
module WalkChains {
  import opened WalkTree
  import opened WalkMachine
  import opened WalkTheorems

  /** The second is an entry of the first, which is a folder that can be read. */
  ghost predicate EntryOf(above: Task, below: Task) {
    && above.node.Folder? && above.node.readable
    && exists e :: e in above.node.entries && below == Task(above.path + e.name, e.node)
  }

  ghost predicate Linked(chain: seq<Task>) {
    forall i :: 0 <= i < |chain| - 1 ==> EntryOf(chain[i], chain[i + 1])
  }

  /** No folder on the chain is excluded, nor is what it starts from, folder or not; the root never is. */
  predicate Unbarred(c: Config, chain: seq<Task>) {
    forall i :: 0 <= i < |chain| && (i == 0 || chain[i].node.Folder?) && chain[i].path != [] ==>
      !c.excludedDirectory(chain[i].path)
  }

  /** The chain ends in a file that can be examined and passes the filters. */
  predicate EndsIn(c: Config, chain: seq<Task>, p: Path) {
    && chain != [] && var last := chain[|chain| - 1];
    && last.path == p && last.node.File? && last.node.statOk && c.extensionAllowed(p) && !c.excludedFile(p)
  }

  /** The chain leads from a prefix to a file of the walk. */
  ghost predicate LeadsTo(c: Config, chain: seq<Task>, p: Path) {
    EndsIn(c, chain, p) && Entry(chain[0].path, chain[0].node) in c.prefixes && Linked(chain) && Unbarred(c, chain)
  }

  // The recursive walk is about these chains.

  function WalkEntry(c: Config, path: Path, node: Node): seq<Path> {
    match node
    case Link => []
    case File(_, _) => WalkFile(c, path, node)
    case Folder(_, _) => WalkNode(c, path, node)
  }

  lemma {:induction false} EntryIsWalked(c: Config, parent: Path, entries: seq<Entry>, e: Entry, p: Path)
    requires e in entries && p in WalkEntry(c, parent + e.name, e.node)
    ensures p in WalkEntries(c, parent, entries)
    decreases |entries|
  {
    if entries[0] != e {
      assert entries == [entries[0]] + entries[1..];
      EntryIsWalked(c, parent, entries[1..], e, p);
    }
  }

  lemma {:induction false} WalkedIsEntry(c: Config, parent: Path, entries: seq<Entry>, p: Path) returns (e: Entry)
    requires p in WalkEntries(c, parent, entries)
    ensures e in entries && p in WalkEntry(c, parent + e.name, e.node)
    decreases |entries|
  {
    e := entries[0];
    if p !in WalkEntry(c, parent + e.name, e.node) {
      e := WalkedIsEntry(c, parent, entries[1..], p);
    }
  }

  lemma {:induction false} ChainIsWalked(c: Config, chain: seq<Task>, p: Path)
    requires EndsIn(c, chain, p) && Linked(chain) && Unbarred(c, chain)
    ensures p in WalkNode(c, chain[0].path, chain[0].node)
    decreases |chain|
  {
    if |chain| > 1 {
      var top, rest := chain[0], chain[1..];
      assert EntryOf(top, rest[0]);
      var e :| e in top.node.entries && rest[0] == Task(top.path + e.name, e.node);
      assert forall i :: 0 <= i < |rest| ==> rest[i] == chain[i + 1];
      if rest[0].node.Folder? {
        forall i | 0 <= i < |rest| - 1 ensures EntryOf(rest[i], rest[i + 1]) {
          assert EntryOf(chain[i + 1], chain[i + 2]);
        }
        ChainIsWalked(c, rest, p);
      } else {
        assert |rest| > 1 ==> EntryOf(rest[0], rest[1]);
      }
      EntryIsWalked(c, top.path, top.node.entries, e, p);
    }
  }

  lemma {:induction false} WalkedHasChain(c: Config, path: Path, node: Node, p: Path) returns (chain: seq<Task>)
    requires p in WalkNode(c, path, node)
    ensures EndsIn(c, chain, p) && chain[0] == Task(path, node) && Linked(chain) && Unbarred(c, chain)
    decreases node
  {
    var top := Task(path, node);
    if node.File? {
      return [top];
    }
    var e := WalkedIsEntry(c, path, node.entries, p);
    var below, rest := Task(path + e.name, e.node), [];
    if e.node.Folder? {
      rest := WalkedHasChain(c, below.path, e.node, p);
    } else {
      rest := [below];
    }
    chain := [top] + rest;
    assert EntryOf(top, rest[0]);
    assert forall i :: 0 < i < |chain| ==> chain[i] == rest[i - 1];
  }

  lemma {:induction false} PrefixIsWalked(c: Config, prefixes: seq<Entry>, e: Entry, p: Path)
    requires e in prefixes && p in WalkNode(c, e.name, e.node)
    ensures p in WalkPrefixes(c, prefixes)
  {
    if prefixes[0] != e {
      assert prefixes == [prefixes[0]] + prefixes[1..];
      PrefixIsWalked(c, prefixes[1..], e, p);
    }
  }

  lemma {:induction false} WalkedIsPrefix(c: Config, prefixes: seq<Entry>, p: Path) returns (e: Entry)
    requires p in WalkPrefixes(c, prefixes)
    ensures e in prefixes && p in WalkNode(c, e.name, e.node)
  {
    e := prefixes[0];
    if p !in WalkNode(c, e.name, e.node) {
      e := WalkedIsPrefix(c, prefixes[1..], p);
    }
  }

  /** The files of the recursive walk are exactly those that a chain leads to. */
  lemma WalkIsChains(c: Config, p: Path)
    ensures p in WalkPrefixes(c, c.prefixes) <==> exists chain :: LeadsTo(c, chain, p)
  {
    if p in WalkPrefixes(c, c.prefixes) {
      var e := WalkedIsPrefix(c, c.prefixes, p);
      var chain := WalkedHasChain(c, e.name, e.node, p);
      assert LeadsTo(c, chain, p);
    }
    if chain: seq<Task> :| LeadsTo(c, chain, p) {
      ChainIsWalked(c, chain, p);
      PrefixIsWalked(c, c.prefixes, Entry(chain[0].path, chain[0].node), p);
    }
  }

  /** Whatever disturbs it, a run visits only files that a chain leads to; and a normal run that is complete and not
      cancelled from outside has visited every one of them. */
  lemma VisitsAreChains(c: Config, schedule: seq<Choice>, t: State, p: Path)
    requires c.Valid() && Follows(c, Init(c), schedule, t)
    ensures p in t.sh.history.visited ==> exists chain :: LeadsTo(c, chain, p)
    ensures t.main == Returned(false) && t.sh.report.complete && !t.sh.stop.outer ==>
      (p in t.sh.history.visited <==> exists chain :: LeadsTo(c, chain, p))
  {
    VisitsOnlyReference(c, schedule, t);
    WalkIsChains(c, p);
    assert p in multiset(WalkPrefixes(c, c.prefixes)) <==> p in WalkPrefixes(c, c.prefixes);
    if t.main == Returned(false) && t.sh.report.complete && !t.sh.stop.outer {
      VisitsAllReference(c, schedule, t);
    }
  }
}
