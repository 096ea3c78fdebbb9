/**
 The results about the walk, for every configuration and every schedule: it never panics, never gets
 stuck, always ends, respects its limits, visits only what the plain recursive walk visits, and when
 nothing disturbed it, reports exactly what that walk would.
 */
module WalkTheorems {
  import opened WalkTree
  import opened WalkMachine
  import opened WalkWork
  import opened WalkInvariant
  import opened WalkSteps

  lemma {:induction false} RunKeeps(c: Config, s: State, schedule: seq<Choice>, t: State)
    requires Inv(c, s) && Follows(c, s, schedule, t)
    ensures Inv(c, t) && |schedule| + AllWork(c, Weight, t) <= AllWork(c, Weight, s)
    decreases |schedule|
  {
    if schedule != [] {
      StepKept(c, s, schedule[0]);
      RunKeeps(c, Step(c, s, schedule[0]).s, schedule[1..], t);
    }
  }

  /** No schedule is longer than the tree's weight: the walk ends whatever the interleaving. */
  lemma Terminates(c: Config, schedule: seq<Choice>, t: State)
    requires c.Valid() && Follows(c, Init(c), schedule, t)
    ensures |schedule| <= PrefixesCount(c, Weight, c.prefixes) + 6
  {
    InitInv(c);
    RunKeeps(c, Init(c), schedule, t);
    SumNothing(OfGoroutine(c, Weight), Init(c).goroutines);
    SumNothing(OfFileWorker(c, Weight), Init(c).fileWorkers);
  }

  /** No send on a closed channel, no negative WaitGroup. */
  lemma NeverPanics(c: Config, schedule: seq<Choice>, t: State, choice: Choice)
    requires c.Valid() && Follows(c, Init(c), schedule, t)
    ensures !Step(c, t, choice).Panic? && t.sh.folderWG >= 0 && t.sh.fileWG >= 0
  {
    InitInv(c);
    RunKeeps(c, Init(c), schedule, t);
    StepKept(c, t, choice);
    assert InBalance(c, t, Folders) && InBalance(c, t, Files);
  }

  /** Until the call has returned, some goroutine can move, without any help from outside. */
  lemma NeverStuck(c: Config, schedule: seq<Choice>, t: State) returns (choice: Choice)
    requires c.Valid() && Follows(c, Init(c), schedule, t) && !t.main.Returned?
    ensures choice != CancelParent && Step(c, t, choice).Ok?
  {
    InitInv(c);
    RunKeeps(c, Init(c), schedule, t);
    choice := Enabled(c, t);
  }

  lemma Enabled(c: Config, s: State) returns (choice: Choice)
    requires c.Valid() && Inv(c, s) && !s.main.Returned?
    ensures choice != CancelParent && Step(c, s, choice).Ok?
  {
    if w: nat :| w < |s.fileWorkers| && s.fileWorkers[w].Held? {
      choice := Handle(w, false);
      FileStepKept(c, s, w, false);
    } else if s.fileQueue != [] {
      choice := Handle(0, false);
    } else if g: nat :| g < |s.goroutines| && s.goroutines[g].Busy? {
      choice := Move(g, false);
      FrameStepKept(c, s, g, false);
    } else if s.folderQueue != [] {
      choice := Move(1, false);
    } else {
      choice := Move(0, false);
      AtRest(c, s, Folders);
      AtRest(c, s, Files);
      MainStepKept(c, s);
    }
  }

  /** With every goroutine idle and every queue empty, only the caller's own work is left. */
  lemma AtRest(c: Config, s: State, m: Metric)
    requires Inv(c, s) && s.folderQueue == [] && s.fileQueue == []
    requires forall g :: 0 <= g < |s.goroutines| ==> s.goroutines[g].Idle?
    requires forall w :: 0 <= w < |s.fileWorkers| ==> s.fileWorkers[w].Free?
    ensures m.Counter() ==> AllWork(c, m, s) == MainWork(c, m, s.main)
    ensures m == Folders && (s.main.WaitFolders? || s.main.WaitFiles?) ==> s.sh.folderWG == 0
    ensures m == Files && (s.main.WaitFolders? || s.main.WaitFiles?) ==> s.sh.fileWG == 0
  {
    assert InBalance(c, s, m);
    SumNothing(OfGoroutine(c, m), s.goroutines);
    SumNothing(OfFileWorker(c, m), s.fileWorkers);
  }

  /** A normal return leaves nothing behind: queues empty, goroutines idle, channels closed. */
  lemma ReturnsAtRest(c: Config, s: State)
    requires Inv(c, s) && s.main == Returned(false)
    ensures s.folderQueue == [] && s.fileQueue == [] && s.sh.closed
    ensures forall g :: 0 <= g < |s.goroutines| ==> s.goroutines[g].Idle?
    ensures forall w :: 0 <= w < |s.fileWorkers| ==> s.fileWorkers[w].Free?
  {
    QueuedCounts(c, s);
    forall g | 0 <= g < |s.goroutines| ensures s.goroutines[g].Idle? {
      if s.goroutines[g].Busy? {
        BusyCounts(c, s, g);
      }
    }
    forall w | 0 <= w < |s.fileWorkers| ensures s.fileWorkers[w].Free? {
      if s.fileWorkers[w].Held? {
        HeldCounts(c, s, w);
      }
    }
  }

  // What is visited.

  lemma FileVisits(c: Config, p: Path, path: Path, node: Node)
    ensures FileCount(c, Visits(p), path, node) == multiset(WalkFile(c, path, node))[p]
  {
    assert Visits(p) == Visits(path) <==> p == path;
    assert multiset([path])[p] == One(p == path);
  }

  lemma {:induction false} NodeVisits(c: Config, p: Path, path: Path, node: Node)
    ensures NodeCount(c, Visits(p), path, node) == multiset(WalkNode(c, path, node))[p]
    decreases node, 1
  {
    match node
    case Link =>
    case File(_, _) => FileVisits(c, p, path, node);
    case Folder(_, entries) => EntriesVisits(c, p, path, entries);
  }

  lemma {:induction false} EntriesVisits(c: Config, p: Path, parent: Path, entries: seq<Entry>)
    ensures EntriesCount(c, Visits(p), parent, entries) == multiset(WalkEntries(c, parent, entries))[p]
    decreases entries, 0
  {
    if entries != [] {
      var path, node, rest := parent + entries[0].name, entries[0].node, WalkEntries(c, parent, entries[1..]);
      EntriesVisits(c, p, parent, entries[1..]);
      var here := match node
        case Link => []
        case File(_, _) => WalkFile(c, path, node)
        case Folder(_, _) => WalkNode(c, path, node);
      assert EntryCount(c, Visits(p), path, node) == multiset(here)[p] by {
        FileVisits(c, p, path, node);
        NodeVisits(c, p, path, node);
      }
      assert WalkEntries(c, parent, entries) == here + rest;
    }
  }

  lemma {:induction false} PrefixesVisits(c: Config, p: Path, prefixes: seq<Entry>)
    ensures PrefixesCount(c, Visits(p), prefixes) == multiset(WalkPrefixes(c, prefixes))[p]
  {
    if prefixes != [] {
      NodeVisits(c, p, prefixes[0].name, prefixes[0].node);
      PrefixesVisits(c, p, prefixes[1..]);
    }
  }

  /** Limited, cancelled or failing, the walk visits no file the reference walk would not, and none more often. */
  lemma VisitsOnlyReference(c: Config, schedule: seq<Choice>, t: State)
    requires c.Valid() && Follows(c, Init(c), schedule, t)
    ensures t.sh.history.visited <= multiset(WalkPrefixes(c, c.prefixes))
  {
    InitInv(c);
    RunKeeps(c, Init(c), schedule, t);
    forall p: Path ensures t.sh.history.visited[p] <= multiset(WalkPrefixes(c, c.prefixes))[p] {
      assert InBalance(c, t, Visits(p));
      PrefixesVisits(c, p, c.prefixes);
    }
  }

  /** A complete, uncancelled walk has visited exactly the reference walk's files. */
  lemma VisitsAllReference(c: Config, schedule: seq<Choice>, t: State)
    requires c.Valid() && Follows(c, Init(c), schedule, t)
    requires t.main == Returned(false) && t.sh.report.complete && !t.sh.stop.outer
    ensures t.sh.history.visited == multiset(WalkPrefixes(c, c.prefixes))
  {
    InitInv(c);
    RunKeeps(c, Init(c), schedule, t);
    ReturnsAtRest(c, t);
    forall p: Path ensures t.sh.history.visited[p] == multiset(WalkPrefixes(c, c.prefixes))[p] {
      assert InBalance(c, t, Visits(p));
      AtRest(c, t, Visits(p));
      PrefixesVisits(c, p, c.prefixes);
    }
  }

  /** The counters of a complete, uncancelled walk do not depend on the interleaving. */
  lemma ReportIsScheduleFree(c: Config, schedule: seq<Choice>, t: State)
    requires c.Valid() && Follows(c, Init(c), schedule, t)
    requires t.main == Returned(false) && t.sh.report.complete && !t.sh.stop.outer
    ensures forall m: Metric :: m.Counter() ==> Shown(m, t.sh) == PrefixesCount(c, m, c.prefixes)
  {
    InitInv(c);
    RunKeeps(c, Init(c), schedule, t);
    ReturnsAtRest(c, t);
    forall m: Metric | m.Counter() ensures Shown(m, t.sh) == PrefixesCount(c, m, c.prefixes) {
      assert InBalance(c, t, m);
      AtRest(c, t, m);
    }
  }

  /** Every folder below can be read. */
  predicate Readable(node: Node) {
    node.Folder? ==> node.readable && forall e :: e in node.entries ==> Readable(e.node)
  }

  lemma {:induction false} ScannedIsQueued(c: Config, path: Path, node: Node)
    requires Readable(node)
    ensures node.Folder? && !c.Excluded(path)
      ==> NodeCount(c, Scanned, path, node) == NodeCount(c, Queued, path, node) + 1
    ensures node.Folder? ==> OfferCount(c, Scanned, path, node) == OfferCount(c, Queued, path, node)
    decreases node, 1
  {
    if node.Folder? {
      ScannedAreQueued(c, path, node.entries);
    }
  }

  lemma {:induction false} ScannedAreQueued(c: Config, parent: Path, entries: seq<Entry>)
    requires forall e :: e in entries ==> Readable(e.node)
    ensures EntriesCount(c, Scanned, parent, entries) == EntriesCount(c, Queued, parent, entries)
    decreases entries, 0
  {
    if entries != [] {
      assert entries[0] in entries;
      ScannedIsQueued(c, parent + entries[0].name, entries[0].node);
      ScannedAreQueued(c, parent, entries[1..]);
    }
  }

  /** Started from the root of a readable tree, a complete walk scans one folder more than it queues. */
  lemma RootScansOneMore(c: Config, schedule: seq<Choice>, t: State, root: Node)
    requires c.Valid() && c.prefixes == [Entry([], root)] && root.Folder? && Readable(root)
    requires Follows(c, Init(c), schedule, t)
    requires t.main == Returned(false) && t.sh.report.complete && !t.sh.stop.outer
    ensures t.sh.report.scanned == t.sh.report.queued + 1
  {
    ReportIsScheduleFree(c, schedule, t);
    ScannedIsQueued(c, [], root);
    assert c.prefixes[1..] == [];
    assert Shown(Scanned, t.sh) == PrefixesCount(c, Scanned, c.prefixes) == NodeCount(c, Scanned, [], root);
    assert Shown(Queued, t.sh) == PrefixesCount(c, Queued, c.prefixes) == NodeCount(c, Queued, [], root);
  }

  // Limits and counters, at every moment of every run.

  /** A limit that is not negative is never passed. */
  lemma LimitsHold(c: Config, schedule: seq<Choice>, t: State)
    requires c.Valid() && Follows(c, Init(c), schedule, t)
    ensures c.maxFiles >= 0 ==> t.sh.report.returned <= c.maxFiles
    ensures c.maxBytes >= 0 ==> t.sh.report.bytes <= c.maxBytes
  {
    InitInv(c);
    RunKeeps(c, Init(c), schedule, t);
    assert Reported(c, t.sh);
  }

  function InStage(ws: seq<FileWorker>, stages: set<Stage>): nat {
    if ws == [] then 0
    else (if ws[0].Held? && ws[0].stage in stages then 1 else 0) + InStage(ws[1..], stages)
  }

  lemma {:induction false} StageSums(c: Config, ws: seq<FileWorker>)
    ensures Sum(OfFileWorker(c, Undecided), ws) == InStage(ws, {Filter, Limit, Mark})
    ensures Sum(OfFileWorker(c, Visiting), ws) == InStage(ws, {Visit})
  {
    if ws != [] {
      StageSums(c, ws[1..]);
    }
  }

  lemma ContNoWork(c: Config, m: Metric, k: Cont)
    requires m.Undecided? || m.Visiting?
    ensures ContWork(c, m, k) == 0
  {
    NoCounts(c, m, k.parent, k.rest);
  }

  lemma GoroutineNoWork(c: Config, m: Metric, g: Goroutine)
    requires m.Undecided? || m.Visiting?
    ensures GoroutineWork(c, m, g) == 0
  {
    if g.Busy? {
      forall k ensures ContWork(c, m, k) == 0 {
        ContNoWork(c, m, k);
      }
      SumNothing(OfCont(c, m), g.callers);
      match g.top
      case Enter(path, node) => NoCount(c, m, path, node);
      case Scan(path, node) => NoCount(c, m, path, node);
      case Enqueue(_, _, path, node) => NoCount(c, m, path, node);
      case _ =>
    }
  }

  /** Files between being seen and being decided, or returned and visited, are in file workers' hands. */
  lemma OnlyWorkersDecide(c: Config, m: Metric, s: State)
    requires m.Undecided? || m.Visiting?
    ensures AllWork(c, m, s) == Sum(OfFileWorker(c, m), s.fileWorkers)
  {
    forall g ensures GoroutineWork(c, m, g) == 0 {
      GoroutineNoWork(c, m, g);
    }
    forall t: Task ensures TaskWork(c, m, t) == 0 && FileWork(c, m, t) == 0 {
      NoCount(c, m, t.path, t.node);
    }
    SumNothing(OfGoroutine(c, m), s.goroutines);
    SumNothing(OfTask(c, m), s.folderQueue);
    SumNothing(OfFile(c, m), s.fileQueue);
    match s.main
    case Next(rest) => NoPrefixCounts(c, m, rest);
    case Offering(rest, _, path, node) =>
      NoPrefixCounts(c, m, rest);
      NoCount(c, m, path, node);
    case _ =>
  }

  /** Every file seen is returned, skipped, dropped by a limit or in progress; every file returned is visited or about
      to be. */
  lemma FilesAddUp(c: Config, schedule: seq<Choice>, t: State)
    requires c.Valid() && Follows(c, Init(c), schedule, t)
    ensures t.sh.report.seen
         == t.sh.report.returned + t.sh.report.reasons.extension + t.sh.history.patternFiles + t.sh.history.limitDropped
            + InStage(t.fileWorkers, {Filter, Limit, Mark})
    ensures t.sh.report.returned == |t.sh.history.visited| + InStage(t.fileWorkers, {Visit})
  {
    InitInv(c);
    RunKeeps(c, Init(c), schedule, t);
    assert InBalance(c, t, Undecided) && InBalance(c, t, Visiting);
    OnlyWorkersDecide(c, Undecided, t);
    OnlyWorkersDecide(c, Visiting, t);
    StageSums(c, t.fileWorkers);
  }

  /** The folder WaitGroup counts the queued folders and the running calls, reserved ones included. */
  lemma FolderWaitGroup(c: Config, schedule: seq<Choice>, t: State)
    requires c.Valid() && Follows(c, Init(c), schedule, t)
    ensures t.sh.folderWG == |t.folderQueue| + Calls(t.goroutines) + Reserving(t.main)
  {
    InitInv(c);
    RunKeeps(c, Init(c), schedule, t);
    assert InBalance(c, t, Folders);
    CallSums(c, t.goroutines);
    TaskSums(c, t.folderQueue);
    FileSums(c, t.fileQueue);
    WorkerSums(c, t.fileWorkers);
    match t.main
    case Next(rest) => NoPrefixCounts(c, Folders, rest);
    case Offering(rest, _, path, node) =>
      NoPrefixCounts(c, Folders, rest);
      NoCount(c, Folders, path, node);
    case _ =>
  }

  function Reserving(m: Main): nat {
    if m.Offering? && m.phase != Reserve then 1 else 0
  }

  /** processFolder calls of a goroutine: the running one, its inline callers, and a child counted ahead. */
  function Calls(gs: seq<Goroutine>): nat {
    if gs == [] then 0
    else
      (match gs[0]
       case Idle => 0
       case Busy(top, callers) => 1 + |callers| + if top.Enqueue? && top.phase != Reserve then 1 else 0)
      + Calls(gs[1..])
  }

  lemma {:induction false} CallersSum(c: Config, callers: seq<Cont>)
    ensures Sum(OfCont(c, Folders), callers) == |callers|
  {
    if callers != [] {
      NoCounts(c, Folders, callers[0].parent, callers[0].rest);
      CallersSum(c, callers[1..]);
    }
  }

  lemma FrameCalls(c: Config, top: Frame)
    ensures FrameWork(c, Folders, top) == 1 + if top.Enqueue? && top.phase != Reserve then 1 else 0
  {
    match top
    case Enter(path, node) => NoCount(c, Folders, path, node);
    case Scan(path, node) => NoCount(c, Folders, path, node);
    case Loop(k) => NoCounts(c, Folders, k.parent, k.rest);
    case Enqueue(k, _, path, node) =>
      NoCounts(c, Folders, k.parent, k.rest);
      NoCount(c, Folders, path, node);
    case SendFile(k, _, _) => NoCounts(c, Folders, k.parent, k.rest);
    case Exit(_) =>
  }

  lemma {:induction false} CallSums(c: Config, gs: seq<Goroutine>)
    ensures Sum(OfGoroutine(c, Folders), gs) == Calls(gs)
  {
    if gs != [] {
      if gs[0].Busy? {
        FrameCalls(c, gs[0].top);
        CallersSum(c, gs[0].callers);
      }
      CallSums(c, gs[1..]);
    }
  }

  lemma {:induction false} TaskSums(c: Config, ts: seq<Task>)
    ensures Sum(OfTask(c, Folders), ts) == |ts|
  {
    if ts != [] {
      NoCount(c, Folders, ts[0].path, ts[0].node);
      TaskSums(c, ts[1..]);
    }
  }

  lemma FileSums(c: Config, ts: seq<Task>)
    ensures Sum(OfFile(c, Folders), ts) == 0
  {
    SumNothing(OfFile(c, Folders), ts);
  }

  lemma WorkerSums(c: Config, ws: seq<FileWorker>)
    ensures Sum(OfFileWorker(c, Folders), ws) == 0
  {
    SumNothing(OfFileWorker(c, Folders), ws);
  }
}
