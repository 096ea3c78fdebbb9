/** When the report is complete: a condition on the tree and the limits alone. */
module WalkComplete {
  import opened WalkTree
  import opened WalkMachine
  import opened WalkWork
  import opened WalkInvariant
  import opened WalkSteps
  import opened WalkTheorems
  import opened WalkReturn

  /** The files of the reference walk are within the limits. */
  ghost predicate Fits(c: Config) {
    && (c.maxFiles >= 0 ==> |WalkPrefixes(c, c.prefixes)| <= c.maxFiles)
    && (c.maxBytes >= 0 ==> PrefixesCount(c, Bytes, c.prefixes) <= c.maxBytes)
  }

  // The number of files is one of the counts.

  lemma {:induction false} NodePicks(c: Config, path: Path, node: Node)
    ensures NodeCount(c, Picked, path, node) == |WalkNode(c, path, node)|
    decreases node, 1
  {
    if node.Folder? {
      EntriesPicks(c, path, node.entries);
    }
  }

  lemma {:induction false} EntriesPicks(c: Config, parent: Path, entries: seq<Entry>)
    ensures EntriesCount(c, Picked, parent, entries) == |WalkEntries(c, parent, entries)|
    decreases entries, 0
  {
    if entries != [] {
      var path, node, rest := parent + entries[0].name, entries[0].node, WalkEntries(c, parent, entries[1..]);
      EntriesPicks(c, parent, entries[1..]);
      var here := match node
        case Link => []
        case File(_, _) => WalkFile(c, path, node)
        case Folder(_, _) => WalkNode(c, path, node);
      assert WalkEntries(c, parent, entries) == here + rest;
      if node.Folder? {
        NodePicks(c, path, node);
      }
      assert EntryCount(c, Picked, path, node) == |here|;
    }
  }

  lemma {:induction false} PrefixesPicks(c: Config, prefixes: seq<Entry>)
    ensures PrefixesCount(c, Picked, prefixes) == |WalkPrefixes(c, prefixes)|
  {
    if prefixes != [] {
      NodePicks(c, prefixes[0].name, prefixes[0].node);
      PrefixesPicks(c, prefixes[1..]);
    }
  }

  // A limit is hit only if the reference walk does not fit.

  predicate Marking(w: FileWorker) { w.Held? && w.stage == Mark }

  /** No limit has been hit, and no worker is about to record one. */
  ghost predicate Unlimited(s: State) {
    !s.sh.stop.limitReached && forall w :: 0 <= w < |s.fileWorkers| ==> !Marking(s.fileWorkers[w])
  }

  /** The file a worker is about to count is still within the limits, since it is among the reference walk's. */
  lemma NoHit(c: Config, s: State, w: nat)
    requires Inv(c, s) && Fits(c) && w < |s.fileWorkers| && s.fileWorkers[w].Held? && s.fileWorkers[w].stage == Limit
    ensures !LimitHit(c, s.sh.report, s.fileWorkers[w].node.Size())
  {
    PrefixesPicks(c, c.prefixes);
    assert InBalance(c, s, Picked) && InBalance(c, s, Bytes);
    SumBounds(OfFileWorker(c, Picked), s.fileWorkers, w);
    SumBounds(OfFileWorker(c, Bytes), s.fileWorkers, w);
    HeldPick(c, s.fileWorkers[w]);
  }

  lemma HeldPick(c: Config, w: FileWorker)
    requires w.Held? && w.stage == Limit
    ensures OfFileWorker(c, Picked)(w) == 1 && OfFileWorker(c, Bytes)(w) == w.node.Size()
  {
  }

  lemma FileStepUnlimited(c: Config, s: State, w: nat, visitFails: bool)
    requires Inv(c, s) && Fits(c) && Unlimited(s) && w < |s.fileWorkers| && s.fileWorkers[w].Held?
    requires FileStep(c, s, w, visitFails).Ok?
    ensures Unlimited(FileStep(c, s, w, visitFails).s)
  {
    if s.fileWorkers[w].stage == Limit {
      NoHit(c, s, w);
    }
    assert !Marking(s.fileWorkers[w]);
  }

  lemma FrameTurnUnlimited(c: Config, sh: Shared, folderRoom: bool, fileRoom: bool, caller: bool, preferCancel: bool,
                           top: Frame, callers: seq<Cont>)
    requires FrameTurn(c, sh, folderRoom, fileRoom, caller, preferCancel, top, callers).Go?
    ensures FrameTurn(c, sh, folderRoom, fileRoom, caller, preferCancel, top, callers).sh.stop.limitReached
      == sh.stop.limitReached
  {
  }

  lemma StepUnlimited(c: Config, s: State, choice: Choice)
    requires Inv(c, s) && Fits(c) && Unlimited(s) && Step(c, s, choice).Ok?
    ensures Unlimited(Step(c, s, choice).s)
  {
    match choice
    case CancelParent =>
    case Move(g, preferCancel) =>
      if s.goroutines[g].Busy? {
        FrameTurnUnlimited(c, s.sh, |s.folderQueue| < c.queueDepth, |s.fileQueue| < c.FileQueueDepth(),
                           g == 0, preferCancel,
                           s.goroutines[g].top, s.goroutines[g].callers);
      }
    case Handle(w, visitFails) =>
      if s.fileWorkers[w].Held? {
        FileStepUnlimited(c, s, w, visitFails);
      }
  }

  lemma {:induction false} RunUnlimited(c: Config, s: State, schedule: seq<Choice>, t: State)
    requires Inv(c, s) && Fits(c) && Unlimited(s) && Follows(c, s, schedule, t)
    ensures Inv(c, t) && Unlimited(t)
    decreases |schedule|
  {
    if schedule != [] {
      StepKept(c, s, schedule[0]);
      StepUnlimited(c, s, schedule[0]);
      RunUnlimited(c, Step(c, s, schedule[0]).s, schedule[1..], t);
    }
  }

  lemma CompleteFits(c: Config, schedule: seq<Choice>, t: State)
    requires c.Valid() && Follows(c, Init(c), schedule, t)
    requires t.main == Returned(false) && t.sh.report.complete && !t.sh.stop.outer
    ensures Fits(c)
  {
    ReportIsScheduleFree(c, schedule, t);
    PrefixesPicks(c, c.prefixes);
    assert Shown(Picked, t.sh) == PrefixesCount(c, Picked, c.prefixes);
    assert Shown(Bytes, t.sh) == PrefixesCount(c, Bytes, c.prefixes);
    LimitsHold(c, schedule, t);
  }

  /**
   The whole walk, for every schedule, from conditions known before the call: left alone by its callback and by the
   caller's context, with prefixes that normalise, a call that has returned has returned normally; its report is
   complete exactly if the files of the reference walk fit the limits; and then it has visited exactly those, and every
   counter is the reference walk's.
   */
  lemma CompleteExactlyIfItFits(c: Config, schedule: seq<Choice>, t: State)
    requires c.Valid() && !c.badPrefix && Follows(c, Init(c), schedule, t)
    requires t.main.Returned? && !t.sh.stop.outer && !t.sh.stop.failed
    ensures t.main == Returned(false)
    ensures t.sh.report.complete <==> Fits(c)
    ensures Fits(c) ==> t.sh.history.visited == multiset(WalkPrefixes(c, c.prefixes))
    ensures Fits(c) ==> forall m: Metric :: m.Counter() ==> Shown(m, t.sh) == PrefixesCount(c, m, c.prefixes)
  {
    EarlyReturnHasCause(c, schedule, t);
    InitInv(c);
    RunKeeps(c, Init(c), schedule, t);
    if Fits(c) {
      RunUnlimited(c, Init(c), schedule, t);
    }
    if t.sh.report.complete {
      VisitsAllReference(c, schedule, t);
      ReportIsScheduleFree(c, schedule, t);
      CompleteFits(c, schedule, t);
    }
  }
}
