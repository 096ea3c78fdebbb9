/** What still happens once a limit has been reached: only what was already past the test for it. */
module WalkLimit {
  import opened WalkTree
  import opened WalkMachine
  import opened WalkWork

  // Goroutines past the test.

  function ToSee(w: FileWorker): nat { One(w.Held? && w.stage == Stat) }

  function ToReturn(w: FileWorker): nat { One(w.Held? && w.stage in {Stat, Filter, Limit}) }

  function ToScan(g: Goroutine): nat { One(g.Busy? && g.top.Scan?) }

  /** Counters with what may still be added to them. */
  datatype Reach = Reach(seen: nat, returned: nat, scanned: nat, queued: nat)

  function ReachOf(s: State): Reach {
    Reach(s.sh.report.seen + Sum(ToSee, s.fileWorkers), s.sh.report.returned + Sum(ToReturn, s.fileWorkers),
          s.sh.report.scanned + Sum(ToScan, s.goroutines), s.sh.report.queued)
  }

  predicate Within(a: Reach, b: Reach) {
    a.seen <= b.seen && a.returned <= b.returned && a.scanned <= b.scanned && a.queued <= b.queued
  }

  lemma FileTurnAfterLimit(c: Config, sh: Shared, stage: Stage, path: Path, node: Node, visitFails: bool)
    requires stage != Finish && sh.stop.limitReached
    ensures var (next, sh') := FileTurn(c, sh, stage, path, node, visitFails);
      var was, later := Held(stage, path, node), Held(next, path, node);
      && sh'.stop.limitReached && sh'.report.queued == sh.report.queued && sh'.report.scanned == sh.report.scanned
      && sh'.report.seen + ToSee(later) <= sh.report.seen + ToSee(was)
      && sh'.report.returned + ToReturn(later) <= sh.report.returned + ToReturn(was)
  {
  }

  /** A turn that queues, sees and returns nothing, and scans at most the folder it had begun. */
  predicate Winds(sh: Shared, turn: Turn, before: Goroutine) {
    turn.Go? ==>
      && turn.sh.stop.limitReached && turn.sh.report.queued == sh.report.queued
      && turn.sh.report.seen == sh.report.seen && turn.sh.report.returned == sh.report.returned
      && turn.sh.report.scanned + ToScan(turn.next) <= sh.report.scanned + ToScan(before)
  }

  lemma EnqueueTurnAfterLimit(c: Config, sh: Shared, room: bool, k: Cont, phase: Phase, path: Path, node: Node,
                              callers: seq<Cont>, before: Goroutine)
    requires sh.stop.limitReached
    ensures Winds(sh, EnqueueTurn(OfferTurn(c, sh, room, phase, path), k, path, node, callers), before)
  {
  }

  lemma ScanTurnAfterLimit(c: Config, sh: Shared, path: Path, node: Node, callers: seq<Cont>)
    requires sh.stop.limitReached
    ensures var (next, sh') := ScanTurn(c, sh, path, node);
      Winds(sh, Go(Busy(next, callers), sh', [], []), Busy(Scan(path, node), callers))
  {
  }

  lemma FrameTurnAfterLimit(c: Config, sh: Shared, folderRoom: bool, fileRoom: bool, caller: bool, preferCancel: bool,
                            top: Frame, callers: seq<Cont>)
    requires sh.stop.limitReached
    ensures Winds(sh, FrameTurn(c, sh, folderRoom, fileRoom, caller, preferCancel, top, callers), Busy(top, callers))
  {
    hide EnqueueTurn, OfferTurn, ScanTurn;
    match top
    case Enqueue(k, phase, path, node) =>
      EnqueueTurnAfterLimit(c, sh, folderRoom, k, phase, path, node, callers, Busy(top, callers));
    case Scan(path, node) => ScanTurnAfterLimit(c, sh, path, node, callers);
    case _ =>
  }

  lemma CallerTurnAfterLimit(c: Config, sh: Shared, room: bool, main: Main)
    requires sh.stop.limitReached && CallerTurn(c, sh, room, main).Turned?
    ensures var turn := CallerTurn(c, sh, room, main);
      && turn.sh.stop.limitReached && turn.sh.report.queued == sh.report.queued
      && turn.sh.report.seen == sh.report.seen && turn.sh.report.returned == sh.report.returned
      && turn.sh.report.scanned == sh.report.scanned && ToScan(turn.next) == 0
  {
  }

  lemma FileStepAfterLimit(c: Config, s: State, w: nat, visitFails: bool)
    requires s.sh.stop.limitReached && w < |s.fileWorkers|
    requires Step(c, s, Handle(w, visitFails)).Ok?
    ensures var t := Step(c, s, Handle(w, visitFails)).s;
      t.sh.stop.limitReached && Within(ReachOf(t), ReachOf(s))
  {
    var t := Step(c, s, Handle(w, visitFails)).s;
    SumUpdate(ToSee, s.fileWorkers, w, t.fileWorkers[w]);
    SumUpdate(ToReturn, s.fileWorkers, w, t.fileWorkers[w]);
    assert t.fileWorkers == s.fileWorkers[w := t.fileWorkers[w]];
    if s.fileWorkers[w].Held? && s.fileWorkers[w].stage != Finish {
      FileTurnAfterLimit(c, s.sh, s.fileWorkers[w].stage, s.fileWorkers[w].path, s.fileWorkers[w].node, visitFails);
    }
  }

  lemma MoveAfterLimit(c: Config, s: State, g: nat, preferCancel: bool)
    requires s.sh.stop.limitReached && g < |s.goroutines|
    requires Step(c, s, Move(g, preferCancel)).Ok?
    ensures var t := Step(c, s, Move(g, preferCancel)).s;
      t.sh.stop.limitReached && Within(ReachOf(t), ReachOf(s))
  {
    var t := Step(c, s, Move(g, preferCancel)).s;
    SumUpdate(ToScan, s.goroutines, g, t.goroutines[g]);
    assert t.goroutines == s.goroutines[g := t.goroutines[g]];
    if s.goroutines[g].Busy? {
      FrameTurnAfterLimit(c, s.sh, |s.folderQueue| < c.queueDepth, |s.fileQueue| < c.FileQueueDepth(), g == 0,
                          preferCancel, s.goroutines[g].top, s.goroutines[g].callers);
    } else if g == 0 {
      CallerTurnAfterLimit(c, s.sh, |s.folderQueue| < c.queueDepth, s.main);
    }
  }

  lemma {:induction false} RunAfterLimit(c: Config, s: State, schedule: seq<Choice>, t: State)
    requires s.sh.stop.limitReached && Follows(c, s, schedule, t)
    ensures t.sh.stop.limitReached && Within(ReachOf(t), ReachOf(s))
    decreases |schedule|
  {
    hide ReachOf, FrameStep, MainStep, FileStep;
    if schedule != [] {
      match schedule[0] {
        case CancelParent => CancelAfterLimit(c, s);
        case Handle(w, visitFails) => FileStepAfterLimit(c, s, w, visitFails);
        case Move(g, preferCancel) => MoveAfterLimit(c, s, g, preferCancel);
      }
      RunAfterLimit(c, Step(c, s, schedule[0]).s, schedule[1..], t);
    }
  }

  lemma CancelAfterLimit(c: Config, s: State)
    requires s.sh.stop.limitReached && Step(c, s, CancelParent).Ok?
    ensures var t := Step(c, s, CancelParent).s; t.sh.stop.limitReached && ReachOf(t) == ReachOf(s)
  {
  }

  lemma {:induction false} SumOfOnes<T(!new)>(work: T -> nat, xs: seq<T>)
    requires forall x :: work(x) <= 1
    ensures Sum(work, xs) <= |xs|
  {
    if xs != [] {
      SumOfOnes(work, xs[1..]);
    }
  }

  /**
   A limit ends the walk: whatever happens after it is reached, no folder is queued any more, each folder goroutine
   scans at most the one folder it had begun, and each file worker sees and returns at most the one file it had begun.
   */
  lemma LimitEndsTheWalk(c: Config, s: State, schedule: seq<Choice>, t: State)
    requires s.sh.stop.limitReached && Follows(c, s, schedule, t)
    ensures t.sh.report.queued <= s.sh.report.queued
    ensures t.sh.report.scanned <= s.sh.report.scanned + Sum(ToScan, s.goroutines)
      <= s.sh.report.scanned + |s.goroutines|
    ensures t.sh.report.seen <= s.sh.report.seen + Sum(ToSee, s.fileWorkers) <= s.sh.report.seen + |s.fileWorkers|
    ensures t.sh.report.returned <= s.sh.report.returned + Sum(ToReturn, s.fileWorkers)
      <= s.sh.report.returned + |s.fileWorkers|
  {
    RunAfterLimit(c, s, schedule, t);
    SumOfOnes(ToScan, s.goroutines);
    SumOfOnes(ToSee, s.fileWorkers);
    SumOfOnes(ToReturn, s.fileWorkers);
  }
}
