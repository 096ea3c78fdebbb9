/** Every step of the walk keeps the balances and burns fuel; none panics. */
module WalkSteps {
  import opened WalkTree
  import opened WalkMachine
  import opened WalkWork
  import opened WalkInvariant

  ghost predicate Shape(c: Config, s: State) {
    && |s.goroutines| == c.folderWorkers + 1
    && |s.fileWorkers| == c.fileWorkers
    && |s.folderQueue| <= c.queueDepth
    && |s.fileQueue| <= c.FileQueueDepth()
    && (s.sh.stop.early <==> s.main == Returned(true))
    && (s.sh.closed <==> s.main == WaitFiles || s.main == Returned(false))
    && (!s.main.Next? ==> s.goroutines[0].Idle?)
    && (s.sh.closed ==> s.sh.folderWG == 0)
    && (s.main == Returned(false) ==> s.sh.fileWG == 0)
    && (forall g :: 0 <= g < |s.goroutines| ==> Excused(s.goroutines[g], s.sh))
  }

  ghost predicate InBalance(c: Config, s: State, m: Metric) {
    Balanced(m, s.sh, AllWork(c, m, s), PrefixesCount(c, m, c.prefixes))
  }

  ghost predicate Inv(c: Config, s: State) {
    Shape(c, s) && Reported(c, s.sh) && forall m :: InBalance(c, s, m)
  }

  /** What one step does: it keeps the invariant and burns fuel. */
  ghost predicate Kept(c: Config, s: State, t: State) {
    Inv(c, t) && AllWork(c, Weight, t) < AllWork(c, Weight, s)
  }

  lemma InitInv(c: Config)
    requires c.Valid()
    ensures Inv(c, Init(c))
  {
    forall m ensures InBalance(c, Init(c), m) {
      SumNothing(OfGoroutine(c, m), Init(c).goroutines);
      SumNothing(OfFileWorker(c, m), Init(c).fileWorkers);
      if !m.Counter() && !m.Weight? {
        NoPrefixCounts(c, m, c.prefixes);
      }
    }
  }

  /** A busy goroutine or worker shows in its WaitGroup. */
  lemma BusyCounts(c: Config, s: State, g: nat)
    requires Inv(c, s) && g < |s.goroutines| && s.goroutines[g].Busy?
    ensures s.sh.folderWG >= 1
  {
    assert InBalance(c, s, Folders);
    SumBounds(OfGoroutine(c, Folders), s.goroutines, g);
  }

  lemma HeldCounts(c: Config, s: State, w: nat)
    requires Inv(c, s) && w < |s.fileWorkers| && s.fileWorkers[w].Held?
    ensures s.sh.fileWG >= 1
  {
    assert InBalance(c, s, Files);
    SumBounds(OfFileWorker(c, Files), s.fileWorkers, w);
  }

  lemma QueuedCounts(c: Config, s: State)
    requires Inv(c, s)
    ensures s.folderQueue != [] ==> s.sh.folderWG >= 1
    ensures s.fileQueue != [] ==> s.sh.fileWG >= 1
  {
    assert InBalance(c, s, Folders);
    assert InBalance(c, s, Files);
    if s.folderQueue != [] {
      SumBounds(OfTask(c, Folders), s.folderQueue, 0);
    }
    if s.fileQueue != [] {
      SumBounds(OfFile(c, Files), s.fileQueue, 0);
    }
  }

  // Steps.

  lemma {:induction false} SumConcat<T>(work: T -> nat, xs: seq<T>, ys: seq<T>)
    requires |ys| <= 1
    ensures Sum(work, xs + ys) == Sum(work, xs) + Sum(work, ys)
  {
    if ys == [] {
      assert xs + ys == xs;
    } else {
      assert ys == [ys[0]];
      SumAppend(work, xs, ys[0]);
      SumOne(work, [], ys[0]);
    }
  }

  /** How replacing one goroutine and appending to the queues changes the pending work. */
  lemma ReplacedWork(c: Config, m: Metric, s: State, main: Main, g: nat, next: Goroutine,
                     folders: seq<Task>, files: seq<Task>, sh: Shared)
    requires g < |s.goroutines| && |folders| <= 1 && |files| <= 1 && sh.stop.outer == s.sh.stop.outer
    ensures var t :=
        State(main, s.goroutines[g := next], s.fileWorkers, s.folderQueue + folders, s.fileQueue + files, sh);
      && AllWork(c, m, t) + MainWork(c, m, s.main) + GoroutineWork(c, m, s.goroutines[g])
         == AllWork(c, m, s) + MainWork(c, m, main) + GoroutineWork(c, m, next)
            + Sum(OfTask(c, m), folders) + Sum(OfFile(c, m), files)
      && GoroutineWork(c, m, s.goroutines[g]) + MainWork(c, m, s.main) <= AllWork(c, m, s)
  {
    SumUpdate(OfGoroutine(c, m), s.goroutines, g, next);
    SumBounds(OfGoroutine(c, m), s.goroutines, g);
    SumConcat(OfTask(c, m), s.folderQueue, folders);
    SumConcat(OfFile(c, m), s.fileQueue, files);
  }

  /** Balance after a turn, from what the turn does to the shared state. */
  lemma TurnBalance(c: Config, s: State, t: State, m: Metric, turn: Turn, after: nat)
    requires turn.Go?
    requires InBalance(c, s, m) && Moves(m, s.sh, AllWork(c, m, s), turn.sh, after, PrefixesCount(c, m, c.prefixes))
    requires t.sh == turn.sh && (t.main == s.main || (s.main.Next? && t.main == Returned(true)))
    requires t.main == Returned(true) ==> !Undisturbed(t.sh.stop)
    requires AllWork(c, m, t) + MainWork(c, m, s.main) == after + MainWork(c, m, t.main)
    ensures InBalance(c, t, m) && (m.Weight? ==> AllWork(c, m, t) < AllWork(c, m, s))
  {
    if t.main != s.main {
      if !m.Counter() && !m.Weight? {
        NoPrefixCounts(c, m, s.main.rest);
      }
      DropMoves(m, t.sh, after, after - AllWork(c, m, t), PrefixesCount(c, m, c.prefixes));
    }
  }

  lemma FrameStepBalance(c: Config, s: State, g: nat, preferCancel: bool, turn: Turn, m: Metric)
    requires Inv(c, s) && g < |s.goroutines| && s.goroutines[g].Busy?
    requires turn == FrameTurn(c, s.sh, |s.folderQueue| < c.queueDepth, |s.fileQueue| < c.FileQueueDepth(), g == 0,
                               preferCancel, s.goroutines[g].top, s.goroutines[g].callers)
    requires turn.Go? && KeepsShared(c, s.sh, turn.sh)
    requires |turn.folders| <= 1 && |turn.files| <= 1
    requires turn.sh.stop.early ==> s.sh.stop.early || g == 0
    ensures var t := FrameStep(c, s, g, preferCancel).s;
      InBalance(c, t, m) && (m.Weight? ==> AllWork(c, m, t) < AllWork(c, m, s))
  {
    var t := FrameStep(c, s, g, preferCancel).s;
    ReplacedWork(c, m, s, t.main, g, turn.next, turn.folders, turn.files, turn.sh);
    var after := AllWork(c, m, s) + TurnWork(c, m, turn) - GoroutineWork(c, m, s.goroutines[g]);
    FrameTurnMoves(c, m, s.sh, |s.folderQueue| < c.queueDepth, |s.fileQueue| < c.FileQueueDepth(), g == 0, preferCancel,
                   s.goroutines[g].top, s.goroutines[g].callers, turn, AllWork(c, m, s), after,
                   PrefixesCount(c, m, c.prefixes));
    assert InBalance(c, s, m);
    TurnBalance(c, s, t, m, turn, after);
  }

  lemma FrameStepKept(c: Config, s: State, g: nat, preferCancel: bool)
    requires Inv(c, s) && g < |s.goroutines| && s.goroutines[g].Busy?
    ensures var o := FrameStep(c, s, g, preferCancel); !o.Panic? && (o.Ok? ==> Kept(c, s, o.s))
  {
    var o := FrameStep(c, s, g, preferCancel);
    BusyCounts(c, s, g);
    if o.Ok? {
      var folderRoom, fileRoom := |s.folderQueue| < c.queueDepth, |s.fileQueue| < c.FileQueueDepth();
      var top, callers := s.goroutines[g].top, s.goroutines[g].callers;
      var turn := FrameTurn(c, s.sh, folderRoom, fileRoom, g == 0, preferCancel, top, callers);
      FrameTurnReported(c, s.sh, folderRoom, fileRoom, g == 0, preferCancel, top, callers);
      FrameStepBalance(c, s, g, preferCancel, turn, Weight);
      forall m ensures InBalance(c, o.s, m) {
        FrameStepBalance(c, s, g, preferCancel, turn, m);
      }
    }
  }

  lemma MainStepBalance(c: Config, s: State, turn: MainTurn, m: Metric)
    requires Inv(c, s) && s.goroutines[0].Idle?
    requires turn == CallerTurn(c, s.sh, |s.folderQueue| < c.queueDepth, s.main) && turn.Turned?
    requires turn.sh.stop.outer == s.sh.stop.outer && |turn.folders| <= 1
    ensures InBalance(c, MainStep(c, s).s, m)
    ensures m.Weight? ==> AllWork(c, m, MainStep(c, s).s) < AllWork(c, m, s)
  {
    ReplacedWork(c, m, s, turn.main, 0, turn.next, turn.folders, [], turn.sh);
    assert s.fileQueue + [] == s.fileQueue;
    CallerTurnMoves(c, m, s.sh, |s.folderQueue| < c.queueDepth, s.main, turn,
                    AllWork(c, m, s), AllWork(c, m, MainStep(c, s).s), PrefixesCount(c, m, c.prefixes));
    assert InBalance(c, s, m);
  }

  lemma MainStepKept(c: Config, s: State)
    requires Inv(c, s) && s.goroutines[0].Idle?
    ensures var o := MainStep(c, s); !o.Panic? && (o.Ok? ==> Kept(c, s, o.s))
  {
    var o := MainStep(c, s);
    if o.Ok? {
      var turn := CallerTurn(c, s.sh, |s.folderQueue| < c.queueDepth, s.main);
      CallerTurnReported(c, s.sh, |s.folderQueue| < c.queueDepth, s.main);
      MainStepBalance(c, s, turn, Weight);
      forall m ensures InBalance(c, o.s, m) {
        MainStepBalance(c, s, turn, m);
      }
    }
  }

  lemma FileTurnMoves(c: Config, m: Metric, sh: Shared, stage: Stage, path: Path, node: Node, visitFails: bool,
                      before: nat, after: nat, total: nat)
    requires stage != Finish && Reported(c, sh)
    requires var (next, _) := FileTurn(c, sh, stage, path, node, visitFails);
      after + FileWorkerWork(c, m, Held(stage, path, node)) == before + FileWorkerWork(c, m, Held(next, path, node))
    ensures Moves(m, sh, before, FileTurn(c, sh, stage, path, node, visitFails).1, after, total)
  {
    match stage
    case Check => CheckTurnMoves(c, m, sh, stage, path, node, visitFails, before, after, total);
    case Stat => StatTurnMoves(c, m, sh, stage, path, node, visitFails, before, after, total);
    case Filter => FilterTurnMoves(c, m, sh, stage, path, node, visitFails, before, after, total);
    case Limit => LimitTurnMoves(c, m, sh, stage, path, node, visitFails, before, after, total);
    case Mark => LimitTurnMoves(c, m, sh, stage, path, node, visitFails, before, after, total);
    case Visit => VisitTurnMoves(c, m, sh, stage, path, node, visitFails, before, after, total);
    case Failing => VisitTurnMoves(c, m, sh, stage, path, node, visitFails, before, after, total);
  }

  lemma FileStepBalance(c: Config, s: State, w: nat, visitFails: bool, m: Metric)
    requires Inv(c, s) && w < |s.fileWorkers| && s.fileWorkers[w].Held? && FileStep(c, s, w, visitFails).Ok?
    ensures var t := FileStep(c, s, w, visitFails).s;
      InBalance(c, t, m) && (m.Weight? ==> AllWork(c, m, t) < AllWork(c, m, s))
  {
    var t := FileStep(c, s, w, visitFails).s;
    var Held(stage, path, node) := s.fileWorkers[w];
    SumUpdate(OfFileWorker(c, m), s.fileWorkers, w, t.fileWorkers[w]);
    assert InBalance(c, s, m);
    if stage == Finish {
      FinishMoves(m, s.sh, AllWork(c, m, s), AllWork(c, m, t), PrefixesCount(c, m, c.prefixes));
    } else {
      FileTurnReported(c, s.sh, stage, path, node, visitFails);
      FileTurnMoves(c, m, s.sh, stage, path, node, visitFails, AllWork(c, m, s), AllWork(c, m, t),
        PrefixesCount(c, m, c.prefixes));
    }
  }

  lemma FinishMoves(m: Metric, sh: Shared, before: nat, after: nat, total: nat)
    requires after + m.Fuel(2) + One(m.Files?) == before
    ensures Moves(m, sh, before, sh.AddFiles(-1), after, total)
  {
  }

  lemma FileStepKept(c: Config, s: State, w: nat, visitFails: bool)
    requires Inv(c, s) && w < |s.fileWorkers| && s.fileWorkers[w].Held?
    ensures var o := FileStep(c, s, w, visitFails); o.Ok? && Kept(c, s, o.s)
  {
    HeldCounts(c, s, w);
    var o := FileStep(c, s, w, visitFails);
    var Held(stage, path, node) := s.fileWorkers[w];
    if stage != Finish {
      FileTurnReported(c, s.sh, stage, path, node, visitFails);
    }
    FileStepBalance(c, s, w, visitFails, Weight);
    forall m ensures InBalance(c, o.s, m) {
      FileStepBalance(c, s, w, visitFails, m);
    }
  }

  lemma ReceiveFolderKept(c: Config, s: State, g: nat)
    requires Inv(c, s) && 0 < g < |s.goroutines| && s.goroutines[g].Idle? && s.folderQueue != []
    ensures Kept(c, s, Step(c, s, Move(g, false)).s) && Step(c, s, Move(g, true)) == Step(c, s, Move(g, false))
  {
    var t := Step(c, s, Move(g, false)).s;
    QueuedCounts(c, s);
    forall m ensures InBalance(c, t, m) && AllWork(c, m, s) == AllWork(c, m, t) + m.Fuel(1) {
      SumUpdate(OfGoroutine(c, m), s.goroutines, g, t.goroutines[g]);
      assert InBalance(c, s, m);
    }
    assert AllWork(c, Weight, s) == AllWork(c, Weight, t) + Weight.Fuel(1);
  }

  lemma ReceiveFileKept(c: Config, s: State, w: nat)
    requires Inv(c, s) && w < |s.fileWorkers| && s.fileWorkers[w].Free? && s.fileQueue != []
    ensures Kept(c, s, Step(c, s, Handle(w, false)).s) && Step(c, s, Handle(w, true)) == Step(c, s, Handle(w, false))
  {
    var t := Step(c, s, Handle(w, false)).s;
    QueuedCounts(c, s);
    forall m ensures InBalance(c, t, m) && AllWork(c, m, s) == AllWork(c, m, t) + m.Fuel(1) {
      SumUpdate(OfFileWorker(c, m), s.fileWorkers, w, t.fileWorkers[w]);
      assert InBalance(c, s, m);
    }
    assert AllWork(c, Weight, s) == AllWork(c, Weight, t) + Weight.Fuel(1);
  }

  lemma CancelKept(c: Config, s: State)
    requires Inv(c, s) && !s.sh.stop.outer
    ensures Kept(c, s, Step(c, s, CancelParent).s)
  {
    var t := Step(c, s, CancelParent).s;
    forall m ensures InBalance(c, t, m) {
      assert InBalance(c, s, m);
    }
  }

  lemma StepKept(c: Config, s: State, choice: Choice)
    requires Inv(c, s)
    ensures var o := Step(c, s, choice); !o.Panic? && (o.Ok? ==> Kept(c, s, o.s))
  {
    match choice
    case CancelParent =>
      if !s.sh.stop.outer {
        CancelKept(c, s);
      }
    case Move(g, preferCancel) =>
      if g < |s.goroutines| {
        if s.goroutines[g].Busy? {
          FrameStepKept(c, s, g, preferCancel);
        } else if g == 0 {
          MainStepKept(c, s);
        } else if s.folderQueue != [] {
          ReceiveFolderKept(c, s, g);
        }
      }
    case Handle(w, visitFails) =>
      if w < |s.fileWorkers| {
        if s.fileWorkers[w].Held? {
          FileStepKept(c, s, w, visitFails);
        } else if s.fileQueue != [] {
          ReceiveFileKept(c, s, w);
        }
      }
  }
}
