/** The two channels of the walk: never over their depth, and given up on only when they are full. */
module WalkQueues {
  import opened WalkTree
  import opened WalkMachine

  /** The folder queue is as deep as asked for, the file queue four times that and at least sixteen. */
  predicate WithinDepth(c: Config, s: State) {
    |s.folderQueue| <= c.queueDepth && (|s.fileQueue| <= 16 || |s.fileQueue| <= 4 * c.queueDepth)
  }

  predicate Full(c: Config, s: State) { |s.fileQueue| >= 16 && |s.fileQueue| >= 4 * c.queueDepth }

  lemma FrameSendsOne(c: Config, sh: Shared, folderRoom: bool, fileRoom: bool, caller: bool, preferCancel: bool,
                      top: Frame, callers: seq<Cont>)
    requires FrameTurn(c, sh, folderRoom, fileRoom, caller, preferCancel, top, callers).Go?
    ensures var turn := FrameTurn(c, sh, folderRoom, fileRoom, caller, preferCancel, top, callers);
      && |turn.folders| <= (if folderRoom then 1 else 0) && |turn.files| <= (if fileRoom then 1 else 0)
  {
  }

  lemma CallerSendsOne(c: Config, sh: Shared, room: bool, main: Main)
    requires CallerTurn(c, sh, room, main).Turned?
    ensures |CallerTurn(c, sh, room, main).folders| <= if room then 1 else 0
  {
  }

  lemma StepKeepsDepth(c: Config, s: State, choice: Choice)
    requires WithinDepth(c, s) && Step(c, s, choice).Ok?
    ensures WithinDepth(c, Step(c, s, choice).s)
  {
    var folderRoom, fileRoom := |s.folderQueue| < c.queueDepth, |s.fileQueue| < c.FileQueueDepth();
    match choice
    case CancelParent =>
    case Handle(_, _) =>
    case Move(g, preferCancel) =>
      if s.goroutines[g].Busy? {
        FrameSendsOne(c, s.sh, folderRoom, fileRoom, g == 0, preferCancel, s.goroutines[g].top,
                      s.goroutines[g].callers);
      } else if g == 0 {
        CallerSendsOne(c, s.sh, folderRoom, s.main);
      }
  }

  lemma {:induction false} RunKeepsDepth(c: Config, s: State, schedule: seq<Choice>, t: State)
    requires WithinDepth(c, s) && Follows(c, s, schedule, t)
    ensures WithinDepth(c, t)
    decreases |schedule|
  {
    if schedule != [] {
      StepKeepsDepth(c, s, schedule[0]);
      RunKeepsDepth(c, Step(c, s, schedule[0]).s, schedule[1..], t);
    }
  }

  /** At no moment of any run does a queue hold more than its depth. */
  lemma QueuesStayWithinDepth(c: Config, schedule: seq<Choice>, t: State)
    requires c.Valid() && Follows(c, Init(c), schedule, t)
    ensures |t.folderQueue| <= c.queueDepth && (|t.fileQueue| <= 16 || |t.fileQueue| <= 4 * c.queueDepth)
  {
    RunKeepsDepth(c, Init(c), schedule, t);
  }

  /** The depth is there to be used: a goroutine is held up in a send only while the file queue is full and the walk not
      cancelled, and gets a folder to walk inline only when the folder queue is full. */
  lemma OnlyFullQueuesHoldUp(c: Config, s: State, g: nat, preferCancel: bool)
    requires g < |s.goroutines| && s.goroutines[g].Busy?
    ensures FrameStep(c, s, g, preferCancel).Blocked? ==>
      s.goroutines[g].top.SendFile? && Full(c, s) && !s.sh.stop.cancelled
    ensures FrameStep(c, s, g, preferCancel).Ok? ==>
      var next := FrameStep(c, s, g, preferCancel).s.goroutines[g];
      next.Busy? && |next.callers| > |s.goroutines[g].callers| ==> |s.folderQueue| >= c.queueDepth
  {
  }

  /** What a panic is: a send on a closed channel, or a WaitGroup taken below zero. */
  lemma PanicsExactly(c: Config, s: State, choice: Choice)
    requires s.goroutines != []
    ensures Step(c, s, choice).Panic? <==>
      match choice
      case CancelParent => false
      case Handle(w, _) =>
        w < |s.fileWorkers| && s.fileWorkers[w].Held? && s.fileWorkers[w].stage == Finish && s.sh.fileWG < 1
      case Move(g, _) =>
        g < |s.goroutines| &&
        match s.goroutines[g]
        case Idle => g == 0 && s.main.Offering? && s.main.phase == Offer && s.sh.closed
        case Busy(top, _) =>
          || (s.sh.closed && (top.SendFile? || (top.Enqueue? && top.phase == Offer)))
          || (s.sh.folderWG < 1 && top.Exit?)
  {
  }
}
