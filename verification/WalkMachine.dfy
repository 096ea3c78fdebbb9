/**
 The bounded concurrent walk as a step system. A step is one critical section, one channel operation or
 one WaitGroup operation of one goroutine; the schedule names the goroutine that moves and, where the
 program leaves a choice open, the choice.

 Some operations that follow each other in one goroutine make one step:
 - the test of shouldStop with what follows it: in the loop over entries an addSkipped or a fileWG.Add, in
   enqueueFolder folderWG.Add and FoldersQueued++;
 - the test of the context with what follows it when it is cancelled: the WaitGroup's Done and the test of
   shouldStop, in enqueueFolder and in a send that is given up.
 Nobody can tell the difference. No goroutine acts on the counters of skipped and queued entries. A WaitGroup
 changes here only while nobody can be waiting for it to reach zero: folderWG is held by the running
 processFolder, or the caller itself is in enqueueFolder and not yet waiting, and fileWG is waited for only once
 folderWG is zero. So these operations commute with every step of the others: those after a negative test can be
 done at the time of the test, and those before the last test at the time of that one. A cancelled context stays
 cancelled, so the first test still holds then.
 */
module WalkMachine {
  import opened WalkTree

  // What all goroutines share besides the channels.

  datatype Reasons = Reasons(
    pattern: nat, symlink: nat, folderError: nat, statError: nat, extension: nat, limit: nat, callbackError: nat)

  /** The walk's report. */
  datatype Report = Report(
    queued: nat, scanned: nat, seen: nat, skipped: nat, returned: nat, bytes: nat, complete: bool, reasons: Reasons)
  {
    function Skip(r: Reasons): Report { this.(skipped := skipped + 1, reasons := r) }
    function SkipPattern(): Report { Skip(reasons.(pattern := reasons.pattern + 1)) }
    function SkipSymlink(): Report { Skip(reasons.(symlink := reasons.symlink + 1)) }
    function SkipFolderError(): Report { Skip(reasons.(folderError := reasons.folderError + 1)) }
    function SkipStatError(): Report { Skip(reasons.(statError := reasons.statError + 1)) }
    function SkipExtension(): Report { Skip(reasons.(extension := reasons.extension + 1)) }
    function Limited(): Report { this.(complete := false, reasons := reasons.(limit := reasons.limit + 1)) }
    function Erred(): Report {
      this.(complete := false, reasons := reasons.(callbackError := reasons.callbackError + 1))
    }
  }

  /** What the report does not show: the visits, the files a pattern skipped, the files a limit dropped. */
  datatype History = History(visited: multiset<Path>, patternFiles: nat, limitDropped: nat)

  /**
   limitReached, whether a callback error was recorded, whether the parent context was cancelled,
   whether the call returned before its shutdown; and the walk's own context.
   */
  datatype Stop = Stop(limitReached: bool, failed: bool, outer: bool, early: bool, cancelled: bool)

  datatype Shared = Shared(folderWG: int, fileWG: int, closed: bool, stop: Stop, report: Report, history: History)
  {
    function AddFolders(n: int): Shared { this.(folderWG := folderWG + n) }
    function AddFiles(n: int): Shared { this.(fileWG := fileWG + n) }

    /** markLimit: only the first caller changes the report and cancels. */
    function MarkLimit(): Shared {
      if stop.limitReached then this
      else this.(stop := stop.(limitReached := true, cancelled := true), report := report.Limited())
    }

    /** setErr: only the first error is kept. */
    function SetErr(): Shared {
      if stop.failed then this
      else this.(stop := stop.(failed := true, cancelled := true), report := report.Erred())
    }

    /** Returning before the shutdown runs the deferred cancel; the channels stay open. */
    function ReturnEarly(): Shared {
      this.(stop := stop.(early := true, cancelled := true))
    }

    function CancelParent(): Shared {
      this.(stop := stop.(outer := true, cancelled := true))
    }
  }

  predicate LimitHit(c: Config, r: Report, size: nat) {
    (c.maxFiles >= 0 && r.returned >= c.maxFiles) || (c.maxBytes >= 0 && r.bytes + size > c.maxBytes)
  }

  // processFile.

  datatype Stage = Check | Stat | Filter | Limit | Mark | Visit | Failing | Finish

  datatype FileWorker = Free | Held(stage: Stage, path: Path, node: Node)

  function FileTurn(c: Config, sh: Shared, stage: Stage, path: Path, node: Node, visitFails: bool): (Stage, Shared)
    requires stage != Finish
  {
    var r, h := sh.report, sh.history;
    match stage
    case Check => (if sh.stop.limitReached then Finish else Stat, sh)
    case Stat =>
      if node.File? && node.statOk then (Filter, sh.(report := r.(seen := r.seen + 1)))
      else (Finish, sh.(report := r.SkipStatError()))
    case Filter =>
      if !c.extensionAllowed(path) then (Finish, sh.(report := r.SkipExtension()))
      else if c.excludedFile(path) then
        (Finish, sh.(report := r.SkipPattern(), history := h.(patternFiles := h.patternFiles + 1)))
      else (Limit, sh)
    case Limit =>
      if LimitHit(c, r, node.Size()) then (Mark, sh)
      else (Visit, sh.(report := r.(returned := r.returned + 1, bytes := r.bytes + node.Size())))
    case Mark => (Finish, sh.MarkLimit().(history := h.(limitDropped := h.limitDropped + 1)))
    case Visit =>
      (if visitFails then Failing else Finish, sh.(history := h.(visited := h.visited + multiset{path})))
    case Failing => (Finish, sh.SetErr())
  }

  // enqueueFolder, shared by the prefix loop and the directory loop.

  datatype Task = Task(path: Path, node: Node)

  /** Where enqueueFolder stands: before folderWG.Add, after it, and past the context check. */
  datatype Phase = Reserve | Reserved | Offer

  datatype Offered =
    | Settled             // (true, nil) without a send: go on with the loop
    | Sent                // (true, nil) with the folder in the queue
    | Within(phase: Phase)  // still inside enqueueFolder
    | Inline              // (false, nil): the caller runs processFolder itself
    | Refused             // (false, err): the caller returns the error

  function OfferTurn(c: Config, sh: Shared, room: bool, phase: Phase, path: Path): (Offered, Shared) {
    match phase
    case Reserve =>
      if c.Excluded(path) then (Settled, sh.(report := sh.report.SkipPattern()))
      else if sh.stop.limitReached then (Settled, sh)
      else (Within(Reserved), sh.AddFolders(1).(report := sh.report.(queued := sh.report.queued + 1)))
    case Reserved =>
      if !sh.stop.cancelled then (Within(Offer), sh)
      else (if sh.stop.limitReached then Settled else Refused, sh.AddFolders(-1))
    case Offer => (if room then Sent else Inline, sh)
  }

  // processFolder.

  /** What is left of one loop over a directory's entries. */
  datatype Cont = Cont(parent: Path, rest: seq<Entry>)

  /** The running processFolder call of a goroutine. */
  datatype Frame =
    | Enter(path: Path, node: Node)
    | Scan(path: Path, node: Node)
    | Loop(k: Cont)
    | Enqueue(k: Cont, phase: Phase, path: Path, node: Node)
    | SendFile(k: Cont, path: Path, node: Node)
    | Exit(failed: bool)

  /** A goroutine that may run processFolder, with the loops of its inline callers, innermost first. */
  datatype Goroutine = Idle | Busy(top: Frame, callers: seq<Cont>)

  /**
   The outcome of one turn: the goroutine's next state, the shared state and what it sent. Crash is
   a send on a closed channel or a negative WaitGroup.
   */
  datatype Turn = Stuck | Crash | Go(next: Goroutine, sh: Shared, folders: seq<Task>, files: seq<Task>)

  function FrameTurn(c: Config, sh: Shared, folderRoom: bool, fileRoom: bool, caller: bool, preferCancel: bool,
                     top: Frame, callers: seq<Cont>): Turn
  {
    match top
    case Enter(path, node) =>
      Go(Busy(if sh.stop.limitReached then Exit(false) else Scan(path, node), callers), sh, [], [])
    case Scan(path, node) =>
      var (next, sh') := ScanTurn(c, sh, path, node);
      Go(Busy(next, callers), sh', [], [])
    case Loop(k) =>
      var (next, sh') := LoopTurn(c, sh, k);
      Go(Busy(next, callers), sh', [], [])
    case Enqueue(k, phase, path, node) =>
      if phase == Offer && sh.closed then Crash
      else EnqueueTurn(OfferTurn(c, sh, folderRoom, phase, path), k, path, node, callers)
    case SendFile(k, path, node) => SendTurn(sh, fileRoom, preferCancel, k, path, node, callers)
    case Exit(failed) => ExitTurn(sh, caller, failed, callers)
  }

  function ScanTurn(c: Config, sh: Shared, path: Path, node: Node): (Frame, Shared) {
    if c.Excluded(path) then (Exit(false), sh.(report := sh.report.SkipPattern()))
    else
      match node
      case Link => (Exit(false), sh.(report := sh.report.SkipFolderError()))
      case File(_, _) => (SendFile(Cont(path, []), path, node), sh.AddFiles(1))
      case Folder(readable, entries) =>
        if !readable then (Exit(false), sh.(report := sh.report.SkipFolderError()))
        else (Loop(Cont(path, entries)), sh.(report := sh.report.(scanned := sh.report.scanned + 1)))
  }

  function LoopTurn(c: Config, sh: Shared, k: Cont): (Frame, Shared) {
    if k.rest == [] || sh.stop.limitReached then (Exit(false), sh)
    else
      var path, node, k' := k.parent + k.rest[0].name, k.rest[0].node, Cont(k.parent, k.rest[1..]);
      match node
      case Link => (Loop(k'), sh.(report := sh.report.SkipSymlink()))
      case File(_, _) => (SendFile(k', path, node), sh.AddFiles(1))
      case Folder(_, _) =>
        if c.Excluded(path) then (Loop(k'), sh.(report := sh.report.SkipPattern()))
        else (Enqueue(k', Reserve, path, node), sh)
  }

  function EnqueueTurn(offered: (Offered, Shared), k: Cont, path: Path, node: Node, callers: seq<Cont>): Turn {
    match offered.0
    case Settled => Go(Busy(Loop(k), callers), offered.1, [], [])
    case Sent => Go(Busy(Loop(k), callers), offered.1, [Task(path, node)], [])
    case Within(phase) => Go(Busy(Enqueue(k, phase, path, node), callers), offered.1, [], [])
    case Inline => Go(Busy(Enter(path, node), [k] + callers), offered.1, [], [])
    case Refused => Go(Busy(Exit(true), callers), offered.1, [], [])
  }

  function SendTurn(sh: Shared, room: bool, preferCancel: bool, k: Cont, path: Path, node: Node,
                    callers: seq<Cont>): Turn
  {
    if sh.closed then Crash
    else if room && !(sh.stop.cancelled && preferCancel) then Go(Busy(Loop(k), callers), sh, [], [Task(path, node)])
    else if sh.stop.cancelled then Go(Busy(Exit(!sh.stop.limitReached), callers), sh.AddFiles(-1), [], [])
    else Stuck
  }

  /** The deferred folderWG.Done; an error goes on to the inline caller, and a worker drops it. */
  function ExitTurn(sh: Shared, caller: bool, failed: bool, callers: seq<Cont>): Turn {
    if sh.folderWG <= 0 then Crash
    else
      var sh' := sh.AddFolders(-1);
      if callers != [] then Go(Busy(if failed then Exit(true) else Loop(callers[0]), callers[1..]), sh', [], [])
      else Go(Idle, if failed && caller then sh'.ReturnEarly() else sh', [], [])
  }

  // The caller's goroutine: the loop over prefixes, then the shutdown.

  datatype Main =
    | Next(rest: seq<Entry>)
    | Offering(rest: seq<Entry>, phase: Phase, path: Path, node: Node)
    | WaitFolders
    | WaitFiles
    | Returned(early: bool)

  /** While the caller runs processFolder itself, its goroutine is busy and its place in the loop kept. */
  datatype MainTurn = Waiting | Failure | Turned(main: Main, next: Goroutine, sh: Shared, folders: seq<Task>)

  function CallerTurn(c: Config, sh: Shared, folderRoom: bool, main: Main): MainTurn {
    match main
    case Next(rest) =>
      if rest == [] then
        if c.badPrefix then Turned(Returned(true), Idle, sh.ReturnEarly(), []) else Turned(WaitFolders, Idle, sh, [])
      else if rest[0].name == [] then
        Turned(Next(rest[1..]), Busy(Enter([], rest[0].node), []), sh.AddFolders(1), [])
      else
        Turned(Offering(rest[1..], Reserve, rest[0].name, rest[0].node), Idle, sh, [])
    case Offering(rest, phase, path, node) =>
      if phase == Offer && sh.closed then Failure
      else PrefixTurn(OfferTurn(c, sh, folderRoom, phase, path), rest, path, node)
    case WaitFolders => if sh.folderWG == 0 then Turned(WaitFiles, Idle, sh.(closed := true), []) else Waiting
    case WaitFiles =>
      // The deferred cancel has no observer left here, so it is not recorded.
      if sh.fileWG == 0 then Turned(Returned(false), Idle, sh, []) else Waiting
    case Returned(_) => Waiting
  }

  function PrefixTurn(offered: (Offered, Shared), rest: seq<Entry>, path: Path, node: Node): MainTurn {
    match offered.0
    case Settled => Turned(Next(rest), Idle, offered.1, [])
    case Sent => Turned(Next(rest), Idle, offered.1, [Task(path, node)])
    case Within(phase) => Turned(Offering(rest, phase, path, node), Idle, offered.1, [])
    case Inline => Turned(Next(rest), Busy(Enter(path, node), []), offered.1, [])
    case Refused => Turned(Returned(true), Idle, offered.1.ReturnEarly(), [])
  }

  // The whole walk.

  datatype State = State(
    main: Main,
    goroutines: seq<Goroutine>,   // index 0 is the caller's, the others are the folder workers
    fileWorkers: seq<FileWorker>,
    folderQueue: seq<Task>, fileQueue: seq<Task>,
    sh: Shared)

  function Init(c: Config): State {
    State(Next(c.prefixes), seq(c.folderWorkers + 1, _ => Idle), seq(c.fileWorkers, _ => Free), [], [],
          Shared(0, 0, false, Stop(false, false, false, false, false),
                 Report(0, 0, 0, 0, 0, 0, true, Reasons(0, 0, 0, 0, 0, 0, 0)), History(multiset{}, 0, 0)))
  }

  datatype Choice =
    | Move(g: nat, preferCancel: bool)     // a goroutine; which ready case its select takes
    | Handle(w: nat, visitFails: bool)     // a file worker; what the visit callback returns
    | CancelParent                         // the caller cancels the context it passed in

  datatype Outcome = Blocked | Panic | Ok(s: State)

  function Step(c: Config, s: State, choice: Choice): Outcome {
    match choice
    case CancelParent => if s.sh.stop.outer then Blocked else Ok(s.(sh := s.sh.CancelParent()))
    case Move(g, preferCancel) =>
      if g >= |s.goroutines| then Blocked
      else if s.goroutines[g].Busy? then FrameStep(c, s, g, preferCancel)
      else if g == 0 then MainStep(c, s)
      else if s.folderQueue == [] then Blocked
      else
        var t := s.folderQueue[0];
        Ok(s.(goroutines := s.goroutines[g := Busy(Enter(t.path, t.node), [])], folderQueue := s.folderQueue[1..]))
    case Handle(w, visitFails) =>
      if w >= |s.fileWorkers| then Blocked
      else if s.fileWorkers[w].Held? then FileStep(c, s, w, visitFails)
      else if s.fileQueue == [] then Blocked
      else
        var t := s.fileQueue[0];
        Ok(s.(fileWorkers := s.fileWorkers[w := Held(Check, t.path, t.node)], fileQueue := s.fileQueue[1..]))
  }

  function FrameStep(c: Config, s: State, g: nat, preferCancel: bool): Outcome
    requires g < |s.goroutines| && s.goroutines[g].Busy?
  {
    var turn := FrameTurn(c, s.sh, |s.folderQueue| < c.queueDepth, |s.fileQueue| < c.FileQueueDepth(), g == 0,
                          preferCancel, s.goroutines[g].top, s.goroutines[g].callers);
    match turn
    case Stuck => Blocked
    case Crash => Panic
    case Go(next, sh, folders, files) =>
      Ok(State(if sh.stop.early && !s.sh.stop.early then Returned(true) else s.main,
               s.goroutines[g := next], s.fileWorkers, s.folderQueue + folders, s.fileQueue + files, sh))
  }

  function MainStep(c: Config, s: State): Outcome
    requires |s.goroutines| > 0
  {
    match CallerTurn(c, s.sh, |s.folderQueue| < c.queueDepth, s.main)
    case Waiting => Blocked
    case Failure => Panic
    case Turned(main, next, sh, folders) =>
      Ok(State(main, s.goroutines[0 := next], s.fileWorkers, s.folderQueue + folders, s.fileQueue, sh))
  }

  function FileStep(c: Config, s: State, w: nat, visitFails: bool): Outcome
    requires w < |s.fileWorkers| && s.fileWorkers[w].Held?
  {
    var Held(stage, path, node) := s.fileWorkers[w];
    if stage == Finish then
      if s.sh.fileWG <= 0 then Panic
      else Ok(s.(fileWorkers := s.fileWorkers[w := Free], sh := s.sh.AddFiles(-1)))
    else
      var (next, sh) := FileTurn(c, s.sh, stage, path, node, visitFails);
      Ok(s.(fileWorkers := s.fileWorkers[w := Held(next, path, node)], sh := sh))
  }

  // Runs.

  /** Whether a schedule can be followed from s to t, every choice in it enabled. */
  ghost predicate Follows(c: Config, s: State, schedule: seq<Choice>, t: State)
    decreases |schedule|
  {
    if schedule == [] then s == t
    else
      var o := Step(c, s, schedule[0]);
      o.Ok? && Follows(c, o.s, schedule[1..], t)
  }

  lemma First(c: Config, s: State, choice: Choice, rest: seq<Choice>, t: State)
    requires Step(c, s, choice).Ok? && Follows(c, Step(c, s, choice).s, rest, t)
    ensures Follows(c, s, [choice] + rest, t)
  {
    assert ([choice] + rest)[1..] == rest;
  }

  lemma {:induction false} Join(c: Config, s: State, schedule: seq<Choice>, m: State, rest: seq<Choice>, t: State)
    requires Follows(c, s, schedule, m) && Follows(c, m, rest, t)
    ensures Follows(c, s, schedule + rest, t)
    decreases |schedule|
  {
    hide Step;
    if schedule == [] {
      assert schedule + rest == rest;
    } else {
      var next := Step(c, s, schedule[0]).s;
      Join(c, next, schedule[1..], m, rest, t);
      First(c, s, schedule[0], schedule[1..] + rest, t);
      assert [schedule[0]] + (schedule[1..] + rest) == schedule + rest;
    }
  }

  lemma Extend(c: Config, s: State, schedule: seq<Choice>, m: State, choice: Choice)
    requires Follows(c, s, schedule, m) && Step(c, m, choice).Ok?
    ensures Follows(c, s, schedule + [choice], Step(c, m, choice).s)
  {
    assert [choice][1..] == [];
    Join(c, s, schedule, m, [choice], Step(c, m, choice).s);
  }
}
