/** What every step of the walk keeps, whatever the schedule. */
module WalkInvariant {
  import opened WalkTree
  import opened WalkMachine
  import opened WalkWork

  /** No limit, no callback error, no cancellation by the caller, no early return so far. */
  predicate Undisturbed(stop: Stop) {
    !stop.limitReached && !stop.failed && !stop.outer && !stop.early
  }

  /** The limits, the sums the report's own fields obey, and what is known of the stop flags. */
  ghost predicate Reported(c: Config, sh: Shared) {
    var r := sh.report;
    && (c.maxFiles >= 0 ==> r.returned <= c.maxFiles)
    && (c.maxBytes >= 0 ==> r.bytes <= c.maxBytes)
    && r.skipped == r.reasons.pattern + r.reasons.symlink + r.reasons.folderError + r.reasons.statError
        + r.reasons.extension
    && r.reasons.limit == (if sh.stop.limitReached then 1 else 0)
    && r.reasons.callbackError == (if sh.stop.failed then 1 else 0)
    && (r.complete <==> !sh.stop.limitReached && !sh.stop.failed)
    && (sh.stop.cancelled <==> !Undisturbed(sh.stop))
  }

  /** How many skips the report shows for a reason. */
  function SkippedFor(r: Report, why: Reason): nat {
    match why
    case Any => r.skipped
    case Pattern => r.reasons.pattern
    case Symlink => r.reasons.symlink
    case FolderError => r.reasons.folderError
    case StatError => r.reasons.statError
    case Extension => r.reasons.extension
  }

  /** What the report shows of a counter. */
  function Shown(m: Metric, sh: Shared): nat {
    match m
    case Visits(path) => sh.history.visited[path]
    case Queued => sh.report.queued
    case Scanned => sh.report.scanned
    case Seen => sh.report.seen
    case Skipped(of) => SkippedFor(sh.report, of)
    case Picked => sh.report.returned
    case Bytes => sh.report.bytes
    case _ => 0
  }

  /**
   The pending work in a quantity explains what the state shows of it; a counter never overshoots the
   reference walk and misses nothing while undisturbed. The weight only has to fall.
   */
  ghost predicate Balanced(m: Metric, sh: Shared, work: nat, total: nat) {
    match m
    case Folders => sh.folderWG == work
    case Files => sh.fileWG == work
    case Undecided =>
      sh.report.seen == sh.report.returned + sh.report.reasons.extension + sh.history.patternFiles
        + sh.history.limitDropped + work
    case Visiting => |sh.history.visited| + work == sh.report.returned
    case Weight => true
    case _ => Shown(m, sh) + work <= total && (Undisturbed(sh.stop) ==> Shown(m, sh) + work == total)
  }

  /** What a turn does to a balance when it turns the work before into the work after. */
  ghost predicate Moves(m: Metric, sh: Shared, before: nat, sh': Shared, after: nat, total: nat) {
    && (Balanced(m, sh, before, total) ==> Balanced(m, sh', after, total))
    && (m.Weight? ==> after < before)
  }

  /** Shared facts a turn keeps. */
  ghost predicate KeepsShared(c: Config, sh: Shared, sh': Shared) {
    && Reported(c, sh') && sh'.closed == sh.closed && sh'.stop.outer == sh.stop.outer
    && (!Undisturbed(sh.stop) ==> !Undisturbed(sh'.stop))
  }

  // File workers.

  lemma StopReported(c: Config, sh: Shared, h: History)
    requires Reported(c, sh)
    ensures KeepsShared(c, sh, sh.MarkLimit().(history := h)) && sh.MarkLimit().stop.early == sh.stop.early
    ensures KeepsShared(c, sh, sh.SetErr()) && sh.SetErr().stop.early == sh.stop.early
  {
  }

  lemma SkipReported(c: Config, sh: Shared, h: History)
    requires Reported(c, sh)
    ensures KeepsShared(c, sh, sh.(report := sh.report.SkipStatError()))
    ensures KeepsShared(c, sh, sh.(report := sh.report.SkipExtension()))
    ensures KeepsShared(c, sh, sh.(report := sh.report.SkipPattern(), history := h))
  {
  }

  lemma PickReported(c: Config, sh: Shared, path: Path, node: Node)
    requires Reported(c, sh)
    ensures KeepsShared(c, sh, FileTurn(c, sh, Limit, path, node, false).1)
  {
  }

  lemma FileTurnReported(c: Config, sh: Shared, stage: Stage, path: Path, node: Node, visitFails: bool)
    requires stage != Finish && Reported(c, sh)
    ensures KeepsShared(c, sh, FileTurn(c, sh, stage, path, node, visitFails).1)
    ensures FileTurn(c, sh, stage, path, node, visitFails).1.stop.early == sh.stop.early
    ensures FileTurn(c, sh, stage, path, node, visitFails).1.folderWG == sh.folderWG
  {
    var h := FileTurn(c, sh, stage, path, node, visitFails).1.history;
    match stage
    case Check =>
    case Stat => SkipReported(c, sh, h);
    case Filter => SkipReported(c, sh, h);
    case Limit => PickReported(c, sh, path, node);
    case Mark => StopReported(c, sh, h);
    case Visit =>
    case Failing => StopReported(c, sh, h);
  }

  lemma CheckTurnMoves(c: Config, m: Metric, sh: Shared, stage: Stage, path: Path, node: Node, visitFails: bool,
    before: nat, after: nat, total: nat)
    requires stage == Check && Reported(c, sh)
    requires var (next, _) := FileTurn(c, sh, stage, path, node, visitFails);
      after + FileWorkerWork(c, m, Held(stage, path, node)) == before + FileWorkerWork(c, m, Held(next, path, node))
    ensures Moves(m, sh, before, FileTurn(c, sh, stage, path, node, visitFails).1, after, total)
  {
  }

  /** A file is seen, or could not be examined. */
  lemma SeenMoves(m: Metric, sh: Shared, before: nat, after: nat, total: nat)
    requires before + One(m.Undecided?) == after + One(m.Seen?) + m.Fuel(1)
    ensures Moves(m, sh, before, sh.(report := sh.report.(seen := sh.report.seen + 1)), after, total)
  {
  }

  lemma NotExaminedMoves(m: Metric, sh: Shared, before: nat, after: nat, total: nat)
    requires before == after + Skip(m, StatError) + m.Fuel(5)
    ensures Moves(m, sh, before, sh.(report := sh.report.SkipStatError()), after, total)
  {
  }

  lemma StatTurnMoves(c: Config, m: Metric, sh: Shared, stage: Stage, path: Path, node: Node, visitFails: bool,
    before: nat, after: nat, total: nat)
    requires stage == Stat && Reported(c, sh)
    requires var (next, _) := FileTurn(c, sh, stage, path, node, visitFails);
      after + FileWorkerWork(c, m, Held(stage, path, node)) == before + FileWorkerWork(c, m, Held(next, path, node))
    ensures Moves(m, sh, before, FileTurn(c, sh, stage, path, node, visitFails).1, after, total)
  {
    hide Moves;
    if node.File? && node.statOk {
      SeenMoves(m, sh, before, after, total);
    } else {
      NotExaminedMoves(m, sh, before, after, total);
    }
  }

  /** A file is skipped for its extension, or for a pattern. */
  lemma SkipFileMoves(m: Metric, sh: Shared, byPattern: bool, before: nat, after: nat, total: nat)
    requires before == after + m.Fuel(4) + One(m.Undecided?) + Skip(m, if byPattern then Pattern else Extension)
    ensures
      var r, h := sh.report, sh.history;
      Moves(m, sh, before,
            if byPattern then sh.(report := r.SkipPattern(), history := h.(patternFiles := h.patternFiles + 1))
            else sh.(report := r.SkipExtension()), after, total)
  {
  }

  lemma FilterTurnMoves(c: Config, m: Metric, sh: Shared, stage: Stage, path: Path, node: Node, visitFails: bool,
    before: nat, after: nat, total: nat)
    requires stage == Filter && Reported(c, sh)
    requires var (next, _) := FileTurn(c, sh, stage, path, node, visitFails);
      after + FileWorkerWork(c, m, Held(stage, path, node)) == before + FileWorkerWork(c, m, Held(next, path, node))
    ensures Moves(m, sh, before, FileTurn(c, sh, stage, path, node, visitFails).1, after, total)
  {
    hide Moves;
    if !c.extensionAllowed(path) || c.excludedFile(path) {
      SkipFileMoves(m, sh, c.extensionAllowed(path), before, after, total);
    } else {
      StillMoves(m, sh, before, after, total, 1);
    }
  }

  lemma LimitTurnMoves(c: Config, m: Metric, sh: Shared, stage: Stage, path: Path, node: Node, visitFails: bool,
    before: nat, after: nat, total: nat)
    requires stage in {Limit, Mark} && Reported(c, sh)
    requires var (next, _) := FileTurn(c, sh, stage, path, node, visitFails);
      after + FileWorkerWork(c, m, Held(stage, path, node)) == before + FileWorkerWork(c, m, Held(next, path, node))
    ensures Moves(m, sh, before, FileTurn(c, sh, stage, path, node, visitFails).1, after, total)
  {
  }

  lemma VisitTurnMoves(c: Config, m: Metric, sh: Shared, stage: Stage, path: Path, node: Node, visitFails: bool,
    before: nat, after: nat, total: nat)
    requires stage in {Visit, Failing} && Reported(c, sh)
    requires var (next, _) := FileTurn(c, sh, stage, path, node, visitFails);
      after + FileWorkerWork(c, m, Held(stage, path, node)) == before + FileWorkerWork(c, m, Held(next, path, node))
    ensures Moves(m, sh, before, FileTurn(c, sh, stage, path, node, visitFails).1, after, total)
  {
  }

  // Folders.

  /** Work of the future adds to counters and weight only. */
  lemma {:induction false} NoCount(c: Config, m: Metric, path: Path, node: Node)
    requires !m.Counter() && !m.Weight?
    ensures NodeCount(c, m, path, node) == 0 && OfferCount(c, m, path, node) == 0
    decreases node, 1
  {
    if node.Folder? {
      NoCounts(c, m, path, node.entries);
    }
  }

  lemma {:induction false} NoCounts(c: Config, m: Metric, parent: Path, entries: seq<Entry>)
    requires !m.Counter() && !m.Weight?
    ensures EntriesCount(c, m, parent, entries) == 0
    decreases entries, 0
  {
    if entries != [] {
      NoCount(c, m, parent + entries[0].name, entries[0].node);
      NoCounts(c, m, parent, entries[1..]);
    }
  }

  /** Once the walk is disturbed, work of the future may be dropped. */
  lemma DropMoves(m: Metric, sh: Shared, work: nat, dropped: nat, total: nat)
    requires Balanced(m, sh, work, total) && dropped <= work
    requires !Undisturbed(sh.stop) && (!m.Counter() && !m.Weight? ==> dropped == 0)
    ensures Balanced(m, sh, work - dropped, total)
  {
  }

  lemma EnterTurnMoves(c: Config, m: Metric, sh: Shared, path: Path, node: Node, before: nat, after: nat, total: nat)
    requires Reported(c, sh)
    requires after + FrameWork(c, m, Enter(path, node))
          == before + FrameWork(c, m, if sh.stop.limitReached then Exit(false) else Scan(path, node))
    ensures Moves(m, sh, before, sh, after, total)
  {
    if !m.Counter() && !m.Weight? {
      NoCount(c, m, path, node);
    }
  }

  /** A turn that changes nothing shared only has to pay its fuel. */
  lemma StillMoves(m: Metric, sh: Shared, before: nat, after: nat, total: nat, fuel: nat)
    requires before == after + m.Fuel(fuel) && fuel > 0
    ensures Moves(m, sh, before, sh, after, total)
  {
  }

  /** The report after a folder or a symlink is skipped. */
  function SkippedOnce(r: Report, why: Reason): Report {
    match why
    case Pattern => r.SkipPattern()
    case Symlink => r.SkipSymlink()
    case _ => r.SkipFolderError()
  }

  lemma SkipMoves(m: Metric, sh: Shared, why: Reason, before: nat, after: nat, total: nat, fuel: nat)
    requires why in {Pattern, Symlink, FolderError} && before == after + Skip(m, why) + m.Fuel(fuel) && fuel > 0
    ensures Moves(m, sh, before, sh.(report := SkippedOnce(sh.report, why)), after, total)
  {
  }

  lemma AddFilesMoves(m: Metric, sh: Shared, before: nat, after: nat, total: nat, fuel: nat)
    requires before + One(m.Files?) == after + m.Fuel(fuel) && fuel > 0
    ensures Moves(m, sh, before, sh.AddFiles(1), after, total)
  {
  }

  lemma ScanTurnMoves(c: Config, m: Metric, sh: Shared, path: Path, node: Node, before: nat, after: nat, total: nat)
    requires Reported(c, sh)
    requires after + FrameWork(c, m, Scan(path, node)) == before + FrameWork(c, m, ScanTurn(c, sh, path, node).0)
    ensures Moves(m, sh, before, ScanTurn(c, sh, path, node).1, after, total)
  {
    var (next, sh') := ScanTurn(c, sh, path, node);
    if next.Exit? {
      SkipMoves(m, sh, if c.Excluded(path) then Pattern else FolderError, before, after, total, 13);
    } else if node.File? {
      assert EntriesCount(c, m, path, []) == 0;
      AddFilesMoves(m, sh, before, after, total, 1);
    }
  }

  lemma {:induction false} NextEntry(c: Config, m: Metric, k: Cont)
    requires k.rest != []
    ensures EntriesCount(c, m, k.parent, k.rest)
      == m.Fuel(20) + EntryCount(c, m, k.parent + k.rest[0].name, k.rest[0].node)
        + EntriesCount(c, m, k.parent, k.rest[1..])
  {
  }

  /** A symlink or an excluded folder among the entries. */
  lemma SkipEntryMoves(c: Config, m: Metric, sh: Shared, k: Cont, before: nat, after: nat, total: nat)
    requires k.rest != [] && !sh.stop.limitReached
    requires k.rest[0].node.Link? || (k.rest[0].node.Folder? && c.Excluded(k.parent + k.rest[0].name))
    requires after + FrameWork(c, m, Loop(k)) == before + FrameWork(c, m, LoopTurn(c, sh, k).0)
    ensures Moves(m, sh, before, LoopTurn(c, sh, k).1, after, total)
  {
    NextEntry(c, m, k);
    var why := if k.rest[0].node.Link? then Symlink else Pattern;
    assert EntryCount(c, m, k.parent + k.rest[0].name, k.rest[0].node) == Skip(m, why);
    SkipMoves(m, sh, why, before, after, total, 20);
  }

  lemma EntryTurnMoves(c: Config, m: Metric, sh: Shared, k: Cont, before: nat, after: nat, total: nat)
    requires k.rest != [] && !sh.stop.limitReached
    requires after + FrameWork(c, m, Loop(k)) == before + FrameWork(c, m, LoopTurn(c, sh, k).0)
    ensures Moves(m, sh, before, LoopTurn(c, sh, k).1, after, total)
  {
    var path, node := k.parent + k.rest[0].name, k.rest[0].node;
    NextEntry(c, m, k);
    if node.File? {
      AddFilesMoves(m, sh, before, after, total, 9);
    } else if node.Link? || c.Excluded(path) {
      SkipEntryMoves(c, m, sh, k, before, after, total);
    } else {
      StillMoves(m, sh, before, after, total, 1);
    }
  }

  lemma LoopTurnMoves(c: Config, m: Metric, sh: Shared, k: Cont, before: nat, after: nat, total: nat)
    requires Reported(c, sh)
    requires after + FrameWork(c, m, Loop(k)) == before + FrameWork(c, m, LoopTurn(c, sh, k).0)
    ensures Moves(m, sh, before, LoopTurn(c, sh, k).1, after, total)
  {
    if k.rest == [] {
      StillMoves(m, sh, before, after, total, 1);
    } else if sh.stop.limitReached {
      if !m.Counter() && !m.Weight? {
        NoCounts(c, m, k.parent, k.rest);
      }
    } else {
      EntryTurnMoves(c, m, sh, k, before, after, total);
    }
  }

  // enqueueFolder.

  /** The work a folder under offer has turned into. */
  function OfferedWork(c: Config, m: Metric, offered: Offered, path: Path, node: Node): nat {
    match offered
    case Settled => 0
    case Sent => TaskWork(c, m, Task(path, node))
    case Within(phase) => OfferWork(c, m, phase, path, node)
    case Inline => FrameWork(c, m, Enter(path, node))
    case Refused => 0
  }

  /** A folder is counted as queued, and reserved in the WaitGroup. */
  lemma QueueMoves(m: Metric, sh: Shared, before: nat, after: nat, total: nat)
    requires before + One(m.Folders?) == after + One(m.Queued?) + m.Fuel(1)
    ensures Moves(m, sh, before, sh.AddFolders(1).(report := sh.report.(queued := sh.report.queued + 1)), after, total)
  {
  }

  lemma ReserveMoves(c: Config, m: Metric, sh: Shared, path: Path, node: Node, before: nat, after: nat, total: nat)
    requires Reported(c, sh)
    requires after + OfferWork(c, m, Reserve, path, node)
          == before + OfferedWork(c, m, OfferTurn(c, sh, true, Reserve, path).0, path, node)
    ensures Moves(m, sh, before, OfferTurn(c, sh, true, Reserve, path).1, after, total)
  {
    hide Moves;
    if c.Excluded(path) {
      SkipMoves(m, sh, Pattern, before, after, total, 19);
    } else if !sh.stop.limitReached {
      QueueMoves(m, sh, before, after, total);
    } else {
      GivenUpMoves(c, m, sh, path, node, before, after, total);
    }
  }

  /** A folder that is not even queued any more. */
  lemma GivenUpMoves(c: Config, m: Metric, sh: Shared, path: Path, node: Node, before: nat, after: nat, total: nat)
    requires !Undisturbed(sh.stop) && before == after + m.Fuel(19) + OfferCount(c, m, path, node)
    ensures Moves(m, sh, before, sh, after, total)
  {
    if !m.Counter() && !m.Weight? {
      NoCount(c, m, path, node);
    }
    if Balanced(m, sh, before, total) {
      DropMoves(m, sh, before, before - after, total);
    }
  }

  lemma ReservedMoves(c: Config, m: Metric, sh: Shared, path: Path, node: Node, before: nat, after: nat, total: nat)
    requires Reported(c, sh)
    requires after + OfferWork(c, m, Reserved, path, node)
          == before + OfferedWork(c, m, OfferTurn(c, sh, true, Reserved, path).0, path, node)
    ensures Moves(m, sh, before, OfferTurn(c, sh, true, Reserved, path).1, after, total)
  {
    if sh.stop.cancelled && !m.Counter() && !m.Weight? {
      NoCount(c, m, path, node);
    }
  }

  lemma OfferTurnMoves(c: Config, m: Metric, sh: Shared, room: bool, phase: Phase, path: Path, node: Node,
                       before: nat, after: nat, total: nat)
    requires Reported(c, sh)
    requires after + OfferWork(c, m, phase, path, node)
          == before + OfferedWork(c, m, OfferTurn(c, sh, room, phase, path).0, path, node)
    ensures Moves(m, sh, before, OfferTurn(c, sh, room, phase, path).1, after, total)
  {
    match phase
    case Reserve => ReserveMoves(c, m, sh, path, node, before, after, total);
    case Reserved => ReservedMoves(c, m, sh, path, node, before, after, total);
    case Offer => StillMoves(m, sh, before, after, total, if room then 1 else 2);
  }

  lemma OfferTurnReported(c: Config, sh: Shared, room: bool, phase: Phase, path: Path)
    requires Reported(c, sh)
    ensures KeepsShared(c, sh, OfferTurn(c, sh, room, phase, path).1)
    ensures OfferTurn(c, sh, room, phase, path).1.stop == sh.stop
    ensures OfferTurn(c, sh, room, phase, path).0 == Sent ==> room
    ensures OfferTurn(c, sh, room, phase, path).0 == Refused ==> !Undisturbed(sh.stop)
  {
  }

  lemma EnqueueTurnMoves(c: Config, m: Metric, sh: Shared, room: bool, k: Cont, phase: Phase, path: Path, node: Node,
                         before: nat, after: nat, total: nat)
    requires Reported(c, sh)
    requires var offered := OfferTurn(c, sh, room, phase, path).0;
      after + ContWork(c, m, k) + OfferWork(c, m, phase, path, node)
      == before + if offered == Refused then FrameWork(c, m, Exit(true))
                  else ContWork(c, m, k) + OfferedWork(c, m, offered, path, node)
    ensures Moves(m, sh, before, OfferTurn(c, sh, room, phase, path).1, after, total)
  {
    var (offered, sh') := OfferTurn(c, sh, room, phase, path);
    if offered == Refused {
      OfferTurnReported(c, sh, room, phase, path);
      NoDropIn(c, m, k);
      var dropped := ContWork(c, m, k) - FrameWork(c, m, Exit(true));
      OfferTurnMoves(c, m, sh, room, phase, path, node, before, after + dropped, total);
      if Balanced(m, sh, before, total) {
        DropMoves(m, sh', after + dropped, dropped, total);
      }
    } else {
      OfferTurnMoves(c, m, sh, room, phase, path, node, before, after, total);
    }
  }

  /** Leaving a loop early gives up counters and weight only. */
  lemma NoDropIn(c: Config, m: Metric, k: Cont)
    ensures ContWork(c, m, k) >= FrameWork(c, m, Exit(true))
    ensures !m.Counter() && !m.Weight? ==> ContWork(c, m, k) == FrameWork(c, m, Exit(true))
  {
    if !m.Counter() && !m.Weight? {
      NoCounts(c, m, k.parent, k.rest);
    }
  }

  lemma SendTurnMoves(c: Config, m: Metric, sh: Shared, room: bool, preferCancel: bool, k: Cont, path: Path, node: Node,
                      callers: seq<Cont>, before: nat, after: nat, total: nat)
    requires Reported(c, sh)
    requires SendTurn(sh, room, preferCancel, k, path, node, callers).Go?
    requires after + FrameWork(c, m, SendFile(k, path, node))
          == before + (if SendTurn(sh, room, preferCancel, k, path, node, callers).files == []
                       then FrameWork(c, m, Exit(true))
                       else ContWork(c, m, k) + FileWork(c, m, Task(path, node)))
    ensures Moves(m, sh, before, SendTurn(sh, room, preferCancel, k, path, node, callers).sh, after, total)
  {
    NoDropIn(c, m, k);
  }

  lemma ExitTurnMoves(c: Config, m: Metric, sh: Shared, caller: bool, failed: bool, callers: seq<Cont>,
                      before: nat, after: nat, total: nat)
    requires Reported(c, sh) && (failed ==> !Undisturbed(sh.stop))
    requires ExitTurn(sh, caller, failed, callers).Go?
    requires after + FrameWork(c, m, Exit(failed)) + (if callers == [] then 0 else ContWork(c, m, callers[0]))
          == before + (if callers == [] then 0
                       else FrameWork(c, m, if failed then Exit(true) else Loop(callers[0])))
    ensures Moves(m, sh, before, ExitTurn(sh, caller, failed, callers).sh, after, total)
  {
    if callers != [] {
      NoDropIn(c, m, callers[0]);
    }
  }

  // A whole turn of a goroutine in processFolder.

  /** A frame fails only when the walk is disturbed. */
  ghost predicate Excused(g: Goroutine, sh: Shared) {
    g.Busy? && g.top == Exit(true) ==> !Undisturbed(sh.stop)
  }

  lemma ScanTurnReported(c: Config, sh: Shared, path: Path, node: Node)
    requires Reported(c, sh)
    ensures var (next, sh') := ScanTurn(c, sh, path, node);
      KeepsShared(c, sh, sh') && sh'.stop == sh.stop && next != Exit(true)
  {
  }

  lemma LoopTurnReported(c: Config, sh: Shared, k: Cont)
    requires Reported(c, sh)
    ensures var (next, sh') := LoopTurn(c, sh, k);
      KeepsShared(c, sh, sh') && sh'.stop == sh.stop && next != Exit(true)
  {
  }

  /** What a turn of processFolder may do to the shared state, and what it leaves its goroutine with. */
  ghost predicate TurnReported(c: Config, sh: Shared, folderRoom: bool, fileRoom: bool, caller: bool, turn: Turn)
    requires turn.Go?
  {
    && KeepsShared(c, sh, turn.sh) && Excused(turn.next, turn.sh)
    && (turn.sh.stop.early != sh.stop.early ==> caller && turn.next == Idle && turn.sh.stop.early)
    && (turn.folders != [] ==> folderRoom) && |turn.folders| <= 1
    && (turn.files != [] ==> fileRoom) && |turn.files| <= 1
  }

  lemma EnqueueTurnReported(c: Config, sh: Shared, room: bool, fileRoom: bool, caller: bool, k: Cont, phase: Phase,
                            path: Path, node: Node, callers: seq<Cont>)
    requires Reported(c, sh)
    ensures TurnReported(c, sh, room, fileRoom, caller,
      EnqueueTurn(OfferTurn(c, sh, room, phase, path), k, path, node, callers))
  {
    OfferTurnReported(c, sh, room, phase, path);
  }

  lemma SendTurnReported(c: Config, sh: Shared, folderRoom: bool, room: bool, caller: bool, preferCancel: bool, k: Cont,
                         path: Path, node: Node, callers: seq<Cont>)
    requires Reported(c, sh) && SendTurn(sh, room, preferCancel, k, path, node, callers).Go?
    ensures TurnReported(c, sh, folderRoom, room, caller, SendTurn(sh, room, preferCancel, k, path, node, callers))
  {
  }

  lemma ExitTurnReported(c: Config, sh: Shared, folderRoom: bool, fileRoom: bool, caller: bool, failed: bool,
                         callers: seq<Cont>)
    requires Reported(c, sh) && (failed ==> !Undisturbed(sh.stop)) && ExitTurn(sh, caller, failed, callers).Go?
    ensures TurnReported(c, sh, folderRoom, fileRoom, caller, ExitTurn(sh, caller, failed, callers))
  {
  }

  lemma FrameTurnReported(c: Config, sh: Shared, folderRoom: bool, fileRoom: bool, caller: bool, preferCancel: bool,
                          top: Frame, callers: seq<Cont>)
    requires Reported(c, sh) && Excused(Busy(top, callers), sh)
    requires FrameTurn(c, sh, folderRoom, fileRoom, caller, preferCancel, top, callers).Go?
    ensures TurnReported(c, sh, folderRoom, fileRoom, caller,
      FrameTurn(c, sh, folderRoom, fileRoom, caller, preferCancel, top, callers))
  {
    match top
    case Enter(_, _) =>
    case Scan(path, node) => ScanTurnReported(c, sh, path, node);
    case Loop(k) => LoopTurnReported(c, sh, k);
    case Enqueue(k, phase, path, node) =>
      EnqueueTurnReported(c, sh, folderRoom, fileRoom, caller, k, phase, path, node, callers);
    case SendFile(k, path, node) =>
      SendTurnReported(c, sh, folderRoom, fileRoom, caller, preferCancel, k, path, node, callers);
    case Exit(failed) => ExitTurnReported(c, sh, folderRoom, fileRoom, caller, failed, callers);
  }

  lemma SumOne<T>(work: T -> nat, xs: seq<T>, x: T)
    ensures Sum(work, [x] + xs) == work(x) + Sum(work, xs)
    ensures Sum(work, [x]) == work(x)
  {
    assert ([x] + xs)[1..] == xs;
  }

  function TurnWork(c: Config, m: Metric, turn: Turn): nat
    requires turn.Go?
  {
    GoroutineWork(c, m, turn.next) + Sum(OfTask(c, m), turn.folders) + Sum(OfFile(c, m), turn.files)
  }

  lemma EnterFrameMoves(c: Config, m: Metric, sh: Shared, folderRoom: bool, fileRoom: bool, caller: bool,
                        preferCancel: bool, top: Frame, callers: seq<Cont>, turn: Turn, before: nat, after: nat,
                        total: nat)
    requires Reported(c, sh) && Excused(Busy(top, callers), sh)
    requires turn == FrameTurn(c, sh, folderRoom, fileRoom, caller, preferCancel, top, callers) && turn.Go?
      && top.Enter?
    requires after + GoroutineWork(c, m, Busy(top, callers)) == before + TurnWork(c, m, turn)
    ensures Moves(m, sh, before, turn.sh, after, total)
  {
    EnterTurnMoves(c, m, sh, top.path, top.node, before, after, total);
  }

  lemma ScanFrameMoves(c: Config, m: Metric, sh: Shared, folderRoom: bool, fileRoom: bool, caller: bool,
                       preferCancel: bool, top: Frame, callers: seq<Cont>, turn: Turn, before: nat, after: nat,
                       total: nat)
    requires Reported(c, sh) && Excused(Busy(top, callers), sh)
    requires turn == FrameTurn(c, sh, folderRoom, fileRoom, caller, preferCancel, top, callers) && turn.Go? && top.Scan?
    requires after + GoroutineWork(c, m, Busy(top, callers)) == before + TurnWork(c, m, turn)
    ensures Moves(m, sh, before, turn.sh, after, total)
  {
    ScanTurnMoves(c, m, sh, top.path, top.node, before, after, total);
  }

  lemma LoopFrameMoves(c: Config, m: Metric, sh: Shared, folderRoom: bool, fileRoom: bool, caller: bool,
                       preferCancel: bool, top: Frame, callers: seq<Cont>, turn: Turn, before: nat, after: nat,
                       total: nat)
    requires Reported(c, sh) && Excused(Busy(top, callers), sh)
    requires turn == FrameTurn(c, sh, folderRoom, fileRoom, caller, preferCancel, top, callers) && turn.Go? && top.Loop?
    requires after + GoroutineWork(c, m, Busy(top, callers)) == before + TurnWork(c, m, turn)
    ensures Moves(m, sh, before, turn.sh, after, total)
  {
    LoopTurnMoves(c, m, sh, top.k, before, after, total);
  }

  /** The work an enqueueFolder turn leaves its goroutine with. */
  lemma EnqueueTurnWork(c: Config, m: Metric, offered: (Offered, Shared), k: Cont, path: Path, node: Node,
                        callers: seq<Cont>)
    ensures TurnWork(c, m, EnqueueTurn(offered, k, path, node, callers))
      == Sum(OfCont(c, m), callers)
         + if offered.0 == Refused then FrameWork(c, m, Exit(true))
           else ContWork(c, m, k) + OfferedWork(c, m, offered.0, path, node)
  {
    hide OfferWork, NodeCount;
    match offered.0
    case Inline => CalledWork(c, m, Enter(path, node), k, callers);
    case Sent => SentWork(c, m, Busy(Loop(k), callers), offered.1, Task(path, node));
    case Within(phase) => WithinWork(c, m, k, phase, path, node);
    case _ =>
  }

  lemma WithinWork(c: Config, m: Metric, k: Cont, phase: Phase, path: Path, node: Node)
    ensures FrameWork(c, m, Enqueue(k, phase, path, node)) == ContWork(c, m, k) + OfferWork(c, m, phase, path, node)
  {
  }

  lemma CalledWork(c: Config, m: Metric, top: Frame, k: Cont, callers: seq<Cont>)
    ensures GoroutineWork(c, m, Busy(top, [k] + callers))
      == FrameWork(c, m, top) + ContWork(c, m, k) + Sum(OfCont(c, m), callers)
  {
    SumOne(OfCont(c, m), callers, k);
  }

  lemma SentWork(c: Config, m: Metric, g: Goroutine, sh: Shared, t: Task)
    ensures TurnWork(c, m, Go(g, sh, [t], [])) == GoroutineWork(c, m, g) + TaskWork(c, m, t)
  {
    SumOne(OfTask(c, m), [], t);
  }

  lemma EnqueueFrameMoves(c: Config, m: Metric, sh: Shared, folderRoom: bool, fileRoom: bool, caller: bool,
                          preferCancel: bool, top: Frame, callers: seq<Cont>, turn: Turn, before: nat, after: nat,
                          total: nat)
    requires Reported(c, sh) && Excused(Busy(top, callers), sh)
    requires turn == FrameTurn(c, sh, folderRoom, fileRoom, caller, preferCancel, top, callers) && turn.Go?
      && top.Enqueue?
    requires after + GoroutineWork(c, m, Busy(top, callers)) == before + TurnWork(c, m, turn)
    ensures Moves(m, sh, before, turn.sh, after, total)
  {
    EnqueueTurnWork(c, m, OfferTurn(c, sh, folderRoom, top.phase, top.path), top.k, top.path, top.node, callers);
    EnqueueTurnMoves(c, m, sh, folderRoom, top.k, top.phase, top.path, top.node, before, after, total);
  }

  lemma SendFrameMoves(c: Config, m: Metric, sh: Shared, folderRoom: bool, fileRoom: bool, caller: bool,
                       preferCancel: bool, top: Frame, callers: seq<Cont>, turn: Turn, before: nat, after: nat,
                       total: nat)
    requires Reported(c, sh) && Excused(Busy(top, callers), sh)
    requires turn == FrameTurn(c, sh, folderRoom, fileRoom, caller, preferCancel, top, callers) && turn.Go?
      && top.SendFile?
    requires after + GoroutineWork(c, m, Busy(top, callers)) == before + TurnWork(c, m, turn)
    ensures Moves(m, sh, before, turn.sh, after, total)
  {
    SumOne(OfFile(c, m), [], Task(top.path, top.node));
    SendTurnMoves(c, m, sh, fileRoom, preferCancel, top.k, top.path, top.node, callers, before, after, total);
  }

  lemma ExitFrameMoves(c: Config, m: Metric, sh: Shared, folderRoom: bool, fileRoom: bool, caller: bool,
                       preferCancel: bool, top: Frame, callers: seq<Cont>, turn: Turn, before: nat, after: nat,
                       total: nat)
    requires Reported(c, sh) && Excused(Busy(top, callers), sh)
    requires turn == FrameTurn(c, sh, folderRoom, fileRoom, caller, preferCancel, top, callers) && turn.Go? && top.Exit?
    requires after + GoroutineWork(c, m, Busy(top, callers)) == before + TurnWork(c, m, turn)
    ensures Moves(m, sh, before, turn.sh, after, total)
  {
    ExitTurnMoves(c, m, sh, caller, top.failed, callers, before, after, total);
  }

  lemma FrameTurnMoves(c: Config, m: Metric, sh: Shared, folderRoom: bool, fileRoom: bool, caller: bool,
                       preferCancel: bool, top: Frame, callers: seq<Cont>, turn: Turn, before: nat, after: nat,
                       total: nat)
    requires Reported(c, sh) && Excused(Busy(top, callers), sh)
    requires turn == FrameTurn(c, sh, folderRoom, fileRoom, caller, preferCancel, top, callers) && turn.Go?
    requires after + GoroutineWork(c, m, Busy(top, callers)) == before + TurnWork(c, m, turn)
    ensures Moves(m, sh, before, turn.sh, after, total)
  {
    match top
    case Enter(_, _) =>
      EnterFrameMoves(c, m, sh, folderRoom, fileRoom, caller, preferCancel, top, callers, turn, before, after, total);
    case Scan(_, _) =>
      ScanFrameMoves(c, m, sh, folderRoom, fileRoom, caller, preferCancel, top, callers, turn, before, after, total);
    case Loop(_) =>
      LoopFrameMoves(c, m, sh, folderRoom, fileRoom, caller, preferCancel, top, callers, turn, before, after, total);
    case Enqueue(_, _, _, _) =>
      EnqueueFrameMoves(c, m, sh, folderRoom, fileRoom, caller, preferCancel, top, callers, turn, before, after, total);
    case SendFile(_, _, _) =>
      SendFrameMoves(c, m, sh, folderRoom, fileRoom, caller, preferCancel, top, callers, turn, before, after, total);
    case Exit(_) =>
      ExitFrameMoves(c, m, sh, folderRoom, fileRoom, caller, preferCancel, top, callers, turn, before, after, total);
  }

  // The caller's goroutine.

  lemma {:induction false} NoPrefixCounts(c: Config, m: Metric, prefixes: seq<Entry>)
    requires !m.Counter() && !m.Weight?
    ensures PrefixesCount(c, m, prefixes) == 0
  {
    if prefixes != [] {
      NoCount(c, m, prefixes[0].name, prefixes[0].node);
      NoPrefixCounts(c, m, prefixes[1..]);
    }
  }

  lemma CallerTurnReported(c: Config, sh: Shared, room: bool, main: Main)
    requires Reported(c, sh) && CallerTurn(c, sh, room, main).Turned?
    requires (sh.stop.early <==> main == Returned(true))
      && (sh.closed <==> main == WaitFiles || main == Returned(false))
    ensures var turn := CallerTurn(c, sh, room, main);
      && Reported(c, turn.sh) && turn.sh.stop.outer == sh.stop.outer
      && (!Undisturbed(sh.stop) ==> !Undisturbed(turn.sh.stop))
      && (turn.sh.stop.early <==> turn.main == Returned(true))
      && (turn.sh.closed <==> turn.main == WaitFiles || turn.main == Returned(false))
      && (turn.next.Busy? ==> turn.main.Next?) && Excused(turn.next, turn.sh)
      && (turn.folders != [] ==> room) && |turn.folders| <= 1
      && (turn.sh.closed ==> turn.sh.folderWG == if sh.closed then sh.folderWG else 0)
      && (turn.main == Returned(false) ==> turn.sh.fileWG == 0)
  {
    if main.Offering? {
      OfferTurnReported(c, sh, room, main.phase, main.path);
    }
  }

  function CallerWork(c: Config, m: Metric, turn: MainTurn): nat
    requires turn.Turned?
  {
    MainWork(c, m, turn.main) + GoroutineWork(c, m, turn.next) + Sum(OfTask(c, m), turn.folders)
  }

  lemma {:induction false} NextPrefix(c: Config, m: Metric, rest: seq<Entry>)
    requires rest != []
    ensures PrefixesCount(c, m, rest)
      == m.Fuel(20)
         + (if rest[0].name == [] then NodeCount(c, m, [], rest[0].node)
            else OfferCount(c, m, rest[0].name, rest[0].node))
         + PrefixesCount(c, m, rest[1..])
  {
  }

  /** The walk of the root by the caller itself begins. */
  lemma AddFolderMoves(m: Metric, sh: Shared, before: nat, after: nat, total: nat, fuel: nat)
    requires before + One(m.Folders?) == after + m.Fuel(fuel) && fuel > 0
    ensures Moves(m, sh, before, sh.AddFolders(1), after, total)
  {
  }

  lemma NextTurnMoves(c: Config, m: Metric, sh: Shared, room: bool, rest: seq<Entry>, turn: MainTurn,
                      before: nat, after: nat, total: nat)
    requires Reported(c, sh) && turn == CallerTurn(c, sh, room, Next(rest)) && rest != []
    requires after + MainWork(c, m, Next(rest)) == before + CallerWork(c, m, turn)
    ensures Moves(m, sh, before, turn.sh, after, total)
  {
    NextPrefix(c, m, rest);
    if rest[0].name == [] {
      AddFolderMoves(m, sh, before, after, total, 5);
    } else {
      StillMoves(m, sh, before, after, total, 1);
    }
  }

  lemma LastTurnMoves(c: Config, m: Metric, sh: Shared, room: bool, turn: MainTurn, before: nat, after: nat, total: nat)
    requires Reported(c, sh) && turn == CallerTurn(c, sh, room, Next([]))
    requires after + MainWork(c, m, Next([])) == before + CallerWork(c, m, turn)
    ensures Moves(m, sh, before, turn.sh, after, total)
  {
  }

  /** The work a prefix under offer leaves the caller with. */
  lemma PrefixTurnWork(c: Config, m: Metric, offered: (Offered, Shared), rest: seq<Entry>, path: Path, node: Node)
    ensures CallerWork(c, m, PrefixTurn(offered, rest, path, node))
      == if offered.0 == Refused then 0 else MainWork(c, m, Next(rest)) + OfferedWork(c, m, offered.0, path, node)
  {
    SumOne(OfTask(c, m), [], Task(path, node));
  }

  /** An error from enqueueFolder ends the call: what was left of the prefixes is dropped. */
  lemma RefusedTurnMoves(c: Config, m: Metric, sh: Shared, room: bool, main: Main, before: nat, after: nat, total: nat)
    requires Reported(c, sh) && main.Offering? && OfferTurn(c, sh, room, main.phase, main.path).0 == Refused
    requires after + MainWork(c, m, main) == before
    ensures Moves(m, sh, before, OfferTurn(c, sh, room, main.phase, main.path).1.ReturnEarly(), after, total)
  {
    var sh' := OfferTurn(c, sh, room, main.phase, main.path).1;
    OfferTurnReported(c, sh, room, main.phase, main.path);
    var dropped := MainWork(c, m, Next(main.rest));
    if !m.Counter() && !m.Weight? {
      NoPrefixCounts(c, m, main.rest);
    }
    OfferTurnMoves(c, m, sh, room, main.phase, main.path, main.node, before, after + dropped, total);
    if Balanced(m, sh, before, total) {
      DropMoves(m, sh', after + dropped, dropped, total);
    }
  }

  lemma OfferingTurnMoves(c: Config, m: Metric, sh: Shared, room: bool, main: Main, turn: MainTurn,
                          before: nat, after: nat, total: nat)
    requires Reported(c, sh) && main.Offering? && turn == CallerTurn(c, sh, room, main) && turn.Turned?
    requires after + MainWork(c, m, main) == before + CallerWork(c, m, turn)
    ensures Moves(m, sh, before, turn.sh, after, total)
  {
    var offer := OfferTurn(c, sh, room, main.phase, main.path);
    PrefixTurnWork(c, m, offer, main.rest, main.path, main.node);
    if offer.0 == Refused {
      RefusedTurnMoves(c, m, sh, room, main, before, after, total);
    } else {
      OfferTurnMoves(c, m, sh, room, main.phase, main.path, main.node, before, after, total);
    }
  }

  lemma CallerTurnMoves(c: Config, m: Metric, sh: Shared, room: bool, main: Main, turn: MainTurn,
                        before: nat, after: nat, total: nat)
    requires Reported(c, sh) && turn == CallerTurn(c, sh, room, main) && turn.Turned?
    requires after + MainWork(c, m, main) == before + CallerWork(c, m, turn)
    ensures Moves(m, sh, before, turn.sh, after, total)
  {
    match main
    case Next(rest) =>
      if rest == [] {
        LastTurnMoves(c, m, sh, room, turn, before, after, total);
      } else {
        NextTurnMoves(c, m, sh, room, rest, turn, before, after, total);
      }
    case Offering(_, _, _, _) =>
      OfferingTurnMoves(c, m, sh, room, main, turn, before, after, total);
    case _ =>
  }
}
