/**
 How the call returns. An early return leaves the channels open, so the workers it started wait on
 them for ever, and files may still be visited after it.
 */
module WalkReturn {
  import opened WalkTree
  import opened WalkMachine
  import opened WalkWork
  import opened WalkInvariant
  import opened WalkSteps
  import opened WalkTheorems
  import opened WalkRuns

  /** A callback error, or the caller's context cancelled. */
  predicate Disturbed(stop: Stop) { stop.failed || stop.outer }

  /** An early return has a cause, and a prefix that does not normalise allows no other. */
  ghost predicate Caused(c: Config, s: State)
    requires s.goroutines != []
  {
    && (s.sh.stop.early ==> Disturbed(s.sh.stop) || c.badPrefix)
    && (s.goroutines[0].Busy? && s.goroutines[0].top == Exit(true) ==> Disturbed(s.sh.stop))
    && (c.badPrefix ==> s.main.Next? || s.main.Offering? || s.main == Returned(true))
  }

  lemma FrameCaused(c: Config, sh: Shared, folderRoom: bool, fileRoom: bool, preferCancel: bool, top: Frame,
                    callers: seq<Cont>)
    requires Reported(c, sh) && !sh.stop.early && (top == Exit(true) ==> Disturbed(sh.stop))
    requires FrameTurn(c, sh, folderRoom, fileRoom, true, preferCancel, top, callers).Go?
    ensures var turn := FrameTurn(c, sh, folderRoom, fileRoom, true, preferCancel, top, callers);
      && (Disturbed(sh.stop) ==> Disturbed(turn.sh.stop))
      && (turn.sh.stop.early ==> Disturbed(turn.sh.stop))
      && (turn.next.Busy? && turn.next.top == Exit(true) ==> Disturbed(turn.sh.stop))
  {
  }

  lemma FrameDisturbed(c: Config, sh: Shared, folderRoom: bool, fileRoom: bool, preferCancel: bool, top: Frame,
                       callers: seq<Cont>)
    requires FrameTurn(c, sh, folderRoom, fileRoom, false, preferCancel, top, callers).Go?
    ensures var turn := FrameTurn(c, sh, folderRoom, fileRoom, false, preferCancel, top, callers);
      (Disturbed(sh.stop) ==> Disturbed(turn.sh.stop)) && turn.sh.stop.early == sh.stop.early
  {
  }

  lemma FrameStepCaused(c: Config, s: State, g: nat, preferCancel: bool)
    requires Inv(c, s) && Caused(c, s) && g < |s.goroutines| && s.goroutines[g].Busy?
      && FrameStep(c, s, g, preferCancel).Ok?
    ensures Caused(c, FrameStep(c, s, g, preferCancel).s)
  {
    var top, callers := s.goroutines[g].top, s.goroutines[g].callers;
    var folderRoom, fileRoom := |s.folderQueue| < c.queueDepth, |s.fileQueue| < c.FileQueueDepth();
    if g == 0 {
      FrameCaused(c, s.sh, folderRoom, fileRoom, preferCancel, top, callers);
    } else {
      FrameDisturbed(c, s.sh, folderRoom, fileRoom, preferCancel, top, callers);
    }
  }

  lemma CallerCaused(c: Config, sh: Shared, room: bool, main: Main)
    requires Reported(c, sh) && !sh.stop.early && CallerTurn(c, sh, room, main).Turned?
    ensures var turn := CallerTurn(c, sh, room, main);
      && (Disturbed(sh.stop) ==> Disturbed(turn.sh.stop))
      && (turn.sh.stop.early ==> Disturbed(turn.sh.stop) || c.badPrefix)
      && !(turn.next.Busy? && turn.next.top == Exit(true))
      && (c.badPrefix && (main.Next? || main.Offering?)
          ==> turn.main.Next? || turn.main.Offering? || turn.main == Returned(true))
  {
  }

  lemma MainStepCaused(c: Config, s: State)
    requires Inv(c, s) && Caused(c, s) && s.goroutines[0].Idle? && MainStep(c, s).Ok?
    ensures Caused(c, MainStep(c, s).s)
  {
    CallerCaused(c, s.sh, |s.folderQueue| < c.queueDepth, s.main);
  }

  lemma FileStepCaused(c: Config, s: State, w: nat, visitFails: bool)
    requires s.goroutines != [] && Caused(c, s)
    requires w < |s.fileWorkers| && s.fileWorkers[w].Held? && FileStep(c, s, w, visitFails).Ok?
    ensures Caused(c, FileStep(c, s, w, visitFails).s)
  {
  }

  lemma StepCaused(c: Config, s: State, choice: Choice)
    requires Inv(c, s) && Caused(c, s) && Step(c, s, choice).Ok?
    ensures Step(c, s, choice).s.goroutines != [] && Caused(c, Step(c, s, choice).s)
  {
    match choice
    case CancelParent =>
    case Move(g, preferCancel) =>
      if s.goroutines[g].Busy? {
        FrameStepCaused(c, s, g, preferCancel);
      } else if g == 0 {
        MainStepCaused(c, s);
      }
    case Handle(w, visitFails) =>
      if s.fileWorkers[w].Held? {
        FileStepCaused(c, s, w, visitFails);
      }
  }

  lemma {:induction false} RunCaused(c: Config, s: State, schedule: seq<Choice>, t: State)
    requires Inv(c, s) && Caused(c, s) && Follows(c, s, schedule, t)
    ensures Inv(c, t) && Caused(c, t)
    decreases |schedule|
  {
    if schedule != [] {
      StepKept(c, s, schedule[0]);
      StepCaused(c, s, schedule[0]);
      RunCaused(c, Step(c, s, schedule[0]).s, schedule[1..], t);
    }
  }

  /** When a call returns early: never without a cause, and always when a prefix does not normalise. Left alone by the
      callback and by the caller's context, it returns early exactly if a prefix does not normalise. */
  lemma EarlyReturnHasCause(c: Config, schedule: seq<Choice>, t: State)
    requires c.Valid() && Follows(c, Init(c), schedule, t) && t.main.Returned?
    ensures t.main.early ==> t.sh.stop.outer || t.sh.stop.failed || c.badPrefix
    ensures c.badPrefix ==> t.main.early
    ensures !t.sh.stop.outer && !t.sh.stop.failed ==> (t.main.early <==> c.badPrefix)
  {
    InitInv(c);
    RunCaused(c, Init(c), schedule, t);
  }

  // What an early return leaves behind.

  /** Nothing happens any more but the caller cancelling its context. */
  ghost predicate Still(c: Config, s: State) {
    forall choice :: choice != CancelParent ==> !Step(c, s, choice).Ok?
  }

  /** A walk that has come to rest has handed out all its work, whichever way it returned. */
  lemma StillIsIdle(c: Config, s: State)
    requires c.Valid() && Inv(c, s) && Still(c, s) && s.main.Returned?
    ensures s.folderQueue == [] && s.fileQueue == []
    ensures forall g :: 0 <= g < |s.goroutines| ==> s.goroutines[g].Idle?
    ensures forall w :: 0 <= w < |s.fileWorkers| ==> s.fileWorkers[w].Free?
  {
    forall w: nat | w < |s.fileWorkers| ensures s.fileWorkers[w].Free? {
      assert !Step(c, s, Handle(w, false)).Ok?;
      if s.fileWorkers[w].Held? {
        FileStepKept(c, s, w, false);
      }
    }
    assert !Step(c, s, Handle(0, false)).Ok?;
    forall g: nat | g < |s.goroutines| ensures s.goroutines[g].Idle? {
      assert !Step(c, s, Move(g, false)).Ok?;
      if s.goroutines[g].Busy? {
        FrameStepKept(c, s, g, false);
      }
    }
    assert !Step(c, s, Move(1, false)).Ok?;
  }

  /** Every worker ends once its channel is closed and empty, so the goroutines of a call can end if and only if it
      returned normally: once everything has come to rest the workers are all waiting to receive, from channels that are
      closed exactly in that case, and no later step changes that. */
  lemma WorkersEndExactlyAfterNormalReturn(c: Config, schedule: seq<Choice>, t: State, later: seq<Choice>, u: State)
    requires c.Valid() && Follows(c, Init(c), schedule, t) && t.main.Returned?
    requires Follows(c, t, later, u) && Still(c, u)
    ensures u.main == t.main && (u.sh.closed <==> !t.main.early)
    ensures u.folderQueue == [] && u.fileQueue == []
    ensures forall g :: 0 <= g < |u.goroutines| ==> u.goroutines[g].Idle?
    ensures forall w :: 0 <= w < |u.fileWorkers| ==> u.fileWorkers[w].Free?
  {
    InitInv(c);
    RunKeeps(c, Init(c), schedule, t);
    RunKeeps(c, t, later, u);
    ReturnIsFinal(c, t, later, u);
    StillIsIdle(c, u);
  }

  lemma {:induction false} ReturnIsFinal(c: Config, s: State, schedule: seq<Choice>, t: State)
    requires Inv(c, s) && s.main.Returned? && Follows(c, s, schedule, t)
    ensures t.main == s.main
    decreases |schedule|
  {
    if schedule != [] {
      StepKept(c, s, schedule[0]);
      ReturnedStays(c, s, schedule[0]);
      ReturnIsFinal(c, Step(c, s, schedule[0]).s, schedule[1..], t);
    }
  }

  lemma ReturnedStays(c: Config, s: State, choice: Choice)
    requires Inv(c, s) && s.main.Returned? && Step(c, s, choice).Ok?
    ensures Step(c, s, choice).s.main == s.main
  {
    match choice
    case CancelParent =>
    case Move(g, preferCancel) =>
      if s.goroutines[g].Busy? {
        FrameDisturbed(c, s.sh, |s.folderQueue| < c.queueDepth, |s.fileQueue| < c.FileQueueDepth(), preferCancel,
                       s.goroutines[g].top, s.goroutines[g].callers);
      }
    case Handle(_, _) =>
  }

  // The third cause does it; for the other two see WalkExposed.

  /** A prefix that does not normalise is enough: with no prefix before it the call returns at once, and no worker ever
      moves. */
  lemma BadPrefixReturnsEarly(c: Config) returns (run: seq<Choice>, t: State)
    requires c.Valid() && c.prefixes == [] && c.badPrefix
    ensures Follows(c, Init(c), run, t) && t.main == Returned(true) && Still(c, t) && !t.sh.closed
    ensures !t.sh.stop.outer && !t.sh.stop.failed && t.sh.report.complete
  {
    assert Follows(c, Init(c), [], Init(c));
    Extend(c, Init(c), [], Init(c), Move(0, false));
    run, t := [] + [Move(0, false)], Step(c, Init(c), Move(0, false)).s;
  }

  /** An early return does not end the visits: a file that was queued can still be visited after it. */
  lemma VisitsGoOnAfterReturn(c: Config) returns (run: seq<Choice>, t: State, later: seq<Choice>, u: State)
    requires c.Valid() && |c.prefixes| == 1 && c.badPrefix && c.prefixes[0].name != []
      && !c.Excluded(c.prefixes[0].name)
    requires Wanted(c, c.prefixes[0].name, c.prefixes[0].node)
    ensures Follows(c, Init(c), run, t) && t.main == Returned(true) && t.sh.history.visited == multiset{}
    ensures Follows(c, t, later, u) && u.main == Returned(true) && u.sh.history.visited == multiset{c.prefixes[0].name}
  {
    var s, go, e := Init(c), Move(0, false), c.prefixes[0];
    var s1, more, m;
    run, s1 := QueueOne(c, s, c.prefixes, []);
    assert [] + [Task(e.name, e.node)] == [Task(e.name, e.node)];
    Extend(c, s, run, s1, go);
    run, t := run + [go], Step(c, s1, go).s;
    later, m := SendQueued(c, t, Returned(true), e.name, e.node, EARLY);
    more, u := VisitSent(c, m, e.name, e.node, false);
    Join(c, t, later, m, more, u);
    later := later + more;
  }
}
