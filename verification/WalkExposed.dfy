/** For which configurations the caller's context, or a callback error, can end the call early. */
module WalkExposed {
  import opened WalkTree
  import opened WalkMachine
  import opened WalkRuns

  /** An entry of the root that is sent or offered to a queue. */
  predicate Offered(c: Config, parent: Path, e: Entry) {
    e.node.File? || (e.node.Folder? && !c.Excluded(parent + e.name))
  }

  /** A prefix that the caller itself has to send or offer something for: a folder to queue, or the root with something
      in it. */
  predicate Exposed(c: Config, e: Entry) {
    if e.name != [] then !c.Excluded(e.name)
    else e.node.File? || (e.node.Folder? && e.node.readable && exists x :: x in e.node.entries && Offered(c, [], x))
  }

  // The walk is cancelled, and only the caller moves.

  /** Cancelled by the caller's context or by a recorded error, but not by a limit. */
  predicate GivenUp(stop: Stop) { stop.cancelled && !stop.limitReached && !stop.early }

  ghost predicate Solo(s: State, main: Main, caller: Goroutine, stop: Stop) {
    && s.main == main && |s.goroutines| > 0 && s.goroutines[0] == caller
    && s.sh.folderWG >= (if caller.Busy? then 1 else 0) && !s.sh.closed && s.sh.stop == stop && GivenUp(stop)
  }

  /** The call has returned early, with the channels open. */
  ghost predicate Ended(s: State, stop: Stop) {
    s.main == Returned(true) && !s.sh.closed && s.sh.stop == stop.(early := true)
  }

  /** The loop over the root's entries fails exactly if one of them is offered. */
  lemma {:induction false} RootLoop(c: Config, s: State, main: Main, k: Cont, stop: Stop)
    returns (run: seq<Choice>, t: State, failed: bool)
    requires Solo(s, main, Busy(Loop(k), []), stop)
    ensures Follows(c, s, run, t) && Solo(t, main, Busy(Exit(failed), []), stop)
    ensures failed <==> exists x :: x in k.rest && Offered(c, k.parent, x)
    decreases |k.rest|
  {
    var go := Move(0, true);
    assert Follows(c, s, [], s);
    Extend(c, s, [], s, go);
    run, t := [] + [go], Step(c, s, go).s;
    if k.rest == [] {
      failed := false;
      return;
    }
    assert k.rest == [k.rest[0]] + k.rest[1..];
    var first := k.rest[0];
    if !Offered(c, k.parent, first) {
      var more, u;
      more, u, failed := RootLoop(c, t, main, Cont(k.parent, k.rest[1..]), stop);
      Join(c, s, run, t, more, u);
      run, t := run + more, u;
    } else if first.node.File? {
      Extend(c, s, run, t, go);
      run, t, failed := run + [go], Step(c, t, go).s, true;
    } else {
      Extend(c, s, run, t, go);
      var u := Step(c, t, go).s;
      Extend(c, s, run + [go], u, go);
      run, t, failed := run + [go] + [go], Step(c, u, go).s, true;
    }
  }

  /** The root, up to its scan, and up to the point where its processFolder returns. */
  lemma RootStarts(c: Config, s: State, rest: seq<Entry>, stop: Stop) returns (run: seq<Choice>, t: State)
    requires Solo(s, Next(rest), Idle, stop) && rest != [] && rest[0].name == []
    ensures Follows(c, s, run, t) && Solo(t, Next(rest[1..]), Busy(Scan([], rest[0].node), []), stop)
  {
    var go := Move(0, true);
    assert Follows(c, s, [], s);
    Extend(c, s, [], s, go);
    var m := Step(c, s, go).s;
    Extend(c, s, [] + [go], m, go);
    run, t := [] + [go] + [go], Step(c, m, go).s;
  }

  lemma RootFails(c: Config, s: State, rest: seq<Entry>, stop: Stop) returns (run: seq<Choice>, t: State, failed: bool)
    requires Solo(s, Next(rest), Idle, stop) && rest != [] && rest[0].name == []
    ensures Follows(c, s, run, t) && Solo(t, Next(rest[1..]), Busy(Exit(failed), []), stop)
    ensures failed <==> Exposed(c, rest[0])
  {
    var go, node := Move(0, true), rest[0].node;
    var s2;
    run, s2 := RootStarts(c, s, rest, stop);
    Extend(c, s, run, s2, go);
    var s3 := Step(c, s2, go).s;
    run := run + [go];
    if node.File? {
      Extend(c, s, run, s3, go);
      run, t, failed := run + [go], Step(c, s3, go).s, true;
    } else if node.Folder? && node.readable {
      var more;
      more, t, failed := RootLoop(c, s3, Next(rest[1..]), Cont([], node.entries), stop);
      Join(c, s, run, s3, more, t);
      run := run + more;
    } else {
      t, failed := s3, false;
    }
  }

  /** One prefix: the call returns early, or goes on with the next. */
  lemma OnePrefix(c: Config, s: State, rest: seq<Entry>, stop: Stop) returns (run: seq<Choice>, t: State)
    requires Solo(s, Next(rest), Idle, stop) && rest != []
    ensures Follows(c, s, run, t)
    ensures if Exposed(c, rest[0]) then Ended(t, stop) else Solo(t, Next(rest[1..]), Idle, stop)
  {
    var go := Move(0, true);
    if rest[0].name == [] {
      var m, failed;
      run, m, failed := RootFails(c, s, rest, stop);
      Extend(c, s, run, m, go);
      run, t := run + [go], Step(c, m, go).s;
      return;
    }
    assert Follows(c, s, [], s);
    Extend(c, s, [], s, go);
    var s1 := Step(c, s, go).s;
    Extend(c, s, [] + [go], s1, go);
    var s2 := Step(c, s1, go).s;
    run, t := [] + [go] + [go], s2;
    if Exposed(c, rest[0]) {
      Extend(c, s, run, s2, go);
      run, t := run + [go], Step(c, s2, go).s;
    }
  }

  lemma {:induction false} SomePrefix(c: Config, s: State, rest: seq<Entry>, stop: Stop)
    returns (run: seq<Choice>, t: State)
    requires Solo(s, Next(rest), Idle, stop) && exists e :: e in rest && Exposed(c, e)
    ensures Follows(c, s, run, t) && Ended(t, stop)
    decreases |rest|
  {
    var first, m := OnePrefix(c, s, rest, stop);
    if Exposed(c, rest[0]) {
      return first, m;
    }
    assert rest == [rest[0]] + rest[1..];
    var more;
    more, t := SomePrefix(c, m, rest[1..], stop);
    Join(c, s, first, m, more, t);
    run := first + more;
  }

  /** Outer cancellation can end the call early whenever some prefix is exposed. */
  lemma CancellationReturnsEarly(c: Config) returns (run: seq<Choice>, t: State)
    requires c.Valid() && exists e :: e in c.prefixes && Exposed(c, e)
    ensures Follows(c, Init(c), run, t) && t.main == Returned(true) && !t.sh.closed && !t.sh.stop.failed
  {
    assert Follows(c, Init(c), [], Init(c));
    Extend(c, Init(c), [], Init(c), CancelParent);
    var s := Step(c, Init(c), CancelParent).s;
    var more;
    more, t := SomePrefix(c, s, c.prefixes, CANCELLED);
    Join(c, Init(c), [] + [CancelParent], s, more, t);
    run := [] + [CancelParent] + more;
  }

  // With nothing exposed there is nothing to give up.

  /** A state of a walk in which nothing was ever sent or offered. */
  ghost predicate Dull(c: Config, s: State) {
    && |s.goroutines| > 0 && s.folderQueue == [] && s.fileQueue == []
    && (forall g :: 0 < g < |s.goroutines| ==> s.goroutines[g].Idle?)
    && (forall w :: 0 <= w < |s.fileWorkers| ==> s.fileWorkers[w].Free?)
    && !s.sh.stop.early && !s.sh.stop.failed && DullCaller(c, s.goroutines[0]) && DullMain(c, s.main)
  }

  ghost predicate DullCaller(c: Config, g: Goroutine) {
    g.Busy? ==> g.callers == [] && DullFrame(c, g.top)
  }

  ghost predicate DullFrame(c: Config, top: Frame) {
    match top
    case Enter(path, node) => !Exposed(c, Entry([], node)) && path == []
    case Scan(path, node) => !Exposed(c, Entry([], node)) && path == []
    case Loop(k) => k.parent == [] && forall x :: x in k.rest ==> !Offered(c, [], x)
    case Exit(failed) => !failed
    case _ => false
  }

  ghost predicate DullMain(c: Config, main: Main) {
    match main
    case Next(rest) => forall e :: e in rest ==> !Exposed(c, e)
    case Offering(rest, phase, path, _) =>
      phase == Reserve && c.Excluded(path) && forall e :: e in rest ==> !Exposed(c, e)
    case Returned(early) => !early
    case _ => true
  }

  lemma FrameStaysDull(c: Config, s: State, preferCancel: bool)
    requires Dull(c, s) && s.goroutines[0].Busy? && FrameStep(c, s, 0, preferCancel).Ok?
    ensures Dull(c, FrameStep(c, s, 0, preferCancel).s)
  {
    var top := s.goroutines[0].top;
    if top.Loop? && top.k.rest != [] {
      assert top.k.rest[0] in top.k.rest;
    }
  }

  lemma CallerStaysDull(c: Config, sh: Shared, room: bool, main: Main)
    requires !c.badPrefix && DullMain(c, main) && CallerTurn(c, sh, room, main).Turned?
    ensures var turn := CallerTurn(c, sh, room, main);
      DullMain(c, turn.main) && DullCaller(c, turn.next) && turn.folders == [] && turn.sh.stop == sh.stop
  {
    if main.Next? && main.rest != [] {
      assert main.rest[0] in main.rest;
      assert forall e :: e in main.rest[1..] ==> e in main.rest;
      assert main.rest[0].name == [] ==> main.rest[0] == Entry([], main.rest[0].node);
    }
  }

  lemma MainStaysDull(c: Config, s: State)
    requires !c.badPrefix && Dull(c, s) && s.goroutines[0].Idle? && MainStep(c, s).Ok?
    ensures Dull(c, MainStep(c, s).s)
  {
    CallerStaysDull(c, s.sh, |s.folderQueue| < c.queueDepth, s.main);
  }

  lemma StepStaysDull(c: Config, s: State, choice: Choice)
    requires !c.badPrefix && Dull(c, s) && Step(c, s, choice).Ok?
    ensures Dull(c, Step(c, s, choice).s)
  {
    match choice
    case CancelParent =>
    case Handle(_, _) =>
    case Move(g, preferCancel) =>
      if s.goroutines[g].Busy? {
        FrameStaysDull(c, s, preferCancel);
      } else if g == 0 {
        MainStaysDull(c, s);
      }
  }

  lemma {:induction false} RunStaysDull(c: Config, s: State, schedule: seq<Choice>, t: State)
    requires !c.badPrefix && Dull(c, s) && Follows(c, s, schedule, t)
    ensures Dull(c, t)
    decreases |schedule|
  {
    if schedule != [] {
      StepStaysDull(c, s, schedule[0]);
      RunStaysDull(c, Step(c, s, schedule[0]).s, schedule[1..], t);
    }
  }

  /** With prefixes that all normalise that is the only way: outer cancellation can make the call return early, without
      a callback error, exactly if some prefix is exposed. */
  lemma CancellationEndsExposedWalks(c: Config)
    requires c.Valid() && !c.badPrefix
    ensures (exists run, t :: Follows(c, Init(c), run, t) && t.main == Returned(true) && !t.sh.stop.failed)
       <==> exists e :: e in c.prefixes && Exposed(c, e)
  {
    if exists e :: e in c.prefixes && Exposed(c, e) {
      var run, t := CancellationReturnsEarly(c);
      assert exists run, t :: Follows(c, Init(c), run, t) && t.main == Returned(true) && !t.sh.stop.failed;
    } else {
      forall run, t | Follows(c, Init(c), run, t) ensures t.main != Returned(true) {
        RunStaysDull(c, Init(c), run, t);
      }
    }
  }

  // A callback error.

  /** Whether the first thing a loop over these entries sends or offers is a file that is wanted. */
  predicate WantedFirst(c: Config, parent: Path, entries: seq<Entry>) {
    entries != [] && if Offered(c, parent, entries[0]) then Wanted(c, parent + entries[0].name, entries[0].node)
                     else WantedFirst(c, parent, entries[1..])
  }

  function AfterFirst(c: Config, parent: Path, entries: seq<Entry>): seq<Entry> {
    if entries == [] then []
    else if Offered(c, parent, entries[0]) then entries[1..]
    else AfterFirst(c, parent, entries[1..])
  }

  /** The same of a prefix, which can be a file itself. */
  predicate Yields(c: Config, e: Entry) {
    !c.Excluded(e.name) && if e.node.Folder? then e.node.readable && WantedFirst(c, e.name, e.node.entries)
                           else Wanted(c, e.name, e.node)
  }

  function Left(c: Config, e: Entry): Cont {
    Cont(e.name, if e.node.Folder? then AfterFirst(c, e.name, e.node.entries) else [])
  }

  /** Nothing but the report, the frame of goroutine g and the files sent differ. */
  ghost predicate Kept(s: State, t: State, g: nat) {
    && |t.goroutines| == |s.goroutines|
        && (forall i :: 0 <= i < |s.goroutines| && i != g ==> t.goroutines[i] == s.goroutines[i])
    && t.main == s.main && t.fileWorkers == s.fileWorkers && t.folderQueue == s.folderQueue
    && t.sh.folderWG == s.sh.folderWG && t.sh.closed == s.sh.closed && t.sh.stop == s.sh.stop
    && t.sh.report.returned == s.sh.report.returned && t.sh.report.bytes == s.sh.report.bytes
  }

  lemma {:induction false} LoopSends(c: Config, s: State, g: nat, k: Cont)
    returns (run: seq<Choice>, t: State, task: Task)
    requires g < |s.goroutines| && s.goroutines[g] == Busy(Loop(k), []) && WantedFirst(c, k.parent, k.rest)
    requires s.fileQueue == [] && !s.sh.closed && s.sh.stop == CALM
    ensures Follows(c, s, run, t) && Kept(s, t, g) && t.fileQueue == [task] && Wanted(c, task.path, task.node)
    ensures t.goroutines[g] == Busy(Loop(Cont(k.parent, AfterFirst(c, k.parent, k.rest))), [])
    decreases |k.rest|
  {
    var go := Move(g, false);
    assert Follows(c, s, [], s);
    Extend(c, s, [], s, go);
    run, t := [] + [go], Step(c, s, go).s;
    var first := k.rest[0];
    if Offered(c, k.parent, first) {
      Extend(c, s, run, t, go);
      run, t, task := run + [go], Step(c, t, go).s, Task(k.parent + first.name, first.node);
    } else {
      var more, u;
      more, u, task := LoopSends(c, t, g, Cont(k.parent, k.rest[1..]));
      Join(c, s, run, t, more, u);
      run, t := run + more, u;
    }
  }

  /** A goroutine that starts on such a prefix sends a wanted file. */
  lemma PrefixSends(c: Config, s: State, g: nat, e: Entry) returns (run: seq<Choice>, t: State, task: Task)
    requires g < |s.goroutines| && s.goroutines[g] == Busy(Enter(e.name, e.node), []) && Yields(c, e)
    requires s.fileQueue == [] && !s.sh.closed && s.sh.stop == CALM
    ensures Follows(c, s, run, t) && Kept(s, t, g) && t.fileQueue == [task] && Wanted(c, task.path, task.node)
    ensures t.goroutines[g] == Busy(Loop(Left(c, e)), [])
  {
    var go := Move(g, false);
    assert Follows(c, s, [], s);
    Extend(c, s, [], s, go);
    var s1 := Step(c, s, go).s;
    Extend(c, s, [] + [go], s1, go);
    var s2 := Step(c, s1, go).s;
    run := [] + [go] + [go];
    if e.node.Folder? {
      var more;
      more, t, task := LoopSends(c, s2, g, Cont(e.name, e.node.entries));
      Join(c, s, run, s2, more, t);
      run := run + more;
    } else {
      Extend(c, s, run, s2, go);
      run, t, task := run + [go], Step(c, s2, go).s, Task(e.name, e.node);
    }
  }

  const FAILED := Stop(false, true, false, false, true)

  /** It is visited and the callback fails. */
  lemma PrefixFails(c: Config, s: State, g: nat, e: Entry) returns (run: seq<Choice>, t: State)
    requires g < |s.goroutines| && s.goroutines[g] == Busy(Enter(e.name, e.node), []) && Yields(c, e)
    requires s.fileQueue == [] && !s.sh.closed && s.sh.stop == CALM
    requires s.sh.report.returned == s.sh.report.bytes == 0 && |s.fileWorkers| > 0 && s.fileWorkers[0].Free?
    ensures Follows(c, s, run, t) && t.main == s.main && t.sh.stop == FAILED && !t.sh.closed
    ensures |t.goroutines| == |s.goroutines| && t.sh.folderWG == s.sh.folderWG
    ensures t.goroutines[0] == if g == 0 then Busy(Loop(Left(c, e)), []) else s.goroutines[0]
  {
    var s1, task, more, s2;
    run, s1, task := PrefixSends(c, s, g, e);
    more, s2 := VisitSent(c, s1, task.path, task.node, true);
    Join(c, s, run, s1, more, s2);
    var go := Handle(0, false);
    Extend(c, s, run + more, s2, go);
    run, t := run + more + [go], Step(c, s2, go).s;
  }

  /** A folder worker gets the first prefix. */
  lemma QueuedFails(c: Config) returns (run: seq<Choice>, t: State)
    requires c.Valid() && c.prefixes != [] && c.prefixes[0].name != [] && Yields(c, c.prefixes[0])
    ensures Follows(c, Init(c), run, t) && Solo(t, Next(c.prefixes[1..]), Idle, FAILED)
  {
    var s, e, go := Init(c), c.prefixes[0], Move(1, false);
    var s1, more;
    run, s1 := QueueOne(c, s, c.prefixes, []);
    assert [] + [Task(e.name, e.node)] == [Task(e.name, e.node)];
    Extend(c, s, run, s1, go);
    var s2 := Step(c, s1, go).s;
    more, t := PrefixFails(c, s2, 1, e);
    Join(c, s, run + [go], s2, more, t);
    run := run + [go] + more;
  }

  /** The caller walks the root itself. */
  lemma RootIsLeft(c: Config) returns (run: seq<Choice>, t: State, failed: bool)
    requires c.Valid() && c.prefixes != [] && c.prefixes[0].name == [] && Yields(c, c.prefixes[0])
    ensures Follows(c, Init(c), run, t) && Solo(t, Next(c.prefixes[1..]), Busy(Exit(failed), []), FAILED)
    ensures failed <==> exists x :: x in Left(c, c.prefixes[0]).rest && Offered(c, [], x)
  {
    var s, e, go := Init(c), c.prefixes[0], Move(0, false);
    assert Follows(c, s, [], s);
    Extend(c, s, [], s, go);
    var s1 := Step(c, s, go).s;
    var s2, more, rest;
    more, s2 := PrefixFails(c, s1, 0, e);
    Join(c, s, [] + [go], s1, more, s2);
    rest, t, failed := RootLoop(c, s2, Next(c.prefixes[1..]), Left(c, e), FAILED);
    Join(c, s, [] + [go] + more, s2, rest, t);
    run := [] + [go] + more + rest;
  }

  /** So can a callback error about the first thing the walk sends, if the caller has something to send or offer after
      it: a later prefix that is exposed, or a later entry of a root that it walks itself. */
  lemma CallbackErrorReturnsEarly(c: Config) returns (run: seq<Choice>, t: State)
    requires c.Valid() && c.prefixes != [] && Yields(c, c.prefixes[0])
    requires (exists e :: e in c.prefixes[1..] && Exposed(c, e))
      || (c.prefixes[0].name == [] && exists x :: x in Left(c, c.prefixes[0]).rest && Offered(c, [], x))
    ensures Follows(c, Init(c), run, t) && t.main == Returned(true) && !t.sh.closed && !t.sh.stop.outer
      && t.sh.stop.failed
  {
    var m, more;
    if c.prefixes[0].name != [] {
      run, m := QueuedFails(c);
    } else {
      var s, failed;
      run, s, failed := RootIsLeft(c);
      Extend(c, Init(c), run, s, Move(0, false));
      run, m := run + [Move(0, false)], Step(c, s, Move(0, false)).s;
      if failed {
        return run, m;
      }
    }
    more, t := SomePrefix(c, m, c.prefixes[1..], FAILED);
    Join(c, Init(c), run, m, more, t);
    run := run + more;
  }
}
