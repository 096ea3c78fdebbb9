/** What a cancelled parent context can hide: a folder worker drops the error of the folder it gave up. */
module WalkHiding {
  import opened WalkTree
  import opened WalkMachine
  import opened WalkRuns

  // The worker gives up one folder after the other.

  /** The first entry is a file or a folder to walk: it is not sent, and the loop is left. */
  lemma FirstGivesUp(c: Config, s: State, main: Main, k: Cont, queue: seq<Task>)
    returns (run: seq<Choice>, t: State)
    requires Lone(c, s, main, Busy(Loop(k), []), queue, CANCELLED) && k.rest != []
    requires k.rest[0].node.File? || (k.rest[0].node.Folder? && !c.Excluded(k.parent + k.rest[0].name))
    ensures Follows(c, s, run, t) && Lone(c, t, main, Busy(Exit(true), []), queue, CANCELLED)
  {
    var go := Move(1, true);
    assert Follows(c, s, [], s);
    Extend(c, s, [], s, go);
    var s1 := Step(c, s, go).s;
    Extend(c, s, [] + [go], s1, go);
    run, t := [] + [go] + [go], Step(c, s1, go).s;
    if k.rest[0].node.Folder? {
      var s2 := t;
      Extend(c, s, run, s2, go);
      run, t := run + [go], Step(c, s2, go).s;
    }
  }

  /** A loop over entries ends without sending anything: at the latest at the first file or folder to walk. */
  lemma {:induction false} LoopGivesUp(c: Config, s: State, main: Main, k: Cont, queue: seq<Task>)
    returns (run: seq<Choice>, t: State, failed: bool)
    requires Lone(c, s, main, Busy(Loop(k), []), queue, CANCELLED)
    ensures Follows(c, s, run, t) && Lone(c, t, main, Busy(Exit(failed), []), queue, CANCELLED)
    decreases |k.rest|
  {
    failed := k.rest != []
      && (k.rest[0].node.File? || (k.rest[0].node.Folder? && !c.Excluded(k.parent + k.rest[0].name)));
    if failed {
      run, t := FirstGivesUp(c, s, main, k, queue);
      return;
    }
    var go := Move(1, true);
    assert Follows(c, s, [], s);
    Extend(c, s, [], s, go);
    run, t := [] + [go], Step(c, s, go).s;
    if k.rest != [] {
      var more, u;
      more, u, failed := LoopGivesUp(c, t, main, Cont(k.parent, k.rest[1..]), queue);
      Join(c, s, run, t, more, u);
      run, t := run + more, u;
    }
  }

  /** The worker takes a folder and gives it up: excluded or unreadable, a file not sent, a loop left. */
  lemma OpenFolder(c: Config, s: State, main: Main, t: Task, queue: seq<Task>)
    returns (run: seq<Choice>, u: State, failed: bool)
    requires Lone(c, s, main, Busy(Scan(t.path, t.node), []), queue, CANCELLED)
    ensures Follows(c, s, run, u) && Lone(c, u, main, Busy(Exit(failed), []), queue, CANCELLED)
  {
    var go := Move(1, true);
    assert Follows(c, s, [], s);
    Extend(c, s, [], s, go);
    var m := Step(c, s, go).s;
    run := [] + [go];
    if c.Excluded(t.path) || t.node.Link? || (t.node.Folder? && !t.node.readable) {
      u, failed := m, false;
    } else if t.node.File? {
      Extend(c, s, run, m, go);
      run, u, failed := run + [go], Step(c, m, go).s, true;
    } else {
      var more;
      more, u, failed := LoopGivesUp(c, m, main, Cont(t.path, t.node.entries), queue);
      Join(c, s, run, m, more, u);
      run := run + more;
    }
  }

  /** A worker takes a folder from the queue. */
  lemma Take(c: Config, s: State, main: Main, queue: seq<Task>) returns (run: seq<Choice>, t: State)
    requires queue != [] && Lone(c, s, main, Idle, queue, CANCELLED)
    ensures Follows(c, s, run, t)
    ensures Lone(c, t, main, Busy(Scan(queue[0].path, queue[0].node), []), queue[1..], CANCELLED)
  {
    var go := Move(1, true);
    assert Follows(c, s, [], s);
    Extend(c, s, [], s, go);
    var m := Step(c, s, go).s;
    Extend(c, s, [] + [go], m, go);
    run, t := [] + [go] + [go], Step(c, m, go).s;
  }

  /** One folder, from the queue to the dropped error. */
  lemma GiveUp(c: Config, s: State, main: Main, queue: seq<Task>) returns (run: seq<Choice>, t: State)
    requires queue != [] && Lone(c, s, main, Idle, queue, CANCELLED)
    ensures Follows(c, s, run, t) && Lone(c, t, main, Idle, queue[1..], CANCELLED)
  {
    var go, m := Move(1, true), s;
    run, m := Take(c, s, main, queue);
    var more, u, failed := OpenFolder(c, m, main, queue[0], queue[1..]);
    Join(c, s, run, m, more, u);
    Extend(c, s, run + more, u, go);
    run, t := run + more + [go], Step(c, u, go).s;
  }

  lemma {:induction false} GiveUpAll(c: Config, s: State, main: Main, queue: seq<Task>)
    returns (run: seq<Choice>, t: State)
    requires Lone(c, s, main, Idle, queue, CANCELLED)
    ensures Follows(c, s, run, t) && Lone(c, t, main, Idle, [], CANCELLED)
    decreases |queue|
  {
    if queue == [] {
      return [], s;
    }
    var first, m := GiveUp(c, s, main, queue);
    var more;
    more, t := GiveUpAll(c, m, main, queue[1..]);
    Join(c, s, first, m, more, t);
    run := first + more;
  }

  /**
   Whatever lies below them: with prefixes that are not the root and fit the folder queue, there is a run in which the
   caller's context is cancelled after the folders are queued, the call returns normally, the report claims
   completeness, no callback failed, and no file at all has been visited.
   */
  lemma CancellationHidesEverything(c: Config) returns (run: seq<Choice>, t: State)
    requires c.Valid() && !c.badPrefix && |c.prefixes| <= c.queueDepth && forall e :: e in c.prefixes ==> e.name != []
    ensures Follows(c, Init(c), run, t) && t.main == Returned(false)
    ensures t.sh.report.complete && !t.sh.stop.failed && t.sh.history.visited == multiset{}
  {
    var go := Move(0, false);
    var s1;
    run, s1 := QueueAll(c, Init(c), c.prefixes, []);
    var queue := [] + Tasks(c, c.prefixes);
    Extend(c, Init(c), run, s1, go);
    var s2 := Step(c, s1, go).s;
    Extend(c, Init(c), run + [go], s2, CancelParent);
    var s3 := Step(c, s2, CancelParent).s;
    var more, s4 := GiveUpAll(c, s3, WaitFolders, queue);
    run := run + [go] + [CancelParent];
    Join(c, Init(c), run, s3, more, s4);
    run := run + more;
    Extend(c, Init(c), run, s4, go);
    var s5 := Step(c, s4, go).s;
    Extend(c, Init(c), run + [go], s5, go);
    run, t := run + [go] + [go], Step(c, s5, go).s;
  }
}
