/** Building runs in which at most one folder worker and one file worker have something to do. */
module WalkRuns {
  import opened WalkTree
  import opened WalkMachine

  const CALM := Stop(false, false, false, false, false)
  const CANCELLED := Stop(false, false, true, false, true)
  const EARLY := Stop(false, false, false, true, true)

  /** Only the first worker has anything to do, no file has been visited, and the report claims to be complete. */
  ghost predicate Lone(c: Config, s: State, main: Main, worker: Goroutine, queue: seq<Task>, stop: Stop) {
    && c.Valid() && s.main == main && |s.goroutines| == c.folderWorkers + 1 && s.goroutines[1] == worker
    && (forall g :: 0 <= g < |s.goroutines| && g != 1 ==> s.goroutines[g].Idle?)
    && |s.fileWorkers| == c.fileWorkers && (forall w :: 0 <= w < |s.fileWorkers| ==> s.fileWorkers[w].Free?)
    && s.folderQueue == queue && s.fileQueue == []
    && s.sh.folderWG == |queue| + (if worker.Busy? then 1 else 0) && s.sh.fileWG == 0 && !s.sh.closed
    && s.sh.stop == stop && s.sh.report.complete && s.sh.report.returned == s.sh.report.bytes == 0
    && s.sh.history.visited == multiset{}
  }

  /** The folders of the prefixes that are not excluded. */
  function Tasks(c: Config, prefixes: seq<Entry>): seq<Task> {
    if prefixes == [] then []
    else
      (if c.Excluded(prefixes[0].name) then [] else [Task(prefixes[0].name, prefixes[0].node)])
        + Tasks(c, prefixes[1..])
  }

  // The caller fills the queue.

  lemma QueueOne(c: Config, s: State, rest: seq<Entry>, queue: seq<Task>) returns (run: seq<Choice>, t: State)
    requires rest != [] && rest[0].name != [] && |queue| < c.queueDepth && Lone(c, s, Next(rest), Idle, queue, CALM)
    ensures Follows(c, s, run, t)
    ensures Lone(c, t, Next(rest[1..]), Idle,
                  if c.Excluded(rest[0].name) then queue else queue + [Task(rest[0].name, rest[0].node)], CALM)
  {
    var go := Move(0, false);
    assert Follows(c, s, [], s);
    Extend(c, s, [], s, go);
    var s1 := Step(c, s, go).s;
    Extend(c, s, [] + [go], s1, go);
    var s2 := Step(c, s1, go).s;
    if c.Excluded(rest[0].name) {
      return [] + [go] + [go], s2;
    }
    Extend(c, s, [] + [go] + [go], s2, go);
    var s3 := Step(c, s2, go).s;
    Extend(c, s, [] + [go] + [go] + [go], s3, go);
    return [] + [go] + [go] + [go] + [go], Step(c, s3, go).s;
  }

  lemma TasksAppend(c: Config, rest: seq<Entry>, queue: seq<Task>)
    requires rest != []
    ensures (if c.Excluded(rest[0].name) then queue else queue + [Task(rest[0].name, rest[0].node)])
      + Tasks(c, rest[1..])
      == queue + Tasks(c, rest)
  {
  }

  lemma {:induction false} QueueAll(c: Config, s: State, rest: seq<Entry>, queue: seq<Task>)
    returns (run: seq<Choice>, t: State)
    requires (forall e :: e in rest ==> e.name != []) && |queue| + |rest| <= c.queueDepth
    requires Lone(c, s, Next(rest), Idle, queue, CALM)
    ensures Follows(c, s, run, t) && Lone(c, t, Next([]), Idle, queue + Tasks(c, rest), CALM)
    decreases |rest|
  {
    if rest == [] {
      assert queue + Tasks(c, rest) == queue;
      return [], s;
    }
    var first, m := QueueOne(c, s, rest, queue);
    var next := if c.Excluded(rest[0].name) then queue else queue + [Task(rest[0].name, rest[0].node)];
    var more;
    more, t := QueueAll(c, m, rest[1..], next);
    Join(c, s, first, m, more, t);
    TasksAppend(c, rest, queue);
    run := first + more;
  }

  // A worker sends a queued file, and a file worker visits it.

  lemma SendQueued(c: Config, s: State, main: Main, path: Path, node: Node, stop: Stop)
    returns (run: seq<Choice>, t: State)
    requires Lone(c, s, main, Idle, [Task(path, node)], stop) && !stop.limitReached && node.File? && !c.Excluded(path)
    ensures Follows(c, s, run, t)
    ensures t.fileQueue == [Task(path, node)] && t.fileWorkers == s.fileWorkers && t.main == main
    ensures t.goroutines == s.goroutines[1 := Busy(Loop(Cont(path, [])), [])]
    ensures t.sh == s.sh.(fileWG := 1) && t.folderQueue == []
  {
    var go := Move(1, false);
    assert Follows(c, s, [], s);
    Extend(c, s, [], s, go);
    var s1 := Step(c, s, go).s;
    Extend(c, s, [] + [go], s1, go);
    var s2 := Step(c, s1, go).s;
    Extend(c, s, [] + [go] + [go], s2, go);
    var s3 := Step(c, s2, go).s;
    Extend(c, s, [] + [go] + [go] + [go], s3, go);
    run, t := [] + [go] + [go] + [go] + [go], Step(c, s3, go).s;
  }

  /** A file that passes the filters, and the limits if it is the first. */
  predicate Wanted(c: Config, path: Path, node: Node) {
    && node.File? && node.statOk && c.extensionAllowed(path) && !c.excludedFile(path)
    && c.maxFiles != 0 && (c.maxBytes >= 0 ==> node.size <= c.maxBytes)
  }

  lemma VisitSent(c: Config, s: State, path: Path, node: Node, fails: bool) returns (run: seq<Choice>, t: State)
    requires s.fileQueue == [Task(path, node)] && |s.fileWorkers| > 0 && s.fileWorkers[0].Free?
    requires !s.sh.stop.limitReached && s.sh.report.returned == s.sh.report.bytes == 0 && Wanted(c, path, node)
    ensures Follows(c, s, run, t)
    ensures t.main == s.main && t.goroutines == s.goroutines && t.folderQueue == s.folderQueue
    ensures t.fileWorkers == s.fileWorkers[0 := Held(if fails then Failing else Finish, path, node)]
    ensures t.sh.history.visited == s.sh.history.visited + multiset{path} && t.sh.stop == s.sh.stop
    ensures t.sh.folderWG == s.sh.folderWG && t.sh.closed == s.sh.closed
  {
    var go := Handle(0, fails);
    assert Follows(c, s, [], s);
    Extend(c, s, [], s, go);
    var s1 := Step(c, s, go).s;
    Extend(c, s, [] + [go], s1, go);
    var s2 := Step(c, s1, go).s;
    Extend(c, s, [] + [go] + [go], s2, go);
    var s3 := Step(c, s2, go).s;
    Extend(c, s, [] + [go] + [go] + [go], s3, go);
    var s4 := Step(c, s3, go).s;
    Extend(c, s, [] + [go] + [go] + [go] + [go], s4, go);
    var s5 := Step(c, s4, go).s;
    Extend(c, s, [] + [go] + [go] + [go] + [go] + [go], s5, go);
    run, t := [] + [go] + [go] + [go] + [go] + [go] + [go], Step(c, s5, go).s;
  }
}
