/**
 The work still pending in a state of the walk, measured one quantity at a time: what the reference
 walk would add to a counter of the report for everything queued or in a goroutine's hands, what the
 two WaitGroups must show for it, and a weight that every step makes smaller.
 */
module WalkWork {
  import opened WalkTree
  import opened WalkMachine

  datatype Reason = Any | Pattern | Symlink | FolderError | StatError | Extension

  datatype Metric =
    | Visits(path: Path) | Queued | Scanned | Seen | Picked | Bytes  // counters of the report
    | Skipped(of: Reason)    // one of the skip reasons, or all together
    | Folders | Files        // the WaitGroups
    | Undecided | Visiting   // files seen and not yet skipped, dropped or returned; returned and not yet visited
    | Weight
  {
    function Fuel(n: nat): nat { if Weight? then n else 0 }

    predicate Counter() {
      Visits? || Queued? || Scanned? || Seen? || Skipped? || Picked? || Bytes?
    }
  }

  function One(b: bool): nat { if b then 1 else 0 }

  /** What a skip for the given reason adds. */
  function Skip(m: Metric, why: Reason): nat { One(m.Skipped? && m.of in {Any, why}) }

  // What the reference walk adds to a counter.

  function PickCount(m: Metric, path: Path, size: nat): nat {
    One(m == Visits(path)) + One(m.Picked?) + if m.Bytes? then size else 0
  }

  function FilterCount(c: Config, m: Metric, path: Path, size: nat): nat {
    if !c.extensionAllowed(path) then Skip(m, Extension)
    else if c.excludedFile(path) then Skip(m, Pattern)
    else PickCount(m, path, size)
  }

  function FileCount(c: Config, m: Metric, path: Path, node: Node): nat {
    if node.File? && node.statOk then One(m.Seen?) + FilterCount(c, m, path, node.size) else Skip(m, StatError)
  }

  function NodeCount(c: Config, m: Metric, path: Path, node: Node): nat
    decreases node, 1
  {
    if c.Excluded(path) then Skip(m, Pattern)
    else
      match node
      case Link => Skip(m, FolderError)
      case File(_, _) => FileCount(c, m, path, node)
      case Folder(readable, entries) =>
        if readable then One(m.Scanned?) + EntriesCount(c, m, path, entries) else Skip(m, FolderError)
  }

  /** A folder offered to the queue: excluded, or queued and then walked. */
  function OfferCount(c: Config, m: Metric, path: Path, node: Node): nat
    decreases node, 2
  {
    if c.Excluded(path) then Skip(m, Pattern) else One(m.Queued?) + NodeCount(c, m, path, node)
  }

  function EntryCount(c: Config, m: Metric, path: Path, node: Node): nat
    decreases node, 3
  {
    match node
    case Link => Skip(m, Symlink)
    case File(_, _) => FileCount(c, m, path, node)
    case Folder(_, _) => OfferCount(c, m, path, node)
  }

  function EntriesCount(c: Config, m: Metric, parent: Path, entries: seq<Entry>): nat
    decreases entries, 0
  {
    if entries == [] then 0
    else
      m.Fuel(20) + EntryCount(c, m, parent + entries[0].name, entries[0].node)
      + EntriesCount(c, m, parent, entries[1..])
  }

  function PrefixesCount(c: Config, m: Metric, prefixes: seq<Entry>): nat {
    if prefixes == [] then 0
    else
      var path, node := prefixes[0].name, prefixes[0].node;
      m.Fuel(20) + (if path == [] then NodeCount(c, m, path, node) else OfferCount(c, m, path, node))
      + PrefixesCount(c, m, prefixes[1..])
  }

  // Work of one task, frame, goroutine, file worker and of the caller.

  function TaskWork(c: Config, m: Metric, t: Task): nat {
    m.Fuel(16) + One(m.Folders?) + NodeCount(c, m, t.path, t.node)
  }

  function FileWork(c: Config, m: Metric, t: Task): nat {
    m.Fuel(9) + One(m.Files?) + FileCount(c, m, t.path, t.node)
  }

  function OfferWork(c: Config, m: Metric, phase: Phase, path: Path, node: Node): nat {
    match phase
    case Reserve => m.Fuel(19) + OfferCount(c, m, path, node)
    case Reserved => m.Fuel(18) + One(m.Folders?) + NodeCount(c, m, path, node)
    case Offer => m.Fuel(17) + One(m.Folders?) + NodeCount(c, m, path, node)
  }

  function ContWork(c: Config, m: Metric, k: Cont): nat {
    m.Fuel(2) + One(m.Folders?) + EntriesCount(c, m, k.parent, k.rest)
  }

  function FrameWork(c: Config, m: Metric, top: Frame): nat {
    match top
    case Enter(path, node) => m.Fuel(15) + One(m.Folders?) + NodeCount(c, m, path, node)
    case Scan(path, node) => m.Fuel(14) + One(m.Folders?) + NodeCount(c, m, path, node)
    case Loop(k) => ContWork(c, m, k)
    case Enqueue(k, phase, path, node) => ContWork(c, m, k) + OfferWork(c, m, phase, path, node)
    case SendFile(k, path, node) => ContWork(c, m, k) + m.Fuel(11) + One(m.Files?) + FileCount(c, m, path, node)
    case Exit(_) => m.Fuel(1) + One(m.Folders?)
  }

  function FileWorkerWork(c: Config, m: Metric, w: FileWorker): nat {
    match w
    case Free => 0
    case Held(stage, path, node) =>
      One(m.Files?) +
      match stage
      case Check => m.Fuel(8) + FileCount(c, m, path, node)
      case Stat => m.Fuel(7) + FileCount(c, m, path, node)
      case Filter => m.Fuel(6) + One(m.Undecided?) + FilterCount(c, m, path, node.Size())
      case Limit => m.Fuel(5) + One(m.Undecided?) + PickCount(m, path, node.Size())
      case Mark => m.Fuel(4) + One(m.Undecided?) + PickCount(m, path, node.Size())
      case Visit => m.Fuel(4) + One(m.Visiting?) + One(m == Visits(path))
      case Failing => m.Fuel(3)
      case Finish => m.Fuel(2)
  }

  function MainWork(c: Config, m: Metric, main: Main): nat {
    match main
    case Next(rest) => m.Fuel(5) + PrefixesCount(c, m, rest)
    case Offering(rest, phase, path, node) => m.Fuel(5) + PrefixesCount(c, m, rest) + OfferWork(c, m, phase, path, node)
    case WaitFolders => m.Fuel(4)
    case WaitFiles => m.Fuel(3)
    case Returned(_) => 0
  }

  // Sums.

  function Sum<T>(work: T -> nat, xs: seq<T>): nat {
    if xs == [] then 0 else work(xs[0]) + Sum(work, xs[1..])
  }

  function OfCont(c: Config, m: Metric): Cont -> nat { k => ContWork(c, m, k) }

  function GoroutineWork(c: Config, m: Metric, g: Goroutine): nat {
    match g
    case Idle => 0
    case Busy(top, callers) => FrameWork(c, m, top) + Sum(OfCont(c, m), callers)
  }

  function OfGoroutine(c: Config, m: Metric): Goroutine -> nat { g => GoroutineWork(c, m, g) }

  function OfFileWorker(c: Config, m: Metric): FileWorker -> nat { w => FileWorkerWork(c, m, w) }

  function OfTask(c: Config, m: Metric): Task -> nat { t => TaskWork(c, m, t) }

  function OfFile(c: Config, m: Metric): Task -> nat { t => FileWork(c, m, t) }

  function AllWork(c: Config, m: Metric, s: State): nat {
    MainWork(c, m, s.main)
    + Sum(OfGoroutine(c, m), s.goroutines)
    + Sum(OfFileWorker(c, m), s.fileWorkers)
    + Sum(OfTask(c, m), s.folderQueue)
    + Sum(OfFile(c, m), s.fileQueue)
    + (if s.sh.stop.outer then 0 else m.Fuel(1))
  }

  lemma {:induction false} SumUpdate<T>(work: T -> nat, xs: seq<T>, i: nat, x: T)
    requires i < |xs|
    ensures Sum(work, xs[i := x]) + work(xs[i]) == Sum(work, xs) + work(x)
  {
    if i == 0 {
      assert xs[i := x][1..] == xs[1..];
    } else {
      SumUpdate(work, xs[1..], i - 1, x);
      assert xs[i := x][1..] == xs[1..][i - 1 := x];
    }
  }

  lemma {:induction false} SumAppend<T>(work: T -> nat, xs: seq<T>, x: T)
    ensures Sum(work, xs + [x]) == Sum(work, xs) + work(x)
  {
    if xs == [] {
      assert xs + [x] == [x];
    } else {
      SumAppend(work, xs[1..], x);
      assert (xs + [x])[1..] == xs[1..] + [x];
    }
  }

  /** Every summand is bounded by the sum. */
  lemma {:induction false} SumBounds<T>(work: T -> nat, xs: seq<T>, i: nat)
    requires i < |xs|
    ensures work(xs[i]) <= Sum(work, xs)
  {
    if i > 0 {
      SumBounds(work, xs[1..], i - 1);
    }
  }

  /** A sum over things without work. */
  lemma {:induction false} SumNothing<T>(work: T -> nat, xs: seq<T>)
    requires forall x :: x in xs ==> work(x) == 0
    ensures Sum(work, xs) == 0
  {
    if xs != [] {
      assert work(xs[0]) == 0;
      SumNothing(work, xs[1..]);
    }
  }
}
