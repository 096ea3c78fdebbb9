/** A job and the operations that change one. */
module Jobs {
  import opened Order

  type Time = int  // nanoseconds

  datatype Status = Queued | Running | CancelRequested | Succeeded | Failed | Canceled

  datatype ErrorClass = Unclassified | Permanent | Transient | Cancellation | Panicked

  /** An error chain: ErrCanceled, a classified error around an optional cause, a wrapper, or plain text. */
  datatype Err =
    | Plain(text: string)
    | ErrCanceled
    | Classified(group: ErrorClass, cause: Option<Err>)
    | Wrapped(text: string, inner: Err)
  {
    predicate IsCanceled() {
      || ErrCanceled?
      || match this
         case Classified(_, Some(e)) => e.IsCanceled()
         case Wrapped(_, e) => e.IsCanceled()
         case _ => false
    }

    /** The class of the outermost classified error of the chain. */
    function OuterClass(): ErrorClass {
      match this
      case Classified(c, _) => c
      case Wrapped(_, e) => e.OuterClass()
      case _ => Unclassified
    }
  }

  function Classify(e: Err): ErrorClass {
    if e.IsCanceled() then Cancellation else e.OuterClass()
  }

  predicate ShouldRetry(e: Err) {
    Classify(e) !in {Permanent, Cancellation, Panicked}
  }

  /** The errors of a chain, from the outermost inwards. */
  function Chain(e: Err): (chain: seq<Err>)
    ensures chain != []
  {
    match e
    case Classified(_, Some(inner)) => [e] + Chain(inner)
    case Wrapped(_, inner) => [e] + Chain(inner)
    case _ => [e]
  }

  /** ErrCanceled is in the chain, or the first classified error in it is permanent, a panic or a cancellation. */
  ghost predicate Final(e: Err) {
    || ErrCanceled in Chain(e)
    || exists i :: 0 <= i < |Chain(e)| && FirstClassified(Chain(e), i)
         && Chain(e)[i].group in {Permanent, Panicked, Cancellation}
  }

  predicate FirstClassified(chain: seq<Err>, i: nat)
    requires i < |chain|
  {
    chain[i].Classified? && forall k :: 0 <= k < i ==> !chain[k].Classified?
  }

  /** Which errors are final can be read off the chain. */
  lemma RetriesByShape(e: Err)
    ensures ShouldRetry(e) <==> !Final(e)
  {
    CanceledInChain(e);
    OuterInChain(e);
  }

  lemma {:induction false} CanceledInChain(e: Err)
    ensures e.IsCanceled() <==> ErrCanceled in Chain(e)
  {
    match e
    case Classified(_, Some(inner)) => CanceledInChain(inner);
    case Wrapped(_, inner) => CanceledInChain(inner);
    case _ =>
  }

  /** The outer class is that of the first classified error; without one the error is unclassified. */
  lemma {:induction false} OuterInChain(e: Err)
    ensures forall i :: 0 <= i < |Chain(e)| && FirstClassified(Chain(e), i) ==> Chain(e)[i].group == e.OuterClass()
    ensures (forall i :: 0 <= i < |Chain(e)| ==> !Chain(e)[i].Classified?) ==> e.OuterClass() == Unclassified
    ensures (exists i :: 0 <= i < |Chain(e)| && FirstClassified(Chain(e), i))
      || forall i :: 0 <= i < |Chain(e)| ==> !Chain(e)[i].Classified?
  {
    match e
    case Wrapped(_, inner) =>
      OuterInChain(inner);
      assert Chain(e)[1..] == Chain(inner);
      forall i | 0 <= i < |Chain(inner)|
        ensures FirstClassified(Chain(inner), i) <==> FirstClassified(Chain(e), i + 1)
      {
        assert Chain(e)[i + 1] == Chain(inner)[i];
        assert forall k :: 1 <= k < i + 1 ==> Chain(e)[k] == Chain(inner)[k - 1];
        assert forall k :: 0 <= k < i ==> Chain(inner)[k] == Chain(e)[k + 1];
      }
      assert forall i :: 0 < i < |Chain(e)| ==> Chain(e)[i] == Chain(inner)[i - 1];
      forall i | 0 <= i < |Chain(e)| && FirstClassified(Chain(e), i) ensures Chain(e)[i].group == e.OuterClass() {
        assert FirstClassified(Chain(inner), i - 1);
      }
    case Classified(_, _) => assert FirstClassified(Chain(e), 0);
    case _ =>
  }

  datatype LogLine = LogLine(level: string, message: string, at: Time)

  /** Payload, progress and counters are one opaque value; an empty worker means none. */
  datatype Job = Job(
    id: string, kind: string, status: Status, data: int,
    attempts: int, maxAttempts: int,
    worker: string, lease: Option<Time>,
    cancelRequestedAt: Option<Time>, nextRunAt: Option<Time>,
    createdAt: Time, startedAt: Option<Time>, finishedAt: Option<Time>,
    error: string, logs: seq<LogLine>)

  const LOG_LIMIT := 200
  const MANUAL := "manual retry requested"

  predicate Edge(current: Status, next: Status) {
    match current
    case Queued => next in {Running, CancelRequested, Canceled}
    case Running => next in {Succeeded, Failed, CancelRequested, Canceled, Queued}
    case CancelRequested => next in {Canceled, Failed, Queued}
    case Failed => next == Queued
    case Canceled => next == Queued
    case Succeeded => false
  }

  /** Transition returns no error. */
  predicate Transition(current: Status, next: Status) {
    current == next || Edge(current, next)
  }

  // What each operation makes of a job; None is an error.

  function Started(j: Job, now: Time): Option<Job> {
    if j.status == Running then
      Some(if j.startedAt.None? then j.(startedAt := Some(now)) else j)
    else if !Transition(j.status, Running) then None
    else Some(j.(status := Running, startedAt := Some(now), attempts := j.attempts + 1, error := ""))
  }

  function Completed(j: Job, now: Time): Option<Job> {
    if !Transition(j.status, Succeeded) then None
    else Some(j.(status := Succeeded, finishedAt := Some(now), worker := "", lease := None))
  }

  function FailedWith(j: Job, message: string, now: Time): Option<Job> {
    if !Transition(j.status, Failed) then None
    else Some(j.(status := Failed, finishedAt := Some(now), error := message, worker := "", lease := None))
  }

  function CancelAsked(j: Job, now: Time): Job {
    match j.status
    case Queued => j.(status := Canceled, cancelRequestedAt := Some(now), finishedAt := Some(now))
    case Running => j.(status := CancelRequested, cancelRequestedAt := Some(now))
    case _ =>
      if j.cancelRequestedAt.None? && j.status in {CancelRequested, Canceled}
      then j.(cancelRequestedAt := Some(now)) else j
  }

  function CanceledNow(j: Job, now: Time): Option<Job> {
    if j.status == Canceled then Some(j)
    else if !Transition(j.status, Canceled) then None
    else
      Some(j.(status := Canceled, finishedAt := Some(now), worker := "", lease := None,
              cancelRequestedAt := if j.cancelRequestedAt.None? then Some(now) else j.cancelRequestedAt))
  }

  function Retried(j: Job, at: Time, message: string): Option<Job> {
    if !Transition(j.status, Queued) then None
    else Some(j.(status := Queued, nextRunAt := Some(at), worker := "", lease := None, error := message))
  }

  function RetriedNow(j: Job, message: string, now: Time): Option<Job> {
    if !Transition(j.status, Queued) then None
    else
      Some(Logged(j.(status := Queued, nextRunAt := None, worker := "", lease := None, finishedAt := None,
                     cancelRequestedAt := None, error := message), LogLine("info", message, now)))
  }

  function Logged(j: Job, line: LogLine): Job {
    j.(logs := LastLines(j.logs + [line]))
  }

  function LastLines(logs: seq<LogLine>): seq<LogLine> {
    if |logs| > LOG_LIMIT then logs[|logs| - LOG_LIMIT..] else logs
  }

  /** The statuses an operation accepts and the one it leads to, one by one. */
  lemma OperationsByStatus(j: Job, message: string, at: Time, now: Time)
    ensures Started(j, now).Some? <==> j.status in {Queued, Running}
    ensures Completed(j, now).Some? <==> j.status in {Running, Succeeded}
    ensures FailedWith(j, message, now).Some? <==> j.status in {Running, CancelRequested, Failed}
    ensures CanceledNow(j, now).Some? <==> j.status in {Queued, Running, CancelRequested, Canceled}
    ensures Retried(j, at, message).Some? <==> j.status in {Queued, Running, CancelRequested, Failed, Canceled}
    ensures RetriedNow(j, message, now).Some? <==> Retried(j, at, message).Some?
    ensures Started(j, now).Some? ==> Started(j, now).value.status == Running
    ensures Completed(j, now).Some? ==> Completed(j, now).value.status == Succeeded
    ensures FailedWith(j, message, now).Some? ==> FailedWith(j, message, now).value.status == Failed
    ensures CanceledNow(j, now).Some? ==> CanceledNow(j, now).value.status == Canceled
    ensures Retried(j, at, message).Some? ==> Retried(j, at, message).value.status == Queued
    ensures RetriedNow(j, message, now).Some? ==> RetriedNow(j, message, now).value.status == Queued
    ensures CancelAsked(j, now).status
      == if j.status == Queued then Canceled else if j.status == Running then CancelRequested else j.status
  {
  }

  /** Whatever an operation does to a status is an edge of the transition graph, and never leaves Succeeded. */
  lemma OperationsFollowEdges(j: Job, message: string, at: Time, now: Time)
    ensures Started(j, now).Some? ==> Transition(j.status, Started(j, now).value.status)
    ensures Completed(j, now).Some? ==> Transition(j.status, Completed(j, now).value.status)
    ensures FailedWith(j, message, now).Some? ==> Transition(j.status, FailedWith(j, message, now).value.status)
    ensures Transition(j.status, CancelAsked(j, now).status)
    ensures CanceledNow(j, now).Some? ==> Transition(j.status, CanceledNow(j, now).value.status)
    ensures Retried(j, at, message).Some? ==> Transition(j.status, Retried(j, at, message).value.status)
    ensures RetriedNow(j, message, now).Some? ==> Transition(j.status, RetriedNow(j, message, now).value.status)
    ensures j.status == Succeeded ==>
      Started(j, now).None? && FailedWith(j, message, now).None? && CanceledNow(j, now).None?
      && Retried(j, at, message).None? && RetriedNow(j, message, now).None? && CancelAsked(j, now) == j
  {
  }

  /** Logging any number of lines keeps the newest of them all, oldest first. */
  function LoggedAll(j: Job, lines: seq<LogLine>): Job
    decreases |lines|
  {
    if lines == [] then j else LoggedAll(Logged(j, lines[0]), lines[1..])
  }

  lemma {:induction false} LogsKeepNewest(j: Job, lines: seq<LogLine>)
    requires |j.logs| <= LOG_LIMIT
    ensures LoggedAll(j, lines) == j.(logs := LastLines(j.logs + lines))
    decreases |lines|
  {
    if lines == [] {
      assert j.logs + lines == j.logs;
    } else {
      LogsKeepNewest(Logged(j, lines[0]), lines[1..]);
      var kept, all := LastLines(j.logs + [lines[0]]), j.logs + lines;
      assert LastLines(kept + lines[1..]) == LastLines(all);
    }
  }

  /** A variable that holds a job: what the operations take a pointer to. */
  class JobRef {
    var job: Job

    constructor (j: Job)
      ensures job == j
    {
      job := j;
    }

    method Start(now: Time) returns (ok: bool)
      modifies this
      ensures ok == Started(old(job), now).Some?
      ensures job == if ok then Started(old(job), now).value else old(job)
    {
      if job.status == Running {
        if job.startedAt.None? {
          job := job.(startedAt := Some(now));
        }
        return true;
      }
      if !Transition(job.status, Running) {
        return false;
      }
      job := job.(status := Running);
      job := job.(startedAt := Some(now));
      job := job.(attempts := job.attempts + 1);
      job := job.(error := "");
      return true;
    }

    method Complete(now: Time) returns (ok: bool)
      modifies this
      ensures ok == Completed(old(job), now).Some?
      ensures job == if ok then Completed(old(job), now).value else old(job)
    {
      if !Transition(job.status, Succeeded) {
        return false;
      }
      job := job.(status := Succeeded);
      job := job.(finishedAt := Some(now));
      Release();
      return true;
    }

    /** A missing cause is refused. */
    method Fail(cause: Option<string>, now: Time) returns (ok: bool)
      modifies this
      ensures ok == (cause.Some? && FailedWith(old(job), cause.value, now).Some?)
      ensures job == if ok then FailedWith(old(job), cause.value, now).value else old(job)
    {
      if cause.None? {
        return false;
      }
      if !Transition(job.status, Failed) {
        return false;
      }
      job := job.(status := Failed);
      job := job.(finishedAt := Some(now));
      job := job.(error := cause.value);
      Release();
      return true;
    }

    method RequestCancel(now: Time)
      modifies this
      ensures job == CancelAsked(old(job), now)
    {
      if job.status == Queued {
        job := job.(status := Canceled);
        job := job.(cancelRequestedAt := Some(now));
        job := job.(finishedAt := Some(now));
      } else if job.status == Running {
        job := job.(status := CancelRequested);
        job := job.(cancelRequestedAt := Some(now));
      } else if job.cancelRequestedAt.None? && (job.status == CancelRequested || job.status == Canceled) {
        job := job.(cancelRequestedAt := Some(now));
      }
    }

    method Cancel(now: Time) returns (ok: bool)
      modifies this
      ensures ok == CanceledNow(old(job), now).Some?
      ensures job == if ok then CanceledNow(old(job), now).value else old(job)
    {
      if job.status == Canceled {
        return true;
      }
      if !Transition(job.status, Canceled) {
        return false;
      }
      job := job.(status := Canceled);
      if job.cancelRequestedAt.None? {
        job := job.(cancelRequestedAt := Some(now));
      }
      job := job.(finishedAt := Some(now));
      Release();
      return true;
    }

    /** A missing cause is refused. */
    method Retry(at: Time, cause: Option<string>) returns (ok: bool)
      modifies this
      ensures ok == (cause.Some? && Retried(old(job), at, cause.value).Some?)
      ensures job == if ok then Retried(old(job), at, cause.value).value else old(job)
    {
      if cause.None? {
        return false;
      }
      if !Transition(job.status, Queued) {
        return false;
      }
      job := job.(status := Queued);
      job := job.(nextRunAt := Some(at));
      Release();
      job := job.(error := cause.value);
      return true;
    }

    /** A missing cause is replaced by one. */
    method RetryNow(cause: Option<string>, now: Time) returns (ok: bool)
      modifies this
      ensures var message := if cause.Some? then cause.value else MANUAL;
        ok == RetriedNow(old(job), message, now).Some?
        && job == if ok then RetriedNow(old(job), message, now).value else old(job)
    {
      var message := if cause.Some? then cause.value else MANUAL;
      if !Transition(job.status, Queued) {
        return false;
      }
      job := job.(status := Queued);
      job := job.(nextRunAt := None);
      Release();
      job := job.(finishedAt := None);
      job := job.(cancelRequestedAt := None);
      job := job.(error := message);
      AddLog("info", message, now);
      return true;
    }

    method AddLog(level: string, message: string, now: Time)
      modifies this
      ensures job == Logged(old(job), LogLine(level, message, now))
    {
      job := job.(logs := job.logs + [LogLine(level, message, now)]);
      if |job.logs| > LOG_LIMIT {
        job := job.(logs := job.logs[|job.logs| - LOG_LIMIT..]);
      }
    }

    method Release()
      modifies this
      ensures job == old(job).(worker := "", lease := None)
    {
      job := job.(worker := "");
      job := job.(lease := None);
    }
  }
}
