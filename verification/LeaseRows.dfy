/** What each lease operation makes of one stored job, in the memory store and in the database. */
module LeaseRows {
  import opened Order
  import opened Jobs

  /** Stored carries the row afterwards; the others leave it as it is. */
  datatype Verdict = Stored(row: Job) | Missing | LeaseLost | BadTransition

  const FINALIZED := "unowned cancellation request finalized"
  const RETURNED := "expired lease returned to queue"
  const REQUESTED := "cancellation requested"
  const EXPIRED := "job lease expired; retry queued"

  const SECOND: Time := 1_000_000_000

  predicate Active(s: Status) { s == Running || s == CancelRequested }

  predicate Owned(row: Job, worker: string) { row.worker == worker && Active(row.status) }

  /** A queued job whose retry time has come. */
  predicate Ready(row: Job, now: Time) {
    row.status == Queued && (row.nextRunAt.Some? ==> row.nextRunAt.value <= now)
  }

  predicate KindAllowed(kind: string, kinds: seq<string>) {
    kinds == [] || kind in kinds
  }

  function RetryDelay(attempts: int): Time {
    SECOND * if attempts <= 0 then 1 else if attempts > 5 then 5 else attempts
  }

  /** A failing job goes back to the queue; decided on the worker's copy in both stores. */
  predicate WillRetry(copy: Job, cause: Err) {
    copy.attempts < (if copy.maxAttempts <= 0 then 1 else copy.maxAttempts)
    && copy.status != CancelRequested && ShouldRetry(cause)
  }

  function ClassName(group: ErrorClass): string {
    match group
    case Unclassified => "unknown"
    case Permanent => "permanent"
    case Transient => "transient"
    case Cancellation => "canceled"
    case Panicked => "panic"
  }

  function Message(e: Err): string {
    match e
    case Plain(text) => text
    case ErrCanceled => "job canceled"
    case Classified(_, Some(inner)) => Message(inner)
    case Classified(group, None) => ClassName(group)
    case Wrapped(text, inner) => text + Message(inner)
  }

  function CauseOr(cause: Option<Err>): Err {
    if cause.Some? then cause.value else Plain("job failed")
  }

  /** The job as leased by a worker: the same row in both stores. */
  function Leased(row: Job, worker: string, now: Time, duration: Time): Job {
    row.(status := Running, worker := worker, lease := Some(now + duration),
         startedAt := if row.startedAt.None? then Some(now) else row.startedAt,
         attempts := row.attempts + 1, nextRunAt := None, error := "")
  }

  /** Expired: past its lease, or a cancel request nobody holds a lease for. */
  predicate Expired(row: Job, now: Time) {
    Active(row.status)
    && match row.lease { case Some(until) => until < now case None => row.status == CancelRequested }
  }

  /** What failing makes of the worker's copy; both stores work it out before looking at the row's status. */
  function FailedOrRetried(job: Job, cause: Option<Err>, now: Time): Verdict {
    var e := CauseOr(cause);
    if WillRetry(job, e) then
      match Retried(job, now + RetryDelay(job.attempts), Message(e))
      case None => BadTransition
      case Some(j) => Stored(Logged(j, LogLine("warn", Message(e), now)))
    else
      match FailedWith(job, Message(e), now)
      case None => BadTransition
      case Some(j) => Stored(Logged(j, LogLine("error", Message(e), now)))
  }

  // The memory store writes the worker's copy over its own.

  function MemoryHeartbeat(row: Job, worker: string, until: Time): Verdict {
    if !Owned(row, worker) then LeaseLost else Stored(row.(lease := Some(until)))
  }

  function MemoryUpdate(row: Job, copy: Job, worker: string): Verdict {
    if !Owned(row, worker) then LeaseLost
    else
      var kept := if row.status == CancelRequested && copy.status == Running
        then copy.(status := CancelRequested, cancelRequestedAt := row.cancelRequestedAt) else copy;
      Stored(kept.(worker := row.worker, lease := row.lease))
  }

  function MemoryComplete(row: Job, copy: Job, worker: string, now: Time): Verdict {
    if row.worker != worker || row.status != Running then LeaseLost
    else
      match Completed(copy.(worker := row.worker, lease := row.lease), now)
      case None => BadTransition
      case Some(j) => Stored(j)
  }

  function MemoryFail(row: Job, copy: Job, worker: string, cause: Option<Err>, now: Time): Verdict {
    if !Owned(row, worker) then LeaseLost
    else FailedOrRetried(copy.(worker := row.worker, lease := row.lease), cause, now)
  }

  function MemoryCancel(row: Job, copy: Job, worker: string, now: Time): Verdict {
    if !Owned(row, worker) then LeaseLost
    else
      match CanceledNow(copy.(worker := row.worker, lease := row.lease), now)
      case None => BadTransition
      case Some(j) => Stored(j)
  }

  function AskedToCancel(row: Job, now: Time): Job {
    Logged(CancelAsked(row, now), LogLine("info", REQUESTED, now))
  }

  function MemoryReleased(row: Job, now: Time): Job {
    if !Expired(row, now) then row
    else if row.status == CancelRequested then
      Logged(CanceledNow(row, now).value, LogLine("warn", FINALIZED, now))
    else
      Logged(row.(status := Queued, worker := "", lease := None, nextRunAt := Some(now),
                  error := if row.error == "" then EXPIRED else row.error),
             LogLine("warn", RETURNED, now))
  }

  // The database updates the row's columns where the row itself passes the guard.

  /** The columns a worker's copy brings with it. */
  function WithColumns(row: Job, copy: Job): Job {
    row.(data := copy.data, attempts := copy.attempts, maxAttempts := copy.maxAttempts, nextRunAt := copy.nextRunAt,
         startedAt := copy.startedAt, finishedAt := copy.finishedAt, error := copy.error, logs := copy.logs)
  }

  function DbHeartbeat(row: Job, worker: string, until: Time): Verdict {
    if Owned(row, worker) then Stored(row.(lease := Some(until))) else LeaseLost
  }

  function DbUpdate(row: Job, copy: Job, worker: string): Verdict {
    if !Owned(row, worker) then LeaseLost
    else
      Stored(WithColumns(row, copy).(
        status := if row.status == CancelRequested && copy.status == Running then row.status else copy.status,
        cancelRequestedAt := if row.cancelRequestedAt.Some? then row.cancelRequestedAt else copy.cancelRequestedAt))
  }

  function DbFinish(row: Job, job: Job, worker: string, allowed: set<Status>): Verdict {
    if row.worker != worker || row.status !in allowed then LeaseLost
    else
      Stored(WithColumns(row, job).(status := job.status, worker := "", lease := None,
                                    cancelRequestedAt := job.cancelRequestedAt))
  }

  function DbComplete(row: Job, copy: Job, worker: string, now: Time): Verdict {
    match Completed(copy, now)
    case None => BadTransition
    case Some(j) => DbFinish(row, j, worker, {Running})
  }

  function DbFail(row: Job, copy: Job, worker: string, cause: Option<Err>, now: Time): Verdict {
    match FailedOrRetried(copy, cause, now)
    case Stored(j) =>
      DbFinish(row, j, worker, if WillRetry(copy, CauseOr(cause)) then {Running} else {Running, CancelRequested})
    case v => v
  }

  function DbCancel(row: Job, copy: Job, worker: string, now: Time): Verdict {
    match CanceledNow(copy, now)
    case None => BadTransition
    case Some(j) => DbFinish(row, Logged(j, LogLine("info", "job canceled", now)), worker, {Running, CancelRequested})
  }

  function DbReleased(row: Job, now: Time): Job {
    if !Expired(row, now) then row
    else if row.status == CancelRequested then
      row.(status := Canceled, worker := "", lease := None, finishedAt := Some(now))
    else
      row.(status := Queued, worker := "", lease := None, nextRunAt := Some(now),
           error := if row.error == "" then EXPIRED else row.error)
  }

  /** The operator's retry: read, RetryNow, write. */
  function OperatorRetried(row: Job, now: Time): Verdict {
    match RetriedNow(row, MANUAL, now)
    case None => BadTransition
    case Some(j) => Stored(j)
  }

  // Where the two stores agree.

  /** What of a row the lease protocol is about. */
  datatype Lease = Lease(status: Status, worker: string, until: Option<Time>)

  function LeaseOf(row: Job): Lease { Lease(row.status, row.worker, row.lease) }

  /** Same verdict, and the same lease where the row is stored. */
  predicate Agree(a: Verdict, b: Verdict) {
    || (a.Stored? && b.Stored? && LeaseOf(a.row) == LeaseOf(b.row))
    || (!a.Stored? && !b.Stored?)
  }

  lemma StoresAgree(row: Job, copy: Job, worker: string, cause: Option<Err>, until: Time, now: Time)
    ensures Agree(MemoryHeartbeat(row, worker, until), DbHeartbeat(row, worker, until))
    ensures Agree(MemoryUpdate(row, copy, worker), DbUpdate(row, copy, worker))
    ensures Agree(MemoryComplete(row, copy, worker, now), DbComplete(row, copy, worker, now))
    ensures LeaseOf(MemoryReleased(row, now)) == LeaseOf(DbReleased(row, now))
    ensures !WillRetry(copy, CauseOr(cause)) ==>
      Agree(MemoryFail(row, copy, worker, cause, now), DbFail(row, copy, worker, cause, now))
  {
  }

  /** A canceled copy is the one case where cancelling differs: the memory store keeps worker and lease. */
  lemma StoresAgreeOnCancel(row: Job, copy: Job, worker: string, now: Time)
    requires worker != ""
    ensures Agree(MemoryCancel(row, copy, worker, now), DbCancel(row, copy, worker, now))
       <==> !(Owned(row, worker) && copy.status == Canceled)
  {
  }

  /** A retry differs exactly when the copy is running and the row has been asked to cancel meanwhile. */
  lemma StoresAgreeOnRetry(row: Job, copy: Job, worker: string, cause: Option<Err>, now: Time)
    requires WillRetry(copy, CauseOr(cause))
    ensures Agree(MemoryFail(row, copy, worker, cause, now), DbFail(row, copy, worker, cause, now))
       <==> !(row.worker == worker && row.status == CancelRequested && Transition(copy.status, Queued))
  {
  }

  // What failing comes to.

  /** Attempts remain, the job has not been asked to cancel as far as the worker knows, and the cause is not final. */
  ghost predicate MayRetry(copy: Job, cause: Option<Err>) {
    && copy.attempts < (if copy.maxAttempts > 0 then copy.maxAttempts else 1)
    && copy.status != CancelRequested && (cause.Some? ==> !Final(cause.value))
  }

  /** The texts along a chain: those of the wrappers, and at its end the error's own. */
  function Texts(chain: seq<Err>): string {
    if chain == [] then ""
    else
      (match chain[0]
       case Plain(text) => text
       case ErrCanceled => "job canceled"
       case Wrapped(text, _) => text
       case Classified(group, None) => ClassName(group)
       case Classified(_, Some(_)) => "") + Texts(chain[1..])
  }

  lemma {:induction false} MessageIsTexts(e: Err)
    ensures Message(e) == Texts(Chain(e))
  {
    match e
    case Classified(_, Some(inner)) =>
      MessageIsTexts(inner);
      assert Chain(e)[1..] == Chain(inner);
    case Wrapped(_, inner) =>
      MessageIsTexts(inner);
      assert Chain(e)[1..] == Chain(inner);
    case _ => assert Chain(e)[1..] == [];
  }

  /** The job waits again, for as many seconds as it has had attempts but at least one and at most five; or it has
      failed. */
  ghost predicate WaitsOrFailed(copy: Job, cause: Option<Err>, now: Time, row: Job) {
    row.error == (if cause.Some? then Texts(Chain(cause.value)) else "job failed") &&
    if MayRetry(copy, cause) then
      row.status == Queued && row.nextRunAt.Some? && var wait := row.nextRunAt.value - now;
        && 1_000_000_000 <= wait <= 5_000_000_000
        && (1 <= copy.attempts <= 5 ==> wait == copy.attempts * 1_000_000_000)
        && (copy.attempts > 5 ==> wait == 5_000_000_000) && (copy.attempts < 1 ==> wait == 1_000_000_000)
    else row.status == Failed
  }

  lemma FailedWaitsOrFailed(job: Job, cause: Option<Err>, now: Time)
    ensures WillRetry(job, CauseOr(cause)) <==> MayRetry(job, cause)
    ensures var v := FailedOrRetried(job, cause, now); v.Stored? ==> WaitsOrFailed(job, cause, now, v.row)
  {
    RetriesByShape(CauseOr(cause));
    MessageIsTexts(CauseOr(cause));
    assert Chain(Plain("job failed")) == [Plain("job failed")];
  }

  /** In both stores a failure that is stored has requeued the job if the copy may retry, and failed it otherwise; one
      of a running job by its owner with its own copy is stored. */
  lemma FailByShape(row: Job, copy: Job, worker: string, cause: Option<Err>, now: Time)
    ensures var v := MemoryFail(row, copy, worker, cause, now); v.Stored? ==> WaitsOrFailed(copy, cause, now, v.row)
    ensures var v := DbFail(row, copy, worker, cause, now); v.Stored? ==> WaitsOrFailed(copy, cause, now, v.row)
    ensures row.worker == worker && row.status == Running && copy == row ==>
      MemoryFail(row, copy, worker, cause, now).Stored? && DbFail(row, copy, worker, cause, now).Stored?
  {
    FailedWaitsOrFailed(copy, cause, now);
    FailedWaitsOrFailed(copy.(worker := row.worker, lease := row.lease), cause, now);
  }

  // A cancel request and a failing worker.

  /** In the memory store a cancel request is lost exactly when the copy does not know of it and may retry. */
  lemma MemoryFailLosesCancel(row: Job, copy: Job, worker: string, cause: Option<Err>, now: Time)
    requires row.status == CancelRequested && row.worker == worker
    ensures var v := MemoryFail(row, copy, worker, cause, now);
      v.Stored? && v.row.status !in {Canceled, Failed}
      <==> WillRetry(copy, CauseOr(cause)) && Transition(copy.status, Queued)
  {
  }

  /** In the database the row decides: no copy and no cause can requeue it. */
  lemma DbFailKeepsCancel(row: Job, copy: Job, worker: string, cause: Option<Err>, now: Time)
    requires row.status == CancelRequested
    ensures var v := DbFail(row, copy, worker, cause, now); v.Stored? ==> v.row.status == Failed
  {
  }
}
