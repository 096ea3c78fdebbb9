/** The jobs table of the database: every method is one transaction of guarded row updates. */
module JobTable {
  import opened Order
  import opened Jobs
  import opened LeaseRows
  import JobStore

  /** The order in which kinds are leased. */
  function Priority(kind: string): nat {
    match kind
    case "ai_backfill" => 0
    case "metadata_enrich" => 1
    case "discovery" => 2
    case "hash" => 3
    case "geo_snap" => 4
    case "reverse_geocode" => 5
    case _ => 6
  }

  predicate Before(a: Job, b: Job) {
    Priority(a.kind) < Priority(b.kind) || (Priority(a.kind) == Priority(b.kind) && JobStore.Before(a, b))
  }

  /** The row to lease next among those no other transaction has locked. */
  ghost predicate IsNext(rows: map<string, Job>, id: string, kinds: seq<string>, locked: set<string>, now: Time) {
    && id in rows && id !in locked && JobStore.Leasable(rows[id], kinds, now)
    && forall other ::
         other in rows && other !in locked && JobStore.Leasable(rows[other], kinds, now) && other != id ==>
         Before(rows[id], rows[other])
  }

  /** The kinds that are leased before all others, in this order. */
  const FIRST_KINDS := ["ai_backfill", "metadata_enrich", "discovery", "hash", "geo_snap", "reverse_geocode"]

  /** The first waiting row in its own terms: no waiting row is of an earlier kind, and of those of its kind, or of none
      of these kinds like itself, it is the one created first. */
  ghost predicate IsFirst(rows: map<string, Job>, id: string, kinds: seq<string>, locked: set<string>, now: Time) {
    && id in rows && id !in locked && JobStore.Waits(rows[id], kinds, now)
    && forall other :: other in rows && other !in locked && JobStore.Waits(rows[other], kinds, now) && other != id ==>
         ComesFirst(rows[id], rows[other])
  }

  ghost predicate ComesFirst(a: Job, b: Job) {
    && (b.kind in FIRST_KINDS && a.kind != b.kind ==>
          exists i, k :: 0 <= i < k < |FIRST_KINDS| && FIRST_KINDS[i] == a.kind && FIRST_KINDS[k] == b.kind)
    && (a.kind == b.kind || (a.kind !in FIRST_KINDS && b.kind !in FIRST_KINDS) ==>
          a.createdAt < b.createdAt || (a.createdAt == b.createdAt && Precedes(a.id, b.id)))
  }

  lemma PriorityIsPlace(kind: string)
    ensures if kind in FIRST_KINDS then Priority(kind) < |FIRST_KINDS| && FIRST_KINDS[Priority(kind)] == kind
      else Priority(kind) == |FIRST_KINDS|
    ensures forall i :: 0 <= i < |FIRST_KINDS| && FIRST_KINDS[i] == kind ==> Priority(kind) == i
  {
  }

  lemma BeforeComesFirst(a: Job, b: Job)
    ensures Before(a, b) <==> ComesFirst(a, b)
  {
    PriorityIsPlace(a.kind);
    PriorityIsPlace(b.kind);
    LessIsFirstDifference(a.id, b.id);
  }

  lemma NextIsFirst(rows: map<string, Job>, id: string, kinds: seq<string>, locked: set<string>, now: Time)
    ensures IsNext(rows, id, kinds, locked, now) <==> IsFirst(rows, id, kinds, locked, now)
  {
    forall j: Job ensures JobStore.Leasable(j, kinds, now) <==> JobStore.Waits(j, kinds, now) {
      JobStore.LeasableWaits(j, kinds, now);
    }
    if id in rows {
      forall other | other in rows && other != id
        ensures Before(rows[id], rows[other]) <==> ComesFirst(rows[id], rows[other])
      {
        BeforeComesFirst(rows[id], rows[other]);
      }
    }
  }

  function ReleasedAll(rows: map<string, Job>, now: Time): map<string, Job> {
    map id | id in rows :: DbReleased(rows[id], now)
  }

  lemma BeforeTransitive(a: Job, b: Job, c: Job)
    requires Before(a, b) && Before(b, c)
    ensures Before(a, c)
  {
    if JobStore.Before(a, b) && JobStore.Before(b, c) {
      JobStore.BeforeTransitive(a, b, c);
    }
  }

  lemma BeforeTotal(a: Job, b: Job)
    ensures Before(a, b) || Before(b, a) || a.id == b.id
  {
    JobStore.BeforeTotal(a, b);
  }

  class DatabaseJobs {
    var rows: map<string, Job>

    ghost predicate Valid()
      reads this
    {
      forall id :: id in rows ==> rows[id].id == id
    }

    constructor ()
      ensures Valid() && rows == map[]
    {
      rows := map[];
    }

    /** The insert fails on an id that is taken. */
    method EnqueueJob(job: Job) returns (stored: Option<Job>)
      requires Valid()
      modifies this
      ensures Valid()
      ensures stored.None? <==> job.id in old(rows)
      ensures stored.Some? ==> stored.value == job.(maxAttempts := if job.maxAttempts <= 0 then 3 else job.maxAttempts)
      ensures rows == if stored.Some? then old(rows)[job.id := stored.value] else old(rows)
    {
      if job.id in rows {
        return None;
      }
      var row := job;
      if row.maxAttempts <= 0 {
        row := row.(maxAttempts := 3);
      }
      rows := rows[row.id := row];
      return Some(row);
    }

    /** No guard but the id: every column but those that never change comes from the job handed over. */
    method UpdateJob(job: Job) returns (found: bool)
      requires Valid()
      modifies this
      ensures Valid()
      ensures found == (job.id in old(rows))
      ensures found ==> job.id in rows && LeaseOf(rows[job.id]) == LeaseOf(job) && rows[job.id].attempts == job.attempts
      ensures rows == if !found then old(rows)
        else old(rows)[job.id := job.(kind := old(rows)[job.id].kind, createdAt := old(rows)[job.id].createdAt)]
    {
      if job.id !in rows {
        return false;
      }
      var row := rows[job.id].(status := job.status);
      row := row.(data := job.data);
      row := row.(attempts := job.attempts);
      row := row.(maxAttempts := job.maxAttempts);
      row := row.(worker := job.worker);
      row := row.(lease := job.lease);
      row := row.(cancelRequestedAt := job.cancelRequestedAt);
      row := row.(nextRunAt := job.nextRunAt);
      row := row.(startedAt := job.startedAt);
      row := row.(finishedAt := job.finishedAt);
      row := row.(error := job.error);
      row := row.(logs := job.logs);
      rows := rows[job.id := row];
      return true;
    }

    method LeaseNextJob(worker: string, kinds: seq<string>, duration: Time, locked: set<string>, now: Time)
      returns (leased: Option<Job>)
      requires Valid()
      modifies this
      ensures Valid()
      ensures worker == "" ==> leased.None? && rows == old(rows)
      ensures worker != "" ==>
        var ready := ReleasedAll(old(rows), now);
        match leased
        case None =>
          rows == ready && forall id :: id in ready && id !in locked ==> !JobStore.Waits(ready[id], kinds, now)
        case Some(j) =>
          && IsNext(ready, j.id, kinds, locked, now) && IsFirst(ready, j.id, kinds, locked, now)
          && j == Leased(ready[j.id], worker, now, duration) && rows == ready[j.id := j]
    {
      if worker == "" {
        return None;
      }
      var _ := ReleaseExpiredLeases(now);
      var first := FirstRow(kinds, locked, now);
      if first.None? {
        forall id | id in rows
          ensures JobStore.Leasable(rows[id], kinds, now) <==> JobStore.Waits(rows[id], kinds, now)
        {
          JobStore.LeasableWaits(rows[id], kinds, now);
        }
        return None;
      }
      NextIsFirst(rows, first.value, kinds, locked, now);
      var row := Leased(rows[first.value], worker, now, duration);
      rows := rows[first.value := row];
      return Some(row);
    }

    /** The query: order by priority, created_at and id, skip locked rows, limit 1. */
    method FirstRow(kinds: seq<string>, locked: set<string>, now: Time) returns (first: Option<string>)
      requires Valid()
      ensures match first
        case None => forall id :: id in rows && id !in locked ==> !JobStore.Leasable(rows[id], kinds, now)
        case Some(id) => IsNext(rows, id, kinds, locked, now)
    {
      first := None;
      var todo := rows.Keys - locked;
      while todo != {}
        invariant todo <= rows.Keys
        invariant first.Some? ==>
          first.value in rows && first.value !in locked && JobStore.Leasable(rows[first.value], kinds, now)
        invariant forall id :: id in rows && id !in locked && id !in todo && JobStore.Leasable(rows[id], kinds, now) ==>
          first.Some? && (id == first.value || Before(rows[first.value], rows[id]))
        decreases todo
      {
        var id :| id in todo;
        todo := todo - {id};
        if JobStore.Leasable(rows[id], kinds, now) {
          if first.None? || Before(rows[id], rows[first.value]) {
            if first.Some? {
              forall other: Job | Before(rows[first.value], other) ensures Before(rows[id], other) {
                BeforeTransitive(rows[id], rows[first.value], other);
              }
            }
            first := Some(id);
          } else {
            BeforeTotal(rows[id], rows[first.value]);
          }
        }
      }
    }

    method HeartbeatJob(id: string, worker: string, duration: Time, now: Time) returns (v: Verdict)
      requires Valid()
      modifies this
      ensures Valid()
      ensures v == if id in old(rows) then DbHeartbeat(old(rows)[id], worker, now + duration) else LeaseLost
      ensures rows == JobStore.Written(old(rows), id, v)
    {
      if id !in rows || !Owned(rows[id], worker) {
        return LeaseLost;
      }
      v := Stored(rows[id].(lease := Some(now + duration)));
      rows := rows[id := v.row];
    }

    /** The columns are set one by one, as the statement lists them. A cancel request survives unless the copy itself
        says that the job is waiting or over; its time is never lost. */
    method UpdateLeasedJob(copy: Job, worker: string) returns (v: Verdict)
      requires Valid()
      modifies this
      ensures Valid()
      ensures v.Stored? <==> copy.id in old(rows) && Owned(old(rows)[copy.id], worker)
      ensures v.Stored? && old(rows)[copy.id].status == CancelRequested
        ==> (v.row.status == CancelRequested <==> Active(copy.status))
      ensures v.Stored? && old(rows)[copy.id].cancelRequestedAt.Some?
        ==> v.row.cancelRequestedAt == old(rows)[copy.id].cancelRequestedAt
      ensures v.Stored? ==> v.row.worker == worker && v.row.lease == old(rows)[copy.id].lease
      ensures v == if copy.id in old(rows) then DbUpdate(old(rows)[copy.id], copy, worker) else LeaseLost
      ensures rows == JobStore.Written(old(rows), copy.id, v)
    {
      if copy.id !in rows || !Owned(rows[copy.id], worker) {
        return LeaseLost;
      }
      var row := rows[copy.id];
      if !(row.status == CancelRequested && copy.status == Running) {
        row := row.(status := copy.status);
      }
      row := row.(data := copy.data);
      row := row.(attempts := copy.attempts);
      row := row.(maxAttempts := copy.maxAttempts);
      if row.cancelRequestedAt.None? {
        row := row.(cancelRequestedAt := copy.cancelRequestedAt);
      }
      row := row.(nextRunAt := copy.nextRunAt);
      row := row.(startedAt := copy.startedAt);
      row := row.(finishedAt := copy.finishedAt);
      row := row.(error := copy.error);
      row := row.(logs := copy.logs);
      rows := rows[copy.id := row];
      return Stored(row);
    }

    /** finishLeasedJob: zero affected rows is a lost lease. What is written is the job as it was handed over, without a
        worker and without a lease. */
    method FinishLeasedJob(job: Job, worker: string, allowed: set<Status>) returns (v: Verdict)
      requires Valid()
      modifies this
      ensures Valid()
      ensures v.Stored? <==>
        job.id in old(rows) && old(rows)[job.id].worker == worker && old(rows)[job.id].status in allowed
      ensures v.Stored? ==>
        LeaseOf(v.row) == Lease(job.status, "", None) && v.row.cancelRequestedAt == job.cancelRequestedAt
      ensures v == if job.id in old(rows) then DbFinish(old(rows)[job.id], job, worker, allowed) else LeaseLost
      ensures rows == JobStore.Written(old(rows), job.id, v)
    {
      if job.id !in rows || rows[job.id].worker != worker || rows[job.id].status !in allowed {
        return LeaseLost;
      }
      var row := rows[job.id].(status := job.status);
      row := row.(data := job.data);
      row := row.(attempts := job.attempts);
      row := row.(maxAttempts := job.maxAttempts);
      row := row.(worker := "");
      row := row.(lease := None);
      row := row.(cancelRequestedAt := job.cancelRequestedAt);
      row := row.(nextRunAt := job.nextRunAt);
      row := row.(startedAt := job.startedAt);
      row := row.(finishedAt := job.finishedAt);
      row := row.(error := job.error);
      row := row.(logs := job.logs);
      rows := rows[job.id := row];
      return Stored(row);
    }

    method CompleteLeasedJob(copy: Job, worker: string, now: Time) returns (v: Verdict)
      requires Valid()
      modifies this
      ensures Valid()
      ensures copy.id in old(rows) ==> v == DbComplete(old(rows)[copy.id], copy, worker, now)
      ensures copy.id !in old(rows) ==> !v.Stored?
      ensures rows == JobStore.Written(old(rows), copy.id, v)
    {
      var ref := new JobRef(copy);
      var ok := ref.Complete(now);
      if !ok {
        return BadTransition;
      }
      v := FinishLeasedJob(ref.job, worker, {Running});
    }

    method FailLeasedJob(copy: Job, worker: string, cause: Option<Err>, now: Time) returns (v: Verdict)
      requires Valid()
      modifies this
      ensures Valid()
      ensures v.Stored? ==> WaitsOrFailed(copy, cause, now, v.row)
      ensures copy.id in old(rows) && copy == old(rows)[copy.id] && copy.worker == worker && copy.status == Running ==>
        v.Stored?
      ensures copy.id in old(rows) ==> v == DbFail(old(rows)[copy.id], copy, worker, cause, now)
      ensures copy.id !in old(rows) ==> !v.Stored?
      ensures rows == JobStore.Written(old(rows), copy.id, v)
    {
      if copy.id in rows {
        FailByShape(rows[copy.id], copy, worker, cause, now);
      }
      var job, allowed := FailCopy(copy, cause, now);
      if job.None? {
        return BadTransition;
      }
      v := FinishLeasedJob(job.value, worker, allowed);
    }

    /** What failing makes of the copy, and the statuses a row may have for it. */
    static method FailCopy(copy: Job, cause: Option<Err>, now: Time) returns (job: Option<Job>, allowed: set<Status>)
      ensures FailedOrRetried(copy, cause, now) == if job.Some? then Stored(job.value) else BadTransition
      ensures job.Some? ==> job.value.id == copy.id
      ensures job.Some? ==>
        allowed == if WillRetry(copy, CauseOr(cause)) then {Running} else {Running, CancelRequested}
    {
      var e := CauseOr(cause);
      var maxAttempts := if copy.maxAttempts <= 0 then 1 else copy.maxAttempts;
      var ref := new JobRef(copy);
      if copy.attempts < maxAttempts && copy.status != CancelRequested && ShouldRetry(e) {
        var delay := copy.attempts;
        if delay <= 0 {
          delay := 1;
        }
        if delay > 5 {
          delay := 5;
        }
        var ok := ref.Retry(now + delay * SECOND, Some(Message(e)));
        if !ok {
          return None, {};
        }
        ref.AddLog("warn", Message(e), now);
        return Some(ref.job), {Running};
      }
      var ok := ref.Fail(Some(Message(e)), now);
      if !ok {
        return None, {};
      }
      ref.AddLog("error", Message(e), now);
      return Some(ref.job), {Running, CancelRequested};
    }

    method CancelLeasedJob(copy: Job, worker: string, now: Time) returns (v: Verdict)
      requires Valid()
      modifies this
      ensures Valid()
      ensures copy.id in old(rows) ==> v == DbCancel(old(rows)[copy.id], copy, worker, now)
      ensures copy.id !in old(rows) ==> !v.Stored?
      ensures rows == JobStore.Written(old(rows), copy.id, v)
    {
      var ref := new JobRef(copy);
      var ok := ref.Cancel(now);
      if !ok {
        return BadTransition;
      }
      ref.AddLog("info", "job canceled", now);
      v := FinishLeasedJob(ref.job, worker, {Running, CancelRequested});
    }

    method RequestCancelJob(id: string, now: Time) returns (v: Verdict)
      requires Valid()
      modifies this
      ensures Valid()
      ensures v == if id in old(rows) then Stored(AskedToCancel(old(rows)[id], now)) else Missing
      ensures rows == JobStore.Written(old(rows), id, v)
    {
      if id !in rows {
        return Missing;
      }
      var ref := new JobRef(rows[id]);
      ref.RequestCancel(now);
      ref.AddLog("info", "cancellation requested", now);
      rows := rows[id := ref.job];
      return Stored(ref.job);
    }

    /** One statement over all rows. Afterwards no lease is expired; a running job waits again, one asked to cancel is
        canceled, and every other row is as it was. */
    method ReleaseExpiredLeases(now: Time) returns (released: nat)
      requires Valid()
      modifies this
      ensures Valid() && rows.Keys == old(rows.Keys)
      ensures forall id :: id in rows ==> !Expired(rows[id], now)
      ensures forall id :: id in rows && !Expired(old(rows)[id], now) ==> rows[id] == old(rows)[id]
      ensures forall id :: id in rows && Expired(old(rows)[id], now) ==>
        LeaseOf(rows[id]) == Lease(if old(rows)[id].status == CancelRequested then Canceled else Queued, "", None)
      ensures rows == ReleasedAll(old(rows), now)
      ensures released == |JobStore.ExpiredIds(old(rows), now)|
    {
      var expired := JobStore.ExpiredIds(rows, now);
      rows := map id | id in rows ::
        if id !in expired then rows[id]
        else if rows[id].status == CancelRequested then
          rows[id].(status := Canceled, worker := "", lease := None, finishedAt := Some(now))
        else
          rows[id].(status := Queued, worker := "", lease := None, nextRunAt := Some(now),
                    error := if rows[id].error == "" then EXPIRED else rows[id].error);
      return |expired|;
    }
  }
}
