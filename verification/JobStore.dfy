/** The job half of the memory store: a map of jobs that every method updates under one lock. */
module JobStore {
  import opened Order
  import opened Jobs
  import opened LeaseRows

  /** First created, then smaller id. */
  predicate Before(a: Job, b: Job) {
    a.createdAt < b.createdAt || (a.createdAt == b.createdAt && Less(a.id, b.id))
  }

  predicate Leasable(j: Job, kinds: seq<string>, now: Time) {
    Ready(j, now) && KindAllowed(j.kind, kinds)
  }

  /** The job to lease next: leasable, and none that is comes before it. */
  ghost predicate IsNext(jobs: map<string, Job>, id: string, kinds: seq<string>, now: Time) {
    && id in jobs && Leasable(jobs[id], kinds, now)
    && forall other :: other in jobs && Leasable(jobs[other], kinds, now) && other != id
        ==> Before(jobs[id], jobs[other])
  }

  /** The same in the job's own terms: it waits, its time has come, its kind is asked for, and of all such jobs it is
      the one created first; of those created at the same time, the one whose id has the smaller first difference. */
  ghost predicate IsOldest(jobs: map<string, Job>, id: string, kinds: seq<string>, now: Time) {
    && id in jobs && Waits(jobs[id], kinds, now)
    && forall other :: other in jobs && Waits(jobs[other], kinds, now) && other != id ==>
         jobs[id].createdAt < jobs[other].createdAt
         || (jobs[id].createdAt == jobs[other].createdAt && Precedes(jobs[id].id, jobs[other].id))
  }

  predicate Waits(j: Job, kinds: seq<string>, now: Time) {
    && j.status == Queued && (j.nextRunAt == None || j.nextRunAt.value <= now)
    && (|kinds| > 0 ==> exists i :: 0 <= i < |kinds| && kinds[i] == j.kind)
  }

  lemma LeasableWaits(j: Job, kinds: seq<string>, now: Time)
    ensures Leasable(j, kinds, now) <==> Waits(j, kinds, now)
  {
  }

  lemma NextIsOldest(jobs: map<string, Job>, id: string, kinds: seq<string>, now: Time)
    ensures IsNext(jobs, id, kinds, now) <==> IsOldest(jobs, id, kinds, now)
  {
    forall j: Job ensures Leasable(j, kinds, now) <==> Waits(j, kinds, now) {
      LeasableWaits(j, kinds, now);
    }
    if id in jobs {
      forall other | other in jobs
        ensures Less(jobs[id].id, jobs[other].id) <==> Precedes(jobs[id].id, jobs[other].id)
      {
        LessIsFirstDifference(jobs[id].id, jobs[other].id);
      }
    }
  }

  /** At most one job is next, so the order in which a map is walked cannot matter. */
  lemma NextIsUnique(jobs: map<string, Job>, a: string, b: string, kinds: seq<string>, now: Time)
    requires IsNext(jobs, a, kinds, now) && IsNext(jobs, b, kinds, now)
    ensures a == b
  {
    if a != b {
      if jobs[a].createdAt == jobs[b].createdAt {
        LessAsymmetric(jobs[a].id, jobs[b].id);
      }
      assert false;
    }
  }

  /** Every expired lease released. */
  function ReleasedAll(jobs: map<string, Job>, now: Time): map<string, Job> {
    map id | id in jobs :: MemoryReleased(jobs[id], now)
  }

  lemma ReleasedKeepsIds(jobs: map<string, Job>, now: Time)
    ensures ReleasedAll(jobs, now).Keys == jobs.Keys
    ensures forall id :: id in jobs ==> ReleasedAll(jobs, now)[id].id == jobs[id].id
  {
  }

  function ExpiredIds(jobs: map<string, Job>, now: Time): set<string> {
    set id | id in jobs && Expired(jobs[id], now)
  }

  /** A row update as a map update. */
  function Written(jobs: map<string, Job>, id: string, v: Verdict): map<string, Job> {
    if v.Stored? then jobs[id := v.row] else jobs
  }

  class MemoryJobs {
    var jobs: map<string, Job>

    /** Every job is stored under its own id. */
    ghost predicate Valid()
      reads this
    {
      forall id :: id in jobs ==> jobs[id].id == id
    }

    constructor ()
      ensures Valid() && jobs == map[]
    {
      jobs := map[];
    }

    method EnqueueJob(job: Job) returns (stored: Job)
      requires Valid()
      modifies this
      ensures Valid()
      ensures stored == job.(maxAttempts := if job.maxAttempts <= 0 then 3 else job.maxAttempts)
      ensures jobs == old(jobs)[job.id := stored]
    {
      stored := job;
      if stored.maxAttempts <= 0 {
        stored := stored.(maxAttempts := 3);
      }
      jobs := jobs[stored.id := stored];
    }

    method UpdateJob(job: Job) returns (found: bool)
      requires Valid()
      modifies this
      ensures Valid()
      ensures found == (job.id in old(jobs))
      ensures jobs == if found then old(jobs)[job.id := job] else old(jobs)
    {
      found := job.id in jobs;
      if found {
        jobs := jobs[job.id := job];
      }
    }

    method LeaseNextJob(worker: string, kinds: seq<string>, duration: Time, now: Time) returns (leased: Option<Job>)
      requires Valid()
      modifies this
      ensures Valid()
      ensures var ready := ReleasedAll(old(jobs), now);
        match leased
        case None => jobs == ready && forall id :: id in ready ==> !Waits(ready[id], kinds, now)
        case Some(j) =>
          && IsNext(ready, j.id, kinds, now) && IsOldest(ready, j.id, kinds, now)
          && j == Leased(ready[j.id], worker, now, duration) && jobs == ready[j.id := j]
    {
      var _ := ReleaseExpiredLeases(now);
      var selected: Option<Job> := None;
      var todo := jobs.Keys;
      while todo != {}
        invariant Valid() && jobs == ReleasedAll(old(jobs), now) && todo <= jobs.Keys
        invariant selected.Some? ==>
          selected.value.id in jobs && jobs[selected.value.id] == selected.value && Leasable(selected.value, kinds, now)
        invariant forall id :: id in jobs && id !in todo && Leasable(jobs[id], kinds, now) ==>
          selected.Some? && (id == selected.value.id || Before(selected.value, jobs[id]))
        decreases todo
      {
        var id :| id in todo;
        todo := todo - {id};
        var job := jobs[id];
        if job.status != Queued { continue; }
        if job.nextRunAt.Some? && job.nextRunAt.value > now { continue; }
        if !KindAllowed(job.kind, kinds) { continue; }
        if selected.None? || Before(job, selected.value) {
          if selected.Some? {
            forall other: Job | Before(selected.value, other) ensures Before(job, other) {
              BeforeTransitive(job, selected.value, other);
            }
          }
          selected := Some(job);
        } else {
          BeforeTotal(job, selected.value);
        }
      }
      if selected.None? {
        forall id | id in jobs ensures !Waits(jobs[id], kinds, now) {
          LeasableWaits(jobs[id], kinds, now);
        }
        return None;
      }
      var job := selected.value;
      NextIsOldest(jobs, job.id, kinds, now);
      job := job.(status := Running);
      job := job.(worker := worker);
      job := job.(lease := Some(now + duration));
      if job.startedAt.None? {
        job := job.(startedAt := Some(now));
      }
      job := job.(attempts := job.attempts + 1);
      job := job.(nextRunAt := None);
      job := job.(error := "");
      jobs := jobs[job.id := job];
      return Some(job);
    }

    method HeartbeatJob(id: string, worker: string, duration: Time, now: Time) returns (v: Verdict)
      requires Valid()
      modifies this
      ensures Valid()
      ensures v == if id in old(jobs) then MemoryHeartbeat(old(jobs)[id], worker, now + duration) else Missing
      ensures jobs == Written(old(jobs), id, v)
    {
      if id !in jobs {
        return Missing;
      }
      var job := jobs[id];
      if job.worker != worker || (job.status != Running && job.status != CancelRequested) {
        return LeaseLost;
      }
      job := job.(lease := Some(now + duration));
      jobs := jobs[id := job];
      return Stored(job);
    }

    method UpdateLeasedJob(copy: Job, worker: string) returns (v: Verdict)
      requires Valid()
      modifies this
      ensures Valid()
      ensures v.Stored? && copy.id in old(jobs) && old(jobs)[copy.id].status == CancelRequested
        ==> (v.row.status == CancelRequested <==> Active(copy.status))
      ensures v == if copy.id in old(jobs) then MemoryUpdate(old(jobs)[copy.id], copy, worker) else Missing
      ensures jobs == Written(old(jobs), copy.id, v)
    {
      if copy.id !in jobs {
        return Missing;
      }
      var current, job := jobs[copy.id], copy;
      if current.worker != worker || (current.status != Running && current.status != CancelRequested) {
        return LeaseLost;
      }
      if current.status == CancelRequested && job.status == Running {
        job := job.(status := CancelRequested);
        job := job.(cancelRequestedAt := current.cancelRequestedAt);
      }
      job := job.(worker := current.worker);
      job := job.(lease := current.lease);
      jobs := jobs[job.id := job];
      return Stored(job);
    }

    method CompleteLeasedJob(copy: Job, worker: string, now: Time) returns (v: Verdict)
      requires Valid()
      modifies this
      ensures Valid()
      ensures v == if copy.id in old(jobs) then MemoryComplete(old(jobs)[copy.id], copy, worker, now) else Missing
      ensures jobs == Written(old(jobs), copy.id, v)
    {
      if copy.id !in jobs {
        return Missing;
      }
      var current := jobs[copy.id];
      if current.worker != worker || current.status != Running {
        return LeaseLost;
      }
      var ref := new JobRef(copy.(worker := current.worker, lease := current.lease));
      var ok := ref.Complete(now);
      if !ok {
        return BadTransition;
      }
      jobs := jobs[ref.job.id := ref.job];
      return Stored(ref.job);
    }

    method FailLeasedJob(copy: Job, worker: string, cause: Option<Err>, now: Time) returns (v: Verdict)
      requires Valid()
      modifies this
      ensures Valid()
      ensures v.Stored? ==> WaitsOrFailed(copy, cause, now, v.row)
      ensures copy.id in old(jobs) && copy == old(jobs)[copy.id] && copy.worker == worker && copy.status == Running ==>
        v.Stored?
      ensures v == if copy.id in old(jobs) then MemoryFail(old(jobs)[copy.id], copy, worker, cause, now) else Missing
      ensures jobs == Written(old(jobs), copy.id, v)
    {
      if copy.id !in jobs {
        return Missing;
      }
      var current := jobs[copy.id];
      if current.worker != worker || (current.status != Running && current.status != CancelRequested) {
        return LeaseLost;
      }
      FailByShape(current, copy, worker, cause, now);
      var job := copy.(worker := current.worker, lease := current.lease);
      v := FailLeasedLocked(job, cause, now);
    }

    /** The rest of FailLeasedJob, on the copy with the row's worker and lease. */
    method FailLeasedLocked(job: Job, cause: Option<Err>, now: Time) returns (v: Verdict)
      requires Valid()
      modifies this
      ensures Valid()
      ensures v == FailedOrRetried(job, cause, now) && jobs == Written(old(jobs), job.id, v)
    {
      var e := CauseOr(cause);
      var maxAttempts := if job.maxAttempts <= 0 then 1 else job.maxAttempts;
      var ref := new JobRef(job);
      if job.attempts < maxAttempts && job.status != CancelRequested && ShouldRetry(e) {
        var ok := ref.Retry(now + RetryDelay(job.attempts), Some(Message(e)));
        if !ok {
          return BadTransition;
        }
        ref.AddLog("warn", Message(e), now);
      } else {
        var ok := ref.Fail(Some(Message(e)), now);
        if !ok {
          return BadTransition;
        }
        ref.AddLog("error", Message(e), now);
      }
      jobs := jobs[ref.job.id := ref.job];
      return Stored(ref.job);
    }

    method CancelLeasedJob(copy: Job, worker: string, now: Time) returns (v: Verdict)
      requires Valid()
      modifies this
      ensures Valid()
      ensures v == if copy.id in old(jobs) then MemoryCancel(old(jobs)[copy.id], copy, worker, now) else Missing
      ensures jobs == Written(old(jobs), copy.id, v)
    {
      if copy.id !in jobs {
        return Missing;
      }
      var current := jobs[copy.id];
      if current.worker != worker || (current.status != Running && current.status != CancelRequested) {
        return LeaseLost;
      }
      var ref := new JobRef(copy.(worker := current.worker, lease := current.lease));
      var ok := ref.Cancel(now);
      if !ok {
        return BadTransition;
      }
      jobs := jobs[ref.job.id := ref.job];
      return Stored(ref.job);
    }

    method RequestCancelJob(id: string, now: Time) returns (v: Verdict)
      requires Valid()
      modifies this
      ensures Valid()
      ensures v == if id in old(jobs) then Stored(AskedToCancel(old(jobs)[id], now)) else Missing
      ensures jobs == Written(old(jobs), id, v)
    {
      if id !in jobs {
        return Missing;
      }
      var ref := new JobRef(jobs[id]);
      ref.RequestCancel(now);
      ref.AddLog("info", "cancellation requested", now);
      jobs := jobs[id := ref.job];
      return Stored(ref.job);
    }

    /** Walks the map in any order while writing to it; the result is the same for every order. */
    method ReleaseExpiredLeases(now: Time) returns (released: nat)
      requires Valid()
      modifies this
      ensures Valid()
      ensures jobs == ReleasedAll(old(jobs), now)
      ensures released == |ExpiredIds(old(jobs), now)|
    {
      hide MemoryReleased, Expired;
      released := 0;
      var todo := jobs.Keys;
      ghost var expired: set<string>, goal := {}, ReleasedAll(jobs, now);
      ReleasedKeepsIds(jobs, now);
      ghost var all := ExpiredIds(jobs, now);
      while todo != {}
        invariant jobs.Keys == goal.Keys && todo <= jobs.Keys
        invariant forall id :: id in jobs ==> jobs[id] == if id in todo then old(jobs)[id] else goal[id]
        invariant forall id :: id in expired <==> id in jobs && id !in todo && id in all
        invariant released == |expired|
        decreases todo
      {
        var id :| id in todo;
        todo := todo - {id};
        var hit := ReleaseIfExpired(id, now);
        if hit {
          released, expired := released + 1, expired + {id};
        }
      }
      assert expired == all;
    }

    /** One round of the loop. */
    method ReleaseIfExpired(id: string, now: Time) returns (hit: bool)
      requires id in jobs
      modifies this
      ensures hit == Expired(old(jobs)[id], now)
      ensures jobs == old(jobs)[id := MemoryReleased(old(jobs)[id], now)]
    {
      var job := jobs[id];
      if job.status != Running && job.status != CancelRequested {
        return false;
      }
      if job.lease.None? {
        if job.status != CancelRequested {
          return false;
        }
      } else if !(job.lease.value < now) {
        return false;
      }
      var ref := new JobRef(job);
      if job.status == CancelRequested {
        var _ := ref.Cancel(now);
        // Cancel has cleared the lease, so the second message is never the one logged.
        var unowned := ref.job.lease.None?;
        ref.AddLog("warn", if unowned then "unowned cancellation request finalized"
                           else "expired lease cancelled after cancellation request", now);
      } else {
        job := job.(status := Queued);
        job := job.(worker := "");
        job := job.(lease := None);
        job := job.(nextRunAt := Some(now));
        if job.error == "" {
          job := job.(error := "job lease expired; retry queued");
        }
        ref := new JobRef(job);
        ref.AddLog("warn", "expired lease returned to queue", now);
      }
      jobs := jobs[id := ref.job];
      return true;
    }
  }

  lemma BeforeTransitive(a: Job, b: Job, c: Job)
    requires Before(a, b) && Before(b, c)
    ensures Before(a, c)
  {
    if a.createdAt == b.createdAt == c.createdAt {
      LessTransitive(a.id, b.id, c.id);
    }
  }

  lemma BeforeTotal(a: Job, b: Job)
    ensures Before(a, b) || Before(b, a) || (a.createdAt == b.createdAt && a.id == b.id)
  {
    LessTotal(a.id, b.id);
  }
}
