/** Whole runs of a store: every operation on its map of jobs, seen from each job, is a run of that job alone. */
module StoreRuns {
  import opened Order
  import opened Jobs
  import opened LeaseRows
  import opened LeaseRuns
  import JobStore
  import JobTable

  /** The jobs of a store, each with what is remembered of its leases. */
  type Store = map<string, Run>

  function Rows(s: Store): map<string, Job> {
    map id | id in s :: s[id].row
  }

  datatype Operation =
    | Enqueue(job: Job)
    | LeaseNext(worker: string, kinds: seq<string>, duration: Time, locked: set<string>, leased: Option<string>)
    | On(id: string, event: Event)   // any operation on one job
    | ReleaseExpired

  /** The expired leases of the whole store released, which is how every lease begins. */
  function Released(b: Backend, s: Store, now: Time): Store {
    map id | id in s :: LeaseRuns.Step(b, s[id], At(Expire, now))
  }

  /** The job a store leases next, by its own order. */
  ghost predicate IsNext(b: Backend, rows: map<string, Job>, id: string, kinds: seq<string>, locked: set<string>,
                         now: Time)
  {
    if b.Memory? then JobStore.IsNext(rows, id, kinds, now) else JobTable.IsNext(rows, id, kinds, locked, now)
  }

  ghost predicate Possible(b: Backend, s: Store, o: Operation, now: Time) {
    match o
    case Enqueue(job) => job.id !in s && Fresh(job)
    case LeaseNext(worker, kinds, _, locked, leased) =>
      worker != "" && (leased.Some? ==> IsNext(b, Rows(Released(b, s, now)), leased.value, kinds, locked, now))
    case On(id, event) => id in s && !event.Lease? && !event.Expire? && Allowed(s[id], At(event, now))
    case ReleaseExpired => true
  }

  function Apply(b: Backend, s: Store, o: Operation, now: Time): Store {
    match o
    case Enqueue(job) => s[job.id := Start(job)]
    case LeaseNext(worker, _, duration, _, leased) =>
      var ready := Released(b, s, now);
      if leased.Some? && leased.value in ready then
        ready[leased.value := LeaseRuns.Step(b, ready[leased.value], At(Event.Lease(worker, duration), now))]
      else ready
    case On(id, event) => if id in s then s[id := LeaseRuns.Step(b, s[id], At(event, now))] else s
    case ReleaseExpired => Released(b, s, now)
  }

  ghost predicate Follows(b: Backend, s: Store, run: seq<(Operation, Time)>, t: Store)
    decreases |run|
  {
    if run == [] then s == t
    else Possible(b, s, run[0].0, run[0].1) && Follows(b, Apply(b, s, run[0].0, run[0].1), run[1..], t)
  }

  /** Every write in a run spares the job it writes. */
  ghost predicate WritesSpared(b: Backend, s: Store, run: seq<(Operation, Time)>)
    decreases |run|
  {
    run == []
    || (OperationSpared(s, run[0].0, run[0].1) && WritesSpared(b, Apply(b, s, run[0].0, run[0].1), run[1..]))
  }

  predicate OperationSpared(s: Store, o: Operation, now: Time) {
    o.On? && o.id in s ==> Spared(s[o.id], At(o.event, now))
  }

  // The operations are those of the stores.

  /** What the methods of each store promise to make of one row. */
  function Promised(b: Backend, row: Job, event: Event, now: Time): Verdict {
    match (b, event)
    case (Memory, Heartbeat(worker, duration)) => MemoryHeartbeat(row, worker, now + duration)
    case (Memory, Update(worker, copy)) => MemoryUpdate(row, copy, worker)
    case (Memory, Complete(worker, copy)) => MemoryComplete(row, copy, worker, now)
    case (Memory, Fail(worker, copy, cause)) => MemoryFail(row, copy, worker, cause, now)
    case (Memory, Cancel(worker, copy)) => MemoryCancel(row, copy, worker, now)
    case (Database, Heartbeat(worker, duration)) => DbHeartbeat(row, worker, now + duration)
    case (Database, Update(worker, copy)) => DbUpdate(row, copy, worker)
    case (Database, Complete(worker, copy)) => DbComplete(row, copy, worker, now)
    case (Database, Fail(worker, copy, cause)) => DbFail(row, copy, worker, cause, now)
    case (Database, Cancel(worker, copy)) => DbCancel(row, copy, worker, now)
    case (_, Write(seen, Save(data))) => Stored(seen.(data := data))
    case (_, Write(seen, Retry)) =>
      match RetriedNow(seen, MANUAL, now) { case Some(j) => Stored(j) case None => BadTransition }
    case _ => Stored(AskedToCancel(row, now))
  }

  lemma VerdictIsPromised(b: Backend, row: Job, event: Event, now: Time)
    requires !event.Lease? && !event.Expire?
    ensures VerdictOf(b, row, At(event, now)) == Promised(b, row, event, now)
  {
  }

  /** What an operation does to the rows is what the methods of the store do to them. */
  lemma OperationsAreTheStores(b: Backend, s: Store, o: Operation, now: Time)
    requires Possible(b, s, o, now)
    ensures var rows, after := Rows(s), Rows(Apply(b, s, o, now));
      var released := if b.Memory? then JobStore.ReleasedAll(rows, now) else JobTable.ReleasedAll(rows, now);
      match o
      case Enqueue(job) => after == rows[job.id := job]
      case LeaseNext(worker, _, duration, _, None) => after == released
      case LeaseNext(worker, kinds, duration, locked, Some(id)) =>
        IsNext(b, released, id, kinds, locked, now)
          && after == released[id := Leased(released[id], worker, now, duration)]
      case On(id, event) => after == JobStore.Written(rows, id, Promised(b, rows[id], event, now))
      case ReleaseExpired => after == released
  {
    hide Promised, VerdictOf;
    ReleasedRows(b, s, now);
    match o
    case On(id, event) => VerdictIsPromised(b, s[id].row, event, now);
    case LeaseNext(worker, _, duration, _, Some(id)) =>
      LeaseIsStored(b, Released(b, s, now)[id], worker, duration, now);
    case _ =>
  }

  lemma LeaseIsStored(b: Backend, s: Run, worker: string, duration: Time, now: Time)
    ensures LeaseRuns.Step(b, s, At(Event.Lease(worker, duration), now)).row == Leased(s.row, worker, now, duration)
  {
  }

  lemma ReleasedRows(b: Backend, s: Store, now: Time)
    ensures Rows(Released(b, s, now))
      == if b.Memory? then JobStore.ReleasedAll(Rows(s), now) else JobTable.ReleasedAll(Rows(s), now)
  {
  }

  // Seen from one job.

  /** One operation is at most an expiry check and one more event of a job. */
  lemma OperationOnJob(b: Backend, s: Store, o: Operation, now: Time, id: string) returns (events: seq<Timed>)
    requires Possible(b, s, o, now) && id in s
    ensures id in Apply(b, s, o, now) && Steps(b, s[id], events, Apply(b, s, o, now)[id])
    ensures OperationSpared(s, o, now) ==> AllSpared(b, s[id], events)
  {
    var t := Apply(b, s, o, now)[id];
    match o
    case Enqueue(_) => events := [];
    case ReleaseExpired => events := OneStep(b, s[id], At(Expire, now));
    case On(other, event) =>
      if other == id {
        events := OneStep(b, s[id], At(event, now));
      } else {
        events := [];
      }
    case LeaseNext(worker, _, duration, _, leased) =>
      events := OneStep(b, s[id], At(Expire, now));
      if leased == Some(id) {
        var ready := Released(b, s, now)[id];
        var more := OneStep(b, ready, At(Event.Lease(worker, duration), now));
        StepsJoin(b, s[id], events, ready, more, t);
        SparedJoin(b, s[id], events, ready, more);
        events := events + more;
      }
  }

  /** Every run of a store is, for each of its jobs, a run of that job. */
  lemma {:induction false} RunOnJob(b: Backend, s: Store, run: seq<(Operation, Time)>, t: Store, id: string)
    returns (events: seq<Timed>)
    requires Follows(b, s, run, t) && id in s
    ensures id in t && Steps(b, s[id], events, t[id])
    ensures WritesSpared(b, s, run) ==> AllSpared(b, s[id], events)
    decreases |run|
  {
    if run == [] {
      return [];
    }
    var m := Apply(b, s, run[0].0, run[0].1);
    events := OperationOnJob(b, s, run[0].0, run[0].1, id);
    var more := RunOnJob(b, m, run[1..], t, id);
    StepsJoin(b, s[id], events, m[id], more, t[id]);
    if WritesSpared(b, s, run) {
      SparedJoin(b, s[id], events, m[id], more);
    }
    events := events + more;
  }

  lemma {:induction false} SparedJoin(b: Backend, s: Run, events: seq<Timed>, m: Run, more: seq<Timed>)
    requires Steps(b, s, events, m)
    ensures AllSpared(b, s, events) && AllSpared(b, m, more) ==> AllSpared(b, s, events + more)
    decreases |events|
  {
    if events == [] {
      assert events + more == more;
    } else {
      SparedJoin(b, LeaseRuns.Step(b, s, events[0]), events[1..], m, more);
      assert (events + more)[1..] == events[1..] + more;
    }
  }

  /** Where a job of a store that began empty comes from: it was enqueued, and what happened since is a run of it. */
  lemma {:induction false} JobHasRun(b: Backend, s: Store, run: seq<(Operation, Time)>, t: Store, id: string)
    returns (j: Job, events: seq<Timed>)
    requires Follows(b, s, run, t) && id in t && id !in s
    ensures Fresh(j) && j.id == id && Steps(b, Start(j), events, t[id])
    ensures WritesSpared(b, s, run) ==> AllSpared(b, Start(j), events)
    decreases |run|
  {
    var o, now := run[0].0, run[0].1;
    var m := Apply(b, s, o, now);
    if id in m {
      assert o.Enqueue? && o.job.id == id;
      j := o.job;
      events := RunOnJob(b, m, run[1..], t, id);
    } else {
      j, events := JobHasRun(b, m, run[1..], t, id);
    }
  }

  /** So the accounting holds of every job of every run of a store in which no write does harm. */
  lemma StoreAddsUp(b: Backend, run: seq<(Operation, Time)>, t: Store, id: string)
    requires Follows(b, map[], run, t) && WritesSpared(b, map[], run) && id in t
    ensures AddsUp(t[id]) && LeaseFits(t[id].row)
    ensures t[id].tally.leases <= t[id].row.maxAttempts + t[id].tally.expiries + t[id].tally.operatorRetries
  {
    var j, events := JobHasRun(b, map[], run, t, id);
    FreshIsFine(j);
    RunKeeps(b, Start(j), events, t[id], j.maxAttempts);
  }
}
