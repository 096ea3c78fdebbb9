/**
 Whole runs of the lease protocol on one job: any interleaving of leases, worker calls with copies
 that may be stale, cancel requests, expiries, and writes of a handler that has read the job earlier,
 in either store.
 */
module LeaseRuns {
  import opened Order
  import opened Jobs
  import opened LeaseRows

  datatype Backend = Memory | Database

  /** What a worker remembers of its last lease of the job. */
  datatype Ticket = Ticket(attempts: int, maxAttempts: int)

  /** How the leases of the job ended, and how often an operator retried it. */
  datatype Tally = Tally(
    leases: nat, completions: nat, failures: nat, retries: nat, cancels: nat, expiries: nat, operatorRetries: nat)

  /** The row, the tickets, the tally, and every row there has been: what a handler may have read. */
  datatype Run = Run(row: Job, held: map<string, Ticket>, tally: Tally, past: set<Job>)

  /** What a handler does to the job it has read before it writes it back without a lease. */
  datatype Change = Retry | Save(data: int)

  datatype Event =
    | Lease(worker: string, duration: Time)
    | Heartbeat(worker: string, duration: Time)
    | Update(worker: string, copy: Job)
    | Complete(worker: string, copy: Job)
    | Fail(worker: string, copy: Job, cause: Option<Err>)
    | Cancel(worker: string, copy: Job)
    | RequestCancel
    | Expire
    | Write(seen: Job, change: Change)

  /** An event with the clock reading it happens at; clocks need not agree. */
  datatype Timed = At(event: Event, now: Time)

  /** A copy from the worker's last lease, with whatever it has learned of a cancel request since. */
  predicate Genuine(s: Run, worker: string, copy: Job) {
    && worker in s.held && copy.id == s.row.id && Active(copy.status)
    && copy.attempts == s.held[worker].attempts && copy.maxAttempts == s.held[worker].maxAttempts
    && (copy.status == CancelRequested ==> WasAsked(s, copy.attempts))
  }

  /** A worker knows of a cancel request only by reading the row during its lease. */
  predicate WasAsked(s: Run, attempts: int) {
    exists p :: p in s.past && p.status == CancelRequested && p.attempts == attempts
  }

  /** The handler of a retry refuses every other status, with or without force. */
  predicate RetryAllowed(seen: Job) { seen.status in {Failed, Canceled} }

  predicate Allowed(s: Run, t: Timed) {
    match t.event
    case Lease(worker, _) => worker != "" && Ready(s.row, t.now)
    case Update(worker, copy) => Genuine(s, worker, copy)
    case Complete(worker, copy) => Genuine(s, worker, copy)
    case Fail(worker, copy, _) => Genuine(s, worker, copy)
    case Cancel(worker, copy) => Genuine(s, worker, copy)
    case Write(seen, change) => seen in s.past && (change.Retry? ==> RetryAllowed(seen))
    case _ => true
  }

  function VerdictOf(b: Backend, row: Job, t: Timed): Verdict {
    match t.event
    case Lease(worker, duration) => Stored(Leased(row, worker, t.now, duration))
    case Heartbeat(worker, duration) =>
      if b.Memory? then MemoryHeartbeat(row, worker, t.now + duration) else DbHeartbeat(row, worker, t.now + duration)
    case Update(worker, copy) => if b.Memory? then MemoryUpdate(row, copy, worker) else DbUpdate(row, copy, worker)
    case Complete(worker, copy) =>
      if b.Memory? then MemoryComplete(row, copy, worker, t.now) else DbComplete(row, copy, worker, t.now)
    case Fail(worker, copy, cause) =>
      if b.Memory? then MemoryFail(row, copy, worker, cause, t.now) else DbFail(row, copy, worker, cause, t.now)
    case Cancel(worker, copy) =>
      if b.Memory? then MemoryCancel(row, copy, worker, t.now) else DbCancel(row, copy, worker, t.now)
    case RequestCancel => Stored(AskedToCancel(row, t.now))
    case Expire => Stored(if b.Memory? then MemoryReleased(row, t.now) else DbReleased(row, t.now))
    case Write(seen, change) =>
      if change.Retry? then OperatorRetried(seen, t.now) else Stored(seen.(data := change.data))
  }

  /** The tally after an event that stored a row with the given status. */
  function Counted(tally: Tally, before: Job, t: Timed, status: Status): Tally {
    match t.event
    case Lease(_, _) => tally.(leases := tally.leases + 1)
    case Complete(_, _) => tally.(completions := tally.completions + 1)
    case Fail(_, _, _) =>
      if status == Queued then tally.(retries := tally.retries + 1) else tally.(failures := tally.failures + 1)
    case Cancel(_, _) => tally.(cancels := tally.cancels + 1)
    case Expire => if Expired(before, t.now) then tally.(expiries := tally.expiries + 1) else tally
    case Write(_, change) => if change.Retry? then tally.(operatorRetries := tally.operatorRetries + 1) else tally
    case _ => tally
  }

  function Step(b: Backend, s: Run, t: Timed): Run {
    match VerdictOf(b, s.row, t)
    case Stored(row) =>
      var held := if t.event.Lease? then s.held[t.event.worker := Ticket(row.attempts, row.maxAttempts)] else s.held;
      Run(row, held, Counted(s.tally, s.row, t, row.status), s.past + {row})
    case _ => s
  }

  /** A job as it is enqueued. */
  predicate Fresh(j: Job) {
    j.status == Queued && j.attempts == 0 && j.maxAttempts >= 1 && j.worker == "" && j.lease.None?
  }

  function Start(j: Job): Run { Run(j, map[], Tally(0, 0, 0, 0, 0, 0, 0), {j}) }

  ghost predicate Steps(b: Backend, s: Run, events: seq<Timed>, t: Run)
    decreases |events|
  {
    if events == [] then s == t
    else Allowed(s, events[0]) && Steps(b, Step(b, s, events[0]), events[1..], t)
  }

  lemma {:induction false} StepsJoin(b: Backend, s: Run, events: seq<Timed>, m: Run, more: seq<Timed>, t: Run)
    requires Steps(b, s, events, m) && Steps(b, m, more, t)
    ensures Steps(b, s, events + more, t)
    decreases |events|
  {
    if events == [] {
      assert events + more == more;
    } else {
      StepsJoin(b, Step(b, s, events[0]), events[1..], m, more, t);
      assert (events + more)[1..] == events[1..] + more;
    }
  }

  lemma Then(b: Backend, s: Run, events: seq<Timed>, m: Run, t: Timed)
    requires Steps(b, s, events, m) && Allowed(m, t)
    ensures Steps(b, s, events + [t], Step(b, m, t))
  {
    assert [t][1..] == [];
    StepsJoin(b, s, events, m, [t], Step(b, m, t));
  }

  /** An operator can retry a job as it is exactly if it has failed or was canceled; it then waits without a delay. */
  lemma EndedJobsCanBeRetried(b: Backend, s: Run, now: Time)
    requires s.row in s.past
    ensures var retry := At(Write(s.row, Retry), now);
      && (Allowed(s, retry) <==> s.row.status == Failed || s.row.status == Canceled)
      && (Allowed(s, retry) ==>
            var row := Step(b, s, retry).row;
            row.status == Queued && row.nextRunAt == None && row.attempts == s.row.attempts)
  {
  }

  // What every step keeps.

  /** Each attempt is one lease, and each lease has ended in exactly one way or is running. */
  predicate AddsUp(s: Run) {
    && s.row.attempts == s.tally.leases
    && s.tally.leases
       == s.tally.completions + s.tally.failures + s.tally.retries + s.tally.cancels + s.tally.expiries
          + if Active(s.row.status) then 1 else 0
  }

  /** A write that does no harm: the job has not been leased since it was read, and a running lease goes on running. */
  predicate Harmless(row: Job, seen: Job, change: Change) {
    && seen.attempts == row.attempts
    && if change.Retry? then !Active(row.status) else (Active(seen.status) <==> Active(row.status))
  }

  predicate Spared(s: Run, t: Timed) {
    t.event.Write? ==> Harmless(s.row, t.event.seen, t.event.change)
  }

  ghost predicate AllSpared(b: Backend, s: Run, events: seq<Timed>)
    decreases |events|
  {
    events == [] || (Spared(s, events[0]) && AllSpared(b, Step(b, s, events[0]), events[1..]))
  }

  lemma OneStep(b: Backend, s: Run, t: Timed) returns (events: seq<Timed>)
    requires Allowed(s, t)
    ensures Steps(b, s, events, Step(b, s, t)) && (Spared(s, t) ==> AllSpared(b, s, events))
  {
    events := [t];
    assert events[1..] == [];
  }

  /** A leased job has a worker and a lease, another one neither. */
  predicate LeaseFits(p: Job) {
    if Active(p.status) then p.worker != "" && p.lease.Some? else p.worker == "" && p.lease.None?
  }

  /** Only expiries and operator retries take a job past its attempt limit. */
  predicate Bounded(p: Job, tally: Tally, maxAttempts: int) {
    && p.maxAttempts == maxAttempts
    && p.attempts <= maxAttempts + tally.expiries + tally.operatorRetries
    && (p.status == Queued ==> p.attempts < maxAttempts + tally.expiries + tally.operatorRetries)
  }

  /** If it is of the latest lease, its worker still has the ticket for it. */
  predicate Ticketed(s: Run, p: Job) {
    Active(p.status) && p.attempts == s.row.attempts ==>
      p.worker in s.held && s.held[p.worker] == Ticket(p.attempts, p.maxAttempts)
  }

  /** What is true of every row there has been. */
  predicate Remembered(s: Run, p: Job, maxAttempts: int) {
    p.id == s.row.id && p.attempts <= s.tally.leases && LeaseFits(p) && Bounded(p, s.tally, maxAttempts)
      && Ticketed(s, p)
  }

  ghost predicate Inv(s: Run, maxAttempts: int) {
    && maxAttempts >= 1 && AddsUp(s) && s.row in s.past && Remembered(s, s.row, maxAttempts)
    && forall p :: p in s.past ==> Remembered(s, p, maxAttempts)
  }

  /** A step that is not a worker failing the job or a write ends at most one lease, in the way it says. */
  lemma OtherStepAddsUp(b: Backend, s: Run, t: Timed)
    requires AddsUp(s) && LeaseFits(s.row) && Ticketed(s, s.row) && Allowed(s, t) && !t.event.Fail? && !t.event.Write?
    ensures AddsUp(Step(b, s, t))
  {
  }

  /** A failure ends the lease as a retry or for good. */
  lemma FailAddsUp(b: Backend, s: Run, t: Timed)
    requires AddsUp(s) && LeaseFits(s.row) && Ticketed(s, s.row) && Allowed(s, t) && t.event.Fail?
    ensures AddsUp(Step(b, s, t))
  {
  }

  /** A write keeps the accounts exactly if it does no harm. */
  lemma WriteAddsUp(b: Backend, s: Run, t: Timed)
    requires AddsUp(s) && Allowed(s, t) && t.event.Write?
    ensures AddsUp(Step(b, s, t)) <==> Harmless(s.row, t.event.seen, t.event.change)
  {
  }

  lemma StepAddsUp(b: Backend, s: Run, t: Timed)
    requires AddsUp(s) && LeaseFits(s.row) && Ticketed(s, s.row) && Allowed(s, t)
    ensures AddsUp(Step(b, s, t)) <==> Spared(s, t)
  {
    if t.event.Write? {
      WriteAddsUp(b, s, t);
    } else if t.event.Fail? {
      FailAddsUp(b, s, t);
    } else {
      OtherStepAddsUp(b, s, t);
    }
  }

  /** Every step but a write follows an edge, and leaves a row as it should be. */
  predicate RowKept(b: Backend, s: Run, t: Timed) {
    var row := Step(b, s, t).row;
    && LeaseFits(row) && Transition(s.row.status, row.status) && row.id == s.row.id
    && row.attempts == if t.event.Lease? then s.row.attempts + 1 else s.row.attempts
  }

  lemma FailKeepsLease(b: Backend, s: Run, t: Timed)
    requires LeaseFits(s.row) && Ticketed(s, s.row) && Allowed(s, t) && t.event.Fail?
    ensures RowKept(b, s, t)
  {
  }

  lemma WorkerKeepsLease(b: Backend, s: Run, t: Timed)
    requires LeaseFits(s.row) && Ticketed(s, s.row) && Allowed(s, t)
    requires t.event.Update? || t.event.Complete? || t.event.Cancel?
    ensures RowKept(b, s, t)
  {
  }

  lemma StepKeepsLease(b: Backend, s: Run, t: Timed)
    requires LeaseFits(s.row) && Ticketed(s, s.row) && Allowed(s, t) && !t.event.Write?
    ensures RowKept(b, s, t)
  {
    if t.event.Fail? {
      FailKeepsLease(b, s, t);
    } else if t.event.Update? || t.event.Complete? || t.event.Cancel? {
      WorkerKeepsLease(b, s, t);
    }
  }

  lemma StepKeepsTicket(b: Backend, s: Run, t: Timed)
    requires LeaseFits(s.row) && Ticketed(s, s.row) && Allowed(s, t) && !t.event.Write?
    ensures Ticketed(Step(b, s, t), Step(b, s, t).row)
  {
  }

  lemma StepKeepsBound(b: Backend, s: Run, t: Timed, maxAttempts: int)
    requires maxAttempts >= 1 && LeaseFits(s.row) && Ticketed(s, s.row) && Allowed(s, t) && !t.event.Write?
    requires Bounded(s.row, s.tally, maxAttempts)
    ensures Bounded(Step(b, s, t).row, Step(b, s, t).tally, maxAttempts)
  {
  }

  lemma WriteKeepsRow(b: Backend, s: Run, t: Timed, maxAttempts: int)
    requires Inv(s, maxAttempts) && Allowed(s, t) && t.event.Write? && Spared(s, t)
    ensures Remembered(Step(b, s, t), Step(b, s, t).row, maxAttempts)
  {
    assert Remembered(s, t.event.seen, maxAttempts);
  }

  /** Counters only grow, and only a lease gives out tickets and changes the attempts. */
  lemma StepKeepsPast(b: Backend, s: Run, t: Timed, p: Job, maxAttempts: int)
    requires Inv(s, maxAttempts) && Allowed(s, t) && Spared(s, t) && Remembered(s, p, maxAttempts)
    requires Step(b, s, t).row.id == s.row.id
    requires Step(b, s, t).row.attempts == if t.event.Lease? then s.row.attempts + 1 else s.row.attempts
    ensures Remembered(Step(b, s, t), p, maxAttempts)
  {
  }

  lemma StepKeeps(b: Backend, s: Run, t: Timed, maxAttempts: int)
    requires Inv(s, maxAttempts) && Allowed(s, t) && Spared(s, t)
    ensures Inv(Step(b, s, t), maxAttempts)
  {
    var u := Step(b, s, t);
    StepAddsUp(b, s, t);
    if t.event.Write? {
      WriteKeepsRow(b, s, t, maxAttempts);
    } else {
      StepKeepsLease(b, s, t);
      StepKeepsTicket(b, s, t);
      StepKeepsBound(b, s, t, maxAttempts);
    }
    forall p | p in s.past ensures Remembered(u, p, maxAttempts) {
      StepKeepsPast(b, s, t, p, maxAttempts);
    }
    assert u.past == s.past || u.past == s.past + {u.row};
  }

  lemma {:induction false} RunKeeps(b: Backend, s: Run, events: seq<Timed>, t: Run, maxAttempts: int)
    requires Inv(s, maxAttempts) && Steps(b, s, events, t) && AllSpared(b, s, events)
    ensures Inv(t, maxAttempts)
    decreases |events|
  {
    if events != [] {
      StepKeeps(b, s, events[0], maxAttempts);
      RunKeeps(b, Step(b, s, events[0]), events[1..], t, maxAttempts);
    }
  }

  lemma FreshIsFine(j: Job)
    requires Fresh(j)
    ensures Inv(Start(j), j.maxAttempts)
  {
  }

  /** In every run in which no write does harm, attempts are leases, and leases completions, failures, retries, cancels
      and expiries, and one more while the job is leased. */
  lemma AttemptsAddUp(b: Backend, j: Job, events: seq<Timed>, t: Run)
    requires Fresh(j) && Steps(b, Start(j), events, t) && AllSpared(b, Start(j), events)
    ensures t.row.attempts == t.tally.leases
    ensures t.tally.leases
         == t.tally.completions + t.tally.failures + t.tally.retries + t.tally.cancels + t.tally.expiries
            + if Active(t.row.status) then 1 else 0
    ensures if Active(t.row.status) then t.row.worker != "" && t.row.lease.Some?
      else t.row.worker == "" && t.row.lease.None?
  {
    FreshIsFine(j);
    RunKeeps(b, Start(j), events, t, j.maxAttempts);
  }

  /** The counters of the tally. */
  datatype Count = Leases | Completions | Failures | Retries | Cancels | Expiries | OperatorRetries

  function CountIn(tally: Tally, k: Count): nat {
    match k
    case Leases => tally.leases
    case Completions => tally.completions
    case Failures => tally.failures
    case Retries => tally.retries
    case Cancels => tally.cancels
    case Expiries => tally.expiries
    case OperatorRetries => tally.operatorRetries
  }

  /** The events each of them counts, by the row before and the row after. */
  predicate Counts(b: Backend, s: Run, t: Timed, k: Count) {
    var before, after := s.row.status, Step(b, s, t).row.status;
    VerdictOf(b, s.row, t).Stored? &&
    match k
    case Leases => t.event.Lease?
    case Completions => t.event.Complete?
    case Failures => t.event.Fail? && after == Failed
    case Retries => t.event.Fail? && after == Queued
    case Cancels => t.event.Cancel?
    case Expiries => t.event.Expire? && Active(before) && !Active(after)
    case OperatorRetries => t.event.Write? && t.event.change == Retry
  }

  function Counting(b: Backend, s: Run, events: seq<Timed>, k: Count): nat
    decreases |events|
  {
    if events == [] then 0
    else (if Counts(b, s, events[0], k) then 1 else 0) + Counting(b, Step(b, s, events[0]), events[1..], k)
  }

  lemma StepCounts(b: Backend, s: Run, t: Timed, k: Count)
    requires Allowed(s, t)
    ensures CountIn(Step(b, s, t).tally, k) == CountIn(s.tally, k) + if Counts(b, s, t, k) then 1 else 0
  {
  }

  lemma {:induction false} RunCounts(b: Backend, s: Run, events: seq<Timed>, t: Run, k: Count)
    requires Steps(b, s, events, t)
    ensures CountIn(t.tally, k) == CountIn(s.tally, k) + Counting(b, s, events, k)
    decreases |events|
  {
    if events != [] {
      StepCounts(b, s, events[0], k);
      RunCounts(b, Step(b, s, events[0]), events[1..], t, k);
    }
  }

  /** The tally of a run counts its events, each kind of them. */
  lemma TallyCountsEvents(b: Backend, j: Job, events: seq<Timed>, t: Run, k: Count)
    requires Steps(b, Start(j), events, t)
    ensures CountIn(t.tally, k) == Counting(b, Start(j), events, k)
  {
    RunCounts(b, Start(j), events, t, k);
  }

  /** The accounts are right at every moment. */
  ghost predicate AlwaysAddsUp(b: Backend, s: Run, events: seq<Timed>)
    decreases |events|
  {
    AddsUp(s) && (events == [] || AlwaysAddsUp(b, Step(b, s, events[0]), events[1..]))
  }

  /** And in no others: the accounts of a run are right at every moment exactly if no write in it does harm. */
  lemma AccountsAreRightExactly(b: Backend, j: Job, events: seq<Timed>, t: Run)
    requires Fresh(j) && Steps(b, Start(j), events, t)
    ensures AlwaysAddsUp(b, Start(j), events) <==> AllSpared(b, Start(j), events)
  {
    FreshIsFine(j);
    SparedExactly(b, Start(j), events, t, j.maxAttempts);
  }

  lemma {:induction false} SparedExactly(b: Backend, s: Run, events: seq<Timed>, t: Run, maxAttempts: int)
    requires Inv(s, maxAttempts) && Steps(b, s, events, t)
    ensures AlwaysAddsUp(b, s, events) <==> AllSpared(b, s, events)
    decreases |events|
  {
    if events != [] {
      StepAddsUp(b, s, events[0]);
      if Spared(s, events[0]) {
        StepKeeps(b, s, events[0], maxAttempts);
        SparedExactly(b, Step(b, s, events[0]), events[1..], t, maxAttempts);
      }
    }
  }

  /** Only expiries and operator retries can take a job past its attempt limit. */
  lemma AttemptsAreBounded(b: Backend, j: Job, events: seq<Timed>, t: Run)
    requires Fresh(j) && Steps(b, Start(j), events, t) && AllSpared(b, Start(j), events)
    ensures t.tally.leases <= j.maxAttempts + t.tally.expiries + t.tally.operatorRetries
  {
    FreshIsFine(j);
    RunKeeps(b, Start(j), events, t, j.maxAttempts);
  }

  /** A write on the job as it is, but for what leases have nothing to do with. */
  predicate Current(row: Job, seen: Job) {
    LeaseOf(seen) == LeaseOf(row) && seen.attempts == row.attempts
  }

  ghost predicate AllCurrent(b: Backend, s: Run, events: seq<Timed>)
    decreases |events|
  {
    events == []
    || ((events[0].event.Write? ==> Current(s.row, events[0].event.seen))
        && AllCurrent(b, Step(b, s, events[0]), events[1..]))
  }

  /** Nothing has happened between reading and writing: such a write never does harm. */
  lemma {:induction false} CurrentIsSpared(b: Backend, s: Run, events: seq<Timed>, t: Run)
    requires Steps(b, s, events, t) && AllCurrent(b, s, events)
    ensures AllSpared(b, s, events)
    decreases |events|
  {
    if events != [] {
      CurrentIsSpared(b, Step(b, s, events[0]), events[1..], t);
    }
  }

  /** No event of a run takes a status anywhere but along an edge of the transition graph, if it is not a write on a job
      that has changed. */
  lemma RunFollowsEdges(b: Backend, j: Job, events: seq<Timed>, t: Run, last: Timed)
    requires Fresh(j) && Steps(b, Start(j), events, t) && AllSpared(b, Start(j), events) && Allowed(t, last)
    requires last.event.Write? ==> Current(t.row, last.event.seen)
    ensures Transition(t.row.status, Step(b, t, last).row.status)
  {
    FreshIsFine(j);
    RunKeeps(b, Start(j), events, t, j.maxAttempts);
    if !last.event.Write? {
      StepKeepsLease(b, t, last);
    }
  }

  /** A handler that keeps the job it enqueued and writes it back later undoes a lease in between: the attempt is
      forgotten, and the job waits again while its worker runs it. */
  lemma StaleWriteUndoesLease(b: Backend, j: Job, worker: string, data: int) returns (events: seq<Timed>, t: Run)
    requires Fresh(j) && j.nextRunAt.None? && worker != ""
    ensures Steps(b, Start(j), events, t) && !AddsUp(t)
    ensures t.tally.leases == 1 && t.row.attempts == 0 && t.row.status == Queued && t.row.worker == ""
  {
    var lease := At(Event.Lease(worker, SECOND), 0);
    var leased := Step(b, Start(j), lease);
    var write := At(Write(j, Save(data)), 0);
    t := Step(b, leased, write);
    Then(b, Start(j), [], Start(j), lease);
    Then(b, Start(j), [] + [lease], leased, write);
    events := [] + [lease] + [write];
  }

  /** So does the slower of two operators who both saw a job fail: the other has retried it and it has been leased
      again. */
  lemma StaleRetryUndoesLease(b: Backend, j: Job, worker: string) returns (events: seq<Timed>, t: Run)
    requires Fresh(j) && j.nextRunAt.None? && worker != ""
    ensures Steps(b, Start(j), events, t) && !AddsUp(t)
    ensures t.tally.leases == 2 && t.row.attempts == 1 && t.row.status == Queued && t.row.worker == ""
  {
    var lease := At(Event.Lease(worker, SECOND), 0);
    var leased := Step(b, Start(j), lease);
    var fail := At(Fail(worker, leased.row, Some(Classified(Permanent, None))), 0);
    var failed := Step(b, leased, fail);
    var retry := At(Write(failed.row, Retry), 0);
    var retried := Step(b, failed, retry);
    var again := Step(b, retried, lease);
    t := Step(b, again, retry);
    Then(b, Start(j), [], Start(j), lease);
    Then(b, Start(j), [] + [lease], leased, fail);
    Then(b, Start(j), [] + [lease] + [fail], failed, retry);
    Then(b, Start(j), [] + [lease] + [fail] + [retry], retried, lease);
    Then(b, Start(j), [] + [lease] + [fail] + [retry] + [lease], again, retry);
    events := [] + [lease] + [fail] + [retry] + [lease] + [retry];
  }

  // Failures.

  /** A worker has failed the job in this attempt, with a final cause. */
  ghost predicate GivenUpBy(t: Timed, attempts: int) {
    t.event.Fail? && t.event.copy.attempts == attempts && t.event.cause.Some? && Final(t.event.cause.value)
  }

  predicate FailedEarly(p: Job) {
    p.status == Failed && p.attempts < if p.maxAttempts > 0 then p.maxAttempts else 1
  }

  /** A row that has failed early has failed like one before it, or in this step. */
  lemma FailsEarlyInStep(b: Backend, s: Run, t: Timed)
    requires Allowed(s, t) && s.row in s.past && FailedEarly(Step(b, s, t).row)
    ensures var row := Step(b, s, t).row;
      GivenUpBy(t, row.attempts) || WasAsked(s, row.attempts)
      || exists p :: p in s.past && FailedEarly(p) && p.attempts == row.attempts
  {
    if t.event.Fail? {
      FailByShape(s.row, t.event.copy, t.event.worker, t.event.cause, t.now);
    }
  }

  lemma {:induction false} FailsEarlyInRun(b: Backend, s: Run, events: seq<Timed>, t: Run, q: Job)
    requires Steps(b, s, events, t) && s.row in s.past && q in t.past && FailedEarly(q)
    ensures s.past <= t.past
    ensures (exists p :: p in s.past && FailedEarly(p) && p.attempts == q.attempts)
      || WasAsked(t, q.attempts) || exists i :: 0 <= i < |events| && GivenUpBy(events[i], q.attempts)
    decreases |events|
  {
    if events != [] {
      var u := Step(b, s, events[0]);
      assert s.past <= u.past;
      FailsEarlyInRun(b, u, events[1..], t, q);
      if i :| 0 <= i < |events[1..]| && GivenUpBy(events[1..][i], q.attempts) {
        assert events[i + 1] == events[1..][i];
      } else if !WasAsked(t, q.attempts) {
        var p :| p in u.past && FailedEarly(p) && p.attempts == q.attempts;
        if p !in s.past {
          FailsEarlyInStep(b, s, events[0]);
        }
      }
    }
  }

  /** A job that has failed for good before its attempts are used up was failed in its last attempt with a cause that is
      final, or had been asked to cancel in it. */
  lemma FailedForGood(b: Backend, j: Job, events: seq<Timed>, t: Run)
    requires Fresh(j) && Steps(b, Start(j), events, t)
    requires t.row.status == Failed && t.row.attempts < if t.row.maxAttempts > 0 then t.row.maxAttempts else 1
    ensures WasAsked(t, t.row.attempts) || exists i :: 0 <= i < |events| && GivenUpBy(events[i], t.row.attempts)
  {
    RowIsPast(b, Start(j), events, t);
    FailsEarlyInRun(b, Start(j), events, t, t.row);
  }

  lemma {:induction false} RowIsPast(b: Backend, s: Run, events: seq<Timed>, t: Run)
    requires Steps(b, s, events, t) && s.row in s.past
    ensures t.row in t.past
    decreases |events|
  {
    if events != [] {
      RowIsPast(b, Step(b, s, events[0]), events[1..], t);
    }
  }

  /** A job that waits for its time is not leased before it, whatever happens to it but a write of a handler. */
  lemma {:induction false} NotBeforeItsTime(b: Backend, s: Run, events: seq<Timed>, t: Run, at: Time, lease: Timed)
    requires s.row.status in {Queued, Canceled} && (s.row.status == Queued ==> s.row.nextRunAt == Some(at))
    requires Steps(b, s, events, t) && Allowed(t, lease) && lease.event.Lease?
    requires forall i :: 0 <= i < |events| ==> !events[i].event.Write? && !events[i].event.Lease?
    ensures lease.now >= at
    decreases |events|
  {
    if events != [] {
      assert forall i :: 0 <= i < |events[1..]| ==> events[1..][i] == events[i + 1];
      NotBeforeItsTime(b, Step(b, s, events[0]), events[1..], t, at, lease);
    }
  }

  /** A job requeued by a failure is not leased again for a second, nor for as many seconds, up to five, as it has had
      attempts. */
  lemma RetriedJobWaits(b: Backend, s: Run, fail: Timed, events: seq<Timed>, t: Run, lease: Timed, seconds: nat)
    requires Allowed(s, fail) && fail.event.Fail? && VerdictOf(b, s.row, fail).Stored?
    requires Step(b, s, fail).row.status == Queued && Steps(b, Step(b, s, fail), events, t)
    requires forall i :: 0 <= i < |events| ==> !events[i].event.Write? && !events[i].event.Lease?
    requires lease.event.Lease? && Allowed(t, lease)
    requires seconds <= 1 || (seconds <= 5 && seconds <= fail.event.copy.attempts)
    ensures lease.now >= fail.now + seconds * 1_000_000_000
  {
    FailByShape(s.row, fail.event.copy, fail.event.worker, fail.event.cause, fail.now);
    var u := Step(b, s, fail);
    NotBeforeItsTime(b, u, events, t, u.row.nextRunAt.value, lease);
  }

  // Cancel requests.

  /** Every write is on the job as it is; and in the memory store every failing worker knows the row's status. */
  ghost predicate Heeded(b: Backend, s: Run, events: seq<Timed>)
    decreases |events|
  {
    events == []
    || ((events[0].event.Write? ==> Current(s.row, events[0].event.seen))
        && (b.Memory? && events[0].event.Fail?
            ==> events[0].event.copy.status == s.row.status || !Owned(s.row, events[0].event.worker))
        && Heeded(b, Step(b, s, events[0]), events[1..]))
  }

  /** The status for which a job first leaves cancel_requested. */
  function LeavesFor(b: Backend, s: Run, events: seq<Timed>): Option<Status>
    decreases |events|
  {
    if s.row.status != CancelRequested then Some(s.row.status)
    else if events == [] then None
    else LeavesFor(b, Step(b, s, events[0]), events[1..])
  }

  /** A job asked to cancel leaves that status only for canceled or failed, whatever workers do with stale copies and
      whatever operators retry. */
  lemma {:induction false} CancelIsHeeded(b: Backend, s: Run, events: seq<Timed>, t: Run)
    requires s.row.status == CancelRequested && Steps(b, s, events, t) && Heeded(b, s, events)
    ensures LeavesFor(b, s, events) in {None, Some(Canceled), Some(Failed)}
    decreases |events|
  {
    if events != [] {
      CancelStep(b, s, events[0]);
      if Step(b, s, events[0]).row.status == CancelRequested {
        CancelIsHeeded(b, Step(b, s, events[0]), events[1..], t);
      }
    }
  }

  lemma CancelStep(b: Backend, s: Run, t: Timed)
    requires s.row.status == CancelRequested && Allowed(s, t)
    requires t.event.Write? ==> Current(s.row, t.event.seen)
    requires b.Memory? && t.event.Fail? ==> t.event.copy.status == s.row.status || !Owned(s.row, t.event.worker)
    ensures Step(b, s, t).row.status in {CancelRequested, Canceled, Failed}
  {
  }

  predicate Stopping(s: Status) { s in {CancelRequested, Canceled, Failed} }

  predicate NoRetry(events: seq<Timed>) {
    forall i :: 0 <= i < |events| ==> !(events[i].event.Write? && events[i].event.change.Retry?)
  }

  /** Without an operator's retry it stays canceled or failed for ever. */
  lemma {:induction false} CancelIsKept(b: Backend, s: Run, events: seq<Timed>, t: Run)
    requires Stopping(s.row.status) && Steps(b, s, events, t) && Heeded(b, s, events) && NoRetry(events)
    ensures Stopping(t.row.status)
    ensures s.row.status != CancelRequested ==> t.row.status == s.row.status
    decreases |events|
  {
    if events != [] {
      assert forall i :: 0 <= i < |events[1..]| ==> events[1..][i] == events[i + 1];
      StoppedStep(b, s, events[0]);
      CancelIsKept(b, Step(b, s, events[0]), events[1..], t);
    }
  }

  lemma StoppedStep(b: Backend, s: Run, t: Timed)
    requires Stopping(s.row.status) && Allowed(s, t) && NoRetry([t])
    requires t.event.Write? ==> Current(s.row, t.event.seen)
    requires b.Memory? && t.event.Fail? ==> t.event.copy.status == s.row.status || !Owned(s.row, t.event.worker)
    ensures Stopping(Step(b, s, t).row.status)
    ensures s.row.status != CancelRequested ==> Step(b, s, t).row.status == s.row.status
  {
    assert [t][0] == t;
  }

  /** For the database it is enough that no write is on a job that has changed. */
  lemma {:induction false} DatabaseHeeds(s: Run, events: seq<Timed>)
    requires AllCurrent(Database, s, events)
    ensures Heeded(Database, s, events)
    decreases |events|
  {
    if events != [] {
      DatabaseHeeds(Step(Database, s, events[0]), events[1..]);
    }
  }

  /** In the memory store one stale copy is enough: leased, asked to cancel, failed on the old copy, queued again. */
  lemma StaleCopyRequeues(j: Job, worker: string) returns (events: seq<Timed>, asked: Run, t: Run)
    requires Fresh(j) && j.maxAttempts >= 2 && j.nextRunAt.None? && worker != ""
    ensures |events| == 3
    ensures asked.row.status == CancelRequested && Steps(Memory, Start(j), events[..2], asked)
    ensures Steps(Memory, asked, events[2..], t) && forall i :: 0 <= i < |events| ==> !events[i].event.Write?
    ensures t.row.status == Queued && t.row.cancelRequestedAt == j.cancelRequestedAt
  {
    var lease := At(Event.Lease(worker, SECOND), 0);
    var leased := Step(Memory, Start(j), lease);
    var ask := At(RequestCancel, 0);
    asked := Step(Memory, leased, ask);
    var fail := At(Fail(worker, leased.row, Some(Plain("temporary"))), 0);
    t := Step(Memory, asked, fail);
    events := [lease, ask, fail];
    assert events[..2] == [lease, ask] && events[2..] == [fail];
    assert Steps(Memory, leased, [ask], asked);
    assert [lease, ask][1..] == [ask];
    assert Steps(Memory, asked, [fail], t);
  }

  // One abstract machine on (status, worker, lease) behind both stores.

  datatype AbstractMove =
    | Take(worker: string, until: Time)
    | Extend(worker: string, until: Time)
    | Report(worker: string, status: Status)
    | Finish(worker: string, status: Status, from: set<Status>)
    | Ask
    | Release(now: Time)
    | Put(lease: LeaseRows.Lease)
    | Nothing

  function AbstractStep(l: LeaseRows.Lease, m: AbstractMove): LeaseRows.Lease {
    match m
    case Take(worker, until) => LeaseRows.Lease(Running, worker, Some(until))
    case Extend(worker, until) => if l.worker == worker && Active(l.status) then l.(until := Some(until)) else l
    case Report(worker, status) =>
      if l.worker != worker || !Active(l.status) || (l.status == CancelRequested && status == Running) then l
      else l.(status := status)
    case Finish(worker, status, from) =>
      if l.worker == worker && l.status in from then LeaseRows.Lease(status, "", None) else l
    case Ask =>
      if l.status == Queued then l.(status := Canceled)
      else if l.status == Running then l.(status := CancelRequested) else l
    case Release(now) =>
      if !Active(l.status) || (l.until.None? && l.status == Running) || (l.until.Some? && l.until.value >= now) then l
      else LeaseRows.Lease(if l.status == CancelRequested then Canceled else Queued, "", None)
    case Put(lease) => lease
    case Nothing => l
  }

  /** The abstract move an event is; the stores differ only in the states a retry may leave. */
  function MoveOf(b: Backend, t: Timed): AbstractMove {
    match t.event
    case Lease(worker, duration) => Take(worker, t.now + duration)
    case Heartbeat(worker, duration) => Extend(worker, t.now + duration)
    case Update(worker, copy) => Report(worker, copy.status)
    case Complete(worker, copy) => if copy.status == Running then Finish(worker, Succeeded, {Running}) else Nothing
    case Fail(worker, copy, cause) =>
      if !WillRetry(copy, CauseOr(cause)) then Finish(worker, Failed, {Running, CancelRequested})
      else Finish(worker, Queued, if b.Memory? then {Running, CancelRequested} else {Running})
    case Cancel(worker, _) => Finish(worker, Canceled, {Running, CancelRequested})
    case RequestCancel => Ask
    case Expire => Release(t.now)
    case Write(seen, change) => Put(if change.Retry? then LeaseRows.Lease(Queued, "", None) else LeaseOf(seen))
  }

  function AbstractRun(l: LeaseRows.Lease, b: Backend, events: seq<Timed>): LeaseRows.Lease
    decreases |events|
  {
    if events == [] then l else AbstractRun(AbstractStep(l, MoveOf(b, events[0])), b, events[1..])
  }

  lemma StepRefines(b: Backend, s: Run, t: Timed)
    requires Allowed(s, t)
    ensures LeaseOf(Step(b, s, t).row) == AbstractStep(LeaseOf(s.row), MoveOf(b, t))
  {
  }

  /** Either store, over any run, does to (status, worker, lease) what the abstract machine does. */
  lemma {:induction false} RunRefines(b: Backend, s: Run, events: seq<Timed>, t: Run)
    requires Steps(b, s, events, t)
    ensures LeaseOf(t.row) == AbstractRun(LeaseOf(s.row), b, events)
    decreases |events|
  {
    if events != [] {
      StepRefines(b, s, events[0]);
      RunRefines(b, Step(b, s, events[0]), events[1..], t);
    }
  }
}
