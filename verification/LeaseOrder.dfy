/** In which order waiting jobs are leased over a run of a store. */
module LeaseOrder {
  import opened Order
  import opened Jobs
  import opened LeaseRuns
  import opened StoreRuns
  import JobStore
  import JobTable

  /** Every job that waits afterwards has waited before, as it does now. */
  ghost predicate NothingQueued(s: Store, t: Store) {
    forall id :: id in t && t[id].row.status == Queued ==> id in s && SameWait(s[id].row, t[id].row)
  }

  predicate SameWait(before: Job, after: Job) {
    && before.status == after.status && before.nextRunAt == after.nextRunAt
    && before.id == after.id && before.kind == after.kind && before.createdAt == after.createdAt
  }

  /** The operation enqueues and requeues nothing: neither itself nor, if it is a lease, by the expiries before it. */
  ghost predicate Quiet(b: Backend, s: Store, o: Operation, now: Time) {
    NothingQueued(s, if o.LeaseNext? then Released(b, s, now) else Apply(b, s, o, now))
  }

  ghost predicate AllQuiet(b: Backend, s: Store, run: seq<(Operation, Time)>)
    decreases |run|
  {
    run == []
    || (Quiet(b, s, run[0].0, run[0].1) && AllQuiet(b, Apply(b, s, run[0].0, run[0].1), run[1..]))
  }

  /** Leasing a job makes none wait. */
  lemma QuietApplies(b: Backend, s: Store, o: Operation, now: Time)
    requires Possible(b, s, o, now) && Quiet(b, s, o, now)
    ensures NothingQueued(s, Apply(b, s, o, now))
  {
  }

  lemma {:induction false} WaitedBefore(b: Backend, s: Store, run: seq<(Operation, Time)>, t: Store, id: string)
    requires Follows(b, s, run, t) && AllQuiet(b, s, run) && id in t && t[id].row.status == Queued
    ensures id in s && SameWait(s[id].row, t[id].row)
    decreases |run|
  {
    if run != [] {
      var m := Apply(b, s, run[0].0, run[0].1);
      QuietApplies(b, s, run[0].0, run[0].1);
      WaitedBefore(b, m, run[1..], t, id);
    }
  }

  /** The job is one that a lease at this time asks for. */
  predicate AskedFor(b: Backend, id: string, j: Job, kinds: seq<string>, locked: set<string>, now: Time) {
    && (j.nextRunAt.Some? ==> j.nextRunAt.value <= now) && (kinds == [] || j.kind in kinds)
    && (b.Database? ==> id !in locked)
  }

  /** The first job goes before the second: created earlier, or at the same time with the smaller id; the database looks
      at the kind before that. */
  ghost predicate GoesFirst(b: Backend, first: Job, second: Job) {
    if b.Database? then JobTable.ComesFirst(first, second)
    else
      || first.createdAt < second.createdAt
      || (first.createdAt == second.createdAt && Precedes(first.id, second.id))
  }

  lemma NextGoesFirst(b: Backend, rows: map<string, Job>, id: string, other: string, kinds: seq<string>,
                      locked: set<string>, now: Time)
    requires IsNext(b, rows, id, kinds, locked, now) && other in rows && other != id
    requires rows[other].status == Queued && AskedFor(b, other, rows[other], kinds, locked, now)
    ensures GoesFirst(b, rows[id], rows[other])
  {
    if b.Memory? {
      JobStore.NextIsOldest(rows, id, kinds, now);
    } else {
      JobTable.NextIsFirst(rows, id, kinds, locked, now);
    }
  }

  lemma AlikeGoLater(b: Backend, first: Job, second: Job, third: Job)
    requires GoesFirst(b, first, second) && SameWait(second, third)
    ensures GoesFirst(b, first, third)
  {
  }

  /** The row that a lease takes, after the expiries the lease begins with. */
  function Taken(b: Backend, s: Store, o: Operation, now: Time): Job
    requires o.LeaseNext? && o.leased.Some? && o.leased.value in s
  {
    Released(b, s, now)[o.leased.value].row
  }

  lemma TakenWaits(b: Backend, s: Store, o: Operation, now: Time)
    requires Possible(b, s, o, now) && o.LeaseNext? && o.leased.Some?
    ensures o.leased.value in s && Taken(b, s, o, now).status == Queued
  {
  }

  lemma OthersStay(b: Backend, s: Store, o: Operation, now: Time, id: string)
    requires Possible(b, s, o, now) && o.LeaseNext? && o.leased.Some?
    requires id in Apply(b, s, o, now) && Apply(b, s, o, now)[id].row.status == Queued
    ensures id in s && id != o.leased.value && Apply(b, s, o, now)[id] == Released(b, s, now)[id]
  {
  }

  lemma TookTheFirst(b: Backend, s: Store, o: Operation, now: Time, id: string)
    requires Possible(b, s, o, now) && o.LeaseNext? && o.leased.Some? && o.leased.value in s && id in s
    requires id != o.leased.value && Released(b, s, now)[id].row.status == Queued
    requires AskedFor(b, id, Released(b, s, now)[id].row, o.kinds, o.locked, now)
    ensures GoesFirst(b, Taken(b, s, o, now), Released(b, s, now)[id].row)
  {
    NextGoesFirst(b, Rows(Released(b, s, now)), o.leased.value, id, o.kinds, o.locked, now);
  }

  /**
   While nothing is enqueued or requeued, jobs are leased in order: of two leases in a run, whatever happens between
   them, the first takes the job that goes first, if the second job was one the first lease asked for.
   */
  lemma FirstInFirstOut(b: Backend, s: Store, o: Operation, now: Time, run: seq<(Operation, Time)>, m: Store,
                        p: Operation, later: Time)
    requires Possible(b, s, o, now) && o.LeaseNext? && o.leased.Some?
    requires Follows(b, Apply(b, s, o, now), run, m) && AllQuiet(b, Apply(b, s, o, now), run)
    requires Possible(b, m, p, later) && Quiet(b, m, p, later) && p.LeaseNext? && p.leased.Some?
    ensures o.leased.value in s && p.leased.value in m
    ensures var first, second := Taken(b, s, o, now), Taken(b, m, p, later);
      AskedFor(b, p.leased.value, second, o.kinds, o.locked, now) ==> GoesFirst(b, first, second)
  {
    var id := p.leased.value;
    TakenWaits(b, s, o, now);
    TakenWaits(b, m, p, later);
    assert SameWait(m[id].row, Taken(b, m, p, later));
    WaitedBefore(b, Apply(b, s, o, now), run, m, id);
    OthersStay(b, s, o, now, id);
    if AskedFor(b, id, Taken(b, m, p, later), o.kinds, o.locked, now) {
      TookTheFirst(b, s, o, now, id);
      AlikeGoLater(b, Taken(b, s, o, now), Released(b, s, now)[id].row, Taken(b, m, p, later));
    }
  }
}
