/** The preview cache's cleanup: oldest entries first, until none is too old and the rest fits. */
module PreviewCache {
  import opened Order
  import opened Chronology

  type Time = int

  /** What an entry is stored under. */
  datatype Key = Key(assetId: string, variant: string, format: string, width: int, height: int)

  datatype Entry = Entry(id: string, key: Key, path: string, status: string, size: int, createdAt: Time)

  function CreatedAt(e: Entry): Time { e.createdAt }

  function Bytes(entries: seq<Entry>): int {
    if entries == [] then 0 else entries[0].size + Bytes(entries[1..])
  }

  /** No entry left to remove: none predates olderThan, and the entries fit in a positive maxBytes. */
  ghost predicate Settled(entries: seq<Entry>, olderThan: Option<Time>, maxBytes: int) {
    && (forall e :: e in entries && olderThan.Some? ==> e.createdAt >= olderThan.value)
    && (maxBytes > 0 ==> Bytes(entries) <= maxBytes)
  }

  /** Each entry of the map, once, oldest first. */
  ghost predicate OldestFirst(order: seq<Entry>, entries: map<Key, Entry>) {
    && Chronological(order, CreatedAt)
    && (forall i, j :: 0 <= i < j < |order| ==> order[i].key != order[j].key)
    && (forall e :: e in order <==> e.key in entries && entries[e.key] == e)
  }

  /** The shortest prefix of an oldest-first order after which the rest is settled. */
  ghost predicate ShortestCut(order: seq<Entry>, k: nat, olderThan: Option<Time>, maxBytes: int) {
    && k <= |order| && Settled(order[k..], olderThan, maxBytes)
    && forall j :: 0 <= j < k ==> !Settled(order[j..], olderThan, maxBytes)
  }

  /** After i entries, d are deleted: either all of them, or the rest has been settled since. */
  ghost predicate CutSoFar(order: seq<Entry>, d: nat, i: nat, olderThan: Option<Time>, maxBytes: int) {
    && d <= i <= |order| && (d < i ==> Settled(order[d..], olderThan, maxBytes))
    && forall j :: 0 <= j < d ==> !Settled(order[j..], olderThan, maxBytes)
  }

  /** What the test in the loop comes to: an entry is deleted as long as what is left is not settled. */
  lemma Verdict(order: seq<Entry>, d: nat, i: nat, olderThan: Option<Time>, maxBytes: int)
    requires Chronological(order, CreatedAt) && i < |order| && CutSoFar(order, d, i, olderThan, maxBytes)
    ensures var doomed := (olderThan.Some? && order[i].createdAt < olderThan.value)
      || (maxBytes > 0 && Bytes(order[d..]) > maxBytes);
      if doomed then d == i && CutSoFar(order, d + 1, i + 1, olderThan, maxBytes)
        && Bytes(order[d..]) == order[i].size + Bytes(order[d + 1..])
      else CutSoFar(order, d, i + 1, olderThan, maxBytes)
  {
    assert order[d..][i - d] == order[i];
    RestIsLater(order, i);
    assert order[i..][1..] == order[i + 1..];
  }

  lemma RestIsLater(order: seq<Entry>, i: nat)
    requires Chronological(order, CreatedAt) && i < |order|
    ensures forall e :: e in order[i..] ==> order[i].createdAt <= e.createdAt
  {
    forall e | e in order[i..] ensures order[i].createdAt <= e.createdAt {
      var j :| i <= j < |order| && order[j] == e;
      assert CreatedAt(order[i]) <= CreatedAt(order[j]);
    }
  }

  /** What is left of the entries: exactly those not deleted, as they were. */
  ghost predicate Remain(left: map<Key, Entry>, entries: map<Key, Entry>, deleted: seq<Entry>) {
    && (forall k :: k in left <==> k in entries && entries[k] !in deleted)
    && (forall k :: k in left ==> left[k] == entries[k])
  }

  /** The state of the loop: a prefix is deleted, and total is what the rest weighs. */
  ghost predicate Swept(order: seq<Entry>, deleted: seq<Entry>, i: nat, total: int, olderThan: Option<Time>,
                        maxBytes: int)
  {
    && |deleted| <= i <= |order| && deleted == order[..|deleted|] && total == Bytes(order[|deleted|..])
    && CutSoFar(order, |deleted|, i, olderThan, maxBytes)
  }

  lemma SweepOne(order: seq<Entry>, deleted: seq<Entry>, i: nat, total: int, olderThan: Option<Time>, maxBytes: int)
    requires Chronological(order, CreatedAt) && i < |order| && Swept(order, deleted, i, total, olderThan, maxBytes)
    ensures if (olderThan.Some? && order[i].createdAt < olderThan.value) || (maxBytes > 0 && total > maxBytes)
      then Swept(order, deleted + [order[i]], i + 1, total - order[i].size, olderThan, maxBytes)
      else Swept(order, deleted, i + 1, total, olderThan, maxBytes)
  {
    Verdict(order, |deleted|, i, olderThan, maxBytes);
    assert order[..i + 1] == order[..i] + [order[i]];
  }

  lemma Removed(left: map<Key, Entry>, entries: map<Key, Entry>, deleted: seq<Entry>, e: Entry)
    requires Remain(left, entries, deleted) && (forall k :: k in entries ==> entries[k].key == k)
    requires e.key in entries && entries[e.key] == e
    ensures Remain(left - {e.key}, entries, deleted + [e])
  {
  }

  class Cache {
    var entries: map<Key, Entry>

    ghost predicate Valid() reads this {
      forall k :: k in entries ==> entries[k].key == k
    }

    constructor ()
      ensures Valid() && entries == map[]
    {
      entries := map[];
    }

    /** The removed entries, oldest first. */
    method CleanupPreviewCacheEntries(olderThan: Option<Time>, maxBytes: int)
      returns (deleted: seq<Entry>, ghost order: seq<Entry>)
      requires Valid()
      modifies this
      ensures Valid() && OldestFirst(order, old(entries))
      ensures |deleted| <= |order| && deleted == order[..|deleted|]
        && ShortestCut(order, |deleted|, olderThan, maxBytes)
      ensures Remain(entries, old(entries), deleted)
    {
      var all, total := Collect();
      var sorted := SortByTime(all, CreatedAt);
      order := sorted;
      SameEntries(all, sorted, entries);
      deleted := Sweep(sorted, total, olderThan, maxBytes);
    }

    /** The loop over the sorted entries. */
    method Sweep(sorted: seq<Entry>, bytes: int, olderThan: Option<Time>, maxBytes: int) returns (deleted: seq<Entry>)
      requires Valid() && OldestFirst(sorted, entries) && bytes == Bytes(sorted)
      modifies this
      ensures |deleted| <= |sorted| && deleted == sorted[..|deleted|]
        && ShortestCut(sorted, |deleted|, olderThan, maxBytes)
      ensures Remain(entries, old(entries), deleted)
    {
      var total := bytes;
      deleted := [];
      assert sorted[0..] == sorted;
      for i := 0 to |sorted|
        invariant Swept(sorted, deleted, i, total, olderThan, maxBytes) && Remain(entries, old(entries), deleted)
      {
        var entry := sorted[i];
        SweepOne(sorted, deleted, i, total, olderThan, maxBytes);
        if (olderThan.Some? && entry.createdAt < olderThan.value) || (maxBytes > 0 && total > maxBytes) {
          Removed(entries, old(entries), deleted, entry);
          entries := entries - {entry.key};
          deleted := deleted + [entry];
          total := total - entry.size;
        }
      }
    }

    /** The entries in the order the map yields them, and their bytes. */
    method Collect() returns (all: seq<Entry>, total: int)
      requires Valid()
      ensures forall i, j :: 0 <= i < j < |all| ==> all[i].key != all[j].key
      ensures forall e :: e in all <==> e.key in entries && entries[e.key] == e
      ensures total == Bytes(all)
    {
      all, total := [], 0;
      var todo := entries.Keys;
      while todo != {}
        invariant todo <= entries.Keys
        invariant forall i, j :: 0 <= i < j < |all| ==> all[i].key != all[j].key
        invariant forall e :: e in all <==> e.key in entries && e.key !in todo && entries[e.key] == e
        invariant total == Bytes(all)
        decreases todo
      {
        var key :| key in todo;
        BytesAppend(all, entries[key]);
        total := total + entries[key].size;
        all := all + [entries[key]];
        todo := todo - {key};
      }
    }
  }

  lemma {:induction false} BytesAppend(entries: seq<Entry>, e: Entry)
    ensures Bytes(entries + [e]) == Bytes(entries) + e.size
  {
    if entries != [] {
      assert (entries + [e])[1..] == entries[1..] + [e];
      BytesAppend(entries[1..], e);
    }
  }

  lemma {:induction false} BytesConcat(a: seq<Entry>, b: seq<Entry>)
    ensures Bytes(a + b) == Bytes(a) + Bytes(b)
  {
    if a == [] {
      assert a + b == b;
    } else {
      assert (a + b)[1..] == a[1..] + b;
      BytesConcat(a[1..], b);
    }
  }

  /** The bytes do not depend on the order. */
  lemma {:induction false} BytesOfSame(a: seq<Entry>, b: seq<Entry>)
    requires multiset(a) == multiset(b)
    ensures Bytes(a) == Bytes(b)
  {
    if a == [] {
      assert |multiset(b)| == 0;
    } else {
      assert a[0] in multiset(b);
      var i :| 0 <= i < |b| && b[i] == a[0];
      WithoutFirst(a);
      Without(b, i);
      BytesWithout(b[..i], b[i], b[i + 1..]);
      BytesOfSame(a[1..], b[..i] + b[i + 1..]);
    }
  }

  lemma BytesWithout(before: seq<Entry>, e: Entry, after: seq<Entry>)
    ensures Bytes(before + ([e] + after)) == e.size + Bytes(before + after)
  {
    BytesConcat(before, after);
    BytesConcat(before, [e] + after);
    assert ([e] + after)[1..] == after;
  }

  /** Sorting keeps the entries, each once. */
  lemma SameEntries(all: seq<Entry>, sorted: seq<Entry>, entries: map<Key, Entry>)
    requires multiset(sorted) == multiset(all) && Chronological(sorted, CreatedAt)
    requires forall i, j :: 0 <= i < j < |all| ==> all[i].key != all[j].key
    requires forall e :: e in all <==> e.key in entries && entries[e.key] == e
    ensures OldestFirst(sorted, entries) && Bytes(sorted) == Bytes(all)
  {
    BytesOfSame(sorted, all);
    forall e ensures e in sorted <==> e in all {
      assert e in multiset(sorted) <==> e in multiset(all);
    }
    forall i, j | 0 <= i < j < |sorted| ensures sorted[i].key != sorted[j].key {
      assert sorted[i] in all && sorted[j] in all;
      StillNoRepeats(all, sorted);
    }
  }

  /** With no negative sizes, removing more leaves a settled cache settled: the shortest cut is the least that has to
      go. */
  lemma CutIsLeast(order: seq<Entry>, entries: map<Key, Entry>, k: nat, j: nat, olderThan: Option<Time>, maxBytes: int)
    requires OldestFirst(order, entries) && ShortestCut(order, k, olderThan, maxBytes) && j <= |order|
    requires forall e :: e in order ==> e.size >= 0
    ensures Settled(order[j..], olderThan, maxBytes) <==> k <= j
  {
    if k <= j {
      assert order[k..] == order[k..j] + order[j..];
      BytesConcat(order[k..j], order[j..]);
      BytesNotNegative(order[k..j]);
    }
  }

  lemma {:induction false} BytesNotNegative(entries: seq<Entry>)
    requires forall e :: e in entries ==> e.size >= 0
    ensures Bytes(entries) >= 0
  {
    if entries != [] {
      BytesNotNegative(entries[1..]);
    }
  }

  /** With distinct creation times, what is deleted depends only on the entries and the limits. */
  lemma CleanupIsDetermined(
    a: seq<Entry>, b: seq<Entry>, j: nat, k: nat, entries: map<Key, Entry>, olderThan: Option<Time>, maxBytes: int)
    requires OldestFirst(a, entries) && OldestFirst(b, entries) && Distinct(a, CreatedAt)
    requires ShortestCut(a, j, olderThan, maxBytes) && ShortestCut(b, k, olderThan, maxBytes)
    ensures a[..j] == b[..k]
  {
    SameElements(a, b);
    OrderIsDetermined(a, b, CreatedAt);
  }
}
