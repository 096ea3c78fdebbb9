/** Counting the members of a set by a key, and when two keys group it alike. */
module Grouping {

  function Fiber<T, K(==)>(s: set<T>, key: T -> K, k: K): set<T> {
    set x | x in s && key(x) == k
  }

  /** The elements that share their key with another one. */
  ghost function Repeated<T(!new), K>(s: set<T>, key: T -> K): set<T> {
    set x | x in s && exists y :: y in s && y != x && key(y) == key(x)
  }

  function Keys<T, K(==)>(s: set<T>, key: T -> K): set<K> {
    set x | x in s :: key(x)
  }

  /** A map holds the number of elements for every key. */
  ghost predicate Tallied<T, K>(counts: map<K, nat>, s: set<T>, key: T -> K) {
    counts.Keys == Keys(s, key) && forall k :: k in counts ==> counts[k] == |Fiber(s, key, k)|
  }

  lemma FiberAdd<T, K>(s: set<T>, key: T -> K, x: T, k: K)
    requires x !in s
    ensures |Fiber(s + {x}, key, k)| == |Fiber(s, key, k)| + if k == key(x) then 1 else 0
  {
    if k == key(x) {
      assert Fiber(s + {x}, key, k) == Fiber(s, key, k) + {x};
    } else {
      assert Fiber(s + {x}, key, k) == Fiber(s, key, k);
    }
  }

  lemma NoFiber<T, K>(s: set<T>, key: T -> K, k: K)
    requires k !in Keys(s, key)
    ensures Fiber(s, key, k) == {}
  {
  }

  lemma TallyAdd<T, K>(counts: map<K, nat>, s: set<T>, key: T -> K, x: T)
    requires Tallied(counts, s, key) && x !in s
    ensures Tallied(counts[key(x) := (if key(x) in counts then counts[key(x)] else 0) + 1], s + {x}, key)
  {
    var after := counts[key(x) := (if key(x) in counts then counts[key(x)] else 0) + 1];
    forall k | k in after ensures after[k] == |Fiber(s + {x}, key, k)| {
      FiberAdd(s, key, x, k);
      if k !in counts {
        NoFiber(s, key, k);
      }
    }
    assert Keys(s + {x}, key) == Keys(s, key) + {key(x)};
  }

  lemma Pair<T>(s: set<T>, x: T)
    requires x in s
    ensures |s| > 1 <==> exists y :: y in s && y != x
  {
    var others := s - {x};
    assert s == others + {x};
    assert |s| == |others| + 1;
    if others != {} {
      var y :| y in others;
      assert y in s && y != x;
    }
    assert forall y :: y in s && y != x ==> y in others;
  }

  /** The elements whose key is among the given ones. */
  ghost function Over<T, K>(s: set<T>, key: T -> K, keys: set<K>): set<T> {
    set x | x in s && key(x) in keys
  }

  lemma OverAdd<T, K>(s: set<T>, key: T -> K, keys: set<K>, k: K)
    requires k !in keys
    ensures |Over(s, key, keys + {k})| == |Over(s, key, keys)| + |Fiber(s, key, k)|
  {
    assert Over(s, key, keys + {k}) == Over(s, key, keys) + Fiber(s, key, k);
  }

  function Many<K>(counts: map<K, nat>): set<K> {
    set k | k in counts && counts[k] > 1
  }

  /** The keys counted more than once are those of the repeated elements. */
  lemma ManyAreRepeated<T(!new), K>(counts: map<K, nat>, s: set<T>, key: T -> K)
    requires Tallied(counts, s, key)
    ensures Many(counts) == Keys(Repeated(s, key), key)
    ensures forall x :: x in s ==> (x in Repeated(s, key) <==> key(x) in Many(counts))
  {
    forall x | x in s ensures x in Repeated(s, key) <==> key(x) in Many(counts) {
      Pair(Fiber(s, key, key(x)), x);
      assert forall y :: y in Fiber(s, key, key(x)) <==> y in s && key(y) == key(x);
    }
  }

  /** A tally gives the number of repeated keys and of repeated elements. */
  lemma RepeatedTotals<T(!new), K>(counts: map<K, nat>, s: set<T>, key: T -> K)
    requires Tallied(counts, s, key)
    ensures |Many(counts)| == |Keys(Repeated(s, key), key)|
    ensures |Over(s, key, Many(counts))| == |Repeated(s, key)|
  {
    ManyAreRepeated(counts, s, key);
    assert Over(s, key, Many(counts)) == Repeated(s, key);
  }

  ghost predicate SameGroups<T(!new), K, L>(s: set<T>, key: T -> K, other: T -> L) {
    forall x, y :: x in s && y in s ==> (key(x) == key(y) <==> other(x) == other(y))
  }

  /** Two keys that group a set alike have equally many values on it. */
  lemma {:induction false} SameNumberOfKeys<T(!new), K, L>(s: set<T>, key: T -> K, other: T -> L)
    requires SameGroups(s, key, other)
    ensures |Keys(s, key)| == |Keys(s, other)|
    decreases s
  {
    if s != {} {
      var x :| x in s;
      var rest := s - Fiber(s, key, key(x));
      assert Fiber(s, key, key(x)) == Fiber(s, other, other(x));
      SameNumberOfKeys(rest, key, other);
      assert Keys(s, key) == Keys(rest, key) + {key(x)};
      assert Keys(s, other) == Keys(rest, other) + {other(x)};
    }
  }

  lemma SameRepeated<T(!new), K, L>(s: set<T>, key: T -> K, other: T -> L)
    requires SameGroups(s, key, other)
    ensures Repeated(s, key) == Repeated(s, other)
    ensures |Keys(Repeated(s, key), key)| == |Keys(Repeated(s, other), other)|
  {
    assert Repeated(s, key) == Repeated(s, other);
    SameNumberOfKeys(Repeated(s, key), key, other);
  }

  /** The loop over a map of counts, in any order: how many keys occur more than once, and how often in all. */
  method CountGroups<T, K(==)>(counts: map<K, nat>, ghost s: set<T>, ghost key: T -> K)
    returns (groups: nat, members: nat)
    requires Tallied(counts, s, key)
    ensures groups == |Many(counts)| && members == |Over(s, key, Many(counts))|
  {
    groups, members := 0, 0;
    var todo := counts.Keys;
    ghost var many: set<K> := {};
    while todo != {}
      invariant todo <= counts.Keys
      invariant forall k :: k in many <==> k in counts && k !in todo && counts[k] > 1
      invariant groups == |many| && members == |Over(s, key, many)|
      decreases todo
    {
      var k :| k in todo;
      todo := todo - {k};
      if counts[k] > 1 {
        OverAdd(s, key, many, k);
        assert counts[k] == |Fiber(s, key, k)|;
        groups, members, many := groups + 1, members + counts[k], many + {k};
      }
    }
    assert many == Many(counts);
  }

  // The members of all groups of a map.

  ghost function AnyKey<K(!new), V>(m: map<K, V>): K
    requires m != map[]
    ensures AnyKey(m) in m
  {
    assert m.Keys != {};
    var k :| k in m.Keys;
    k
  }

  ghost function Members<K(!new), V>(groups: map<K, seq<V>>): nat
    decreases groups.Keys
  {
    if groups == map[] then 0
    else
      var k := AnyKey(groups);
      |groups[k]| + Members(groups - {k})
  }

  /** Groups as large as the fibers of their keys have together as many members as elements have such a key. */
  lemma {:induction false} MembersAreOver<T, K(!new), V>(groups: map<K, seq<V>>, s: set<T>, key: T -> K)
    requires forall k :: k in groups ==> |groups[k]| == |Fiber(s, key, k)|
    ensures Members(groups) == |Over(s, key, groups.Keys)|
    decreases groups.Keys
  {
    if groups == map[] {
      assert Over(s, key, groups.Keys) == {};
    } else {
      var k := AnyKey(groups);
      var rest := groups - {k};
      MembersAreOver(rest, s, key);
      OverAdd(s, key, rest.Keys, k);
      assert groups.Keys == rest.Keys + {k};
    }
  }

  lemma OverRepeated<T(!new), K>(s: set<T>, key: T -> K)
    ensures Over(s, key, Keys(Repeated(s, key), key)) == Repeated(s, key)
  {
    forall x | x in s && key(x) in Keys(Repeated(s, key), key) ensures x in Repeated(s, key) {
      var y :| y in Repeated(s, key) && key(y) == key(x);
      var z :| z in s && z != y && key(z) == key(y);
    }
  }
}
