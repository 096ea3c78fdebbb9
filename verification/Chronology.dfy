/** Sorting by a time, as sort.Slice does it: the order of elements with the same time is not fixed. */
module Chronology {
  import opened Order

  ghost predicate Chronological<T(!new)>(s: seq<T>, at: T -> int) {
    forall i, j :: 0 <= i < j < |s| ==> at(s[i]) <= at(s[j])
  }

  /** No two elements at the same time. */
  ghost predicate Distinct<T(!new)>(s: seq<T>, at: T -> int) {
    forall i, j :: 0 <= i < j < |s| ==> at(s[i]) != at(s[j])
  }

  /** An insertion sort. Callers know only its contract, which every comparison sort meets. */
  method SortByTime<T(!new,==)>(s: seq<T>, at: T -> int) returns (r: seq<T>)
    ensures Chronological(r, at) && multiset(r) == multiset(s)
  {
    r := [];
    for i := 0 to |s|
      invariant Chronological(r, at) && multiset(r) == multiset(s[..i])
    {
      assert s[..i + 1] == s[..i] + [s[i]];
      r := Insert(s[i], r, at);
    }
    assert s[..|s|] == s;
  }

  method Insert<T(!new,==)>(x: T, s: seq<T>, at: T -> int) returns (r: seq<T>)
    requires Chronological(s, at)
    ensures Chronological(r, at) && multiset(r) == multiset(s) + multiset{x}
  {
    var k := 0;
    while k < |s| && at(s[k]) <= at(x)
      invariant k <= |s| && forall j :: 0 <= j < k ==> at(s[j]) <= at(x)
    {
      k := k + 1;
    }
    assert s == s[..k] + s[k..];
    r := s[..k] + [x] + s[k..];
    InsertKeepsOrder(x, s, k, at);
  }

  lemma InsertKeepsOrder<T(!new)>(x: T, s: seq<T>, k: nat, at: T -> int)
    requires Chronological(s, at) && k <= |s|
    requires (forall j :: 0 <= j < k ==> at(s[j]) <= at(x)) && (k < |s| ==> at(x) <= at(s[k]))
    ensures Chronological(s[..k] + [x] + s[k..], at)
  {
    var r := s[..k] + [x] + s[k..];
    forall i, j | 0 <= i < j < |r| ensures at(r[i]) <= at(r[j]) {
      assert r[i] == if i < k then s[i] else if i == k then x else s[i - 1];
      assert r[j] == if j < k then s[j] else if j == k then x else s[j - 1];
      assert k < j ==> at(s[k]) <= at(s[j - 1]);
    }
  }

  lemma SameFirst<T(!new)>(a: seq<T>, b: seq<T>, at: T -> int)
    requires Chronological(a, at) && Chronological(b, at) && multiset(a) == multiset(b) && Distinct(a, at) && a != []
    ensures b != [] && a[0] == b[0]
  {
    assert a[0] in multiset(b);
    assert b[0] in multiset(a);
    var i :| 0 <= i < |b| && b[i] == a[0];
    var j :| 0 <= j < |a| && a[j] == b[0];
    assert at(b[0]) <= at(b[i]) && at(a[0]) <= at(a[j]);
  }

  lemma RestKeepsOrder<T(!new)>(a: seq<T>, at: T -> int)
    requires Chronological(a, at) && a != []
    ensures Chronological(a[1..], at) && (Distinct(a, at) ==> Distinct(a[1..], at))
  {
    forall i, j | 0 <= i < j < |a[1..]|
      ensures at(a[1..][i]) <= at(a[1..][j]) && (Distinct(a, at) ==> at(a[1..][i]) != at(a[1..][j]))
    {
      assert a[1..][i] == a[i + 1] && a[1..][j] == a[j + 1];
    }
  }

  /** With distinct times there is only one chronological order, so it does not matter which sort is used. */
  lemma {:induction false} OrderIsDetermined<T(!new)>(a: seq<T>, b: seq<T>, at: T -> int)
    requires Chronological(a, at) && Chronological(b, at) && multiset(a) == multiset(b) && Distinct(a, at)
    ensures a == b
  {
    if a == [] {
      assert |multiset(b)| == 0;
    } else {
      SameFirst(a, b, at);
      WithoutFirst(a);
      WithoutFirst(b);
      RestKeepsOrder(a, at);
      RestKeepsOrder(b, at);
      assert a == [a[0]] + a[1..] && b == [b[0]] + b[1..];
      OrderIsDetermined(a[1..], b[1..], at);
    }
  }
}
