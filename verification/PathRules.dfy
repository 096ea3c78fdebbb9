/** What a requested path means: cleaning as rewriting of its segments, in any order and anywhere. */
module PathRules {
  import opened ExplorerPaths

  // The rules.

  /** One rule used at position i: an empty segment or a dot is dropped, and a name with the ".." after it. */
  predicate RuleAt(s: seq<string>, t: seq<string>, i: nat) {
    || (i < |s| && s[i] in ["", "."] && t == s[..i] + s[i + 1..])
    || (i + 1 < |s| && s[i] !in ["", ".", ".."] && s[i + 1] == ".." && t == s[..i] + s[i + 2..])
  }

  ghost predicate Rewrites(s: seq<string>, t: seq<string>) { exists i: nat :: RuleAt(s, t, i) }

  /** No rule can be used. */
  ghost predicate Irreducible(s: seq<string>) { forall t :: !Rewrites(s, t) }

  /** Any number of rules, one after the other. */
  ghost predicate Derives(s: seq<string>, t: seq<string>, steps: nat)
    decreases steps
  {
    if steps == 0 then s == t else exists u :: Rewrites(s, u) && Derives(u, t, steps - 1)
  }

  // Cleaning follows them.

  lemma {:induction false} ReduceAppend(a: seq<string>, b: seq<string>, kept: seq<string>)
    ensures Reduce(a + b, kept) == Reduce(b, Reduce(a, kept))
    decreases |a|
  {
    if a == [] {
      assert a + b == b;
    } else {
      assert (a + b)[1..] == a[1..] + b;
      ReduceAppend(a[1..], b, Keep(kept, a[0]));
    }
  }

  /** A name and the ".." after it go, whatever stands before and after them and whatever was kept already. */
  lemma ParentDropsName(a: seq<string>, x: string, b: seq<string>, kept: seq<string>)
    requires Plain(x)
    ensures Reduce(a + [x, ".."] + b, kept) == Reduce(a + b, kept)
  {
    var k := Reduce(a, kept);
    ReduceAppend(a + [x, ".."], b, kept);
    ReduceAppend(a, [x, ".."], kept);
    ReduceAppend(a, b, kept);
    assert [x, ".."][1..] == [".."] && [".."][1..] == [];
    assert Keep(k, x) == k + [x] && Keep(k + [x], "..") == k;
    assert Reduce([".."], k + [x]) == Reduce([], k);
  }

  /** So does an empty segment, and a dot. */
  lemma DotDrops(a: seq<string>, s: string, b: seq<string>, kept: seq<string>)
    requires s == "" || s == "."
    ensures Reduce(a + [s] + b, kept) == Reduce(a + b, kept)
  {
    var k := Reduce(a, kept);
    ReduceAppend(a + [s], b, kept);
    ReduceAppend(a, [s], kept);
    ReduceAppend(a, b, kept);
    assert [s][1..] == [];
    assert Reduce([s], k) == Reduce([], k);
  }

  lemma RewritingKeepsResult(s: seq<string>, t: seq<string>)
    requires Rewrites(s, t)
    ensures Reduce(s, []) == Reduce(t, [])
  {
    var i: nat :| RuleAt(s, t, i);
    if s[i] in ["", "."] {
      assert s == s[..i] + [s[i]] + s[i + 1..];
      DotDrops(s[..i], s[i], s[i + 1..], []);
    } else {
      assert s == s[..i] + [s[i], ".."] + s[i + 2..];
      ParentDropsName(s[..i], s[i], s[i + 2..], []);
    }
  }

  lemma {:induction false} DerivingKeepsResult(s: seq<string>, t: seq<string>, steps: nat)
    requires Derives(s, t, steps)
    ensures Reduce(s, []) == Reduce(t, [])
    decreases steps
  {
    if steps > 0 {
      var u :| Rewrites(s, u) && Derives(u, t, steps - 1);
      RewritingKeepsResult(s, u);
      DerivingKeepsResult(u, t, steps - 1);
    }
  }

  lemma DeriveFirst(s: seq<string>, u: seq<string>, t: seq<string>, steps: nat)
    requires Rewrites(s, u) && Derives(u, t, steps)
    ensures Derives(s, t, steps + 1)
  {
  }

  /** What is kept so far and what is still to come derive the result. */
  lemma {:induction false} ReduceDerives(s: seq<string>, kept: seq<string>) returns (steps: nat)
    requires Climbing(kept)
    ensures Derives(kept + s, Reduce(s, kept), steps)
    decreases |s|, 1
  {
    if s == [] {
      assert kept + s == kept;
      return 0;
    }
    steps := ReduceDerivesNext(s, kept);
  }

  /** One more segment. */
  lemma {:induction false} ReduceDerivesNext(s: seq<string>, kept: seq<string>) returns (steps: nat)
    requires Climbing(kept) && s != []
    ensures Derives(kept + s, Reduce(s, kept), steps)
    decreases |s|, 0
  {
    hide Rewrites, Derives, Keep, Climbing;
    var next := Keep(kept, s[0]);
    KeepClimbs(kept, s[0]);
    var rest := ReduceDerives(s[1..], next);
    if next == kept + [s[0]] {
      assert next + s[1..] == kept + s;
      return rest;
    }
    KeepRewrites(kept, s);
    DeriveFirst(kept + s, next + s[1..], Reduce(s, kept), rest);
    return rest + 1;
  }

  lemma KeepRewrites(kept: seq<string>, s: seq<string>)
    requires Climbing(kept) && s != [] && Keep(kept, s[0]) != kept + [s[0]]
    ensures Rewrites(kept + s, Keep(kept, s[0]) + s[1..])
  {
    var whole, after := kept + s, Keep(kept, s[0]) + s[1..];
    if s[0] == "" || s[0] == "." {
      assert whole[..|kept|] + whole[|kept| + 1..] == after;
      assert RuleAt(whole, after, |kept|);
    } else {
      var i := |kept| - 1;
      assert kept[i] in kept && whole[i] == kept[i];
      assert whole[..i] + whole[i + 2..] == after;
      assert RuleAt(whole, after, i);
    }
  }

  /** The results of cleaning are the segments no rule applies to. */
  lemma ClimbingIsIrreducible(s: seq<string>)
    ensures Climbing(s) <==> Irreducible(s)
  {
    if Climbing(s) {
      forall t ensures !Rewrites(s, t) {
        ClimbingHasNoRule(s, t);
      }
    } else {
      NotClimbingRewrites(s);
    }
  }

  lemma ClimbingHasNoRule(s: seq<string>, t: seq<string>)
    requires Climbing(s)
    ensures !Rewrites(s, t)
  {
    forall i: nat ensures !RuleAt(s, t, i) {
      assert i < |s| ==> s[i] in s;
    }
  }

  lemma NotClimbingRewrites(s: seq<string>)
    requires !Climbing(s)
    ensures exists t :: Rewrites(s, t)
  {
    if x :| x in s && x != ".." && !Plain(x) {
      var i: nat :| i < |s| && s[i] == x;
      assert RuleAt(s, s[..i] + s[i + 1..], i);
      assert Rewrites(s, s[..i] + s[i + 1..]);
    } else {
      var i, j :| 0 <= i < j < |s| && s[j] == ".." && s[i] != "..";
      var k := LastName(s, i, j);
      assert s[k] in s;
      assert RuleAt(s, s[..k] + s[k + 2..], k);
      assert Rewrites(s, s[..k] + s[k + 2..]);
    }
  }

  /** Between a name and a ".." after it there is a name right before a "..". */
  lemma {:induction false} LastName(s: seq<string>, i: nat, j: nat) returns (k: nat)
    requires i < j < |s| && s[i] != ".." && s[j] == ".."
    ensures k + 1 < |s| && s[k] != ".." && s[k + 1] == ".."
    decreases j - i
  {
    k := i;
    if s[i + 1] != ".." {
      k := LastName(s, i + 1, j);
    }
  }

  lemma {:induction false} ClimbingIsKept(s: seq<string>, kept: seq<string>)
    requires Climbing(kept + s)
    ensures Reduce(s, kept) == kept + s
    decreases |s|
  {
    if s == [] {
      assert kept + s == kept;
    } else {
      var whole := kept + s;
      assert whole[|kept|] == s[0] && s[0] in whole;
      assert kept != [] ==> whole[|kept| - 1] == kept[|kept| - 1];
      assert kept + [s[0]] + s[1..] == whole;
      ClimbingIsKept(s[1..], kept + [s[0]]);
    }
  }

  lemma DerivedIsResult(s: seq<string>, r: seq<string>, steps: nat)
    requires Irreducible(r) && Derives(s, r, steps)
    ensures r == Reduce(s, [])
  {
    DerivingKeepsResult(s, r, steps);
    ClimbingIsIrreducible(r);
    assert [] + r == r;
    ClimbingIsKept(r, []);
  }

  ghost predicate Derived(s: seq<string>, r: seq<string>) { exists steps: nat :: Derives(s, r, steps) }

  /** The result of cleaning is the one and only irreducible path that the rules lead to. */
  lemma CleaningIsRewriting(s: seq<string>, r: seq<string>)
    ensures r == Reduce(s, []) <==> Irreducible(r) && Derived(s, r)
  {
    assert [] + s == s;
    var n := ReduceDerives(s, []);
    assert Derived(s, Reduce(s, []));
    ReducedClimbs(s, []);
    ClimbingIsIrreducible(Reduce(s, []));
    if Irreducible(r) && Derived(s, r) {
      var steps: nat :| Derives(s, r, steps);
      DerivedIsResult(s, r, steps);
    }
  }

  // Requests.

  /** The characters that are white space, by code point. */
  const SPACES := {9, 10, 11, 12, 13, 32, 0x85, 0xA0, 0x1680, 0x2000, 0x2001, 0x2002, 0x2003, 0x2004, 0x2005, 0x2006,
                   0x2007, 0x2008, 0x2009, 0x200A, 0x2028, 0x2029, 0x202F, 0x205F, 0x3000}

  predicate Blank(s: string) { forall i :: 0 <= i < |s| ==> s[i] as int in SPACES }

  /** The input with slashes for backslashes, and no white space around it. */
  ghost predicate Stripped(input: string, s: string, before: string, after: string) {
    && |before + s + after| == |input| && Blank(before) && Blank(after)
    && (forall i :: 0 <= i < |input| ==> (before + s + after)[i] == if input[i] == '\\' then '/' else input[i])
    && (s != "" ==> s[0] as int !in SPACES && s[|s| - 1] as int !in SPACES)
  }

  lemma SpaceTable(c: char)
    ensures IsSpace(c) <==> c as int in SPACES
  {
  }

  lemma {:induction false} SlashedIs(s: string)
    ensures |Slashed(s)| == |s| && forall i :: 0 <= i < |s| ==> Slashed(s)[i] == if s[i] == '\\' then '/' else s[i]
  {
    if s != "" {
      SlashedIs(s[1..]);
    }
  }

  lemma {:induction false} TrimLeftIs(s: string) returns (before: string)
    ensures s == before + TrimLeft(s) && Blank(before)
  {
    if s != "" && IsSpace(s[0]) {
      SpaceTable(s[0]);
      var rest := TrimLeftIs(s[1..]);
      before := [s[0]] + rest;
      assert s == [s[0]] + s[1..];
    } else {
      before := "";
    }
  }

  lemma {:induction false} TrimRightIs(s: string) returns (after: string)
    ensures s == TrimRight(s) + after && Blank(after)
  {
    if s != "" && IsSpace(s[|s| - 1]) {
      SpaceTable(s[|s| - 1]);
      var rest := TrimRightIs(s[..|s| - 1]);
      after := rest + [s[|s| - 1]];
      assert s == s[..|s| - 1] + [s[|s| - 1]];
    } else {
      after := "";
    }
  }

  lemma TrimStrips(input: string) returns (before: string, after: string)
    ensures Stripped(input, Trim(Slashed(input)), before, after)
  {
    SlashedIs(input);
    before := TrimLeftIs(Slashed(input));
    after := TrimRightIs(TrimLeft(Slashed(input)));
    var t := Trim(Slashed(input));
    assert Slashed(input) == before + t + after;
    if t != "" {
      SpaceTable(t[0]);
      SpaceTable(t[|t| - 1]);
      assert Trimmed(t);
    }
  }

  lemma {:induction false} TrimLeftDrops(before: string, s: string)
    requires Blank(before) && (s != "" ==> s[0] as int !in SPACES)
    ensures TrimLeft(before + s) == s
  {
    if before == "" {
      assert before + s == s;
      if s != "" {
        SpaceTable(s[0]);
      }
    } else {
      SpaceTable(before[0]);
      assert (before + s)[1..] == before[1..] + s;
      TrimLeftDrops(before[1..], s);
    }
  }

  lemma {:induction false} TrimRightDrops(s: string, after: string)
    requires Blank(after) && (s != "" ==> s[|s| - 1] as int !in SPACES)
    ensures TrimRight(s + after) == s
    decreases |after|
  {
    if after == "" {
      assert s + after == s;
      if s != "" {
        SpaceTable(s[|s| - 1]);
      }
    } else {
      var n := |after| - 1;
      SpaceTable(after[n]);
      assert (s + after)[..|s + after| - 1] == s + after[..n];
      TrimRightDrops(s, after[..n]);
    }
  }

  lemma StrippedIsTrim(input: string, s: string, before: string, after: string)
    requires Stripped(input, s, before, after)
    ensures s == Trim(Slashed(input))
  {
    SlashedIs(input);
    assert Slashed(input) == before + s + after;
    TrimDrops(before, s, after);
  }

  lemma TrimDrops(before: string, s: string, after: string)
    requires Blank(before) && Blank(after)
    requires s != "" ==> s[0] as int !in SPACES && s[|s| - 1] as int !in SPACES
    ensures Trim(before + s + after) == s
  {
    if s == "" {
      assert before + s + after == before + after + "" && Blank(before + after);
      TrimLeftDrops(before + after, "");
    } else {
      assert before + s + after == before + (s + after) && (s + after)[0] == s[0];
      TrimLeftDrops(before, s + after);
      TrimRightDrops(s, after);
    }
  }

  /** The parts between the slashes of a path. */
  ghost predicate PartsOf(s: string, parts: seq<string>) {
    parts != [] && Join(parts) == s && forall x :: x in parts ==> '/' !in x
  }

  lemma PartsAreSplit(s: string, parts: seq<string>)
    ensures PartsOf(s, parts) <==> parts == Split(s)
  {
    JoinSplit(s);
    SplitHasNoSlash(s);
    forall x: string ensures NoSlash(x) <==> '/' !in x {
      assert SlashIndex(x) < |x| ==> x[SlashIndex(x)] == '/';
    }
    if PartsOf(s, parts) {
      SplitJoin(parts);
    }
  }

  /** The folder that a request without white space and backslashes asks for. */
  ghost predicate AsksFor(s: string, q: string) {
    if s == "" || s == "/" then q == ""
    else
      s[0] != '/' && exists parts, r :: PartsOf(s, parts) && Irreducible(r) && Derived(parts, r)
                      && (if r == [] then q == "" else r[0] != ".." && q == Join(r))
  }

  ghost predicate Opens(input: string, q: string) {
    exists s, before, after :: Stripped(input, s, before, after) && AsksFor(s, q)
  }

  lemma AskedPath(s: string, q: string)
    requires s != "" && s != "/" && s[0] != '/'
    ensures var r := Reduce(Split(s), []);
      AsksFor(s, q) <==> if r == [] then q == "" else r[0] != ".." && q == Join(r)
  {
    var parts, r := Split(s), Reduce(Split(s), []);
    PartsAreSplit(s, parts);
    CleaningIsRewriting(parts, r);
    forall others, other | PartsOf(s, others) && Irreducible(other) && Derived(others, other) ensures other == r {
      PartsAreSplit(s, others);
      CleaningIsRewriting(parts, other);
    }
  }

  /**
   What a request opens: the path that is left when white space at its ends is dropped, backslashes are slashes, and no
   rule applies to its parts any more. It is refused exactly if that path is absolute or leads out of the root.
   */
  lemma RequestOpens(input: string, q: string)
    ensures NormalizeExplorerPath(input) == At(q) <==> Opens(input, q)
  {
    var s := Trim(Slashed(input));
    var before, after := TrimStrips(input);
    if s != "" && s != "/" && s[0] != '/' {
      AskedPath(s, q);
    }
    assert NormalizeExplorerPath(input) == At(q) <==> AsksFor(s, q);
    forall other, b, a | Stripped(input, other, b, a) ensures other == s {
      StrippedIsTrim(input, other, b, a);
    }
  }

  /** Requests whose parts a rule takes to one another open the same folder. */
  lemma RuleKeepsFolder(p: string, q: string)
    requires p != "" && q != "" && p[0] != '/' && q[0] != '/'
    requires Trimmed(p) && Trimmed(q) && '\\' !in p && '\\' !in q && Rewrites(Split(p), Split(q))
    ensures NormalizeExplorerPath(p) == NormalizeExplorerPath(q)
  {
    RewritingKeepsResult(Split(p), Split(q));
  }
}
