/** Thinning a track to at most a number of points: three functions that do it by equal steps through the indices. */
module Sampling {
  import opened Order

  /** The steps divide the indices 0 to last into the given number of parts. */
  function Step(last: nat, parts: nat): real
    requires parts > 0
  {
    last as real / parts as real
  }

  /** math.Round, for a value that is not negative. */
  function Round(x: real): int {
    (x + 0.5).Floor
  }

  datatype Rounding = Nearest | Down

  /** The index of sample i in integers: i * last divided by parts, rounded to the nearest or down. */
  function Index(mode: Rounding, i: nat, last: nat, parts: nat): nat
    requires parts > 0
  {
    match mode
    case Nearest => (2 * i * last + parts) / (2 * parts)
    case Down => i * last / parts
  }

  lemma RoundIsNearest(i: nat, last: nat, parts: nat)
    requires parts > 0
    ensures Round(i as real * Step(last, parts)) == Index(Nearest, i, last, parts)
  {
    var x := i as real * Step(last, parts);
    Multiple(i, last, parts);
    FloorOfQuotient(2 * i * last + parts, 2 * parts, x + 0.5);
  }

  lemma FloorIsDown(i: nat, last: nat, parts: nat)
    requires parts > 0
    ensures (i as real * Step(last, parts)).Floor == Index(Down, i, last, parts)
  {
    Multiple(i, last, parts);
    FloorOfQuotient(i * last, parts, i as real * Step(last, parts));
  }

  lemma Multiple(i: nat, last: nat, parts: nat)
    requires parts > 0
    ensures i as real * Step(last, parts) * parts as real == (i * last) as real
  {
    assert Step(last, parts) * parts as real == last as real;
    Scaled(i as real, Step(last, parts), parts as real);
    assert i as real * last as real == (i * last) as real;
  }

  lemma Scaled(a: real, b: real, c: real)
    ensures a * b * c == a * (b * c)
  {
  }

  /** A quotient of integers rounds down to their integer quotient. */
  lemma FloorOfQuotient(a: nat, b: nat, x: real)
    requires b > 0 && x * b as real == a as real
    ensures x.Floor == a / b
  {
    var k := a / b;
    assert k * b <= a < (k + 1) * b;
    assert (k * b) as real == k as real * b as real && ((k + 1) * b) as real == (k + 1) as real * b as real;
    NotMore(k as real, x, b as real);
    Less(x, (k + 1) as real, b as real);
  }

  lemma NotMore(a: real, b: real, c: real)
    requires c > 0.0 && a * c <= b * c
    ensures a <= b
  {
    assert a > b ==> (a - b) * c > 0.0;
  }

  lemma Less(a: real, b: real, c: real)
    requires c > 0.0 && a * c < b * c
    ensures a < b
  {
    assert a >= b ==> (a - b) * c >= 0.0;
  }

  // How the indices are spread.

  function Ceiling(a: nat, b: nat): nat
    requires b > 0
  {
    (a + b - 1) / b
  }

  /** From the first index to the last, always forward, and never further than an equal share rounded up. */
  ghost predicate Spread(mode: Rounding, last: nat, parts: nat)
    requires parts > 0
  {
    && Index(mode, 0, last, parts) == 0 && Index(mode, parts, last, parts) == last
    && (forall i :: 0 <= i < parts ==> Index(mode, i, last, parts) < Index(mode, i + 1, last, parts))
    && (forall i :: 0 <= i < parts ==>
          Index(mode, i + 1, last, parts) <= Index(mode, i, last, parts) + Ceiling(last, parts))
  }

  lemma IndicesSpread(mode: Rounding, last: nat, parts: nat)
    requires 0 < parts < last
    ensures Spread(mode, last, parts)
  {
    forall i | 0 <= i < parts
      ensures Index(mode, i, last, parts) < Index(mode, i + 1, last, parts)
          <= Index(mode, i, last, parts) + Ceiling(last, parts)
    {
      NextIndex(mode, i, last, parts);
    }
    EndIndices(mode, last, parts);
  }

  lemma EndIndices(mode: Rounding, last: nat, parts: nat)
    requires parts > 0
    ensures Index(mode, 0, last, parts) == 0 && Index(mode, parts, last, parts) == last
  {
    assert 2 * 0 * last + parts == parts && 0 * last == 0;
    QuotientIs(parts, 2 * parts, 0);
    assert 2 * parts * last + parts == last * (2 * parts) + parts;
    QuotientIs(2 * parts * last + parts, 2 * parts, last);
    assert parts * last == last * parts;
    QuotientIs(parts * last, parts, last);
  }

  lemma NextIndex(mode: Rounding, i: nat, last: nat, parts: nat)
    requires 0 < parts < last
    ensures Index(mode, i, last, parts) < Index(mode, i + 1, last, parts)
      <= Index(mode, i, last, parts) + Ceiling(last, parts)
  {
    if mode == Nearest {
      assert 2 * (i + 1) * last + parts == 2 * i * last + parts + 2 * last;
      NextQuotient(2 * i * last + parts, 2 * last, 2 * parts);
      DoubledCeiling(last, parts);
    } else {
      assert (i + 1) * last == i * last + last;
      NextQuotient(i * last, last, parts);
    }
  }

  lemma Ordered(a: int, b: int, c: nat)
    requires a <= b
    ensures a * c <= b * c
  {
    assert (b - a) * c >= 0;
  }

  /** A number between two multiples of b has the lower one as its quotient. */
  lemma QuotientIs(a: nat, b: nat, k: nat)
    requires b > 0 && k * b <= a < k * b + b
    ensures a / b == k
  {
    var q := a / b;
    assert q * b <= a < q * b + b;
    if q < k {
      Ordered(q + 1, k, b);
    }
    if k < q {
      Ordered(k + 1, q, b);
    }
  }

  lemma CeilingIs(a: nat, b: nat)
    requires b > 0
    ensures Ceiling(a, b) == if a % b == 0 then a / b else a / b + 1
  {
    var k := a / b;
    assert a == k * b + a % b;
    if a % b == 0 {
      QuotientIs(a + b - 1, b, k);
    } else {
      assert (k + 1) * b == k * b + b;
      QuotientIs(a + b - 1, b, k + 1);
    }
  }

  lemma NextQuotient(a: nat, d: nat, b: nat)
    requires 0 < b < d
    ensures a / b < (a + d) / b <= a / b + Ceiling(d, b)
  {
    QuotientOfSum(a, d, b, a / b, a % b, d / b, d % b);
    QuotientNotZero(d, b);
    CeilingIs(d, b);
  }

  lemma QuotientNotZero(d: nat, b: nat)
    requires 0 < b <= d
    ensures d / b >= 1
  {
    var q := d / b;
    assert d == q * b + d % b && (q == 0 ==> q * b == 0);
  }

  lemma QuotientOfSum(a: nat, d: nat, b: nat, k: nat, r: nat, e: nat, f: nat)
    requires r < b && f < b && a == k * b + r && d == e * b + f
    ensures (a + d) / b == if r + f < b then k + e else k + e + 1
  {
    assert (k + e) * b == k * b + e * b && (k + e + 1) * b == k * b + e * b + b;
    QuotientIs(a + d, b, if r + f < b then k + e else k + e + 1);
  }

  lemma DoubledCeiling(last: nat, parts: nat)
    requires parts > 0
    ensures Ceiling(2 * last, 2 * parts) == Ceiling(last, parts)
  {
    var k := last / parts;
    assert last == k * parts + last % parts;
    assert k * (2 * parts) == 2 * (k * parts);
    CeilingIs(last, parts);
    if last % parts == 0 {
      QuotientIs(2 * last + 2 * parts - 1, 2 * parts, k);
    } else {
      assert (k + 1) * (2 * parts) == 2 * (k * parts) + 2 * parts;
      QuotientIs(2 * last + 2 * parts - 1, 2 * parts, k + 1);
    }
  }

  /** How far a sample is from its ideal place: at most half an index either way, or less than one below. */
  lemma IndexIsClose(mode: Rounding, i: nat, last: nat, parts: nat)
    requires parts > 0
    ensures mode == Nearest ==> -(parts as int) < 2 * (Index(mode, i, last, parts) * parts - i * last) <= parts
    ensures mode == Down ==> 0 <= i * last - Index(mode, i, last, parts) * parts < parts
  {
    if mode == Nearest {
      var k := Index(mode, i, last, parts);
      assert k * (2 * parts) == 2 * (k * parts) && 2 * i * last == 2 * (i * last);
      assert k * (2 * parts) <= 2 * i * last + parts < k * (2 * parts) + 2 * parts;
    }
  }

  /** No sample lies beyond the last index, or before the one it follows. */
  lemma {:induction false} IndexInOrder(mode: Rounding, i: nat, j: nat, last: nat, parts: nat)
    requires 0 < parts < last && i <= j <= parts
    ensures Index(mode, i, last, parts) + (j - i) <= Index(mode, j, last, parts) <= last
    decreases parts - i
  {
    EndIndices(mode, last, parts);
    if i < j {
      IndexInOrder(mode, i + 1, j, last, parts);
      NextIndex(mode, i, last, parts);
    } else if j < parts {
      IndexInOrder(mode, i + 1, j + 1, last, parts);
      NextIndex(mode, i, last, parts);
    }
  }

  // Sampling.

  /** The samples of a sequence that is too long; a sequence that is short enough is left as it is. */
  ghost predicate Sampled<T>(points: seq<T>, out: seq<T>, maxPoints: int, mode: Rounding) {
    if maxPoints <= 0 || |points| <= maxPoints then out == points
    else if maxPoints == 1 then out == [points[0]]
    else |out| == maxPoints && forall i :: 0 <= i < maxPoints ==>
           Taken(points, out[i], Index(mode, i, |points| - 1, maxPoints - 1))
  }

  ghost predicate Taken<T>(points: seq<T>, p: T, k: nat) {
    k < |points| && p == points[k]
  }

  /** The first and the last point always stay. */
  lemma EndsStay<T>(points: seq<T>, out: seq<T>, maxPoints: int, mode: Rounding)
    requires Sampled(points, out, maxPoints, mode) && points != []
    ensures out != [] && out[0] == points[0]
    ensures maxPoints != 1 ==> out[|out| - 1] == points[|points| - 1]
    ensures maxPoints > 0 ==> |out| <= maxPoints
  {
    if 1 < maxPoints < |points| {
      EndIndices(mode, |points| - 1, maxPoints - 1);
      assert Taken(points, out[0], Index(mode, 0, |points| - 1, maxPoints - 1));
      assert Taken(points, out[maxPoints - 1], Index(mode, maxPoints - 1, |points| - 1, maxPoints - 1));
    }
  }

  method RoundedIndex(i: nat, step: real, ghost last: nat, ghost parts: nat) returns (idx: int)
    requires 0 < parts < last && i <= parts && step == Step(last, parts)
    ensures idx == Index(Nearest, i, last, parts) <= last
    ensures i > 0 ==> Index(Nearest, i - 1, last, parts) < idx
  {
    idx := Round(i as real * step);
    RoundIsNearest(i, last, parts);
    IndexInOrder(Nearest, i, i, last, parts);
    if i > 0 {
      IndexInOrder(Nearest, i - 1, i, last, parts);
    }
  }

  method FlooredIndex(i: nat, step: real, ghost last: nat, ghost parts: nat) returns (idx: int)
    requires 0 < parts < last && i <= parts && step == Step(last, parts)
    ensures idx == Index(Down, i, last, parts) <= last
  {
    idx := (i as real * step).Floor;
    FloorIsDown(i, last, parts);
    IndexInOrder(Down, i, i, last, parts);
  }

  /** The track as a preview shows it: rounded, with two repairs of the index that are never needed. */
  method Simplify<T>(points: seq<T>, maxPoints: int) returns (out: seq<T>, ghost repairs: int)
    ensures Sampled(points, out, maxPoints, Nearest) && repairs == 0
  {
    repairs := 0;
    if maxPoints <= 0 || |points| <= maxPoints {
      return points, 0;
    }
    if maxPoints == 1 {
      return [points[0]], 0;
    }
    var last, parts := |points| - 1, maxPoints - 1;
    var step := Step(last, parts);
    out := [];
    var lastIndex := -1;
    for i := 0 to maxPoints
      invariant |out| == i && repairs == 0
      invariant lastIndex == if i == 0 then -1 else Index(Nearest, i - 1, last, parts)
      invariant forall j :: 0 <= j < i ==> Taken(points, out[j], Index(Nearest, j, last, parts))
    {
      var idx := RoundedIndex(i, step, last, parts);
      if idx <= lastIndex {
        idx := lastIndex + 1;
        repairs := repairs + 1;
      }
      if idx >= |points| {
        idx := |points| - 1;
        repairs := repairs + 1;
      }
      assert Taken(points, points[idx], Index(Nearest, i, last, parts));
      out := out + [points[idx]];
      lastIndex := idx;
    }
  }

  /** The database's levels of detail: rounded down. */
  method DownsampleTrackPoints<T>(points: seq<T>, maxPoints: int) returns (out: seq<T>)
    ensures Sampled(points, out, maxPoints, Down)
  {
    if maxPoints <= 0 || |points| <= maxPoints {
      return points;
    }
    if maxPoints == 1 {
      return [points[0]];
    }
    out := EveryStep(points, maxPoints);
  }

  /** The loop of the two functions that round down. */
  method EveryStep<T>(points: seq<T>, maxPoints: int) returns (out: seq<T>)
    requires 1 < maxPoints < |points|
    ensures Sampled(points, out, maxPoints, Down)
  {
    var last, parts := |points| - 1, maxPoints - 1;
    var step := Step(last, parts);
    out := [];
    for i := 0 to maxPoints
      invariant |out| == i && forall j :: 0 <= j < i ==> Taken(points, out[j], Index(Down, j, last, parts))
    {
      var idx := FlooredIndex(i, step, last, parts);
      if idx >= |points| {
        idx := |points| - 1;
      }
      assert Taken(points, points[idx], Index(Down, i, last, parts));
      out := out + [points[idx]];
    }
  }

  /** The memory store's variant has no case for one point: the step is then a division by zero and the index is
      whatever the machine makes of an undefined number. Otherwise it is the database's function. */
  method SimplifyCatalogPoints<T>(points: seq<T>, maxPoints: int) returns (out: Option<seq<T>>)
    ensures out == None <==> maxPoints == 1 < |points|
    ensures out.Some? ==> Sampled(points, out.value, maxPoints, Down)
  {
    if maxPoints <= 0 || |points| <= maxPoints {
      return Some(points);
    }
    if maxPoints - 1 == 0 {
      return None;
    }
    var sampled := EveryStep(points, maxPoints);
    return Some(sampled);
  }

  /** What is sampled is determined: where both stores' functions are defined, they agree. */
  lemma SamplesAgree<T>(points: seq<T>, a: seq<T>, b: seq<T>, maxPoints: int, mode: Rounding)
    requires Sampled(points, a, maxPoints, mode) && Sampled(points, b, maxPoints, mode)
    ensures a == b
  {
    if 1 < maxPoints < |points| {
      forall i | 0 <= i < maxPoints ensures a[i] == b[i] {
        assert Taken(points, a[i], Index(mode, i, |points| - 1, maxPoints - 1));
        assert Taken(points, b[i], Index(mode, i, |points| - 1, maxPoints - 1));
      }
    }
  }
}
