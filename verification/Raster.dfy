/** The line rasteriser of the track thumbnails. */
module Raster {

  type Color = int

  function Abs(v: int): (r: int)
    ensures r >= 0
  {
    if v < 0 then -v else v
  }

  function Max(a: int, b: int): int { if a >= b then a else b }

  function Sign(from: int, to: int): int { if from < to then 1 else -1 }

  predicate InDot(x: int, y: int, cx: int, cy: int, radius: nat) {
    var dx, dy := x - cx, y - cy;
    Abs(dx) <= radius && Abs(dy) <= radius && dx * dx + dy * dy <= radius * radius
  }

  class Image {
    const width: nat
    const height: nat
    const pixels: array2<Color>

    ghost predicate Valid() {
      pixels.Length0 == width && pixels.Length1 == height
    }

    constructor (width: nat, height: nat, background: Color)
      ensures Valid() && this.width == width && this.height == height && fresh(pixels)
      ensures forall x, y :: 0 <= x < width && 0 <= y < height ==> pixels[x, y] == background
    {
      this.width, this.height := width, height;
      pixels := new Color[width, height]((_, _) => background);
    }
  }

  /** Colours exactly the pixels of the image inside the dot. */
  method DrawDot(img: Image, cx: int, cy: int, radius: nat, c: Color)
    requires img.Valid()
    modifies img.pixels
    ensures forall x, y :: 0 <= x < img.width && 0 <= y < img.height ==>
      img.pixels[x, y] == if InDot(x, y, cx, cy, radius) then c else old(img.pixels[x, y])
  {
    var y := cy - radius;
    while y <= cy + radius
      invariant cy - radius <= y <= cy + radius + 1
      invariant forall u, v :: 0 <= u < img.width && 0 <= v < img.height ==>
        img.pixels[u, v] == if InDot(u, v, cx, cy, radius) && v < y then c else old(img.pixels[u, v])
    {
      DrawDotRow(img, cx, cy, radius, c, y);
      y := y + 1;
    }
  }

  method DrawDotRow(img: Image, cx: int, cy: int, radius: nat, c: Color, y: int)
    requires img.Valid() && Abs(y - cy) <= radius
    modifies img.pixels
    ensures forall u, v :: 0 <= u < img.width && 0 <= v < img.height ==>
      img.pixels[u, v] == if InDot(u, v, cx, cy, radius) && v == y then c else old(img.pixels[u, v])
  {
    var x := cx - radius;
    while x <= cx + radius
      invariant cx - radius <= x <= cx + radius + 1
      invariant forall u, v :: 0 <= u < img.width && 0 <= v < img.height ==>
        img.pixels[u, v] == if InDot(u, v, cx, cy, radius) && v == y && u < x then c else old(img.pixels[u, v])
    {
      if !(x < 0 || x >= img.width || y < 0 || y >= img.height) {
        var dx, dy := x - cx, y - cy;
        if dx * dx + dy * dy <= radius * radius {
          img.pixels[x, y] := c;
        }
      }
      x := x + 1;
    }
  }

  // The arithmetic of the line: a and b are the distances to go, i and j the steps taken.

  /** Within half a step of the ideal line, measured along the minor axis. */
  predicate Near(a: int, b: int, i: int, j: int) {
    2 * Abs(j * a - i * b) <= Max(a, b)
  }

  /** Near the line and inside the major range is inside the minor range, and at its end only at the end. */
  lemma MinorFollowsMajor(a: int, b: int, i: int, j: int)
    requires a >= b >= 0 && a > 0 && 0 <= i <= a && j >= 0 && 2 * Abs(j * a - i * b) <= a
    ensures j <= b && (i == a ==> j == b)
  {
    Ordered(i, a, b);
    Ordered(b + 1, j, a);
    Ordered(j, b - 1, a);
    assert (b + 1) * a == a * b + a && (b - 1) * a == a * b - a;
  }

  lemma Ordered(x: int, y: int, z: int)
    requires z >= 0
    ensures x <= y ==> x * z <= y * z
  {
    if x <= y {
      assert (y - x) * z >= 0;
    }
  }

  /** One round of the loop: which axes move, and that the point stays near the line. */
  lemma RoundStaysNear(a: int, b: int, i: int, j: int, err: int)
    requires a >= 0 && b >= 0 && (a > 0 || b > 0) && i >= 0 && j >= 0
    requires err == j * a - i * b + a - b && Near(a, b, i, j)
    ensures a >= b ==> 2 * err >= -b
    ensures b >= a ==> 2 * err <= a
    ensures Near(a, b, if 2 * err >= -b then i + 1 else i, if 2 * err <= a then j + 1 else j)
  {
    assert (j + 1) * a == j * a + a && (i + 1) * b == i * b + b;
  }

  /** What the drawn points are: the whole line, one point for each step along the longer axis. */
  ghost predicate IsLine(points: seq<(int, int)>, x0: int, y0: int, x1: int, y1: int) {
    var a, b := Abs(x1 - x0), Abs(y1 - y0);
    && |points| == Max(a, b) + 1
    && points[0] == (x0, y0) && points[|points| - 1] == (x1, y1)
    && (forall k :: 0 <= k < |points| ==> IsPoint(points[k], k, x0, y0, x1, y1))
    && Connected(points)
  }

  /** The same pixel, or one of its eight neighbours. */
  predicate Touches(p: (int, int), q: (int, int)) {
    Abs(q.0 - p.0) <= 1 && Abs(q.1 - p.1) <= 1
  }

  predicate Connected(points: seq<(int, int)>) {
    forall k :: 0 < k < |points| ==> Touches(points[k - 1], points[k])
  }

  /** The k-th point: k steps along the longer axis, no axis overshot, and near the ideal line. */
  predicate IsPoint(point: (int, int), k: nat, x0: int, y0: int, x1: int, y1: int) {
    var a, b := Abs(x1 - x0), Abs(y1 - y0);
    var i, j := (point.0 - x0) * Sign(x0, x1), (point.1 - y0) * Sign(y0, y1);
    0 <= i <= a && 0 <= j <= b && (if a >= b then i == k else j == k) && Near(a, b, i, j)
  }

  /** Draws the line, a dot of radius one at each point, and returns the points. */
  method DrawLine(img: Image, x0: int, y0: int, x1: int, y1: int, c: Color) returns (points: seq<(int, int)>)
    requires img.Valid()
    modifies img.pixels
    ensures IsLine(points, x0, y0, x1, y1)
    ensures forall u, v :: 0 <= u < img.width && 0 <= v < img.height ==>
      img.pixels[u, v] == if OnSome(points, u, v) then c else old(img.pixels[u, v])
  {
    ghost var was: map<(int, int), Color> :=
      map u, v | 0 <= u < img.width && 0 <= v < img.height :: (u, v) := img.pixels[u, v];
    points := Trace(img, was, x0, y0, x1, y1, c);
  }

  method Trace(img: Image, ghost was: map<(int, int), Color>, x0: int, y0: int, x1: int, y1: int, c: Color)
    returns (points: seq<(int, int)>)
    requires img.Valid() && Painted(img, was, [], c)
    modifies img.pixels
    ensures IsLine(points, x0, y0, x1, y1) && Painted(img, was, points, c)
  {
    var x, y := x0, y0;
    var dx: int := Abs(x1 - x0);
    var sx: int := -1;
    if x0 < x1 {
      sx := 1;
    }
    var dy: int := -Abs(y1 - y0);
    var sy: int := -1;
    if y0 < y1 {
      sy := 1;
    }
    var err: int := dx + dy;
    ghost var i: int, j: int := 0, 0;
    points := [];
    while true
      invariant dx == Abs(x1 - x0) && dy == -Abs(y1 - y0) && sx == Sign(x0, x1) && sy == Sign(y0, y1)
      invariant Pen(x0, y0, x1, y1, x, y, err, i, j, |points|)
      invariant Drawn(points, x0, y0, x1, y1) && Follows(points, x0, y0, x, y)
      invariant Painted(img, was, points, c)
      decreases Max(dx, -dy) - |points|
    {
      Plot(img, was, points, x, y, c);
      PenPoint(points, x0, y0, x1, y1, x, y, err, i, j);
      points := points + [(x, y)];
      if x == x1 && y == y1 {
        return points;
      }
      x, y, err, i, j := Advance(x0, y0, x1, y1, dx, dy, sx, sy, x, y, err, i, j, |points| - 1);
    }
  }

  /** The rest of a round: the error decides which axes move. */
  method Advance(ghost x0: int, ghost y0: int, ghost x1: int, ghost y1: int, dx: int, dy: int, sx: int, sy: int,
                 xNow: int, yNow: int, errNow: int, ghost iNow: int, ghost jNow: int, ghost n: nat)
    returns (x: int, y: int, err: int, ghost i: int, ghost j: int)
    requires dx == Abs(x1 - x0) && dy == -Abs(y1 - y0) && sx == Sign(x0, x1) && sy == Sign(y0, y1)
    requires Pen(x0, y0, x1, y1, xNow, yNow, errNow, iNow, jNow, n) && (xNow != x1 || yNow != y1)
    ensures Pen(x0, y0, x1, y1, x, y, err, i, j, n + 1) && n < Max(dx, -dy)
    ensures Abs(x - xNow) <= 1 && Abs(y - yNow) <= 1
  {
    x, y, err, i, j := xNow, yNow, errNow, iNow, jNow;
    PenMoves(x0, y0, x1, y1, x, y, err, i, j, n);
    var e2 := 2 * err;
    if e2 >= dy {
      err := err + dy;
      x := x + sx;
      i := i + 1;
    }
    if e2 <= dx {
      err := err + dx;
      y := y + sy;
      j := j + 1;
    }
  }

  /** The image as it was, with dots at the points. */
  ghost predicate Painted(img: Image, was: map<(int, int), Color>, points: seq<(int, int)>, c: Color)
    requires img.Valid()
    reads img.pixels
  {
    forall u, v :: 0 <= u < img.width && 0 <= v < img.height ==>
      (u, v) in was && img.pixels[u, v] == if OnSome(points, u, v) then c else was[(u, v)]
  }

  method Plot(img: Image, ghost was: map<(int, int), Color>, points: seq<(int, int)>, x: int, y: int, c: Color)
    requires img.Valid() && Painted(img, was, points, c)
    modifies img.pixels
    ensures Painted(img, was, points + [(x, y)], c)
  {
    DrawDot(img, x, y, 1, c);
    OnSomeMore(points, (x, y));
  }

  /** The loop's variables after i and j steps along the axes, n of them along the longer one. */
  predicate Pen(x0: int, y0: int, x1: int, y1: int, x: int, y: int, err: int, i: int, j: int, n: nat) {
    var a, b := Abs(x1 - x0), Abs(y1 - y0);
    && Axis(x0, x1, x, i) && Axis(y0, y1, y, j) && (if a >= b then i else j) == n
    && err == j * a - i * b + a - b && Near(a, b, i, j)
  }

  /** A coordinate some steps on its way. */
  predicate Axis(from: int, to: int, at: int, steps: int) {
    0 <= steps <= Abs(to - from) && at == from + steps * Sign(from, to)
  }

  lemma AxisMoves(from: int, to: int, at: int, steps: int)
    requires Axis(from, to, at, steps) && steps < Abs(to - from)
    ensures Axis(from, to, at + Sign(from, to), steps + 1)
  {
    assert (steps + 1) * Sign(from, to) == steps * Sign(from, to) + Sign(from, to);
  }

  /** One round of the error, with the steps it allows. */
  lemma ErrorMoves(a: int, b: int, i: int, j: int, err: int)
    requires 0 <= i <= a && 0 <= j <= b && err == j * a - i * b + a - b && Near(a, b, i, j)
      && (if a >= b then i < a else j < b)
    ensures var right, up := 2 * err >= -b, 2 * err <= a;
      var i', j' := if right then i + 1 else i, if up then j + 1 else j;
      && i' <= a && j' <= b && Near(a, b, i', j') && (if a >= b then right else up)
      && err + (if right then -b else 0) + (if up then a else 0) == j' * a - i' * b + a - b
  {
    var right, up := 2 * err >= -b, 2 * err <= a;
    RoundStaysNear(a, b, i, j, err);
    StayInside(a, b, if right then i + 1 else i, if up then j + 1 else j);
    OneMore(i, b);
    OneMore(j, a);
  }

  lemma OneMore(x: int, y: int)
    ensures (x + 1) * y == x * y + y
  {
  }

  predicate Follows(points: seq<(int, int)>, x0: int, y0: int, x: int, y: int) {
    if points == [] then x == x0 && y == y0
    else Touches(points[|points| - 1], (x, y))
  }

  lemma PenIsPoint(x0: int, y0: int, x1: int, y1: int, x: int, y: int, err: int, i: int, j: int, n: nat)
    requires Pen(x0, y0, x1, y1, x, y, err, i, j, n)
    ensures IsPoint((x, y), n, x0, y0, x1, y1)
    ensures x == x1 && y == y1 ==> n == Max(Abs(x1 - x0), Abs(y1 - y0))
  {
    StepsBack(x0, x1, x, i);
    StepsBack(y0, y1, y, j);
    if x == x1 && y == y1 {
      AtEnd(x0, y0, x1, y1, i, j);
    }
  }

  lemma DrawnMore(points: seq<(int, int)>, x0: int, y0: int, x1: int, y1: int, x: int, y: int)
    requires Drawn(points, x0, y0, x1, y1) && Follows(points, x0, y0, x, y) && IsPoint((x, y), |points|, x0, y0, x1, y1)
    ensures Drawn(points + [(x, y)], x0, y0, x1, y1)
  {
    var more := points + [(x, y)];
    assert forall k :: 0 <= k < |more| ==> more[k] == if k < |points| then points[k] else (x, y);
    forall k | 0 <= k < |more| ensures IsPoint(more[k], k, x0, y0, x1, y1) {
      assert k < |points| ==> IsPoint(points[k], k, x0, y0, x1, y1);
    }
    ConnectedMore(points, (x, y));
  }

  lemma ConnectedMore(points: seq<(int, int)>, p: (int, int))
    requires Connected(points) && (points != [] ==> Touches(points[|points| - 1], p))
    ensures Connected(points + [p])
  {
    var more := points + [p];
    forall k | 0 < k < |more| ensures Touches(more[k - 1], more[k]) {
      assert more[k - 1] == points[k - 1];
      assert k < |points| ==> more[k] == points[k];
    }
  }

  /** The pen's point belongs to the line, and completes it if it is the end point. */
  lemma PenPoint(points: seq<(int, int)>, x0: int, y0: int, x1: int, y1: int, x: int, y: int, err: int, i: int, j: int)
    requires Pen(x0, y0, x1, y1, x, y, err, i, j, |points|)
    requires Drawn(points, x0, y0, x1, y1) && Follows(points, x0, y0, x, y)
    ensures Drawn(points + [(x, y)], x0, y0, x1, y1)
    ensures x == x1 && y == y1 ==> IsLine(points + [(x, y)], x0, y0, x1, y1)
  {
    PenIsPoint(x0, y0, x1, y1, x, y, err, i, j, |points|);
    DrawnMore(points, x0, y0, x1, y1, x, y);
  }

  /** Away from the end point one round takes the pen one step along the longer axis. */
  lemma PenMoves(x0: int, y0: int, x1: int, y1: int, x: int, y: int, err: int, i: int, j: int, n: nat)
    requires Pen(x0, y0, x1, y1, x, y, err, i, j, n) && (x != x1 || y != y1)
    ensures n < Max(Abs(x1 - x0), Abs(y1 - y0))
    ensures var a, b := Abs(x1 - x0), Abs(y1 - y0);
      var right, up := 2 * err >= -b, 2 * err <= a;
      Pen(x0, y0, x1, y1, if right then x + Sign(x0, x1) else x, if up then y + Sign(y0, y1) else y,
          err + (if right then -b else 0) + (if up then a else 0),
          if right then i + 1 else i, if up then j + 1 else j, n + 1)
  {
    var a, b := Abs(x1 - x0), Abs(y1 - y0);
    NotAtEnd(x0, y0, x1, y1, i, j);
    ErrorMoves(a, b, i, j, err);
    if 2 * err >= -b {
      AxisMoves(x0, x1, x, i);
    }
    if 2 * err <= a {
      AxisMoves(y0, y1, y, j);
    }
  }

  predicate OnSome(points: seq<(int, int)>, u: int, v: int) {
    exists k :: 0 <= k < |points| && InDot(u, v, points[k].0, points[k].1, 1)
  }

  lemma OnSomeMore(points: seq<(int, int)>, p: (int, int))
    ensures forall u, v :: OnSome(points + [p], u, v) <==> OnSome(points, u, v) || InDot(u, v, p.0, p.1, 1)
  {
    var more := points + [p];
    forall u, v ensures OnSome(more, u, v) <==> OnSome(points, u, v) || InDot(u, v, p.0, p.1, 1) {
      if OnSome(points, u, v) {
        var k :| 0 <= k < |points| && InDot(u, v, points[k].0, points[k].1, 1);
        assert more[k] == points[k];
      }
      if InDot(u, v, p.0, p.1, 1) {
        assert more[|points|] == p;
      }
    }
  }

  /** The points so far. */
  ghost predicate Drawn(points: seq<(int, int)>, x0: int, y0: int, x1: int, y1: int) {
    && (points != [] ==> points[0] == (x0, y0))
    && (forall k :: 0 <= k < |points| ==> IsPoint(points[k], k, x0, y0, x1, y1))
    && Connected(points)
  }

  /** A coordinate gives back its steps. */
  lemma StepsBack(from: int, to: int, at: int, steps: int)
    requires at == from + steps * Sign(from, to)
    ensures (at - from) * Sign(from, to) == steps
  {
  }

  /** At the end point all steps are taken. */
  lemma AtEnd(x0: int, y0: int, x1: int, y1: int, i: int, j: int)
    requires x1 == x0 + i * Sign(x0, x1) && y1 == y0 + j * Sign(y0, y1) && i >= 0 && j >= 0
    ensures i == Abs(x1 - x0) && j == Abs(y1 - y0)
  {
  }

  /** Elsewhere steps along the longer axis remain. */
  lemma NotAtEnd(x0: int, y0: int, x1: int, y1: int, i: int, j: int)
    requires var a, b := Abs(x1 - x0), Abs(y1 - y0); 0 <= i <= a && 0 <= j <= b && Near(a, b, i, j)
    requires x0 + i * Sign(x0, x1) != x1 || y0 + j * Sign(y0, y1) != y1
    ensures var a, b := Abs(x1 - x0), Abs(y1 - y0); if a >= b then i < a else j < b
  {
    var a, b := Abs(x1 - x0), Abs(y1 - y0);
    if a >= b {
      if a > 0 {
        MinorFollowsMajor(a, b, i, j);
      }
    } else {
      MinorFollowsMajor(b, a, j, i);
    }
  }

  lemma StayInside(a: int, b: int, i: int, j: int)
    requires a >= 0 && b >= 0 && (a > 0 || b > 0) && i >= 0 && j >= 0 && Near(a, b, i, j)
      && (if a >= b then i <= a else j <= b)
    ensures i <= a && j <= b
  {
    if a >= b {
      MinorFollowsMajor(a, b, i, j);
    } else {
      MinorFollowsMajor(b, a, j, i);
    }
  }
}
