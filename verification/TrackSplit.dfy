/** Cutting a track into the segments that are drawn: at points that cannot be drawn and, on request, at long jumps. */
module TrackSplit {

  /** A coordinate as parsed: a number, or one of the values that are none. */
  datatype Coordinate = Number(value: real) | NotFinite

  datatype Point = Point(lat: Coordinate, lon: Coordinate)

  predicate ValidPoint(p: Point) {
    && p.lat.Number? && p.lon.Number?
    && -90.0 <= p.lat.value <= 90.0 && -180.0 <= p.lon.value <= 180.0
  }

  /** The points first, first + 1, ... up to but not including end. */
  datatype Run = Run(first: nat, end: nat)

  type Distance = (Point, Point) -> real

  /** Neighbours that are drawn with a line between them. */
  predicate Joined(points: seq<Point>, i: nat, distance: Distance, threshold: real) {
    && 0 < i < |points| && ValidPoint(points[i - 1]) && ValidPoint(points[i])
    && distance(points[i - 1], points[i]) <= threshold
  }

  /** Neighbours that can both be drawn but are too far apart. */
  predicate Jump(points: seq<Point>, i: nat, distance: Distance, threshold: real) {
    && 0 < i < |points| && ValidPoint(points[i - 1]) && ValidPoint(points[i])
    && distance(points[i - 1], points[i]) > threshold
  }

  predicate In(i: int, r: Run) { r.first <= i < r.end }

  ghost predicate Covered(runs: seq<Run>, i: int) {
    exists k :: 0 <= k < |runs| && In(i, runs[k])
  }

  predicate Apart(runs: seq<Run>) {
    && (forall k :: 0 <= k < |runs| ==> runs[k].first < runs[k].end)
    && (forall j, k :: 0 <= j < k < |runs| ==> runs[j].end <= runs[k].first)
  }

  /** The runs of the first n points: non-empty and in order, with exactly the valid points in them, neighbours inside a
      run joined, and no run starting at a point that is joined to the one before. */
  ghost predicate Cut(points: seq<Point>, runs: seq<Run>, n: nat, distance: Distance, threshold: real) {
    && n <= |points| && Apart(runs)
    && (forall k :: 0 <= k < |runs| ==> runs[k].end <= n)
    && (forall i {:trigger Covered(runs, i)} :: 0 <= i < n ==> (ValidPoint(points[i]) <==> Covered(runs, i)))
    && Inside(points, runs, distance, threshold)
  }

  ghost predicate Inside(points: seq<Point>, runs: seq<Run>, distance: Distance, threshold: real) {
    && (forall k, i :: 0 <= k < |runs| && runs[k].first < i < runs[k].end ==> Joined(points, i, distance, threshold))
    && (forall k :: 0 <= k < |runs| ==> !Joined(points, runs[k].first, distance, threshold))
  }

  ghost predicate InRange(runs: seq<Run>, n: nat) {
    forall k :: 0 <= k < |runs| ==> runs[k].first <= runs[k].end <= n
  }

  ghost function Slices(points: seq<Point>, runs: seq<Run>): (segments: seq<seq<Point>>)
    requires InRange(runs, |points|)
    ensures |segments| == |runs|
    ensures forall k :: 0 <= k < |runs| ==> segments[k] == points[runs[k].first..runs[k].end]
  {
    if runs == [] then []
    else
      var last := runs[|runs| - 1];
      Slices(points, runs[..|runs| - 1]) + [points[last.first..last.end]]
  }

  function Jumps(points: seq<Point>, n: nat, distance: Distance, threshold: real): nat
    requires n <= |points|
  {
    if n == 0 then 0
    else Jumps(points, n - 1, distance, threshold) + if Jump(points, n - 1, distance, threshold) then 1 else 0
  }

  function Drawable(points: seq<Point>): seq<Point> {
    if points == [] then []
    else
      var last := points[|points| - 1];
      Drawable(points[..|points| - 1]) + if ValidPoint(last) then [last] else []
  }

  function Flatten(segments: seq<seq<Point>>): seq<Point> {
    if segments == [] then [] else Flatten(segments[..|segments| - 1]) + segments[|segments| - 1]
  }

  // Splitting.

  /** One more point: on the last segment if it is joined to it, and otherwise on a new one. */
  function AddToSegments(before: seq<seq<Point>>, point: Point, joined: bool): seq<seq<Point>>
    requires joined ==> before != []
  {
    if joined then before[..|before| - 1] + [before[|before| - 1] + [point]] else before + [[point]]
  }

  /** The segments of the first n points. */
  function Segments(points: seq<Point>, n: nat, distance: Distance, threshold: real): (s: seq<seq<Point>>)
    requires n <= |points|
    ensures n > 0 && ValidPoint(points[n - 1]) ==> s != []
  {
    if n == 0 then []
    else
      var before := Segments(points, n - 1, distance, threshold);
      if !ValidPoint(points[n - 1]) then before
      else AddToSegments(before, points[n - 1], Joined(points, n - 1, distance, threshold))
  }

  /** The segments with the current one ended. */
  function Flushed(segments: seq<seq<Point>>, current: seq<Point>): seq<seq<Point>> {
    if current == [] then segments else segments + [current]
  }

  method SplitTrackPointsByJump(points: seq<Point>, hideJumps: bool, threshold: real, distance: Distance)
    returns (segments: seq<seq<Point>>, hidden: nat)
    ensures !hideJumps || threshold <= 0.0
      ==> hidden == 0 && segments == if Drawable(points) == [] then [] else [Drawable(points)]
    ensures hideJumps && threshold > 0.0 ==>
      && segments == Segments(points, |points|, distance, threshold)
          && hidden == Jumps(points, |points|, distance, threshold)
  {
    segments, hidden := [], 0;
    if points == [] {
      return;
    }
    if !hideJumps || threshold <= 0.0 {
      var valid := KeepDrawable(points);
      segments := if valid == [] then [] else [valid];
      return;
    }
    var current: seq<Point> := [];
    var previous, havePrevious := points[0], false;
    for i := 0 to |points|
      invariant Flushed(segments, current) == Segments(points, i, distance, threshold)
      invariant hidden == Jumps(points, i, distance, threshold)
      invariant (havePrevious <==> i > 0 && ValidPoint(points[i - 1])) && (havePrevious <==> current != [])
      invariant havePrevious ==> previous == points[i - 1]
    {
      if !ValidPoint(points[i]) {
        segments, current := Flushed(segments, current), [];
        havePrevious := false;
      } else {
        assert (segments + [current])[..|segments|] == segments;
        assert [] + [points[i]] == [points[i]];
        if havePrevious && distance(previous, points[i]) > threshold {
          hidden := hidden + 1;
          segments, current := Flushed(segments, current), [];
        }
        current := current + [points[i]];
        previous, havePrevious := points[i], true;
      }
    }
    segments := Flushed(segments, current);
  }

  method KeepDrawable(points: seq<Point>) returns (valid: seq<Point>)
    ensures valid == Drawable(points)
  {
    valid := [];
    for i := 0 to |points|
      invariant valid == Drawable(points[..i])
    {
      assert points[..i + 1][..i] == points[..i];
      if ValidPoint(points[i]) {
        valid := valid + [points[i]];
      }
    }
    assert points[..|points|] == points;
  }

  // The segments are the runs.

  function AddToRuns(before: seq<Run>, n: nat, joined: bool): seq<Run>
    requires n > 0 && (joined ==> before != [])
  {
    if joined then before[..|before| - 1] + [Run(before[|before| - 1].first, n)] else before + [Run(n - 1, n)]
  }

  /** The runs of the first n points. */
  function RunsOf(points: seq<Point>, n: nat, distance: Distance, threshold: real): (runs: seq<Run>)
    requires n <= |points|
    ensures n > 0 && ValidPoint(points[n - 1]) ==> runs != [] && runs[|runs| - 1].end == n
  {
    if n == 0 then []
    else
      var before := RunsOf(points, n - 1, distance, threshold);
      if !ValidPoint(points[n - 1]) then before
      else AddToRuns(before, n, Joined(points, n - 1, distance, threshold))
  }

  /** Each segment is what the points of its run are. */
  lemma {:induction false} SegmentsAreRuns(points: seq<Point>, n: nat, distance: Distance, threshold: real)
    requires n <= |points|
    ensures InRange(RunsOf(points, n, distance, threshold), n)
    ensures Segments(points, n, distance, threshold) == Slices(points, RunsOf(points, n, distance, threshold))
  {
    if n > 0 {
      SegmentsAreRuns(points, n - 1, distance, threshold);
      if ValidPoint(points[n - 1]) {
        OneMorePoint(points, RunsOf(points, n - 1, distance, threshold), n, Joined(points, n - 1, distance, threshold));
      }
    }
  }

  lemma OneMorePoint(points: seq<Point>, runs: seq<Run>, n: nat, joined: bool)
    requires 0 < n <= |points| && InRange(runs, n - 1) && (joined ==> runs != [] && runs[|runs| - 1].end == n - 1)
    ensures InRange(AddToRuns(runs, n, joined), n)
    ensures Slices(points, AddToRuns(runs, n, joined)) == AddToSegments(Slices(points, runs), points[n - 1], joined)
  {
    if joined {
      LastSlice(points, runs, n);
    } else {
      SliceMore(points, runs, n);
    }
  }

  lemma SliceMore(points: seq<Point>, runs: seq<Run>, n: nat)
    requires 0 < n <= |points| && InRange(runs, n - 1)
    ensures InRange(runs + [Run(n - 1, n)], n)
    ensures Slices(points, runs + [Run(n - 1, n)]) == Slices(points, runs) + [[points[n - 1]]]
  {
    assert (runs + [Run(n - 1, n)])[..|runs|] == runs;
    assert points[n - 1..n] == [points[n - 1]];
  }

  lemma LastSlice(points: seq<Point>, runs: seq<Run>, n: nat)
    requires 0 < n <= |points| && InRange(runs, n - 1) && runs != [] && runs[|runs| - 1].end == n - 1
    ensures var grown := runs[..|runs| - 1] + [Run(runs[|runs| - 1].first, n)];
      InRange(grown, n)
      && Slices(points, grown) ==
         Slices(points, runs)[..|runs| - 1] + [Slices(points, runs)[|runs| - 1] + [points[n - 1]]]
  {
    var first := runs[|runs| - 1].first;
    var grown := runs[..|runs| - 1] + [Run(first, n)];
    assert grown[..|runs| - 1] == runs[..|runs| - 1];
    assert points[first..n] == points[first..n - 1] + [points[n - 1]];
  }

  /** The runs cut the track: they cover exactly the valid points and break exactly at jumps. */
  lemma {:induction false} RunsAreCut(points: seq<Point>, n: nat, distance: Distance, threshold: real)
    requires n <= |points|
    ensures Cut(points, RunsOf(points, n, distance, threshold), n, distance, threshold)
  {
    if n > 0 {
      RunsAreCut(points, n - 1, distance, threshold);
      var before := RunsOf(points, n - 1, distance, threshold);
      if !ValidPoint(points[n - 1]) {
        SkipPoint(points, before, n - 1, distance, threshold);
      } else if Joined(points, n - 1, distance, threshold) {
        LastRunGrows(points, before, n - 1, distance, threshold);
      } else {
        StartRun(points, before, n - 1, distance, threshold);
      }
    }
  }

  lemma SkipPoint(points: seq<Point>, runs: seq<Run>, n: nat, distance: Distance, threshold: real)
    requires Cut(points, runs, n, distance, threshold) && n < |points| && !ValidPoint(points[n])
    ensures Cut(points, runs, n + 1, distance, threshold)
  {
  }

  lemma StartRun(points: seq<Point>, runs: seq<Run>, n: nat, distance: Distance, threshold: real)
    requires Cut(points, runs, n, distance, threshold) && n < |points| && ValidPoint(points[n])
    requires !Joined(points, n, distance, threshold)
    ensures Cut(points, runs + [Run(n, n + 1)], n + 1, distance, threshold)
  {
    var more := runs + [Run(n, n + 1)];
    CoverAppend(runs, Run(n, n + 1));
    forall i | 0 <= i < n + 1 ensures ValidPoint(points[i]) <==> Covered(more, i) {
      assert Covered(more, i) <==> Covered(runs, i) || In(i, Run(n, n + 1));
    }
  }

  lemma GrowRun(points: seq<Point>, runs: seq<Run>, first: nat, n: nat, distance: Distance, threshold: real)
    requires Cut(points, runs + [Run(first, n)], n, distance, threshold) && n < |points|
    requires Joined(points, n, distance, threshold)
    ensures Cut(points, runs + [Run(first, n + 1)], n + 1, distance, threshold)
  {
    var before, after := runs + [Run(first, n)], runs + [Run(first, n + 1)];
    assert before[|runs|] == Run(first, n);
    CoverAppend(runs, Run(first, n));
    CoverAppend(runs, Run(first, n + 1));
    GrownInside(points, runs, first, n, distance, threshold);
    forall i | 0 <= i < n + 1 ensures ValidPoint(points[i]) <==> Covered(after, i) {
      assert Covered(before, i) <==> Covered(runs, i) || In(i, Run(first, n));
      assert Covered(after, i) <==> Covered(runs, i) || In(i, Run(first, n + 1));
      assert i < n ==> (In(i, Run(first, n)) <==> In(i, Run(first, n + 1)));
      assert i < n ==> (ValidPoint(points[i]) <==> Covered(before, i));
    }
    forall k | 0 <= k < |after| ensures after[k].end <= n + 1 {
      assert k < |runs| ==> after[k] == before[k];
    }
  }

  lemma LastRunGrows(points: seq<Point>, runs: seq<Run>, n: nat, distance: Distance, threshold: real)
    requires Cut(points, runs, n, distance, threshold) && runs != [] && runs[|runs| - 1].end == n < |points|
    requires Joined(points, n, distance, threshold)
    ensures Cut(points, runs[..|runs| - 1] + [Run(runs[|runs| - 1].first, n + 1)], n + 1, distance, threshold)
  {
    var last := runs[|runs| - 1];
    assert runs == runs[..|runs| - 1] + [Run(last.first, n)];
    GrowRun(points, runs[..|runs| - 1], last.first, n, distance, threshold);
  }

  lemma CoverAppend(runs: seq<Run>, r: Run)
    ensures forall i :: Covered(runs + [r], i) <==> Covered(runs, i) || In(i, r)
  {
    var more := runs + [r];
    forall i ensures Covered(more, i) <==> Covered(runs, i) || In(i, r) {
      assert more[|runs|] == r;
      if k :| 0 <= k < |runs| && In(i, runs[k]) {
        assert In(i, more[k]);
      }
      if k :| 0 <= k < |more| && In(i, more[k]) {
        assert k < |runs| ==> In(i, runs[k]);
      }
    }
  }

  lemma GrownInside(points: seq<Point>, runs: seq<Run>, first: nat, n: nat, distance: Distance, threshold: real)
    requires first < n && Apart(runs + [Run(first, n)]) && Inside(points, runs + [Run(first, n)], distance, threshold)
    requires Joined(points, n, distance, threshold)
    ensures Apart(runs + [Run(first, n + 1)]) && Inside(points, runs + [Run(first, n + 1)], distance, threshold)
  {
    var before, after := runs + [Run(first, n)], runs + [Run(first, n + 1)];
    assert forall k :: 0 <= k < |after| ==> after[k].first == before[k].first && (k < |runs| ==> after[k] == before[k]);
  }

  // What the cut means.

  /** The runs without their last point. */
  function Trimmed(runs: seq<Run>): seq<Run>
    requires runs != [] && runs[|runs| - 1].end > 0
  {
    var last, rest := runs[|runs| - 1], runs[..|runs| - 1];
    if last.end == last.first + 1 then rest else rest + [Run(last.first, last.end - 1)]
  }

  /** The last point is in the last run, or in none. */
  lemma LastPoint(points: seq<Point>, runs: seq<Run>, n: nat, distance: Distance, threshold: real)
    requires Cut(points, runs, n + 1, distance, threshold)
    ensures ValidPoint(points[n]) <==> runs != [] && runs[|runs| - 1].end == n + 1
    ensures runs != [] && runs[|runs| - 1].end == n + 1
      ==> (Joined(points, n, distance, threshold) <==> runs[|runs| - 1].first < n)
  {
    assert ValidPoint(points[n]) <==> Covered(runs, n);
    assert forall k :: 0 <= k < |runs| - 1 ==> runs[k].end <= runs[|runs| - 1].first;
    if runs != [] && runs[|runs| - 1].end == n + 1 {
      assert In(n, runs[|runs| - 1]);
    }
  }

  lemma TrimmedRuns(points: seq<Point>, runs: seq<Run>, n: nat, distance: Distance, threshold: real)
    requires Cut(points, runs, n + 1, distance, threshold) && runs != [] && runs[|runs| - 1].end == n + 1
    ensures Cut(points, Trimmed(runs), n, distance, threshold)
  {
    var rest, last := runs[..|runs| - 1], runs[|runs| - 1];
    var trimmed := Trimmed(runs);
    assert runs == rest + [last];
    CoverAppend(rest, last);
    if last.first < n {
      CoverAppend(rest, Run(last.first, n));
    }
    forall i | 0 <= i < n ensures ValidPoint(points[i]) <==> Covered(trimmed, i) {
      assert Covered(runs, i) <==> Covered(rest, i) || In(i, last);
    }
    TrimmedInside(points, runs, n, distance, threshold);
  }

  lemma TrimmedInside(points: seq<Point>, runs: seq<Run>, n: nat, distance: Distance, threshold: real)
    requires Apart(runs) && Inside(points, runs, distance, threshold) && runs != [] && runs[|runs| - 1].end == n + 1
    requires forall k :: 0 <= k < |runs| ==> runs[k].end <= n + 1
    ensures Apart(Trimmed(runs)) && Inside(points, Trimmed(runs), distance, threshold)
    ensures forall k :: 0 <= k < |Trimmed(runs)| ==> Trimmed(runs)[k].end <= n
  {
    var trimmed := Trimmed(runs);
    assert forall k :: 0 <= k < |trimmed| ==> trimmed[k].first == runs[k].first && trimmed[k].end <= runs[k].end;
    assert forall k :: 0 <= k < |runs| - 1 ==> runs[k].end <= runs[|runs| - 1].first <= n;
  }

  lemma ShorterCut(points: seq<Point>, runs: seq<Run>, n: nat, distance: Distance, threshold: real)
    requires Cut(points, runs, n + 1, distance, threshold) && !ValidPoint(points[n])
    ensures Cut(points, runs, n, distance, threshold)
  {
    LastPoint(points, runs, n, distance, threshold);
    forall k | 0 <= k < |runs| ensures runs[k].end <= n {
      assert k < |runs| - 1 ==> runs[k].end <= runs[|runs| - 1].first;
    }
    forall i | 0 <= i < n ensures ValidPoint(points[i]) <==> Covered(runs, i) {
    }
  }

  /** There is only one cut: the segments are the maximal stretches of joined points. */
  lemma {:induction false} CutIsUnique(points: seq<Point>, runs: seq<Run>, n: nat, distance: Distance, threshold: real)
    requires Cut(points, runs, n, distance, threshold)
    ensures runs == RunsOf(points, n, distance, threshold)
    decreases n
  {
    assert runs != [] ==> runs[0].first < runs[0].end <= n;
    if n > 0 {
      LastPoint(points, runs, n - 1, distance, threshold);
      if ValidPoint(points[n - 1]) {
        TrimmedRuns(points, runs, n - 1, distance, threshold);
        CutIsUnique(points, Trimmed(runs), n - 1, distance, threshold);
        Untrimmed(runs, n);
      } else {
        ShorterCut(points, runs, n - 1, distance, threshold);
        CutIsUnique(points, runs, n - 1, distance, threshold);
      }
    }
  }

  /** The segments are the points of the only cut there is. */
  lemma SegmentsOfCut(points: seq<Point>, runs: seq<Run>, distance: Distance, threshold: real)
    requires Cut(points, runs, |points|, distance, threshold)
    ensures InRange(runs, |points|) && Segments(points, |points|, distance, threshold) == Slices(points, runs)
  {
    CutIsUnique(points, runs, |points|, distance, threshold);
    SegmentsAreRuns(points, |points|, distance, threshold);
  }

  lemma Untrimmed(runs: seq<Run>, n: nat)
    requires runs != [] && runs[|runs| - 1].first < runs[|runs| - 1].end == n
    ensures var last, t := runs[|runs| - 1], Trimmed(runs);
      if last.first == n - 1 then runs == t + [Run(n - 1, n)]
      else t != [] && runs == t[..|t| - 1] + [Run(t[|t| - 1].first, n)]
  {
  }

  /** The points that can be drawn are those with numbers for coordinates, on the globe. */
  lemma {:induction false} DrawableIsOnGlobe(points: seq<Point>)
    ensures forall p :: p in Drawable(points) <==>
      && p in points && p.lat.Number? && p.lon.Number?
      && p.lat.value >= -90.0 && p.lat.value <= 90.0 && p.lon.value >= -180.0 && p.lon.value <= 180.0
  {
    if points != [] {
      assert points == points[..|points| - 1] + [points[|points| - 1]];
      DrawableIsOnGlobe(points[..|points| - 1]);
    }
  }

  /** No point that can be drawn is lost, added or moved. */
  lemma {:induction false} NothingIsLost(points: seq<Point>, n: nat, distance: Distance, threshold: real)
    requires n <= |points|
    ensures Flatten(Segments(points, n, distance, threshold)) == Drawable(points[..n])
  {
    if n > 0 {
      NothingIsLost(points, n - 1, distance, threshold);
      assert points[..n][..n - 1] == points[..n - 1];
      var before := Segments(points, n - 1, distance, threshold);
      if Joined(points, n - 1, distance, threshold) {
        FlattenLast(before, points[n - 1]);
      } else if ValidPoint(points[n - 1]) {
        assert (before + [[points[n - 1]]])[..|before|] == before;
      }
    }
  }

  lemma FlattenLast(segments: seq<seq<Point>>, p: Point)
    requires segments != []
    ensures Flatten(segments[..|segments| - 1] + [segments[|segments| - 1] + [p]]) == Flatten(segments) + [p]
  {
    var rest, last := segments[..|segments| - 1], segments[|segments| - 1];
    assert (rest + [last + [p]])[..|rest|] == rest;
    assert Flatten(rest) + (last + [p]) == Flatten(rest) + last + [p];
  }

  /** The stretches of valid points: where one starts. */
  function Stretches(points: seq<Point>, n: nat): nat
    requires n <= |points|
  {
    if n == 0 then 0
    else Stretches(points, n - 1) + if ValidPoint(points[n - 1]) && (n == 1 || !ValidPoint(points[n - 2])) then 1 else 0
  }

  /** Each hidden jump makes one segment more, and nothing else does. */
  lemma {:induction false} JumpsMakeSegments(points: seq<Point>, n: nat, distance: Distance, threshold: real)
    requires n <= |points|
    ensures |Segments(points, n, distance, threshold)| == Stretches(points, n) + Jumps(points, n, distance, threshold)
  {
    if n > 0 {
      JumpsMakeSegments(points, n - 1, distance, threshold);
    }
  }

  // Geometry.

  datatype Geometry = NoGeometry | LineString(line: seq<Point>) | MultiLineString(lines: seq<seq<Point>>)

  /** A line needs two points. */
  function Lines(segments: seq<seq<Point>>): seq<seq<Point>> {
    if segments == [] then []
    else
      var last := segments[|segments| - 1];
      Lines(segments[..|segments| - 1]) + if |last| >= 2 then [last] else []
  }

  function LinesOf(g: Geometry): seq<seq<Point>> {
    match g
    case NoGeometry => []
    case LineString(line) => [line]
    case MultiLineString(lines) => lines
  }

  method TrackGeometryFromPoints(points: seq<Point>, hideJumps: bool, threshold: real, distance: Distance)
    returns (geometry: Geometry, drawn: nat, hidden: nat)
    ensures drawn == |LinesOf(geometry)| && (geometry.MultiLineString? ==> drawn >= 2)
    ensures hideJumps && threshold > 0.0 ==>
      && LinesOf(geometry) == Lines(Segments(points, |points|, distance, threshold))
      && hidden == Jumps(points, |points|, distance, threshold)
    ensures !hideJumps || threshold <= 0.0 ==>
      hidden == 0 && LinesOf(geometry) == if |Drawable(points)| >= 2 then [Drawable(points)] else []
  {
    var segments;
    segments, hidden := SplitTrackPointsByJump(points, hideJumps, threshold, distance);
    var lines := [];
    for i := 0 to |segments|
      invariant lines == Lines(segments[..i])
    {
      assert segments[..i + 1][..i] == segments[..i];
      if |segments[i]| < 2 {
        continue;
      }
      lines := lines + [segments[i]];
    }
    assert segments[..|segments|] == segments;
    drawn := |lines|;
    geometry := if drawn == 0 then NoGeometry else if drawn == 1 then LineString(lines[0]) else MultiLineString(lines);
  }

  /** The lines drawn are the segments with two points or more. */
  lemma {:induction false} LinesAreLong(segments: seq<seq<Point>>)
    ensures forall line :: line in Lines(segments) <==> line in segments && |line| >= 2
  {
    if segments != [] {
      LinesAreLong(segments[..|segments| - 1]);
      assert segments == segments[..|segments| - 1] + [segments[|segments| - 1]];
    }
  }
}
