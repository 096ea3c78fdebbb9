/** Placing a moment on a track: the nearest timed points and the position between them. */
module GeoSnap {
  import opened Chronology

  type Time = int

  /** The time of a point that was recorded without one. */
  const ZERO_TIME: Time := 0

  datatype TrackPoint = TrackPoint(lat: real, lon: real, recordedAt: Time)

  function RecordedAt(p: TrackPoint): Time { p.recordedAt }

  function Timed(points: seq<TrackPoint>): seq<TrackPoint> {
    if points == [] then []
    else
      var last := points[|points| - 1];
      Timed(points[..|points| - 1]) + if last.recordedAt != ZERO_TIME then [last] else []
  }

  /** The points with a time, in chronological order. */
  method TimedPoints(points: seq<TrackPoint>) returns (out: seq<TrackPoint>)
    ensures Chronological(out, RecordedAt) && multiset(out) == multiset(Timed(points))
  {
    var timed := [];
    for i := 0 to |points|
      invariant timed == Timed(points[..i])
    {
      assert points[..i + 1][..i] == points[..i];
      if points[i].recordedAt != ZERO_TIME {
        timed := timed + [points[i]];
      }
    }
    assert points[..|points|] == points;
    out := SortByTime(timed, RecordedAt);
  }

  function Apart(a: Time, b: Time): (d: nat) {
    if a <= b then b - a else a - b
  }

  /** The distance in time from a moment to the closest point. */
  ghost predicate IsNearest(points: seq<TrackPoint>, target: Time, gap: int) {
    && (exists i :: 0 <= i < |points| && Apart(points[i].recordedAt, target) == gap)
    && (forall i :: 0 <= i < |points| ==> gap <= Apart(points[i].recordedAt, target))
  }

  /** A value on the straight line from one reading to the next, at a moment between them. */
  predicate OnLine(from: real, to: real, start: Time, end: Time, at: Time, value: real) {
    && (value - from) * (end - start) as real == (to - from) * (at - start) as real
    && (start == end ==> value == from)
  }

  /** Between two neighbours that enclose the moment. */
  predicate OnLeg(points: seq<TrackPoint>, i: nat, target: Time, lat: real, lon: real) {
    && 0 < i < |points| && points[i - 1].recordedAt <= target <= points[i].recordedAt
    && OnLine(points[i - 1].lat, points[i].lat, points[i - 1].recordedAt, points[i].recordedAt, target, lat)
    && OnLine(points[i - 1].lon, points[i].lon, points[i - 1].recordedAt, points[i].recordedAt, target, lon)
  }

  /** Where the track is at a moment: held at its ends, and on the leg that encloses the moment otherwise. */
  ghost predicate OnTrack(points: seq<TrackPoint>, target: Time, lat: real, lon: real) {
    && points != []
    && (var first, last := points[0], points[|points| - 1];
        if target < first.recordedAt then lat == first.lat && lon == first.lon
        else if target > last.recordedAt || |points| == 1 then lat == last.lat && lon == last.lon
        else exists i: nat :: OnLeg(points, i, target, lat, lon))
  }

  method InterpolateGeoPoint(points: seq<TrackPoint>, target: Time, maxGap: int)
    returns (lat: real, lon: real, gap: int, ok: bool)
    requires Chronological(points, RecordedAt)
    ensures points == [] ==> !ok && gap == 0
    ensures points != [] ==> IsNearest(points, target, gap)
    ensures ok <==> points != [] && (gap <= maxGap || (|points| == 1 && target == points[0].recordedAt))
    ensures ok ==> OnTrack(points, target, lat, lon)
  {
    if points == [] {
      return 0.0, 0.0, 0, false;
    }
    ChronologicalTimes(points);
    var first, last := points[0], points[|points| - 1];
    if target < first.recordedAt {
      gap := first.recordedAt - target;
      assert Apart(points[0].recordedAt, target) == gap;
      return first.lat, first.lon, gap, gap <= maxGap;
    }
    if target > last.recordedAt {
      gap := target - last.recordedAt;
      assert Apart(points[|points| - 1].recordedAt, target) == gap;
      return last.lat, last.lon, gap, gap <= maxGap;
    }
    for i := 1 to |points|
      invariant i > 1 ==> points[i - 1].recordedAt < target
    {
      if target <= points[i].recordedAt {
        gap := Nearer(points, i, target);
        if gap > maxGap {
          return 0.0, 0.0, gap, false;
        }
        lat, lon := Blend(points, i, target);
        return lat, lon, gap, true;
      }
    }
    assert Apart(points[0].recordedAt, target) == 0;
    return last.lat, last.lon, 0, true;
  }

  lemma ChronologicalTimes(points: seq<TrackPoint>)
    requires Chronological(points, RecordedAt)
    ensures forall i, j :: 0 <= i < j < |points| ==> points[i].recordedAt <= points[j].recordedAt
  {
    forall i, j | 0 <= i < j < |points| ensures points[i].recordedAt <= points[j].recordedAt {
      assert RecordedAt(points[i]) <= RecordedAt(points[j]);
    }
  }

  /** The closer of the two neighbours that enclose a moment is the closest point of all. */
  method Nearer(points: seq<TrackPoint>, i: nat, target: Time) returns (nearest: int)
    requires 0 < i < |points| && points[i - 1].recordedAt <= target <= points[i].recordedAt
    requires forall j, k :: 0 <= j < k < |points| ==> points[j].recordedAt <= points[k].recordedAt
    ensures IsNearest(points, target, nearest)
  {
    var gapPrev, gapNext := target - points[i - 1].recordedAt, points[i].recordedAt - target;
    nearest := gapPrev;
    if gapNext < nearest {
      nearest := gapNext;
    }
    assert Apart(points[i - 1].recordedAt, target) == gapPrev && Apart(points[i].recordedAt, target) == gapNext;
    forall j | 0 <= j < |points| ensures nearest <= Apart(points[j].recordedAt, target) {
      assert j < i - 1 ==> points[j].recordedAt <= points[i - 1].recordedAt;
      assert i < j ==> points[i].recordedAt <= points[j].recordedAt;
    }
  }

  /** The linear blend of two neighbours. */
  method Blend(points: seq<TrackPoint>, i: nat, target: Time) returns (lat: real, lon: real)
    requires 0 < i < |points| && points[i - 1].recordedAt <= target <= points[i].recordedAt
    ensures OnLeg(points, i, target, lat, lon)
  {
    var prev, next := points[i - 1], points[i];
    var span := (next.recordedAt - prev.recordedAt) as real;
    if span <= 0.0 {
      assert OnLine(prev.lat, next.lat, target, target, target, prev.lat);
      assert OnLine(prev.lon, next.lon, target, target, target, prev.lon);
      return prev.lat, prev.lon;
    }
    var ratio := (target - prev.recordedAt) as real / span;
    lat := prev.lat + (next.lat - prev.lat) * ratio;
    lon := prev.lon + (next.lon - prev.lon) * ratio;
    ShareIsOnLine(prev.lat, next.lat, prev.recordedAt, next.recordedAt, target, ratio);
    ShareIsOnLine(prev.lon, next.lon, prev.recordedAt, next.recordedAt, target, ratio);
  }

  /** A value is on the line when it has covered the same share of the way as the moment has of the time. */
  lemma ShareIsOnLine(from: real, to: real, start: Time, end: Time, at: Time, share: real)
    requires start < end && share * (end - start) as real == (at - start) as real
    ensures OnLine(from, to, start, end, at, from + (to - from) * share)
  {
    Scaled(to - from, share, (end - start) as real);
    assert from + (to - from) * share - from == (to - from) * share;
  }

  lemma Scaled(d: real, ratio: real, span: real)
    ensures d * ratio * span == d * (ratio * span)
  {
  }

  // What the position means.

  predicate Between(value: real, a: real, b: real) {
    a <= value <= b || b <= value <= a
  }

  /** A value on the line at a moment in its span lies between the two ends. */
  lemma OnLineIsBetween(from: real, to: real, start: Time, end: Time, at: Time, value: real)
    requires start <= at <= end && OnLine(from, to, start, end, at, value)
    ensures Between(value, from, to)
    ensures at == start ==> value == from
    ensures at == end && start < end ==> value == to
  {
    if start < end {
      var span := (end - start) as real;
      var share := (at - start) as real / span;
      assert share * span == (at - start) as real;
      ShareIsBetween((at - start) as real, span, share);
      Scaled(to - from, share, span);
      Cancel(value - from, (to - from) * share, span);
      ShareOfDistance(to - from, share);
    }
  }

  lemma ShareIsBetween(part: real, span: real, share: real)
    requires 0.0 <= part <= span && span > 0.0 && share * span == part
    ensures 0.0 <= share <= 1.0
    ensures part == 0.0 ==> share == 0.0
    ensures part == span ==> share == 1.0
  {
    assert share < 0.0 ==> -share * span > 0.0;
    assert share > 1.0 ==> (share - 1.0) * span > 0.0;
    if part == 0.0 {
      Cancel(share, 0.0, span);
    }
    if part == span {
      Cancel(share, 1.0, span);
    }
  }

  lemma NotNegative(a: real, b: real)
    requires a >= 0.0 && b >= 0.0
    ensures a * b >= 0.0
  {
  }

  lemma ShareOfDistance(d: real, share: real)
    requires 0.0 <= share <= 1.0
    ensures Between(d * share, 0.0, d)
  {
    if d >= 0.0 {
      NotNegative(d, share);
      NotNegative(d, 1.0 - share);
    } else {
      NotNegative(-d, share);
      NotNegative(-d, 1.0 - share);
      assert (-d) * share == -(d * share);
    }
  }

  lemma Cancel(a: real, b: real, span: real)
    requires span > 0.0 && a * span == b * span
    ensures a == b
  {
    assert (a - b) * span == 0.0;
  }

  predicate InBox(a: TrackPoint, b: TrackPoint, lat: real, lon: real) {
    Between(lat, a.lat, b.lat) && Between(lon, a.lon, b.lon)
  }

  /** A position on the track is between two recorded ones, and never outside what was recorded. */
  lemma PositionIsBetween(points: seq<TrackPoint>, target: Time, lat: real, lon: real)
    requires OnTrack(points, target, lat, lon)
    ensures exists i, j :: 0 <= i <= j < |points| && j <= i + 1 && InBox(points[i], points[j], lat, lon)
  {
    var last := |points| - 1;
    if target < points[0].recordedAt {
      assert InBox(points[0], points[0], lat, lon);
    } else if target > points[last].recordedAt || |points| == 1 {
      assert InBox(points[last], points[last], lat, lon);
    } else {
      var i: nat :| OnLeg(points, i, target, lat, lon);
      var a, b := points[i - 1], points[i];
      OnLineIsBetween(a.lat, b.lat, a.recordedAt, b.recordedAt, target, lat);
      OnLineIsBetween(a.lon, b.lon, a.recordedAt, b.recordedAt, target, lon);
      assert InBox(points[i - 1], points[i], lat, lon);
    }
  }

  /** On a track without two points at the same time, a moment that was recorded gets exactly the recorded position. */
  lemma RecordedMoment(points: seq<TrackPoint>, k: nat, lat: real, lon: real)
    requires Chronological(points, RecordedAt) && Distinct(points, RecordedAt) && k < |points|
    requires OnTrack(points, points[k].recordedAt, lat, lon)
    ensures lat == points[k].lat && lon == points[k].lon
  {
    DistinctTimes(points);
    var target := points[k].recordedAt;
    if |points| > 1 {
      var i: nat :| OnLeg(points, i, target, lat, lon);
      var a, b := points[i - 1], points[i];
      OnLineIsBetween(a.lat, b.lat, a.recordedAt, b.recordedAt, target, lat);
      OnLineIsBetween(a.lon, b.lon, a.recordedAt, b.recordedAt, target, lon);
    }
  }

  lemma DistinctTimes(points: seq<TrackPoint>)
    requires Chronological(points, RecordedAt) && Distinct(points, RecordedAt)
    ensures forall i, j :: 0 <= i < j < |points| ==> points[i].recordedAt < points[j].recordedAt
  {
    forall i, j | 0 <= i < j < |points| ensures points[i].recordedAt < points[j].recordedAt {
      assert RecordedAt(points[i]) <= RecordedAt(points[j]) && RecordedAt(points[i]) != RecordedAt(points[j]);
    }
  }

  // The confidence of a snapped position.

  /** One for a recorded moment, falling to zero at the largest gap accepted. */
  function Confidence(nearest: int, gap: int): real
    requires gap > 0
  {
    var part := nearest as real / gap as real;
    1.0 - if part < 1.0 then part else 1.0
  }

  lemma ConfidenceIsShare(points: seq<TrackPoint>, target: Time, nearest: int, gap: int)
    requires gap > 0 && IsNearest(points, target, nearest)
    ensures 0.0 <= Confidence(nearest, gap) <= 1.0
    ensures Confidence(nearest, gap) == 1.0 <==> exists i :: 0 <= i < |points| && points[i].recordedAt == target
    ensures Confidence(nearest, gap) > 0.0 <==> nearest < gap
    ensures nearest <= gap ==> Confidence(nearest, gap) * gap as real == (gap - nearest) as real
  {
    var i :| 0 <= i < |points| && Apart(points[i].recordedAt, target) == nearest;
    ConfidenceRange(nearest, gap);
    if nearest == 0 {
      assert points[i].recordedAt == target;
    }
    if j :| 0 <= j < |points| && points[j].recordedAt == target {
      assert Apart(points[j].recordedAt, target) == 0;
    }
  }

  lemma ConfidenceRange(nearest: nat, gap: int)
    requires gap > 0
    ensures 0.0 <= Confidence(nearest, gap) <= 1.0
    ensures (Confidence(nearest, gap) == 1.0 <==> nearest == 0) && (Confidence(nearest, gap) > 0.0 <==> nearest < gap)
    ensures nearest <= gap ==> Confidence(nearest, gap) * gap as real == (gap - nearest) as real
  {
    var part := nearest as real / gap as real;
    assert part * gap as real == nearest as real;
    PartOfGap(part, nearest as real, gap as real);
  }

  lemma PartOfGap(part: real, nearest: real, gap: real)
    requires gap > 0.0 && nearest >= 0.0 && part * gap == nearest
    ensures part >= 0.0 && (part == 0.0 <==> nearest == 0.0) && (part < 1.0 <==> nearest < gap)
  {
    assert part < 0.0 ==> -part * gap > 0.0;
    assert part >= 1.0 ==> (part - 1.0) * gap >= 0.0;
    if part < 1.0 {
      assert (1.0 - part) * gap != 0.0;
      NotNegative(1.0 - part, gap);
    }
    if nearest == 0.0 {
      Cancel(part, 0.0, gap);
    }
  }

  /** Which points are nearest, and so whether a moment is placed and how confidently, does not depend on how points at
      the same time were ordered. */
  lemma NearestIsOrderFree(a: seq<TrackPoint>, b: seq<TrackPoint>, target: Time, gap: int)
    requires multiset(a) == multiset(b) && IsNearest(a, target, gap)
    ensures IsNearest(b, target, gap)
  {
    var i :| 0 <= i < |a| && Apart(a[i].recordedAt, target) == gap;
    assert a[i] in multiset(b);
    var k :| 0 <= k < |b| && b[k] == a[i];
    forall j | 0 <= j < |b| ensures gap <= Apart(b[j].recordedAt, target) {
      assert b[j] in multiset(a);
    }
  }

  /** On the track, with its points in some chronological order. */
  ghost predicate Placed(points: seq<TrackPoint>, target: Time, lat: real, lon: real) {
    exists s :: Chronological(s, RecordedAt) && multiset(s) == multiset(points) && OnTrack(s, target, lat, lon)
  }

  /** The confidence is the share of the largest gap that the closest point leaves. */
  ghost predicate FallsEvenly(points: seq<TrackPoint>, target: Time, gap: int, confidence: real) {
    exists i :: 0 <= i < |points| && confidence * gap as real == (gap - Apart(points[i].recordedAt, target)) as real
      && forall j :: 0 <= j < |points| ==> Apart(points[i].recordedAt, target) <= Apart(points[j].recordedAt, target)
  }

  lemma ConfidenceFallsEvenly(points: seq<TrackPoint>, target: Time, nearest: int, gap: int)
    requires gap > 0 && IsNearest(points, target, nearest) && nearest <= gap
    ensures FallsEvenly(points, target, gap, Confidence(nearest, gap))
  {
    ConfidenceIsShare(points, target, nearest, gap);
    var i :| 0 <= i < |points| && Apart(points[i].recordedAt, target) == nearest;
  }

  lemma SnapIsExact(points: seq<TrackPoint>, target: Time, nearest: int, gap: int)
    requires gap > 0 && IsNearest(points, target, nearest)
    ensures nearest <= gap <==> exists i :: 0 <= i < |points| && Apart(points[i].recordedAt, target) <= gap
    ensures 0.0 <= Confidence(nearest, gap) <= 1.0
    ensures Confidence(nearest, gap) == 1.0 <==> exists i :: 0 <= i < |points| && points[i].recordedAt == target
    ensures nearest <= gap ==> FallsEvenly(points, target, gap, Confidence(nearest, gap))
  {
    ConfidenceIsShare(points, target, nearest, gap);
    if nearest <= gap {
      ConfidenceFallsEvenly(points, target, nearest, gap);
    }
  }

  /** What a snap job does for one asset: it is placed exactly if a timed point lies within the gap, and the confidence
      falls evenly from one at a recorded moment to none at the largest gap. */
  method SnapAsset(points: seq<TrackPoint>, takenAt: Time, offset: int, gap: int)
    returns (ok: bool, lat: real, lon: real, confidence: real)
    requires gap > 0
    ensures ok <==> exists i :: 0 <= i < |Timed(points)| && Apart(Timed(points)[i].recordedAt, takenAt + offset) <= gap
    ensures ok ==> Placed(Timed(points), takenAt + offset, lat, lon) && 0.0 <= confidence <= 1.0
    ensures ok ==>
      (confidence == 1.0
       <==> exists i :: 0 <= i < |Timed(points)| && Timed(points)[i].recordedAt == takenAt + offset)
    ensures ok ==> FallsEvenly(Timed(points), takenAt + offset, gap, confidence)
  {
    var timed := TimedPoints(points);
    SameLength(timed, Timed(points));
    if timed == [] {
      return false, 0.0, 0.0, 0.0;
    }
    lat, lon, ok, confidence := SnapAmong(timed, Timed(points), takenAt + offset, gap);
  }

  lemma SameLength<T>(a: seq<T>, b: seq<T>)
    requires multiset(a) == multiset(b)
    ensures |a| == |b|
  {
    assert |multiset(a)| == |a| && |multiset(b)| == |b|;
  }

  /** The rest of SnapAsset, with the timed points in order. */
  method SnapAmong(timed: seq<TrackPoint>, ghost points: seq<TrackPoint>, target: Time, gap: int)
    returns (lat: real, lon: real, ok: bool, confidence: real)
    requires gap > 0 && timed != [] && Chronological(timed, RecordedAt) && multiset(timed) == multiset(points)
    ensures ok <==> exists i :: 0 <= i < |points| && Apart(points[i].recordedAt, target) <= gap
    ensures ok ==> Placed(points, target, lat, lon) && 0.0 <= confidence <= 1.0
    ensures ok ==> (confidence == 1.0 <==> exists i :: 0 <= i < |points| && points[i].recordedAt == target)
    ensures ok ==> FallsEvenly(points, target, gap, confidence)
  {
    var nearest := 0;
    lat, lon, nearest, ok := InterpolateGeoPoint(timed, target, gap);
    NearestIsOrderFree(timed, points, target, nearest);
    SnapIsExact(points, target, nearest, gap);
    confidence := Confidence(nearest, gap);
  }
}
