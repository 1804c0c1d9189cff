/** Report arithmetic over one device's points (service.go of the reports):
    sessions, track metrics, reporting gaps and display samples. */
module Reports {
  import opened Sequences
  import opened Wire

  /** recordedAt in nanoseconds. */
  datatype Point = Point(deviceId: nat, recordedAt: int, latitude: real, longitude: real)

  /** The great-circle distance in metres, left abstract. */
  type Meters = (Point, Point) -> real

  const GAP_THRESHOLD: int := 300_000_000_000
  const MAX_JUMP_SPEED_KPH: real := 200.0

  function Gap(a: Point, b: Point): int {
    b.recordedAt - a.recordedAt
  }

  predicate OnEarth(a: Point) {
    -90.0 <= a.latitude <= 90.0 && -180.0 <= a.longitude <= 180.0
  }

  // ---- Sessions ----

  predicate Close(s: seq<Point>) {
    forall i :: 0 < i < |s| ==> Gap(s[i - 1], s[i]) <= GAP_THRESHOLD
  }

  predicate Apart(a: seq<Point>, b: seq<Point>) {
    a != [] && b != [] && Gap(a[|a| - 1], b[0]) > GAP_THRESHOLD
  }

  predicate ApartAt(parts: seq<seq<Point>>, i: nat)
    requires 0 < i < |parts|
  {
    Apart(parts[i - 1], parts[i])
  }

  /** The parts, end to end, are the points; no gap within a part is over the
      threshold and every gap between two parts is. */
  predicate SessionsOf(parts: seq<seq<Point>>, points: seq<Point>) {
    && Flatten(parts) == points
    && (forall i :: 0 <= i < |parts| ==> parts[i] != [] && Close(parts[i]))
    && (forall i :: 0 < i < |parts| ==> ApartAt(parts, i))
  }

  method Sessions(points: seq<Point>) returns (result: seq<seq<Point>>)
    ensures SessionsOf(result, points)
  {
    hide SessionsOf;
    if |points| == 0 {
      NoSessions();
      return [];
    }
    result := [[points[0]]];
    FirstSession(points[0]);
    assert points[..1] == [points[0]];
    for i := 1 to |points|
      invariant result != [] && SessionsOf(result, points[..i])
    {
      var point := points[i];
      var current := result[|result| - 1];
      assert points[..i + 1] == points[..i] + [point];
      LastSession(result, points[..i]);
      if Gap(current[|current| - 1], point) > GAP_THRESHOLD {
        OpenSession(result, points[..i], point);
        result := result + [[point]];
      } else {
        ExtendSession(result, points[..i], point);
        result := result[|result| - 1 := current + [point]];
      }
    }
    assert points[..|points|] == points;
  }

  lemma NoSessions()
    ensures SessionsOf([], [])
  {
  }

  lemma FirstSession(p: Point)
    ensures SessionsOf([[p]], [p])
  {
    FlattenLast([[p]]);
    assert Flatten<Point>([]) == [];
  }

  lemma LastSession(parts: seq<seq<Point>>, points: seq<Point>)
    requires SessionsOf(parts, points) && parts != []
    ensures parts[|parts| - 1] != []
  {
  }

  lemma OpenSession(parts: seq<seq<Point>>, points: seq<Point>, p: Point)
    requires SessionsOf(parts, points) && parts != []
    requires var current := parts[|parts| - 1];
      current != [] && Gap(current[|current| - 1], p) > GAP_THRESHOLD
    ensures SessionsOf(parts + [[p]], points + [p])
  {
    var grown := parts + [[p]];
    FlattenLast(grown);
    assert grown[..|parts|] == parts;
    forall i | 0 < i < |grown|
      ensures ApartAt(grown, i)
    {
      assert i < |parts| ==> ApartAt(parts, i);
    }
  }

  lemma ExtendSession(parts: seq<seq<Point>>, points: seq<Point>, p: Point)
    requires SessionsOf(parts, points) && parts != []
    requires var current := parts[|parts| - 1];
      current != [] && Gap(current[|current| - 1], p) <= GAP_THRESHOLD
    ensures SessionsOf(parts[|parts| - 1 := parts[|parts| - 1] + [p]], points + [p])
  {
    var n := |parts| - 1;
    var grown := parts[n := parts[n] + [p]];
    FlattenLast(parts);
    FlattenLast(grown);
    assert grown[..n] == parts[..n];
    assert Flatten(parts[..n]) + (parts[n] + [p]) == points + [p];
    forall i | 0 < i < |grown|
      ensures ApartAt(grown, i)
    {
      assert ApartAt(parts, i);
    }
  }

  // ---- There is only one such partition ----

  lemma {:induction false} SessionsUnique(a: seq<seq<Point>>, b: seq<seq<Point>>, points: seq<Point>)
    requires SessionsOf(a, points) && SessionsOf(b, points)
    ensures a == b
    decreases |a|
  {
    hide SessionsOf;
    hide Close;
    hide Flatten;
    EmptyPartition(a, points);
    EmptyPartition(b, points);
    if a != [] {
      SplitLast(a, points);
      SplitLast(b, points);
      LastAtLeast(a, b, points);
      LastAtLeast(b, a, points);
      ButLast(a, points);
      ButLast(b, points);
      SessionsUnique(a[..|a| - 1], b[..|b| - 1], points[..|points| - |a[|a| - 1]|]);
      assert a == a[..|a| - 1] + [a[|a| - 1]] && b == b[..|b| - 1] + [b[|b| - 1]];
    }
  }

  lemma EmptyPartition(parts: seq<seq<Point>>, points: seq<Point>)
    requires SessionsOf(parts, points)
    ensures parts == [] <==> points == []
  {
    if parts != [] {
      FlattenLast(parts);
    }
  }

  lemma SplitLast(parts: seq<seq<Point>>, points: seq<Point>)
    requires SessionsOf(parts, points) && parts != []
    ensures var x := parts[|parts| - 1];
      && 0 < |x| <= |points| && x == points[|points| - |x|..] && Close(x)
      && Flatten(parts[..|parts| - 1]) == points[..|points| - |x|]
  {
    var x := parts[|parts| - 1];
    FlattenLast(parts);
    assert points == Flatten(parts[..|parts| - 1]) + x;
  }

  lemma ButLast(parts: seq<seq<Point>>, points: seq<Point>)
    requires SessionsOf(parts, points) && parts != []
    ensures |parts[|parts| - 1]| <= |points|
    ensures SessionsOf(parts[..|parts| - 1], points[..|points| - |parts[|parts| - 1]|])
  {
    SplitLast(parts, points);
    var front := parts[..|parts| - 1];
    forall i | 0 < i < |front|
      ensures ApartAt(front, i)
    {
      assert ApartAt(parts, i);
    }
  }

  /** Whatever precedes the last part is over the threshold away from it. */
  lemma GapBeforeLast(parts: seq<seq<Point>>, points: seq<Point>)
    requires SessionsOf(parts, points) && parts != [] && |parts[|parts| - 1]| < |points|
    ensures var k := |points| - |parts[|parts| - 1]|;
      Gap(points[k - 1], points[k]) > GAP_THRESHOLD
  {
    var n := |parts| - 1;
    SplitLast(parts, points);
    ButLast(parts, points);
    EmptyPartition(parts[..n], points[..|points| - |parts[n]|]);
    SplitLast(parts[..n], points[..|points| - |parts[n]|]);
    assert ApartAt(parts, n);
  }

  /** The last part of one partition cannot be shorter than that of another. */
  lemma LastAtLeast(a: seq<seq<Point>>, b: seq<seq<Point>>, points: seq<Point>)
    requires SessionsOf(a, points) && SessionsOf(b, points) && a != [] && b != []
    ensures |a[|a| - 1]| >= |b[|b| - 1]|
  {
    hide SessionsOf;
    var x, y := a[|a| - 1], b[|b| - 1];
    SplitLast(a, points);
    SplitLast(b, points);
    if |x| < |y| {
      var k := |y| - |x|;
      assert Gap(y[k - 1], y[k]) <= GAP_THRESHOLD;
      GapBeforeLast(a, points);
    }
  }

  // ---- Metrics, segment by segment ----

  /** What trackMetrics and the gap loop of Quality add up along a track. */
  datatype Track = Track(distance: real, jumps: nat, longest: int, intervals: int, intervalCount: nat, gapCount: nat)

  const NO_TRACK: Track := Track(0.0, 0, 0, 0, 0, 0)

  function Join(a: Track, b: Track): Track {
    Track(a.distance + b.distance, a.jumps + b.jumps, if a.longest > b.longest then a.longest else b.longest,
          a.intervals + b.intervals, a.intervalCount + b.intervalCount, a.gapCount + b.gapCount)
  }

  predicate Jump(meters: Meters, a: Point, b: Point) {
    Gap(a, b) > 0 && meters(a, b) / (Gap(a, b) as real / 1000000000.0) * 3.6 > MAX_JUMP_SPEED_KPH
  }

  /** A jump is a later point further off than 200 km/h allow: 200 000 metres in the
      3600 * 10^9 nanoseconds of an hour. */
  lemma JumpIff(meters: Meters, a: Point, b: Point)
    ensures Jump(meters, a, b) <==>
      b.recordedAt > a.recordedAt
      && meters(a, b) * 3600000000000.0 > 200000.0 * (b.recordedAt - a.recordedAt) as real
  {
    var gap := Gap(a, b) as real;
    if Gap(a, b) > 0 {
      var seconds := gap / 1000000000.0;
      var speed := meters(a, b) / seconds;
      assert speed * seconds == meters(a, b);
      SpeedOver(speed, seconds);
    }
  }

  lemma SpeedOver(speed: real, seconds: real)
    requires seconds > 0.0
    ensures speed * 3.6 > 200.0 <==> speed * seconds * 3.6 > 200.0 * seconds
  {
    var d := speed * 3.6 - 200.0;
    assert d * seconds == speed * seconds * 3.6 - 200.0 * seconds;
    if d > 0.0 {
      assert d * seconds > 0.0;
    } else {
      assert -d * seconds >= 0.0;
    }
  }

  /** What one pair of neighbours contributes. */
  function Segment(meters: Meters, a: Point, b: Point): Track {
    var gap, valid := Gap(a, b), OnEarth(a) && OnEarth(b);
    Track(if valid && !Jump(meters, a, b) then meters(a, b) else 0.0,
          if valid && Jump(meters, a, b) then 1 else 0,
          if gap > 0 then gap else 0,
          if gap > 0 then gap else 0,
          if gap > 0 then 1 else 0,
          if gap > GAP_THRESHOLD then 1 else 0)
  }

  function TrackOf(meters: Meters, points: seq<Point>): (t: Track)
    ensures t.longest >= 0
  {
    if |points| < 2 then NO_TRACK
    else Join(TrackOf(meters, points[..|points| - 1]), Segment(meters, points[|points| - 2], points[|points| - 1]))
  }

  method TrackMetrics(meters: Meters, points: seq<Point>)
    returns (distance: real, jumps: nat, first: Option<int>, last: Option<int>, longest: int)
    ensures var t := TrackOf(meters, points);
      distance == t.distance && jumps == t.jumps && longest == t.longest
    ensures points == [] ==> first == None && last == None
    ensures points != [] ==> first == Some(points[0].recordedAt) && last == Some(points[|points| - 1].recordedAt)
  {
    if |points| == 0 {
      return 0.0, 0, None, None, 0;
    }
    first, last := Some(points[0].recordedAt), Some(points[|points| - 1].recordedAt);
    distance, longest, jumps := 0.0, 0, 0;
    for i := 1 to |points|
      invariant var t := TrackOf(meters, points[..i]);
        distance == t.distance && jumps == t.jumps && longest == t.longest
    {
      hide TrackOf;
      hide Jump;
      hide OnEarth;
      MetricsOneMore(meters, points, i);
      var gap := Gap(points[i - 1], points[i]);
      if gap > longest {
        longest := gap;
      }
      if !OnEarth(points[i - 1]) || !OnEarth(points[i]) {
        continue;
      }
      if Jump(meters, points[i - 1], points[i]) {
        jumps := jumps + 1;
        continue;
      }
      distance := distance + meters(points[i - 1], points[i]);
    }
    assert points[..|points|] == points;
  }

  lemma TrackOneMore(meters: Meters, points: seq<Point>, i: nat)
    requires 0 < i < |points|
    ensures TrackOf(meters, points[..i + 1])
      == Join(TrackOf(meters, points[..i]), Segment(meters, points[i - 1], points[i]))
  {
    hide Segment;
    assert points[..i + 1][..i] == points[..i];
  }

  /** From one point to the next, in nanoseconds. */
  function Interval(points: seq<Point>, i: nat): int
    requires 0 < i < |points|
  {
    points[i].recordedAt - points[i - 1].recordedAt
  }

  /** Both ends of the i-th segment have possible coordinates. */
  predicate Usable(points: seq<Point>, i: nat)
    requires 0 < i < |points|
  {
    forall k :: i - 1 <= k <= i ==> -90.0 <= points[k].latitude <= 90.0 && -180.0 <= points[k].longitude <= 180.0
  }

  /** The i-th segment would take more than 200 km/h. */
  predicate TooFast(meters: Meters, points: seq<Point>, i: nat)
    requires 0 < i < |points|
  {
    var ns := Interval(points, i);
    ns > 0 && meters(points[i - 1], points[i]) * 3600000000000.0 > 200000.0 * ns as real
  }

  /** The usable segments that are not too fast, added up. */
  function Travelled(meters: Meters, points: seq<Point>, n: nat): real
    requires n <= |points|
  {
    if n < 2 then 0.0
    else
      Travelled(meters, points, n - 1)
      + if Usable(points, n - 1) && !TooFast(meters, points, n - 1) then meters(points[n - 2], points[n - 1]) else 0.0
  }

  function Jumps(meters: Meters, points: seq<Point>, n: nat): set<nat>
    requires n <= |points|
  {
    set i | 0 < i < n && Usable(points, i) && TooFast(meters, points, i)
  }

  /** The positions of the gaps over a threshold. */
  function GapsOver(points: seq<Point>, n: nat, threshold: int): set<nat>
    requires n <= |points|
  {
    set i | 0 < i < n && Interval(points, i) > threshold
  }

  predicate LongestOf(points: seq<Point>, n: nat, longest: int)
    requires n <= |points|
  {
    && longest >= 0
    && (forall i :: 0 < i < n ==> Interval(points, i) <= longest)
    && (longest > 0 ==> exists i :: 0 < i < n && Interval(points, i) == longest)
  }

  /** What the metrics of a track are: the distance of the usable segments that are
      no jumps, the number of jumps, the longest gap, and the numbers of intervals
      and of gaps over five minutes. */
  lemma {:induction false} TrackMeans(meters: Meters, points: seq<Point>, n: nat)
    requires n <= |points|
    ensures var t := TrackOf(meters, points[..n]);
      && t.distance == Travelled(meters, points, n)
      && t.jumps == |Jumps(meters, points, n)|
      && LongestOf(points, n, t.longest)
      && t.intervalCount == |GapsOver(points, n, 0)|
      && t.gapCount == |GapsOver(points, n, 300000000000)|
  {
    hide Usable;
    hide TooFast;
    hide Jump;
    if n < 2 {
      assert Jumps(meters, points, n) == {} && GapsOver(points, n, 0) == {} && GapsOver(points, n, 300000000000) == {};
    } else {
      var i := n - 1;
      hide TrackOf;
      hide Jumps;
      hide GapsOver;
      hide LongestOf;
      TrackMeans(meters, points, i);
      MetricsOneMore(meters, points, i);
      GapsOneMore(meters, points, i);
      SegmentUsable(meters, points, i);
      OneMoreJump(meters, points, i);
      OneMoreGap(points, i, 0);
      OneMoreGap(points, i, 300000000000);
      LongestOneMore(points, i, TrackOf(meters, points[..i]).longest);
    }
  }

  lemma SegmentUsable(meters: Meters, points: seq<Point>, i: nat)
    requires 0 < i < |points|
    ensures Usable(points, i) <==> OnEarth(points[i - 1]) && OnEarth(points[i])
    ensures TooFast(meters, points, i) <==> Jump(meters, points[i - 1], points[i])
  {
    hide Jump;
    JumpIff(meters, points[i - 1], points[i]);
    assert Usable(points, i) ==> forall k :: k in {i - 1, i} ==> OnEarth(points[k]);
  }

  lemma OneMoreJump(meters: Meters, points: seq<Point>, i: nat)
    requires 0 < i < |points|
    ensures |Jumps(meters, points, i + 1)| == |Jumps(meters, points, i)| + if Usable(points, i) && TooFast(meters, points, i) then 1 else 0
  {
    hide Usable;
    hide TooFast;
    assert Jumps(meters, points, i + 1) == Jumps(meters, points, i) + if Usable(points, i) && TooFast(meters, points, i) then {i} else {};
  }

  lemma OneMoreGap(points: seq<Point>, i: nat, threshold: int)
    requires 0 < i < |points|
    ensures |GapsOver(points, i + 1, threshold)|
      == |GapsOver(points, i, threshold)| + if Gap(points[i - 1], points[i]) > threshold then 1 else 0
  {
    assert GapsOver(points, i + 1, threshold)
      == GapsOver(points, i, threshold) + if Gap(points[i - 1], points[i]) > threshold then {i} else {};
  }

  lemma LongestOneMore(points: seq<Point>, i: nat, longest: int)
    requires 0 < i < |points| && LongestOf(points, i, longest)
    ensures LongestOf(points, i + 1, if Gap(points[i - 1], points[i]) > longest then Gap(points[i - 1], points[i]) else longest)
  {
    if Gap(points[i - 1], points[i]) > longest {
      assert Interval(points, i) == Gap(points[i - 1], points[i]);
    } else if longest > 0 {
      var k :| 0 < k < i && Interval(points, k) == longest;
    }
  }

  lemma MetricsOneMore(meters: Meters, points: seq<Point>, i: nat)
    requires 0 < i < |points|
    ensures var s, t := TrackOf(meters, points[..i]), TrackOf(meters, points[..i + 1]);
      var a, b := points[i - 1], points[i];
      var valid := OnEarth(a) && OnEarth(b);
      && t.distance == s.distance + (if valid && !Jump(meters, a, b) then meters(a, b) else 0.0)
      && t.jumps == s.jumps + (if valid && Jump(meters, a, b) then 1 else 0)
      && t.longest == (if Gap(a, b) > s.longest then Gap(a, b) else s.longest)
  {
    hide TrackOf;
    hide Jump;
    TrackOneMore(meters, points, i);
  }

  lemma GapsOneMore(meters: Meters, points: seq<Point>, i: nat)
    requires 0 < i < |points|
    ensures var gap, s, t := Gap(points[i - 1], points[i]), TrackOf(meters, points[..i]), TrackOf(meters, points[..i + 1]);
      && t.intervals == s.intervals + (if gap > 0 then gap else 0)
      && t.intervalCount == s.intervalCount + (if gap > 0 then 1 else 0)
      && t.gapCount == s.gapCount + (if gap > GAP_THRESHOLD then 1 else 0)
  {
    hide TrackOf;
    hide Jump;
    TrackOneMore(meters, points, i);
  }

  /** The reporting gaps of Quality. */
  method GapTotals(points: seq<Point>, ghost meters: Meters) returns (intervals: int, intervalCount: nat, gapCount: nat)
    ensures var t := TrackOf(meters, points);
      intervals == t.intervals && intervalCount == t.intervalCount && gapCount == t.gapCount
  {
    intervals, intervalCount, gapCount := 0, 0, 0;
    if |points| < 2 {
      return;
    }
    for i := 1 to |points|
      invariant var t := TrackOf(meters, points[..i]);
        intervals == t.intervals && intervalCount == t.intervalCount && gapCount == t.gapCount
    {
      hide TrackOf;
      GapsOneMore(meters, points, i);
      var gap := Gap(points[i - 1], points[i]);
      if gap > 0 {
        intervals := intervals + gap;
        intervalCount := intervalCount + 1;
        if gap > GAP_THRESHOLD {
          gapCount := gapCount + 1;
        }
      }
    }
    assert points[..|points|] == points;
  }

  method GapQuality(points: seq<Point>, ghost meters: Meters)
    returns (intervals: int, intervalCount: nat, gapCount: nat, averageSeconds: real)
    ensures var t := TrackOf(meters, points);
      intervals == t.intervals && intervalCount == t.intervalCount && gapCount == t.gapCount
    ensures averageSeconds * intervalCount as real == if intervalCount > 0 then intervals as real / 1000000000.0 else 0.0
  {
    hide TrackOf;
    hide Average;
    intervals, intervalCount, gapCount := GapTotals(points, meters);
    averageSeconds := if intervalCount > 0 then Average(intervals, intervalCount) else 0.0;
  }

  function Average(intervals: int, count: nat): (seconds: real)
    requires count > 0
    ensures seconds * count as real == intervals as real / 1000000000.0
  {
    (intervals as real / 1000000000.0) / count as real
  }

  // ---- Sessions and metrics agree ----

  function Within(meters: Meters, parts: seq<seq<Point>>): Track {
    if parts == [] then NO_TRACK
    else Join(Within(meters, parts[..|parts| - 1]), TrackOf(meters, parts[|parts| - 1]))
  }

  /** The segments from the end of each session to the start of the next. */
  function Across(meters: Meters, parts: seq<seq<Point>>): Track
    requires forall i :: 0 <= i < |parts| ==> parts[i] != []
  {
    if |parts| < 2 then NO_TRACK
    else
      var a, b := parts[|parts| - 2], parts[|parts| - 1];
      Join(Across(meters, parts[..|parts| - 1]), Segment(meters, a[|a| - 1], b[0]))
  }

  lemma {:induction false} TrackJoins(meters: Meters, a: seq<Point>, b: seq<Point>)
    requires a != [] && b != []
    ensures TrackOf(meters, a + b)
      == Join(Join(TrackOf(meters, a), Segment(meters, a[|a| - 1], b[0])), TrackOf(meters, b))
    decreases |b|
  {
    hide Segment;
    assert (a + b)[..|a + b| - 1] == a + b[..|b| - 1];
    if |b| == 1 {
      assert a + b[..0] == a;
    } else {
      TrackJoins(meters, a, b[..|b| - 1]);
    }
  }

  /** The metrics of the whole track are those of its sessions and of the
      segments across the gaps, in every component. */
  lemma {:induction false} SessionsAddUp(meters: Meters, parts: seq<seq<Point>>, points: seq<Point>)
    requires SessionsOf(parts, points)
    ensures TrackOf(meters, points) == Join(Within(meters, parts), Across(meters, parts))
    decreases |parts|
  {
    hide Segment;
    hide TrackOf;
    hide SessionsOf;
    hide Join;
    NonEmptyParts(parts, points);
    EmptyPartition(parts, points);
    NoTrack(meters);
    if parts == [] {
      JoinNone(NO_TRACK);
    } else {
      var front, x := parts[..|parts| - 1], parts[|parts| - 1];
      SplitLast(parts, points);
      ButLast(parts, points);
      var rest := points[..|points| - |x|];
      SessionsAddUp(meters, front, rest);
      EmptyPartition(front, rest);
      assert points == rest + x;
      if front == [] {
        assert points == x;
        JoinNone(TrackOf(meters, x));
      } else {
        SplitLast(front, rest);
        TrackJoins(meters, rest, x);
        var a := front[|front| - 1];
        JoinShuffle(Within(meters, front), Across(meters, front), Segment(meters, a[|a| - 1], x[0]), TrackOf(meters, x));
      }
    }
  }

  lemma JoinNone(t: Track)
    requires t.longest >= 0
    ensures Join(NO_TRACK, t) == t && Join(t, NO_TRACK) == t
  {
  }

  lemma JoinShuffle(w: Track, a: Track, s: Track, x: Track)
    ensures Join(Join(Join(w, a), s), x) == Join(Join(w, x), Join(a, s))
  {
  }

  lemma NoTrack(meters: Meters)
    ensures TrackOf(meters, []) == NO_TRACK
  {
  }

  lemma NonEmptyParts(parts: seq<seq<Point>>, points: seq<Point>)
    requires SessionsOf(parts, points)
    ensures forall i :: 0 <= i < |parts| ==> parts[i] != []
  {
  }

  /** Within a session no gap is counted. */
  lemma {:induction false} CloseHasNoGap(meters: Meters, s: seq<Point>)
    requires Close(s)
    ensures TrackOf(meters, s).gapCount == 0
  {
    hide Jump;
    if |s| > 1 {
      CloseHasNoGap(meters, s[..|s| - 1]);
    }
  }

  /** There is one session more than Quality counts gaps. */
  lemma SessionPerGap(meters: Meters, parts: seq<seq<Point>>, points: seq<Point>)
    requires SessionsOf(parts, points) && points != []
    ensures |parts| == TrackOf(meters, points).gapCount + 1
  {
    SessionsAddUp(meters, parts, points);
    EmptyPartition(parts, points);
    GapsAcross(meters, parts, points);
  }

  lemma {:induction false} GapsAcross(meters: Meters, parts: seq<seq<Point>>, points: seq<Point>)
    requires SessionsOf(parts, points)
    ensures Within(meters, parts).gapCount == 0
    ensures Across(meters, parts).gapCount == if parts == [] then 0 else |parts| - 1
    decreases |parts|
  {
    hide Segment;
    hide TrackOf;
    hide SessionsOf;
    NonEmptyParts(parts, points);
    if parts != [] {
      SplitLast(parts, points);
      ButLast(parts, points);
      GapsAcross(meters, parts[..|parts| - 1], points[..|points| - |parts[|parts| - 1]|]);
      CloseHasNoGap(meters, parts[|parts| - 1]);
      if |parts| > 1 {
        GapAcross(meters, parts, points);
      }
    }
  }

  lemma GapAcross(meters: Meters, parts: seq<seq<Point>>, points: seq<Point>)
    requires SessionsOf(parts, points) && |parts| > 1
    ensures var a, b := parts[|parts| - 2], parts[|parts| - 1];
      a != [] && b != [] && Segment(meters, a[|a| - 1], b[0]).gapCount == 1
  {
    hide Jump;
    assert ApartAt(parts, |parts| - 1);
  }

  predicate TimeSorted(points: seq<Point>) {
    forall i, j :: 0 <= i < j < |points| ==> points[i].recordedAt <= points[j].recordedAt
  }

  /** On sorted points the summed intervals are the time from first to last. */
  lemma {:induction false} IntervalsTelescope(meters: Meters, points: seq<Point>)
    requires TimeSorted(points) && points != []
    ensures TrackOf(meters, points).intervals == points[|points| - 1].recordedAt - points[0].recordedAt
  {
    hide Jump;
    if |points| > 1 {
      IntervalsTelescope(meters, points[..|points| - 1]);
    }
  }

  // ---- Display samples ----

  datatype Sampled = Points(points: seq<Point>) | Panic

  /** The index of the i-th sample. */
  function SampleIndex(i: nat, length: nat, max: nat): nat
    requires length > 0 && max > 1
  {
    i * (length - 1) / (max - 1)
  }

  /** Where the samples come from. */
  predicate SampledAt(sampled: seq<Point>, points: seq<Point>, indices: seq<nat>) {
    |indices| == |sampled| && forall i :: 0 <= i < |indices| ==> indices[i] < |points| && sampled[i] == points[indices[i]]
  }

  /** Index i is the last one at or before the i-th of max - 1 equal parts. */
  predicate EvenlySpread(indices: seq<nat>, length: nat, max: nat)
    requires length > 0 && max > 1
  {
    forall i :: 0 <= i < |indices| ==>
      indices[i] * (max - 1) <= i * (length - 1) < (indices[i] + 1) * (max - 1)
  }

  predicate RisingIndices(indices: seq<nat>) {
    forall i, j :: 0 <= i < j < |indices| ==> indices[i] < indices[j]
  }

  /** A negative max panics when the slice is made, and max 1 divides by zero;
      otherwise max points, in order, from the first to the last. */
  method SamplePoints(points: seq<Point>, max: int) returns (r: Sampled, ghost indices: seq<nat>)
    ensures r == Panic <==> |points| > max && (max < 0 || max == 1)
    ensures |points| <= max ==> r == Points(points)
    ensures |points| > max == 0 ==> r == Points([])
    ensures |points| > max >= 2 ==>
      && r.Points? && |r.points| == max
      && SampledAt(r.points, points, indices) && RisingIndices(indices)
      && indices[0] == 0 && indices[max - 1] == |points| - 1
      && EvenlySpread(indices, |points|, max)
  {
    indices := [];
    if |points| <= max {
      return Points(points), indices;
    }
    if max < 0 {
      return Panic, indices;
    }
    var sampled: seq<Point> := [];
    for i := 0 to max
      invariant max != 1 || i == 0
      invariant |sampled| == i && SampledAt(sampled, points, indices)
      invariant forall k :: 0 <= k < i ==> indices[k] == SampleIndex(k, |points|, max)
    {
      if max == 1 {
        return Panic, [];
      }
      SampleInRange(i, |points|, max);
      var index := SampleIndex(i, |points|, max);
      sampled := sampled + [points[index]];
      indices := indices + [index];
    }
    if max >= 2 {
      SamplesRise(indices, |points|, max);
      SamplesSpread(indices, |points|, max);
    }
    return Points(sampled), indices;
  }

  lemma SampleInRange(i: nat, length: nat, max: nat)
    requires i < max < length && max > 1
    ensures SampleIndex(i, length, max) < length
    ensures i == 0 ==> SampleIndex(i, length, max) == 0
    ensures i == max - 1 ==> SampleIndex(i, length, max) == length - 1
    ensures i + 1 < max ==> SampleIndex(i, length, max) < SampleIndex(i + 1, length, max)
  {
    var n, m := length - 1, max - 1;
    MulMonotone(i, m, n);
    assert m * n == n * m;
    QuotientBetween(i * n, m, 0, n);
    if i == m {
      QuotientBetween(m * n, m, n, n);
    }
    var q := i * n / m;
    assert q * m <= i * n;
    assert (i + 1) * n == i * n + n && (q + 1) * m == q * m + m;
    if i < m {
      MulMonotone(i + 1, m, n);
      QuotientBetween((i + 1) * n, m, q + 1, n);
    }
  }

  lemma SamplesSpread(indices: seq<nat>, length: nat, max: nat)
    requires 2 <= max < length && |indices| == max
    requires forall k :: 0 <= k < max ==> indices[k] == SampleIndex(k, length, max)
    ensures EvenlySpread(indices, length, max)
  {
    hide SampleIndex;
    forall i | 0 <= i < |indices|
      ensures indices[i] * (max - 1) <= i * (length - 1) < (indices[i] + 1) * (max - 1)
    {
      IndexBetween(i, length, max);
    }
  }

  lemma IndexBetween(i: nat, length: nat, max: nat)
    requires length > 0 && max > 1
    ensures SampleIndex(i, length, max) * (max - 1) <= i * (length - 1) < (SampleIndex(i, length, max) + 1) * (max - 1)
  {
    var x, w := i * (length - 1), max - 1;
    assert x / w * w <= x < x / w * w + w;
    assert (x / w + 1) * w == x / w * w + w;
  }

  /** Neighbouring samples lie the floor or the ceiling of (length - 1) / (max - 1)
      apart, and nothing else is possible for indices so spread. */
  lemma NeighboursEvenlyApart(indices: seq<nat>, length: nat, max: nat, i: nat)
    requires length > 0 && max > 1 && EvenlySpread(indices, length, max) && i + 1 < |indices|
    ensures var step, apart := (length - 1) / (max - 1), indices[i + 1] - indices[i];
      apart == step || (apart == step + 1 && (length - 1) % (max - 1) > 0)
  {
    var w, n, a, b := max - 1, length - 1, indices[i], indices[i + 1];
    assert a * w <= i * n < (a + 1) * w && b * w <= (i + 1) * n < (b + 1) * w;
    assert (i + 1) * n == i * n + n;
    QuotientsApart(i * n, w, n, a, b);
  }

  lemma QuotientsApart(x: nat, w: nat, n: nat, a: nat, b: nat)
    requires w > 0 && a * w <= x < (a + 1) * w && b * w <= x + n < (b + 1) * w
    ensures b - a == n / w || (b - a == n / w + 1 && n % w > 0)
  {
    var step := n / w;
    var r := n - step * w;
    assert n == step * w + r && 0 <= r < w && r == n % w;
    var lo := x - a * w;
    assert (a + step) * w == a * w + step * w;
    assert (a + 1) * w == a * w + w;
    assert x + n == (a + step) * w + (lo + r) && 0 <= lo < w;
    assert (a + step + 1) * w == (a + step) * w + w;
    assert (a + step + 2) * w == (a + step) * w + 2 * w;
    if b < a + step {
      MulMonotone(b + 1, a + step, w);
    } else if b > a + step + 1 {
      MulMonotone(a + step + 2, b, w);
    }
    if r == 0 && b == a + step + 1 {
      assert false;
    }
  }

  lemma SamplesRise(indices: seq<nat>, length: nat, max: nat)
    requires 2 <= max < length && |indices| == max
    requires forall k :: 0 <= k < max ==> indices[k] == SampleIndex(k, length, max)
    ensures RisingIndices(indices) && indices[0] == 0 && indices[max - 1] == length - 1
  {
    hide SampleIndex;
    SampleInRange(0, length, max);
    SampleInRange(max - 1, length, max);
    forall i, j | 0 <= i < j < max
      ensures indices[i] < indices[j]
    {
      SamplesApart(i, j, length, max);
    }
  }

  lemma {:induction false} SamplesApart(i: nat, j: nat, length: nat, max: nat)
    requires i < j < max < length && max > 1
    ensures SampleIndex(i, length, max) < SampleIndex(j, length, max)
    decreases j
  {
    hide SampleIndex;
    SampleInRange(j - 1, length, max);
    if i < j - 1 {
      SamplesApart(i, j - 1, length, max);
    }
  }
}
