/** The live-route reducer of the map page (live-location.ts). */
module LiveRoute {
  import opened Wire

  /** RFC 3339 texts of one format and zone compare as the instants they name;
      recordedAt is that instant. */
  datatype LocationPoint = LocationPoint(deviceId: string, recordedAt: int, latitude: real, longitude: real)

  datatype Presence = NeverSeen | OnlineMoving | OnlineStationary | Offline

  datatype LiveLocationSnapshot = LiveLocationSnapshot(
    deviceId: string, serverTime: int, presence: Presence, location: Option<LocationPoint>)

  datatype LiveLocationState = LiveLocationState(snapshot: Option<LiveLocationSnapshot>, route: seq<LocationPoint>)

  const EMPTY: LiveLocationState := LiveLocationState(None, [])

  // ---- Library calls ----

  /** Array.prototype.slice with one argument. */
  function Slice<T>(s: seq<T>, start: int): seq<T> {
    if start >= 0 then s[if start < |s| then start else |s|..]
    else s[if |s| + start > 0 then |s| + start else 0..]
  }

  function Insert(s: seq<LocationPoint>, p: LocationPoint): (r: seq<LocationPoint>)
    ensures |r| == |s| + 1
  {
    if s == [] || s[|s| - 1].recordedAt <= p.recordedAt then s + [p]
    else Insert(s[..|s| - 1], p) + [s[|s| - 1]]
  }

  /** A stable sort by recordedAt. */
  function SortByTime(s: seq<LocationPoint>): (r: seq<LocationPoint>)
    ensures |r| == |s|
  {
    if s == [] then [] else Insert(SortByTime(s[..|s| - 1]), s[|s| - 1])
  }

  predicate Sorted(s: seq<LocationPoint>) {
    forall i, j :: 0 <= i < j < |s| ==> s[i].recordedAt <= s[j].recordedAt
  }

  lemma {:induction false} InsertPermutes(s: seq<LocationPoint>, p: LocationPoint)
    ensures multiset(Insert(s, p)) == multiset(s) + multiset{p}
  {
    if s != [] && s[|s| - 1].recordedAt > p.recordedAt {
      InsertPermutes(s[..|s| - 1], p);
      assert s == s[..|s| - 1] + [s[|s| - 1]];
    }
  }

  /** Nothing in s or p is later than `latest`, and so nothing in the result is. */
  lemma InsertBounded(s: seq<LocationPoint>, p: LocationPoint, latest: int)
    requires p.recordedAt <= latest && forall q :: q in s ==> q.recordedAt <= latest
    ensures forall i :: 0 <= i < |s| + 1 ==> Insert(s, p)[i].recordedAt <= latest
  {
    InsertPermutes(s, p);
    forall i | 0 <= i < |s| + 1
      ensures Insert(s, p)[i].recordedAt <= latest
    {
      assert Insert(s, p)[i] in multiset(Insert(s, p));
    }
  }

  lemma {:induction false} InsertSorts(s: seq<LocationPoint>, p: LocationPoint)
    requires Sorted(s)
    ensures Sorted(Insert(s, p))
  {
    if s != [] && s[|s| - 1].recordedAt > p.recordedAt {
      InsertSorts(s[..|s| - 1], p);
      InsertBounded(s[..|s| - 1], p, s[|s| - 1].recordedAt);
    }
  }

  lemma {:induction false} SortSorts(s: seq<LocationPoint>)
    ensures Sorted(SortByTime(s)) && multiset(SortByTime(s)) == multiset(s)
  {
    if s != [] {
      SortSorts(s[..|s| - 1]);
      InsertSorts(SortByTime(s[..|s| - 1]), s[|s| - 1]);
      InsertPermutes(SortByTime(s[..|s| - 1]), s[|s| - 1]);
      assert s == s[..|s| - 1] + [s[|s| - 1]];
    }
  }

  // ---- The reducer ----

  function ReduceLiveLocation(current: LiveLocationState, next: LiveLocationSnapshot, maxPoints: int): LiveLocationState {
    if current.snapshot.Some? && current.snapshot.value.deviceId != next.deviceId then current
    else
      var currentLocation := if current.snapshot.Some? then current.snapshot.value.location else None;
      var newest :=
        if next.location.None?
           || (currentLocation.Some? && next.location.value.recordedAt < currentLocation.value.recordedAt)
        then currentLocation
        else next.location;
      var route :=
        if next.location.Some? && !(exists p :: p in current.route && p.recordedAt == next.location.value.recordedAt)
        then SortByTime(current.route + [next.location.value])
        else current.route;
      LiveLocationState(Some(next.(location := newest)), Slice(route, -maxPoints))
  }

  /** The snapshots in the order in which they came. */
  function Fold(snapshots: seq<LiveLocationSnapshot>, maxPoints: int): LiveLocationState {
    if snapshots == [] then EMPTY
    else ReduceLiveLocation(Fold(snapshots[..|snapshots| - 1], maxPoints), snapshots[|snapshots| - 1], maxPoints)
  }

  // ---- What the route should be ----

  /** The distinct timestamps seen. */
  function Seen(snapshots: seq<LiveLocationSnapshot>): set<int> {
    set s | s in snapshots && s.location.Some? :: s.location.value.recordedAt
  }

  function Times(route: seq<LocationPoint>): (ts: seq<int>)
    ensures |ts| == |route|
  {
    seq(|route|, i requires 0 <= i < |route| => route[i].recordedAt)
  }

  predicate Rising(ts: seq<int>) {
    forall i, j :: 0 <= i < j < |ts| ==> ts[i] < ts[j]
  }

  /** ts lists the n greatest of `all`, or all of them, in order. */
  predicate Greatest(ts: seq<int>, all: set<int>, n: nat) {
    && Rising(ts)
    && (forall t :: t in ts ==> t in all)
    && (forall t, k :: t in all && t !in ts && k in ts ==> t < k)
    && |ts| == if n < |all| then n else |all|
  }

  /** How many points a given maxPoints keeps: slice(-0) keeps everything, and a
      negative maxPoints drops from the front. */
  function Kept(maxPoints: int, all: set<int>): nat {
    if maxPoints > 0 then maxPoints else if maxPoints == 0 then |all| else 0
  }

  lemma SubsetSize(a: set<int>, b: set<int>)
    requires a <= b
    ensures |a| <= |b|
    ensures |a| == |b| ==> a == b
  {
    assert b == a + (b - a);
  }

  lemma {:induction false} RisingDistinct(ts: seq<int>)
    requires Rising(ts)
    ensures |set t | t in ts| == |ts|
  {
    if ts != [] {
      var front, last := ts[..|ts| - 1], ts[|ts| - 1];
      RisingDistinct(front);
      assert (set t | t in ts) == (set t | t in front) + {last};
    }
  }

  /** There is only one such list. */
  lemma {:induction false} GreatestUnique(ts: seq<int>, us: seq<int>, all: set<int>, n: nat)
    requires Greatest(ts, all, n) && Greatest(us, all, n)
    ensures ts == us
    decreases |ts|
  {
    hide Greatest;
    GreatestLast(ts, all, n);
    GreatestLast(us, all, n);
    if ts != [] {
      var t, u := ts[|ts| - 1], us[|us| - 1];
      GreatestButLast(ts, all, n);
      GreatestButLast(us, all, n);
      GreatestUnique(ts[..|ts| - 1], us[..|us| - 1], all - {t}, n - 1);
      assert ts == ts[..|ts| - 1] + [t] && us == us[..|us| - 1] + [u];
    }
  }

  lemma GreatestLast(ts: seq<int>, all: set<int>, n: nat)
    requires Greatest(ts, all, n)
    ensures |ts| == if n < |all| then n else |all|
    ensures ts != [] ==> ts[|ts| - 1] in all && forall t :: t in all ==> t <= ts[|ts| - 1]
  {
    if ts != [] {
      assert ts[|ts| - 1] in ts;
    }
  }

  lemma GreatestButLast(ts: seq<int>, all: set<int>, n: nat)
    requires Greatest(ts, all, n) && ts != []
    ensures Greatest(ts[..|ts| - 1], all - {ts[|ts| - 1]}, n - 1)
  {
    var front, last := ts[..|ts| - 1], ts[|ts| - 1];
    assert forall t :: t in ts <==> t in front || t == last;
    assert last in all && last !in front;
    assert |all - {last}| == |all| - 1;
  }

  // ---- One snapshot ----

  lemma {:induction false} SortedStays(s: seq<LocationPoint>)
    requires Sorted(s)
    ensures SortByTime(s) == s
  {
    if s != [] {
      SortedStays(s[..|s| - 1]);
      assert s == s[..|s| - 1] + [s[|s| - 1]];
    }
  }

  lemma RisesOn(ts: seq<int>, t: int)
    ensures Rising(ts + [t]) <==> Rising(ts) && forall x :: x in ts ==> x < t
  {
    var all := ts + [t];
    assert forall i :: 0 <= i < |ts| ==> all[i] == ts[i] && ts[i] in ts;
    if Rising(all) {
      forall i, j | 0 <= i < j < |ts|
        ensures ts[i] < ts[j]
      {
        assert all[i] < all[j];
      }
      assert forall i :: 0 <= i < |ts| ==> all[i] < all[|ts|];
    }
  }

  lemma {:induction false} InsertRises(s: seq<LocationPoint>, p: LocationPoint)
    requires Rising(Times(s)) && p.recordedAt !in Times(s)
    ensures Rising(Times(Insert(s, p)))
    ensures forall t :: t in Times(Insert(s, p)) <==> t in Times(s) || t == p.recordedAt
  {
    hide Rising;
    if s == [] || s[|s| - 1].recordedAt <= p.recordedAt {
      if s != [] {
        var front, last := s[..|s| - 1], s[|s| - 1];
        assert Times(s) == Times(front) + [last.recordedAt];
        RisesOn(Times(front), last.recordedAt);
        assert last.recordedAt in Times(s);
      }
      RisesOn(Times(s), p.recordedAt);
      assert Times(Insert(s, p)) == Times(s) + [p.recordedAt];
    } else {
      var front, last := s[..|s| - 1], s[|s| - 1];
      assert Times(s) == Times(front) + [last.recordedAt];
      RisesOn(Times(front), last.recordedAt);
      InsertRises(front, p);
      RisesOn(Times(Insert(front, p)), last.recordedAt);
      assert Times(Insert(s, p)) == Times(Insert(front, p)) + [last.recordedAt];
    }
  }

  lemma SortRises(s: seq<LocationPoint>, p: LocationPoint)
    requires Rising(Times(s)) && p.recordedAt !in Times(s)
    ensures Rising(Times(SortByTime(s + [p])))
    ensures forall t :: t in Times(SortByTime(s + [p])) <==> t in Times(s) || t == p.recordedAt
  {
    assert forall i :: 0 <= i < |s| ==> s[i].recordedAt == Times(s)[i];
    SortedStays(s);
    assert (s + [p])[..|s|] == s;
    InsertRises(s, p);
  }

  /** A list no longer than what is kept is not cut. */
  lemma NotCut(ts: seq<int>, all: set<int>, maxPoints: int)
    requires Greatest(ts, all, Kept(maxPoints, all))
    ensures Slice(ts, -maxPoints) == ts
  {
  }

  /** With a new timestamp in, the cut drops only the least. */
  lemma CutToGreatest(ts: seq<int>, grown: seq<int>, all: set<int>, t: int, maxPoints: int)
    requires Greatest(ts, all, Kept(maxPoints, all)) && t !in ts
    requires Rising(grown) && |grown| == |ts| + 1 && forall x :: x in grown <==> x in ts || x == t
    ensures Greatest(Slice(grown, -maxPoints), all + {t}, Kept(maxPoints, all + {t}))
  {
    if maxPoints > 0 && |ts| == maxPoints {
      assert Slice(grown, -maxPoints) == grown[1..];
      CutOne(ts, grown, all, t, maxPoints);
    } else if maxPoints < 0 {
      assert Slice(grown, -maxPoints) == [];
    } else {
      assert Slice(grown, -maxPoints) == grown;
      AllHeld(ts, all);
      assert |all + {t}| == |all| + 1;
    }
  }

  lemma AllHeld(ts: seq<int>, all: set<int>)
    requires Rising(ts) && |ts| == |all| && forall t :: t in ts ==> t in all
    ensures forall t :: t in all ==> t in ts
  {
    RisingDistinct(ts);
    SubsetSize((set t | t in ts), all);
  }

  /** A full list and one more: the least goes. */
  lemma CutOne(ts: seq<int>, grown: seq<int>, all: set<int>, t: int, n: nat)
    requires Greatest(ts, all, n) && t !in ts && |ts| == n > 0
    requires Rising(grown) && |grown| == n + 1 && forall x :: x in grown <==> x in ts || x == t
    ensures Greatest(grown[1..], all + {t}, n)
  {
    var cut := grown[1..];
    assert grown == [grown[0]] + cut;
    forall x, k | x in all + {t} && x !in cut && k in cut
      ensures x < k
    {
      assert grown[0] in grown && k in grown;
      assert grown[0] < k;
      if x != grown[0] {
        assert x !in ts && x != t;
        LessThanSome(ts, grown, x, t);
      }
    }
    SubsetSize(all, all + {t});
  }

  lemma LessThanSome(ts: seq<int>, grown: seq<int>, x: int, t: int)
    requires ts != [] && Rising(grown) && |grown| == |ts| + 1 && forall y :: y in grown <==> y in ts || y == t
    requires forall k :: k in ts ==> x < k
    ensures grown[0] in ts ==> x < grown[0]
    ensures forall k :: k in grown[1..] ==> grown[0] < k
  {
    assert forall k :: k in grown[1..] ==> k in grown;
  }

  lemma SliceTimes(route: seq<LocationPoint>, start: int)
    ensures Times(Slice(route, start)) == Slice(Times(route), start)
  {
  }

  lemma ReduceKeepsGreatest(current: LiveLocationState, next: LiveLocationSnapshot, all: set<int>, maxPoints: int)
    requires current.snapshot.None? || current.snapshot.value.deviceId == next.deviceId
    requires Greatest(Times(current.route), all, Kept(maxPoints, all))
    ensures var all' := all + if next.location.Some? then {next.location.value.recordedAt} else {};
      Greatest(Times(ReduceLiveLocation(current, next, maxPoints).route), all', Kept(maxPoints, all'))
  {
    hide Slice;
    hide Greatest;
    var ts := Times(current.route);
    NotCut(ts, all, maxPoints);
    SliceTimes(current.route, -maxPoints);
    if next.location.Some? {
      var p := next.location.value;
      TimeInRoute(current.route, p.recordedAt);
      if p.recordedAt in ts {
        InAll(ts, all, Kept(maxPoints, all), p.recordedAt);
        assert all + {p.recordedAt} == all;
      } else {
        RisesIn(ts, all, Kept(maxPoints, all));
        SortRises(current.route, p);
        var grown := SortByTime(current.route + [p]);
        CutToGreatest(ts, Times(grown), all, p.recordedAt, maxPoints);
        SliceTimes(grown, -maxPoints);
      }
    } else {
      assert all + {} == all;
    }
  }

  lemma TimeInRoute(route: seq<LocationPoint>, t: int)
    ensures t in Times(route) <==> exists p :: p in route && p.recordedAt == t
  {
    if t in Times(route) {
      var i :| 0 <= i < |route| && Times(route)[i] == t;
      assert route[i] in route;
    }
    if p :| p in route && p.recordedAt == t {
      var i :| 0 <= i < |route| && route[i] == p;
      assert Times(route)[i] == t;
    }
  }

  lemma InAll(ts: seq<int>, all: set<int>, n: nat, t: int)
    requires Greatest(ts, all, n) && t in ts
    ensures t in all
  {
  }

  lemma RisesIn(ts: seq<int>, all: set<int>, n: nat)
    requires Greatest(ts, all, n)
    ensures Rising(ts)
  {
  }

  // ---- Whole runs ----

  predicate OneDevice(snapshots: seq<LiveLocationSnapshot>) {
    forall s :: s in snapshots ==> s.deviceId == snapshots[0].deviceId
  }

  lemma SeenOneMore(snapshots: seq<LiveLocationSnapshot>)
    requires snapshots != []
    ensures var last := snapshots[|snapshots| - 1];
      Seen(snapshots) == Seen(snapshots[..|snapshots| - 1]) + if last.location.Some? then {last.location.value.recordedAt} else {}
  {
    var front, last := snapshots[..|snapshots| - 1], snapshots[|snapshots| - 1];
    assert forall s :: s in snapshots <==> s in front || s == last;
  }

  lemma {:induction false} FoldDevice(snapshots: seq<LiveLocationSnapshot>, maxPoints: int)
    requires OneDevice(snapshots) && snapshots != []
    ensures Fold(snapshots, maxPoints).snapshot.Some?
    ensures Fold(snapshots, maxPoints).snapshot.value.deviceId == snapshots[0].deviceId
  {
    hide Slice;
    hide SortByTime;
    assert snapshots[|snapshots| - 1] in snapshots;
    if |snapshots| > 1 {
      assert forall s :: s in snapshots[..|snapshots| - 1] ==> s in snapshots;
      FoldDevice(snapshots[..|snapshots| - 1], maxPoints);
    }
  }

  /** Whatever the order and the repetitions: the route's timestamps are the
      greatest distinct ones seen, in order, as many as maxPoints keeps. */
  lemma {:induction false} RouteIsGreatest(snapshots: seq<LiveLocationSnapshot>, maxPoints: int)
    requires OneDevice(snapshots)
    ensures Greatest(Times(Fold(snapshots, maxPoints).route), Seen(snapshots), Kept(maxPoints, Seen(snapshots)))
  {
    if snapshots == [] {
      assert Seen(snapshots) == {};
    } else {
      hide ReduceLiveLocation;
      hide Greatest;
      var front, last := snapshots[..|snapshots| - 1], snapshots[|snapshots| - 1];
      assert forall s :: s in front ==> s in snapshots;
      assert last in snapshots;
      RouteIsGreatest(front, maxPoints);
      if front != [] {
        FoldDevice(front, maxPoints);
      }
      SeenOneMore(snapshots);
      ReduceKeepsGreatest(Fold(front, maxPoints), last, Seen(front), maxPoints);
    }
  }

  /** The snapshot's location is the latest one seen. */
  lemma {:induction false} SnapshotIsLatest(snapshots: seq<LiveLocationSnapshot>, maxPoints: int)
    requires OneDevice(snapshots) && snapshots != []
    ensures Fold(snapshots, maxPoints).snapshot.Some?
    ensures var location := Fold(snapshots, maxPoints).snapshot.value.location;
      if Seen(snapshots) == {} then location == None
      else
        && location.Some? && location.value.recordedAt in Seen(snapshots)
        && (forall t :: t in Seen(snapshots) ==> t <= location.value.recordedAt)
        && (exists s :: s in snapshots && s.location == location)
  {
    hide Slice;
    hide SortByTime;
    FoldDevice(snapshots, maxPoints);
    SeenOneMore(snapshots);
    var front, last := snapshots[..|snapshots| - 1], snapshots[|snapshots| - 1];
    assert last in snapshots && forall s :: s in front ==> s in snapshots;
    if front == [] {
      assert Seen(front) == {};
    } else {
      FoldDevice(front, maxPoints);
      SnapshotIsLatest(front, maxPoints);
    }
  }

  /** Every point of the route came with some snapshot. */
  lemma {:induction false} RouteFromSnapshots(snapshots: seq<LiveLocationSnapshot>, maxPoints: int)
    ensures forall p :: p in Fold(snapshots, maxPoints).route ==> exists s :: s in snapshots && s.location == Some(p)
  {
    if snapshots != [] {
      var front, last := snapshots[..|snapshots| - 1], snapshots[|snapshots| - 1];
      var before := Fold(front, maxPoints);
      RouteFromSnapshots(front, maxPoints);
      forall p | p in Fold(snapshots, maxPoints).route
        ensures exists s :: s in snapshots && s.location == Some(p)
      {
        ReducedPoint(before, last, maxPoints, p);
        if p in before.route {
          var s :| s in front && s.location == Some(p);
          assert s in snapshots;
        } else {
          assert last in snapshots;
        }
      }
    }
  }

  lemma ReducedPoint(current: LiveLocationState, next: LiveLocationSnapshot, maxPoints: int, p: LocationPoint)
    requires p in ReduceLiveLocation(current, next, maxPoints).route
    ensures p in current.route || next.location == Some(p)
  {
    if next.location.Some? {
      var grown := current.route + [next.location.value];
      SortSorts(grown);
      assert p in SortByTime(grown) ==> p in multiset(SortByTime(grown));
    }
  }

  /** This snapshot is the first with its timestamp. */
  predicate FirstAt(snapshots: seq<LiveLocationSnapshot>, k: nat) {
    k < |snapshots| && forall j :: 0 <= j < k ==> !SameTime(snapshots[j], snapshots[k])
  }

  /** For each timestamp of the route the point that came first is kept, even if
      the timestamp was cut off and came again. */
  lemma {:induction false} RouteKeepsFirst(snapshots: seq<LiveLocationSnapshot>, maxPoints: int, p: LocationPoint)
    requires OneDevice(snapshots) && p in Fold(snapshots, maxPoints).route
    ensures exists k: nat :: FirstAt(snapshots, k) && snapshots[k].location == Some(p)
  {
    hide Fold;
    hide SameTime;
    if snapshots == [] {
      FoldNone(maxPoints, "");
    } else {
      var n := |snapshots| - 1;
      var front := snapshots[..n];
      assert forall s :: s in front ==> s in snapshots;
      if p in Fold(front, maxPoints).route {
        RouteKeepsFirst(front, maxPoints, p);
        var k: nat :| FirstAt(front, k) && front[k].location == Some(p);
        assert FirstAt(snapshots, k);
      } else {
        NewPointIsFirst(snapshots, maxPoints, p);
        assert FirstAt(snapshots, n);
      }
    }
  }

  lemma NewPointIsFirst(snapshots: seq<LiveLocationSnapshot>, maxPoints: int, p: LocationPoint)
    requires OneDevice(snapshots) && snapshots != [] && p in Fold(snapshots, maxPoints).route
    requires p !in Fold(snapshots[..|snapshots| - 1], maxPoints).route
    ensures snapshots[|snapshots| - 1].location == Some(p) && FirstAt(snapshots, |snapshots| - 1)
  {
    var n := |snapshots| - 1;
    var front, last := snapshots[..n], snapshots[n];
    var before, after := Fold(front, maxPoints), Fold(snapshots, maxPoints);
    assert after == ReduceLiveLocation(before, last, maxPoints);
    hide Fold;
    hide ReduceLiveLocation;
    ReducedPoint(before, last, maxPoints, p);
    forall j | 0 <= j < n
      ensures !SameTime(snapshots[j], last)
    {
      if SameTime(snapshots[j], last) {
        var t := p.recordedAt;
        assert front[j] in front && t in Seen(front);
        SeenOneMore(snapshots);
        assert Seen(snapshots) == Seen(front);
        assert OneDevice(front) by {
          assert forall s :: s in front ==> s in snapshots;
        }
        RouteIsGreatest(front, maxPoints);
        RouteIsGreatest(snapshots, maxPoints);
        GreatestUnique(Times(before.route), Times(after.route), Seen(front), Kept(maxPoints, Seen(front)));
        TimeInRoute(after.route, t);
        TimeInRoute(before.route, t);
        NothingAdded(before, last, maxPoints, p);
        assert false;
      }
    }
  }

  lemma NothingAdded(current: LiveLocationState, next: LiveLocationSnapshot, maxPoints: int, p: LocationPoint)
    requires next.location.Some? ==> exists q :: q in current.route && q.recordedAt == next.location.value.recordedAt
    requires p in ReduceLiveLocation(current, next, maxPoints).route
    ensures p in current.route
  {
  }

  /** No snapshot has a later location, and none after it an equally late one. */
  predicate LatestAt(snapshots: seq<LiveLocationSnapshot>, k: nat) {
    && k < |snapshots| && snapshots[k].location.Some?
    && (forall j :: 0 <= j < k && snapshots[j].location.Some? ==>
          snapshots[j].location.value.recordedAt <= snapshots[k].location.value.recordedAt)
    && (forall j :: k < j < |snapshots| && snapshots[j].location.Some? ==>
          snapshots[j].location.value.recordedAt < snapshots[k].location.value.recordedAt)
  }

  /** The latest location, of equally late ones that which came last; none if none came. */
  ghost predicate LatestOf(snapshots: seq<LiveLocationSnapshot>, location: Option<LocationPoint>) {
    if location.Some? then exists k: nat :: LatestAt(snapshots, k) && snapshots[k].location == location
    else forall s :: s in snapshots ==> s.location.None?
  }

  /** The snapshot is the last one that came, with the latest location. */
  lemma {:induction false} SnapshotIs(snapshots: seq<LiveLocationSnapshot>, maxPoints: int)
    requires OneDevice(snapshots) && snapshots != []
    ensures Fold(snapshots, maxPoints).snapshot.Some?
    ensures var snapshot, last := Fold(snapshots, maxPoints).snapshot.value, snapshots[|snapshots| - 1];
      && snapshot.deviceId == last.deviceId && snapshot.serverTime == last.serverTime && snapshot.presence == last.presence
      && LatestOf(snapshots, snapshot.location)
  {
    hide Fold;
    hide ReduceLiveLocation;
    hide LatestOf;
    var n := |snapshots| - 1;
    var front, last := snapshots[..n], snapshots[n];
    assert last in snapshots && forall s :: s in front ==> s in snapshots;
    assert snapshots == front + [last];
    FoldOneMore(front, last, maxPoints);
    var before := None;
    if front == [] {
      FoldNone(maxPoints, "");
      NothingLatest();
    } else {
      FoldDevice(front, maxPoints);
      SnapshotIs(front, maxPoints);
      before := Fold(front, maxPoints).snapshot.value.location;
    }
    ReducedSnapshot(Fold(front, maxPoints), last, maxPoints);
    LatestOneMore(snapshots, before);
  }

  lemma NothingLatest()
    ensures LatestOf([], None)
  {
  }

  lemma LatestOneMore(snapshots: seq<LiveLocationSnapshot>, before: Option<LocationPoint>)
    requires snapshots != [] && LatestOf(snapshots[..|snapshots| - 1], before)
    ensures var next := snapshots[|snapshots| - 1].location;
      LatestOf(snapshots,
        if next.None? || (before.Some? && next.value.recordedAt < before.value.recordedAt) then before else next)
  {
    var front, last := snapshots[..|snapshots| - 1], snapshots[|snapshots| - 1];
    if before.Some? {
      var k: nat :| LatestAt(front, k) && front[k].location == before;
      OneMoreLatest(snapshots, k);
    } else {
      FirstLatest(snapshots);
      assert forall s :: s in snapshots ==> s in front || s == last;
    }
  }

  lemma ReducedSnapshot(current: LiveLocationState, next: LiveLocationSnapshot, maxPoints: int)
    requires current.snapshot.Some? ==> current.snapshot.value.deviceId == next.deviceId
    ensures ReduceLiveLocation(current, next, maxPoints).snapshot.Some?
    ensures var s := ReduceLiveLocation(current, next, maxPoints).snapshot.value;
      var before := if current.snapshot.Some? then current.snapshot.value.location else None;
      && s.deviceId == next.deviceId && s.serverTime == next.serverTime && s.presence == next.presence
      && s.location
         == if next.location.None? || (before.Some? && next.location.value.recordedAt < before.value.recordedAt)
            then before else next.location
  {
    hide Slice;
    hide SortByTime;
  }

  lemma OneMoreLatest(snapshots: seq<LiveLocationSnapshot>, k: nat)
    requires snapshots != [] && LatestAt(snapshots[..|snapshots| - 1], k)
    ensures var n := |snapshots| - 1;
      if snapshots[n].location.Some? && snapshots[n].location.value.recordedAt >= snapshots[k].location.value.recordedAt
      then LatestAt(snapshots, n) else LatestAt(snapshots, k)
  {
    var front := snapshots[..|snapshots| - 1];
    assert forall j :: 0 <= j < |front| ==> front[j] == snapshots[j];
  }

  lemma FirstLatest(snapshots: seq<LiveLocationSnapshot>)
    requires snapshots != [] && forall s :: s in snapshots[..|snapshots| - 1] ==> s.location.None?
    ensures snapshots[|snapshots| - 1].location.Some? ==> LatestAt(snapshots, |snapshots| - 1)
  {
    var front := snapshots[..|snapshots| - 1];
    assert forall j :: 0 <= j < |front| ==> front[j] == snapshots[j] && front[j] in front;
  }

  predicate SameTime(s: LiveLocationSnapshot, t: LiveLocationSnapshot) {
    s.location.Some? && t.location.Some? && s.location.value.recordedAt == t.location.value.recordedAt
  }

  /** Two runs over the same timestamps end with the same route, provided a
      timestamp always carries the same point. */
  lemma Converges(a: seq<LiveLocationSnapshot>, b: seq<LiveLocationSnapshot>, maxPoints: int)
    requires OneDevice(a) && OneDevice(b) && Seen(a) == Seen(b)
    requires forall s, t :: s in a + b && t in a + b && SameTime(s, t) ==> s.location == t.location
    ensures Fold(a, maxPoints).route == Fold(b, maxPoints).route
  {
    hide Fold;
    hide Greatest;
    var ra, rb := Fold(a, maxPoints).route, Fold(b, maxPoints).route;
    RouteIsGreatest(a, maxPoints);
    RouteIsGreatest(b, maxPoints);
    GreatestUnique(Times(ra), Times(rb), Seen(a), Kept(maxPoints, Seen(a)));
    assert |Times(ra)| == |ra| && |Times(rb)| == |rb|;
    RouteFromSnapshots(a, maxPoints);
    RouteFromSnapshots(b, maxPoints);
    forall i | 0 <= i < |ra|
      ensures ra[i] == rb[i]
    {
      assert ra[i] in ra && rb[i] in rb;
      assert Times(ra)[i] == Times(rb)[i];
      var s :| s in a && s.location == Some(ra[i]);
      var t :| t in b && t.location == Some(rb[i]);
      assert s in a + b && t in a + b && SameTime(s, t);
    }
  }

  function OnlyOf(snapshots: seq<LiveLocationSnapshot>, deviceId: string): seq<LiveLocationSnapshot> {
    if snapshots == [] then []
    else
      var last := snapshots[|snapshots| - 1];
      OnlyOf(snapshots[..|snapshots| - 1], deviceId) + if last.deviceId == deviceId then [last] else []
  }

  /** Once a device is shown, the others' snapshots might as well not arrive. */
  lemma {:induction false} ForeignIgnored(snapshots: seq<LiveLocationSnapshot>, maxPoints: int)
    requires snapshots != []
    ensures Fold(snapshots, maxPoints) == Fold(OnlyOf(snapshots, snapshots[0].deviceId), maxPoints)
    ensures Fold(snapshots, maxPoints).snapshot.Some?
    ensures Fold(snapshots, maxPoints).snapshot.value.deviceId == snapshots[0].deviceId
  {
    hide Slice;
    hide SortByTime;
    hide OnlyOf;
    hide Fold;
    var d, front, last := snapshots[0].deviceId, snapshots[..|snapshots| - 1], snapshots[|snapshots| - 1];
    var only := OnlyOf(front, d);
    if front != [] {
      ForeignIgnored(front, maxPoints);
      assert front[0] == snapshots[0];
    }
    FoldOneMore(front, last, maxPoints);
    FoldOneMore(only, last, maxPoints);
    FoldNone(maxPoints, d);
    assert snapshots == front + [last];
    OnlyOneMore(front, last, d);
    if front == [] {
      assert front == [] && only == [];
    } else if last.deviceId != d {
      assert only + [] == only;
    }
  }

  lemma FoldOneMore(snapshots: seq<LiveLocationSnapshot>, last: LiveLocationSnapshot, maxPoints: int)
    ensures Fold(snapshots + [last], maxPoints) == ReduceLiveLocation(Fold(snapshots, maxPoints), last, maxPoints)
  {
    hide ReduceLiveLocation;
    assert (snapshots + [last])[..|snapshots|] == snapshots;
  }

  lemma OnlyOneMore(snapshots: seq<LiveLocationSnapshot>, last: LiveLocationSnapshot, d: string)
    ensures OnlyOf(snapshots + [last], d) == OnlyOf(snapshots, d) + if last.deviceId == d then [last] else []
  {
    assert (snapshots + [last])[..|snapshots|] == snapshots;
  }

  lemma FoldNone(maxPoints: int, d: string)
    ensures Fold([], maxPoints) == EMPTY && OnlyOf([], d) == []
  {
  }
}
