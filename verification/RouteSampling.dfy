/** The route query and its reader (locations.sql.go, locations/adapter.go): the
    first row of each of n NTILE buckets, and the last row. */
module RouteSampling {
  import opened Wire
  import Ingest

  /** A row of one device's locations. */
  datatype Row = Row(recordedAt: Ingest.Instant, fix: Ingest.Telemetry)

  predicate Chronological(rows: seq<Row>) {
    forall i, j :: 0 <= i < j < |rows| ==> rows[i].recordedAt < rows[j].recordedAt
  }

  /** The device's rows in [from, to), ordered by time. */
  ghost predicate IsWindow(window: seq<Row>, t: Ingest.Tables, device: Ingest.Device, from: Ingest.Instant, to: Ingest.Instant) {
    && Chronological(window)
    && forall r: Row :: r in window <==>
         from <= r.recordedAt < to && (device, r.recordedAt) in t.rows && t.rows[(device, r.recordedAt)] == r.fix
  }

  // ---- NTILE ----

  /** The bucket of the i-th of `total` rows: the first total % n buckets hold one
      row more than the others. */
  function Ntile(i: nat, total: nat, n: nat): (bucket: nat)
    requires i < total && n > 0
    ensures bucket > 0
  {
    var q, extra := total / n, total % n;
    if i < extra * (q + 1) then i / (q + 1) + 1
    else
      SmallTotal(i, total, n);
      var past: nat := i - extra * (q + 1);
      extra + past / q + 1
  }

  lemma SmallTotal(i: nat, total: nat, n: nat)
    requires i < total && n > 0 && i >= total % n * (total / n + 1)
    ensures total / n > 0
  {
    NoQuotient(total, n);
  }

  lemma NoQuotient(total: nat, n: nat)
    requires n > 0
    ensures total / n == 0 <==> total < n
    ensures total < n ==> total % n == total
  {
    if total >= n {
      MulMonotone(1, n, total);
      QuotientBetween(total, n, 1, total);
    }
  }

  lemma Divided(x: nat, w: nat)
    requires w > 0
    ensures x / w * w <= x < x / w * w + w
  {
  }

  lemma QuotientIs(x: nat, w: nat, k: nat)
    requires w > 0 && k * w <= x < k * w + w
    ensures x / w == k
  {
    var q: nat := x / w;
    Divided(x, w);
    if q < k {
      MulGap(q, k, w);
    } else if k < q {
      MulGap(k, q, w);
    }
  }

  lemma MulGap(a: nat, b: nat, m: nat)
    requires a < b
    ensures a * m + m <= b * m
  {
    MulMonotone(a + 1, b, m);
  }

  lemma QuotientSteps(x: nat, w: nat)
    requires w > 0
    ensures x / w <= (x + 1) / w <= x / w + 1
  {
    Divided(x, w);
    NextQuotient(x, w, x / w);
  }

  lemma NextQuotient(x: nat, w: nat, k: nat)
    requires w > 0 && k * w <= x < k * w + w
    ensures k <= (x + 1) / w <= k + 1
  {
    if x + 1 < k * w + w {
      QuotientIs(x + 1, w, k);
    } else {
      assert (k + 1) * w == k * w + w;
      QuotientIs(x + 1, w, k + 1);
    }
  }

  lemma FirstBucket(total: nat, n: nat)
    requires 0 < total && 0 < n
    ensures Ntile(0, total, n) == 1
  {
    var q, extra := total / n, total % n;
    if extra > 0 {
      MulMonotone(1, extra, q + 1);
    }
  }

  /** Buckets are numbered in row order without a hole. */
  lemma BucketSteps(i: nat, total: nat, n: nat)
    requires i + 1 < total && n > 0
    ensures Ntile(i, total, n) <= Ntile(i + 1, total, n) <= Ntile(i, total, n) + 1
  {
    var q, extra := total / n, total % n;
    var big := extra * (q + 1);
    if i + 1 < big {
      QuotientSteps(i, q + 1);
    } else if i + 1 == big {
      assert (extra - 1) * (q + 1) == big - (q + 1);
      QuotientIs(i, q + 1, extra - 1);
      SmallTotal(i + 1, total, n);
    } else {
      SmallTotal(i, total, n);
      QuotientSteps(i - big, q);
    }
  }

  /** How total rows split: the long buckets, and then the short ones. */
  lemma Split(total: nat, n: nat)
    requires n > 0
    ensures var q, extra := total / n, total % n;
      extra < n && total - extra * (q + 1) == (n - extra) * q
  {
    var q, extra := total / n, total % n;
    assert total == n * q + extra;
    assert extra * (q + 1) == extra * q + extra;
    assert (n - extra) * q == n * q - extra * q;
  }

  /** The row `back` from the end, when the last bucket has more rows than that. */
  lemma FromEnd(total: nat, n: nat, back: nat)
    requires n > 0 && 0 < back <= total / n && back <= total
    ensures Ntile(total - back, total, n) == n
  {
    var q, extra := total / n, total % n;
    Split(total, n);
    var k: nat := n - extra - 1;
    assert (n - extra) * q == k * q + q;
    assert 0 <= k * q;
    QuotientIs(total - back - extra * (q + 1), q, k);
  }

  lemma OwnBuckets(i: nat, total: nat, n: nat)
    requires i < total < n
    ensures Ntile(i, total, n) == i + 1
  {
    NoQuotient(total, n);
  }

  lemma LastBucket(total: nat, n: nat)
    requires 0 < total && 0 < n
    ensures Ntile(total - 1, total, n) == if total < n then total else n
  {
    NoQuotient(total, n);
    if total < n {
      OwnBuckets(total - 1, total, n);
    } else {
      FromEnd(total, n, 1);
    }
  }

  /** With one short row a bucket, the row before the last is in the one before. */
  lemma BeforeLast(total: nat, n: nat)
    requires 2 <= total && n > 0 && total / n == 1
    ensures Ntile(total - 2, total, n) == n - 1
  {
    var extra := total % n;
    Split(total, n);
    assert extra * 2 + (n - extra) == total;
    if n - extra >= 2 {
      QuotientIs(total - 2 - extra * 2, 1, n - extra - 2);
    } else {
      QuotientIs(total - 2, 2, extra - 1);
    }
  }

  lemma TwoOrMore(total: nat, n: nat)
    requires n > 0 && total >= 2 * n
    ensures total / n >= 2
  {
    MulMonotone(1, n, total);
    QuotientBetween(total, n, 2, total);
  }

  /** The last row shares its bucket exactly when there are two rows a bucket. */
  lemma LastShares(total: nat, n: nat)
    requires 2 <= total && 0 < n
    ensures Ntile(total - 2, total, n) == Ntile(total - 1, total, n) <==> total >= 2 * n
  {
    hide Ntile;
    LastBucket(total, n);
    NoQuotient(total, n);
    if total < n {
      OwnBuckets(total - 2, total, n);
    } else if total >= 2 * n {
      TwoOrMore(total, n);
      FromEnd(total, n, 2);
    } else {
      QuotientIs(total, n, 1);
      BeforeLast(total, n);
    }
  }

  // ---- How large the buckets are ----

  /** The rows before bucket b: b - 1 buckets of total / n rows, and one row more
      for each of the first total % n. */
  function Start(b: nat, total: nat, n: nat): nat
    requires b > 0 && n > 0
  {
    (b - 1) * (total / n) + if b - 1 < total % n then b - 1 else total % n
  }

  /** Bucket b is the rows from its start to the start of the next. */
  lemma BucketBounds(i: nat, b: nat, total: nat, n: nat)
    requires i < total && 1 <= b <= n
    ensures Ntile(i, total, n) == b <==> Start(b, total, n) <= i < Start(b + 1, total, n)
  {
    hide Ntile;
    hide Start;
    if i < total % n * (total / n + 1) {
      LongBounds(i, b, total, n);
    } else {
      ShortBounds(i, b, total, n);
    }
  }

  lemma LongBounds(i: nat, b: nat, total: nat, n: nat)
    requires i < total && 1 <= b <= n && i < total % n * (total / n + 1)
    ensures Ntile(i, total, n) == b <==> Start(b, total, n) <= i < Start(b + 1, total, n)
  {
    hide Start;
    var q, extra := total / n, total % n;
    assert Ntile(i, total, n) == i / (q + 1) + 1;
    hide Ntile;
    QuotientIff(i, q + 1, b - 1);
    StartLong(b, total, n);
    if b <= extra {
      StartLong(b + 1, total, n);
      NextMultiple(b, q + 1);
    } else {
      PastLong(i, b, q, extra);
    }
  }

  lemma NextMultiple(b: nat, w: nat)
    requires b > 0
    ensures b * w == (b - 1) * w + w
  {
  }

  /** A row of a long bucket comes before the first short one. */
  lemma PastLong(i: nat, b: nat, q: nat, extra: nat)
    requires i < extra * (q + 1) && b > extra
    ensures i < (b - 1) * q + extra && i / (q + 1) + 1 != b
  {
    MulMonotone(extra, b - 1, q);
    MulMonotone(extra, b - 1, q + 1);
    assert extra * (q + 1) == extra * q + extra;
    QuotientIff(i, q + 1, b - 1);
  }

  lemma ShortBounds(i: nat, b: nat, total: nat, n: nat)
    requires i < total && 1 <= b <= n && i >= total % n * (total / n + 1)
    ensures Ntile(i, total, n) == b <==> Start(b, total, n) <= i < Start(b + 1, total, n)
  {
    hide Start;
    var q, extra := total / n, total % n;
    var past: nat := i - extra * (q + 1);
    SmallTotal(i, total, n);
    assert Ntile(i, total, n) == extra + past / q + 1;
    hide Ntile;
    if b > extra {
      ShortStart(b, total, n);
      QuotientIff(past, q, b - 1 - extra);
    } else {
      StartLong(b + 1, total, n);
      MulMonotone(b, extra, q + 1);
    }
  }

  lemma QuotientIff(x: nat, w: nat, k: nat)
    requires w > 0
    ensures x / w == k <==> k * w <= x < k * w + w
  {
    Divided(x, w);
    if k * w <= x < k * w + w {
      QuotientIs(x, w, k);
    }
  }

  /** Up to the first short bucket, the starts are multiples of the long size. */
  lemma StartLong(b: nat, total: nat, n: nat)
    requires 0 < b && 0 < n
    ensures b - 1 <= total % n ==> Start(b, total, n) == (b - 1) * (total / n + 1)
    ensures b - 1 >= total % n ==> Start(b, total, n) == (b - 1) * (total / n) + total % n
  {
  }

  lemma ShortStart(b: nat, total: nat, n: nat)
    requires n > 0 && b > total % n
    ensures var q, extra := total / n, total % n;
      && Start(b, total, n) == extra * (q + 1) + (b - 1 - extra) * q
      && Start(b + 1, total, n) == extra * (q + 1) + (b - 1 - extra) * q + q
  {
    var q, extra := total / n, total % n;
    assert (b - 1) * q == extra * q + (b - 1 - extra) * q;
    assert b * q == (b - 1) * q + q;
  }

  /** The buckets lie within the rows. */
  lemma StartsRise(b: nat, total: nat, n: nat)
    requires 1 <= b <= n
    ensures Start(b + 1, total, n) == Start(b, total, n) + total / n + if b <= total % n then 1 else 0
    ensures Start(b + 1, total, n) <= total
  {
    var q, extra := total / n, total % n;
    assert b * q == (b - 1) * q + q;
    MulMonotone(b, n, q);
    assert total == n * q + extra;
  }

  /** NTILE deals the rows out evenly, the first total % n buckets getting one more. */
  lemma BucketSize(b: nat, total: nat, n: nat)
    requires 1 <= b <= n
    ensures |set i: nat | i < total && Ntile(i, total, n) == b| == total / n + if b <= total % n then 1 else 0
  {
    hide Ntile;
    hide Start;
    StartsRise(b, total, n);
    BucketSoFar(b, total, n, total);
    assert BucketRows(b, total, n, total) == set i: nat | i < total && Ntile(i, total, n) == b;
  }

  /** The rows of bucket b among the first m. */
  function BucketRows(b: nat, total: nat, n: nat, m: nat): set<nat>
    requires n > 0 && m <= total
  {
    set i: nat | i < m && Ntile(i, total, n) == b
  }

  lemma OneMoreRow(b: nat, total: nat, n: nat, m: nat)
    requires n > 0 && m < total
    ensures |BucketRows(b, total, n, m + 1)| == |BucketRows(b, total, n, m)| + if Ntile(m, total, n) == b then 1 else 0
  {
    hide Ntile;
    assert BucketRows(b, total, n, m + 1) == BucketRows(b, total, n, m) + if Ntile(m, total, n) == b then {m} else {};
  }

  lemma {:induction false} BucketSoFar(b: nat, total: nat, n: nat, m: nat)
    requires 1 <= b <= n && m <= total
    ensures Start(b, total, n) <= Start(b + 1, total, n)
    ensures var lo, hi := Start(b, total, n), Start(b + 1, total, n);
      |BucketRows(b, total, n, m)| == if m <= lo then 0 else if m <= hi then m - lo else hi - lo
  {
    hide Ntile;
    hide Start;
    StartsRise(b, total, n);
    if m == 0 {
      assert BucketRows(b, total, n, m) == {};
    } else {
      hide BucketRows;
      BucketSoFar(b, total, n, m - 1);
      BucketBounds(m - 1, b, total, n);
      OneMoreRow(b, total, n, m - 1);
    }
  }

  // ---- The query ----

  /** DISTINCT ON (bucket), ordered by bucket and time. */
  predicate FirstOfBucket(i: nat, total: nat, n: nat)
    requires i < total && n > 0
  {
    forall j :: 0 <= j < i ==> Ntile(j, total, n) != Ntile(i, total, n)
  }

  /** sampled UNION last_point. */
  predicate Chosen(i: nat, total: nat, n: nat)
    requires i < total && n > 0
  {
    FirstOfBucket(i, total, n) || i == total - 1
  }

  function Pick(window: seq<Row>, n: nat, i: nat): seq<Row>
    requires n > 0 && i <= |window|
  {
    if i == 0 then [] else Pick(window, n, i - 1) + if Chosen(i - 1, |window|, n) then [window[i - 1]] else []
  }

  /** The rows the query returns, in order.  NTILE refuses a bucket count below
      one as soon as there is a row to number. */
  function GetRouteForDevice(window: seq<Row>, ntile: int): Option<seq<Row>> {
    if window == [] then Some([])
    else if ntile <= 0 then None
    else Some(Pick(window, ntile, |window|))
  }

  lemma {:induction false} BucketsRise(i: nat, j: nat, total: nat, n: nat)
    requires i <= j < total && n > 0
    ensures Ntile(i, total, n) <= Ntile(j, total, n)
    decreases j
  {
    hide Ntile;
    if i < j {
      BucketsRise(i, j - 1, total, n);
      BucketSteps(j - 1, total, n);
    }
  }

  lemma FirstOrNext(i: nat, total: nat, n: nat)
    requires i + 1 < total && n > 0
    ensures FirstOfBucket(i + 1, total, n) <==> Ntile(i + 1, total, n) == Ntile(i, total, n) + 1
  {
    hide Ntile;
    BucketSteps(i, total, n);
    forall j | 0 <= j <= i
      ensures Ntile(j, total, n) <= Ntile(i, total, n)
    {
      BucketsRise(j, i, total, n);
    }
  }

  /** So far as many rows as buckets, as long as the last row is not reached. */
  lemma {:induction false} PickCount(window: seq<Row>, n: nat, i: nat)
    requires n > 0 && i < |window|
    ensures |Pick(window, n, i)| == if i == 0 then 0 else Ntile(i - 1, |window|, n)
  {
    hide Ntile;
    hide FirstOfBucket;
    if i == 1 {
      FirstBucket(|window|, n);
      FirstRow(|window|, n);
      assert |Pick(window, n, 0)| == 0;
    } else if i > 1 {
      PickCount(window, n, i - 1);
      FirstOrNext(i - 2, |window|, n);
      BucketSteps(i - 2, |window|, n);
    }
  }

  lemma FirstRow(total: nat, n: nat)
    requires 0 < total && n > 0
    ensures FirstOfBucket(0, total, n)
  {
  }

  /** How many rows come back. */
  lemma RouteCount(window: seq<Row>, n: nat)
    requires n > 0
    ensures var total := |window|;
      |Pick(window, n, total)| == if total <= n then total else if total < 2 * n then n else n + 1
  {
    hide Ntile;
    hide FirstOfBucket;
    var total := |window|;
    if total > 0 {
      PickCount(window, n, total - 1);
      LastBucket(total, n);
      if total > 1 {
        BucketSteps(total - 2, total, n);
        LastShares(total, n);
      } else {
        assert |Pick(window, n, 0)| == 0;
      }
    }
  }

  /** A window that fits comes back whole. */
  lemma SmallWindowWhole(window: seq<Row>, n: nat)
    requires 0 < |window| <= n
    ensures GetRouteForDevice(window, n) == Some(window)
  {
    hide Chosen;
    RouteCount(window, n);
    PickAll(window, n, |window|);
    assert window[..|window|] == window;
  }

  /** Picking as many rows as there are is picking them all. */
  lemma {:induction false} PickAll(window: seq<Row>, n: nat, i: nat)
    requires n > 0 && i <= |window|
    ensures |Pick(window, n, i)| <= i
    ensures |Pick(window, n, i)| == i ==> Pick(window, n, i) == window[..i]
  {
    hide Chosen;
    if i > 0 {
      PickAll(window, n, i - 1);
      assert window[..i] == window[..i - 1] + [window[i - 1]];
    }
  }

  /** What the query asks for: the chosen rows and no others, in order of time. */
  ghost predicate Answers(rows: seq<Row>, window: seq<Row>, n: nat)
    requires n > 0
  {
    && Chronological(rows)
    && forall r :: r in rows <==> exists i :: 0 <= i < |window| && Chosen(i, |window|, n) && window[i] == r
  }

  lemma {:induction false} PickRows(window: seq<Row>, n: nat, i: nat)
    requires n > 0 && i <= |window| && Chronological(window)
    ensures Chronological(Pick(window, n, i))
    ensures forall r :: r in Pick(window, n, i) <==> exists k :: 0 <= k < i && Chosen(k, |window|, n) && window[k] == r
  {
    hide Chosen;
    if i > 0 {
      PickRows(window, n, i - 1);
      var before := Pick(window, n, i - 1);
      assert forall k :: 0 <= k < |before| ==> before[k] in before;
      forall r | r in Pick(window, n, i)
        ensures exists k :: 0 <= k < i && Chosen(k, |window|, n) && window[k] == r
      {
        if r in before {
          var k :| 0 <= k < i - 1 && Chosen(k, |window|, n) && window[k] == r;
        }
      }
    }
  }

  lemma SameEmpty(a: seq<Row>, b: seq<Row>)
    requires forall r :: r in a <==> r in b
    ensures a == [] <==> b == []
  {
    if a != [] {
      assert a[0] in b;
    }
    if b != [] {
      assert b[0] in a;
    }
  }

  lemma {:induction false} ChronologicalUnique(a: seq<Row>, b: seq<Row>)
    requires Chronological(a) && Chronological(b) && forall r :: r in a <==> r in b
    ensures a == b
  {
    hide Chronological;
    SameEmpty(a, b);
    if a != [] {
      LatestLast(a);
      LatestLast(b);
      var x, y := a[|a| - 1], b[|b| - 1];
      assert x in b && y in a;
      assert x == y;
      var a', b' := a[..|a| - 1], b[..|b| - 1];
      assert forall r :: r in a' <==> r in a && r != x;
      assert forall r :: r in b' <==> r in b && r != x;
      ChronologicalUnique(a', b');
      assert a == a[..|a| - 1] + [x] && b == b[..|b| - 1] + [y];
    }
  }

  lemma LatestLast(a: seq<Row>)
    requires Chronological(a) && a != []
    ensures Chronological(a[..|a| - 1]) && a[|a| - 1] in a
    ensures forall r :: r in a[..|a| - 1] <==> r in a && r != a[|a| - 1]
    ensures forall r :: r in a && r.recordedAt >= a[|a| - 1].recordedAt ==> r == a[|a| - 1]
  {
    assert a == a[..|a| - 1] + [a[|a| - 1]];
  }

  /** The route is the one answer to the query: in order of time, rows of the
      window only, with its first and its last row. */
  lemma RouteAnswers(window: seq<Row>, n: nat, rows: seq<Row>)
    requires n > 0 && window != [] && Chronological(window)
    ensures Answers(rows, window, n) <==> Some(rows) == GetRouteForDevice(window, n)
    ensures Answers(rows, window, n) ==>
      rows != [] && rows[0] == window[0] && rows[|rows| - 1] == window[|window| - 1]
  {
    hide FirstOfBucket;
    PickRows(window, n, |window|);
    var route := Pick(window, n, |window|);
    if Answers(rows, window, n) {
      ChronologicalUnique(rows, route);
      FirstRow(|window|, n);
      Ends(rows, window, n);
    }
  }

  lemma Ends(rows: seq<Row>, window: seq<Row>, n: nat)
    requires n > 0 && window != [] && Chronological(window) && Answers(rows, window, n)
    requires Chosen(0, |window|, n)
    ensures rows != [] && rows[0] == window[0] && rows[|rows| - 1] == window[|window| - 1]
  {
    var total := |window|;
    assert Chosen(total - 1, total, n);
    assert window[0] in rows && window[total - 1] in rows;
    assert rows[0] in rows && rows[|rows| - 1] in rows;
  }

  /** Of the table's rows in the range, the route starts with the earliest and
      ends with the latest. */
  lemma RouteSpansRange(window: seq<Row>, n: nat, t: Ingest.Tables, device: Ingest.Device, from: Ingest.Instant, to: Ingest.Instant)
    requires n > 0 && window != [] && IsWindow(window, t, device, from, to)
    ensures var rows := GetRouteForDevice(window, n).value;
      && rows != []
      && (forall r :: r in rows ==> (device, r.recordedAt) in t.rows && t.rows[(device, r.recordedAt)] == r.fix)
      && (forall x :: from <= x < to && (device, x) in t.rows ==> rows[0].recordedAt <= x <= rows[|rows| - 1].recordedAt)
  {
    hide Chosen;
    hide Pick;
    var rows := GetRouteForDevice(window, n).value;
    RouteAnswers(window, n, rows);
    forall x | from <= x < to && (device, x) in t.rows
      ensures window[0].recordedAt <= x <= window[|window| - 1].recordedAt
    {
      assert Row(x, t.rows[(device, x)]) in window;
    }
    assert forall r :: r in rows ==> r in window;
  }

  /** The rows come from evenly spread places: row j is the first of bucket
      j + 1, and a row more than there are buckets is the last of the window. */
  lemma RouteRowAt(window: seq<Row>, n: nat, j: nat)
    requires n > 0 && j < |Pick(window, n, |window|)|
    ensures var total := |window|;
      var at := if j == n then total - 1 else j * (total / n) + if j < total % n then j else total % n;
      0 <= at < total && Pick(window, n, total)[j] == window[at]
  {
    hide Ntile;
    hide Chosen;
    hide Start;
    var total := |window|;
    PickStarts(window, n, total - 1);
    PickCount(window, n, total - 1);
    LastRow(total, n);
    var before := Pick(window, n, total - 1);
    assert Pick(window, n, total) == before + [window[total - 1]];
    StartIs(j, total, n);
    if j < |before| {
      assert Pick(window, n, total)[j] == before[j] && StartsBucket(window, n, j, before[j]);
    } else if total == 1 {
      assert |Pick(window, n, 0)| == 0;
      FirstBucket(total, n);
      FirstRow(total, n);
      FirstStart(0, total, n);
    } else {
      LastStart(total, n);
    }
  }

  lemma LastRow(total: nat, n: nat)
    requires 0 < total && 0 < n
    ensures Chosen(total - 1, total, n)
  {
    hide FirstOfBucket;
  }

  lemma StartIs(j: nat, total: nat, n: nat)
    requires n > 0
    ensures Start(j + 1, total, n) == j * (total / n) + if j < total % n then j else total % n
  {
  }

  lemma NtileWithin(i: nat, total: nat, n: nat)
    requires i < total && n > 0
    ensures 1 <= Ntile(i, total, n) <= n
  {
    hide Ntile;
    FirstBucket(total, n);
    LastBucket(total, n);
    BucketsRise(0, i, total, n);
    BucketsRise(i, total - 1, total, n);
  }

  /** The first row of a bucket is where the bucket starts. */
  lemma FirstStart(i: nat, total: nat, n: nat)
    requires i < total && n > 0 && FirstOfBucket(i, total, n)
    ensures i == Start(Ntile(i, total, n), total, n)
  {
    hide Ntile;
    hide Start;
    NtileWithin(i, total, n);
    var b := Ntile(i, total, n);
    BucketBounds(i, b, total, n);
    BucketBounds(Start(b, total, n), b, total, n);
  }

  /** The last row is the start of its bucket, if it is not one row too many. */
  lemma LastStart(total: nat, n: nat)
    requires 2 <= total && n > 0
    ensures Ntile(total - 2, total, n) <= n
    ensures Ntile(total - 2, total, n) < n ==> total - 1 == Start(Ntile(total - 2, total, n) + 1, total, n)
  {
    hide Ntile;
    hide Start;
    hide FirstOfBucket;
    var j := Ntile(total - 2, total, n);
    NtileWithin(total - 2, total, n);
    LastShares(total, n);
    LastBucket(total, n);
    BucketSteps(total - 2, total, n);
    if j < n {
      if total >= 2 * n {
        NoQuotient(total, n);
      }
      FirstOrNext(total - 2, total, n);
      FirstStart(total - 1, total, n);
    }
  }

  /** What was picked before the last row are the starts of the buckets. */
  lemma {:induction false} PickStarts(window: seq<Row>, n: nat, i: nat)
    requires n > 0 && i < |window|
    ensures forall j: nat :: j < |Pick(window, n, i)| ==> StartsBucket(window, n, j, Pick(window, n, i)[j])
    ensures |Pick(window, n, i)| <= n
  {
    hide Ntile;
    hide FirstOfBucket;
    hide StartsBucket;
    var total := |window|;
    PickCount(window, n, i);
    if i > 0 {
      var before := Pick(window, n, i - 1);
      NtileWithin(i - 1, total, n);
      PickStarts(window, n, i - 1);
      if FirstOfBucket(i - 1, total, n) {
        BucketStarted(window, n, i - 1);
        assert Pick(window, n, i) == before + [window[i - 1]];
        assert |before| == Ntile(i - 1, total, n) - 1;
      } else {
        assert Pick(window, n, i) == before;
      }
    }
  }

  /** This row is where bucket j + 1 starts. */
  predicate StartsBucket(window: seq<Row>, n: nat, j: nat, row: Row)
    requires n > 0
  {
    Start(j + 1, |window|, n) < |window| && row == window[Start(j + 1, |window|, n)]
  }

  lemma BucketStarted(window: seq<Row>, n: nat, i: nat)
    requires n > 0 && i < |window| && FirstOfBucket(i, |window|, n)
    ensures StartsBucket(window, n, Ntile(i, |window|, n) - 1, window[i])
  {
    hide Ntile;
    hide Start;
    hide FirstOfBucket;
    NtileWithin(i, |window|, n);
    FirstStart(i, |window|, n);
  }

  /** Between two rows that follow each other in the route the window has at most
      total / n others: of any total / n + 1 neighbours one is in the route. */
  lemma NoLongGap(window: seq<Row>, n: nat, k: nat)
    requires n > 0 && k + |window| / n < |window|
    ensures exists i :: k <= i <= k + |window| / n && window[i] in GetRouteForDevice(window, n).value
  {
    hide Ntile;
    hide Start;
    hide FirstOfBucket;
    hide Pick;
    var total := |window|;
    var b, i := Ntile(k, total, n), k;
    NtileWithin(k, total, n);
    BucketBounds(k, b, total, n);
    StartsRise(b, total, n);
    if Start(b, total, n) < k {
      i := Start(b + 1, total, n);
      BucketBounds(i - 1, b, total, n);
      BucketBounds(i, b, total, n);
      BucketSteps(i - 1, total, n);
      FirstOrNext(i - 1, total, n);
    } else {
      StartIsFirst(k, total, n);
    }
    PickHas(window, n, |window|, i);
  }

  lemma StartIsFirst(i: nat, total: nat, n: nat)
    requires i < total && n > 0 && i == Start(Ntile(i, total, n), total, n)
    ensures FirstOfBucket(i, total, n)
  {
    hide Ntile;
    hide Start;
    NtileWithin(i, total, n);
    forall j | 0 <= j < i
      ensures Ntile(j, total, n) != Ntile(i, total, n)
    {
      BucketBounds(j, Ntile(i, total, n), total, n);
    }
  }

  lemma {:induction false} PickHas(window: seq<Row>, n: nat, i: nat, k: nat)
    requires n > 0 && k < i <= |window| && Chosen(k, |window|, n)
    ensures window[k] in Pick(window, n, i)
  {
    hide Chosen;
    if k < i - 1 {
      PickHas(window, n, i - 1, k);
    }
  }

  // ---- The reader ----

  /** GetRoute over what the two queries returned. */
  method GetRoute(device: Ingest.Device, total: nat, route: Option<seq<Row>>, maxPoints: int)
    returns (items: Option<seq<Ingest.Location>>, count: nat, sampled: bool)
    ensures route == None ==> items == None
    ensures route.Some? ==>
      items.Some? && |items.value| == |route.value|
      && forall i :: 0 <= i < |items.value| ==>
           items.value[i] == Ingest.Location(device, 0, route.value[i].recordedAt, route.value[i].fix)
    ensures count == if route.Some? && route.value != [] then total else 0
    ensures sampled <==> route.Some? && route.value != [] && total > maxPoints
  {
    if route == None {
      return None, 0, false;
    }
    if |route.value| == 0 {
      return Some([]), 0, false;
    }
    var found: seq<Ingest.Location> := [];
    for k := 0 to |route.value|
      invariant |found| == k
      invariant forall i :: 0 <= i < k ==>
        found[i] == Ingest.Location(device, 0, route.value[i].recordedAt, route.value[i].fix)
    {
      var row := route.value[k];
      found := found + [Ingest.Location(device, 0, row.recordedAt, row.fix)];
    }
    return Some(found), total, total > maxPoints;
  }

  /** `sampled` tells the truth about dropped rows for all but one request: two
      rows for one bucket come back both. */
  lemma SampledMeansDropped(window: seq<Row>, maxPoints: nat)
    requires maxPoints > 0 && window != []
    ensures (|window| > maxPoints <==> |Pick(window, maxPoints, |window|)| < |window|)
       <==> !(maxPoints == 1 && |window| == 2)
  {
    hide Pick;
    RouteCount(window, maxPoints);
  }
}
