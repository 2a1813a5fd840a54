// The roofline statistics of a job over real arithmetic: peak, median, average and total of a
// series of floating point rates and data volumes. Each of them is a point of intensity and
// performance, in the units below.
module Roofline {

  // Intensity in operations per byte, performance in GFLOPS per second.
  datatype Point = Point(intensity: real, performance: real)

  datatype Stats = Stats(peak: Point, median: Point, average: Point, total: Point)

  const GIGA := 1000000000.0
  const ZERO := Point(0.0, 0.0)
  const NO_STATS := Stats(ZERO, ZERO, ZERO, ZERO)

  // One interval: operations per second and bytes moved. Only intervals with both are used.
  datatype Reading = Reading(flops: real, bytes: real)

  predicate Usable(r: Reading) { r.flops > 0.0 && r.bytes > 0.0 }

  type Sample = r: Reading | Usable(r) witness Reading(1.0, 1.0)

  function Operations(s: Sample, interval: real): real { s.flops * interval }

  function PointOf(s: Sample, interval: real): Point {
    Point(Operations(s, interval) / s.bytes, s.flops / GIGA)
  }

  function Min(a: nat, b: nat): nat { if a <= b then a else b }

  // The usable intervals of two series, cut to the shorter one.
  function UsableSamples(flops: seq<real>, bytes: seq<real>, n: nat): seq<Sample>
    requires n <= |flops| && n <= |bytes|
  {
    if n == 0 then []
    else
      var before, r := UsableSamples(flops, bytes, n - 1), Reading(flops[n - 1], bytes[n - 1]);
      if Usable(r) then before + [r] else before
  }

  lemma Appended(at: seq<nat>, n: nat)
    ensures forall k :: k in at + [n] <==> k in at || k == n
  {
    assert (at + [n])[|at|] == n;
  }

  // The places among the first n where both series have a positive value.
  function UsablePlaces(flops: seq<real>, bytes: seq<real>, n: nat): (at: seq<nat>)
    requires n <= |flops| && n <= |bytes|
    ensures forall i, j :: 0 <= i < j < |at| ==> at[i] < at[j]
    ensures forall i :: 0 <= i < |at| ==> at[i] < n && flops[at[i]] > 0.0 && bytes[at[i]] > 0.0
    ensures forall k: nat :: k < n && flops[k] > 0.0 && bytes[k] > 0.0 ==> k in at
  {
    if n == 0 then []
    else
      var before := UsablePlaces(flops, bytes, n - 1);
      if flops[n - 1] > 0.0 && bytes[n - 1] > 0.0 then
        Appended(before, n - 1);
        before + [n - 1]
      else before
  }

  // The samples are the two values at these places, in order.
  predicate SamplesAt(samples: seq<Sample>, flops: seq<real>, bytes: seq<real>, at: seq<nat>) {
    |samples| == |at|
    && forall k :: 0 <= k < |at| ==>
         at[k] < |flops| && at[k] < |bytes| && samples[k] == Reading(flops[at[k]], bytes[at[k]])
  }

  lemma SamplesSnoc(samples: seq<Sample>, flops: seq<real>, bytes: seq<real>, at: seq<nat>, s: Sample, n: nat)
    requires SamplesAt(samples, flops, bytes, at) && n < |flops| && n < |bytes| && s == Reading(flops[n], bytes[n])
    ensures SamplesAt(samples + [s], flops, bytes, at + [n])
  {
  }

  lemma {:induction false} SamplesAreAtPlaces(flops: seq<real>, bytes: seq<real>, n: nat)
    requires n <= |flops| && n <= |bytes|
    ensures SamplesAt(UsableSamples(flops, bytes, n), flops, bytes, UsablePlaces(flops, bytes, n))
  {
    if n > 0 {
      SamplesAreAtPlaces(flops, bytes, n - 1);
      var r := Reading(flops[n - 1], bytes[n - 1]);
      if Usable(r) {
        SamplesSnoc(UsableSamples(flops, bytes, n - 1), flops, bytes, UsablePlaces(flops, bytes, n - 1), r, n - 1);
      }
    }
  }

  function AllUsable(flops: seq<real>, bytes: seq<real>): seq<Sample> {
    UsableSamples(flops, bytes, Min(|flops|, |bytes|))
  }

  function Sum(xs: seq<real>): real {
    if xs == [] then 0.0 else Sum(xs[..|xs| - 1]) + xs[|xs| - 1]
  }

  function Map<T, U>(f: T -> U, xs: seq<T>): (r: seq<U>)
    ensures |r| == |xs| && forall i :: 0 <= i < |xs| ==> r[i] == f(xs[i])
  {
    seq(|xs|, i requires 0 <= i < |xs| => f(xs[i]))
  }

  function Points(samples: seq<Sample>, interval: real): seq<Point> {
    Map((s: Sample) => PointOf(s, interval), samples)
  }

  function Work(samples: seq<Sample>, interval: real): seq<real> {
    Map((s: Sample) => Operations(s, interval), samples)
  }

  function Bytes(samples: seq<Sample>): seq<real> { Map((s: Sample) => s.bytes, samples) }

  function Intensities(ps: seq<Point>): seq<real> { Map((p: Point) => p.intensity, ps) }

  function Performances(ps: seq<Point>): seq<real> { Map((p: Point) => p.performance, ps) }

  function Distance(x: real, y: real): real { if x <= y then y - x else x - y }

  predicate IsNearest(xs: seq<real>, target: real, at: nat) {
    at < |xs|
    && (forall k :: 0 <= k < |xs| ==> Distance(xs[at], target) <= Distance(xs[k], target))
    && forall k :: 0 <= k < at ==> Distance(xs[at], target) < Distance(xs[k], target)
  }

  predicate IsFirstBest(ps: seq<Point>, at: nat) {
    at < |ps|
    && (forall i :: 0 <= i < |ps| ==> ps[i].performance <= ps[at].performance)
    && forall i :: 0 <= i < at ==> ps[i].performance < ps[at].performance
  }

  // ----- the median of a series -----

  predicate Ordered(xs: seq<real>) { forall i, j :: 0 <= i < j < |xs| ==> xs[i] <= xs[j] }

  // Behind the values that are not larger.
  function Insert(xs: seq<real>, x: real): (r: seq<real>)
    ensures |r| == |xs| + 1 && multiset(r) == multiset(xs) + multiset{x}
  {
    if xs == [] || xs[|xs| - 1] <= x then xs + [x]
    else
      assert xs == xs[..|xs| - 1] + [xs[|xs| - 1]];
      Insert(xs[..|xs| - 1], x) + [xs[|xs| - 1]]
  }

  function Sort(xs: seq<real>): (r: seq<real>)
    ensures |r| == |xs| && multiset(r) == multiset(xs)
  {
    if xs == [] then []
    else
      assert xs == xs[..|xs| - 1] + [xs[|xs| - 1]];
      Insert(Sort(xs[..|xs| - 1]), xs[|xs| - 1])
  }

  // The middle two, which are one and the same for an odd number of values.
  function Lower(xs: seq<real>): real
    requires xs != []
  {
    Sort(xs)[(|xs| - 1) / 2]
  }

  function Upper(xs: seq<real>): real
    requires xs != []
  {
    Sort(xs)[|xs| / 2]
  }

  function Median(xs: seq<real>): real
    requires xs != []
  {
    (Lower(xs) + Upper(xs)) / 2.0
  }

  // ----- the computation -----

  // The first point with the largest performance.
  method ArgMax(ps: seq<Point>) returns (at: nat)
    requires ps != []
    ensures IsFirstBest(ps, at)
  {
    at := 0;
    for i := 1 to |ps|
      invariant at < i
      invariant forall k :: 0 <= k < i ==> ps[k].performance <= ps[at].performance
      invariant forall k :: 0 <= k < at ==> ps[k].performance < ps[at].performance
    {
      if ps[i].performance > ps[at].performance { at := i; }
    }
  }

  // The first value nearest to the target.
  method ArgNearest(xs: seq<real>, target: real) returns (at: nat)
    requires xs != []
    ensures IsNearest(xs, target, at)
  {
    at := 0;
    for i := 1 to |xs|
      invariant at < i
      invariant forall k :: 0 <= k < i ==> Distance(xs[at], target) <= Distance(xs[k], target)
      invariant forall k :: 0 <= k < at ==> Distance(xs[at], target) < Distance(xs[k], target)
    {
      if Distance(xs[i], target) < Distance(xs[at], target) { at := i; }
    }
  }

  method Mean(xs: seq<real>) returns (mean: real)
    requires xs != []
    ensures mean == Sum(xs) / |xs| as real
  {
    var x := 0.0;
    for i := 0 to |xs|
      invariant x == Sum(xs[..i])
    {
      assert xs[..i + 1][..i] == xs[..i];
      x := x + xs[i];
    }
    assert xs[..|xs|] == xs;
    mean := x / |xs| as real;
  }

  // The points of the usable intervals, and their operations and bytes in total.
  method Collect(flops: seq<real>, bytes: seq<real>, interval: real)
    returns (points: seq<Point>, totalFlops: real, totalBytes: real)
    ensures var samples := AllUsable(flops, bytes);
      points == Points(samples, interval)
      && totalFlops == Sum(Work(samples, interval)) && totalBytes == Sum(Bytes(samples))
  {
    points, totalFlops, totalBytes := [], 0.0, 0.0;
    ghost var samples: seq<Sample> := [];
    var n := Min(|flops|, |bytes|);
    for i := 0 to n
      invariant samples == UsableSamples(flops, bytes, i)
      invariant points == Points(samples, interval)
      invariant totalFlops == Sum(Work(samples, interval)) && totalBytes == Sum(Bytes(samples))
    {
      var r := Reading(flops[i], bytes[i]);
      if Usable(r) {
        var s: Sample := r;
        AddSample(samples, s, interval);
        points := points + [PointOf(s, interval)];
        totalFlops, totalBytes := totalFlops + Operations(s, interval), totalBytes + s.bytes;
        samples := samples + [s];
      }
    }
  }

  // The job as a whole: all operations per byte, and per second of usable interval.
  method Total(totalFlops: real, totalBytes: real, interval: real, n: nat, ghost samples: seq<Sample>)
    returns (total: Point)
    requires interval > 0.0 && n == |samples| > 0
    requires totalFlops == Sum(Work(samples, interval)) && totalBytes == Sum(Bytes(samples))
    ensures Sum(Bytes(samples)) > 0.0
    ensures total.intensity == Sum(Work(samples, interval)) / Sum(Bytes(samples))
    ensures total.performance == Sum(Performances(Points(samples, interval))) / n as real
  {
    SumPositive(Bytes(samples));
    var totalTime := interval * n as real;
    TotalTime(samples, interval, totalFlops, totalTime);
    total := Point(totalFlops / totalBytes, totalFlops / totalTime / GIGA);
  }

  // A missing interval is passed as 0.
  method GetStats(flops: seq<real>, bytes: seq<real>, interval: real) returns (stats: Stats)
    ensures interval <= 0.0 || AllUsable(flops, bytes) == [] ==> stats == NO_STATS
    ensures interval > 0.0 && AllUsable(flops, bytes) != [] ==> IsRoofline(stats, AllUsable(flops, bytes), interval)
  {
    ghost var samples := AllUsable(flops, bytes);
    if flops == [] || bytes == [] || interval <= 0.0 { return NO_STATS; }
    var points, totalFlops, totalBytes := Collect(flops, bytes, interval);
    if points == [] { return NO_STATS; }
    var at := ArgMax(points);
    var mid := ArgNearest(Performances(points), Median(Performances(points)));
    var x := Mean(Intensities(points));
    var y := Mean(Performances(points));
    var total := Total(totalFlops, totalBytes, interval, |points|, samples);
    AverageBelow(Performances(points), points[at].performance);
    stats := Stats(points[at], points[mid], Point(x, y), total);
  }

  ghost predicate IsPeak(points: seq<Point>, peak: Point) {
    exists at: nat :: IsFirstBest(points, at) && peak == points[at]
  }

  ghost predicate IsMedianPoint(points: seq<Point>, median: Point)
    requires points != []
  {
    exists at: nat :: IsNearest(Performances(points), Median(Performances(points)), at) && median == points[at]
  }

  // What the statistics are: the peak is the first best point, the median the first point nearest
  // to the median rate; total performance equals the average performance and is bounded by the
  // peak; total intensity is operations per byte overall.
  ghost predicate IsRoofline(stats: Stats, samples: seq<Sample>, interval: real)
    requires samples != []
  {
    var points := Points(samples, interval);
    && IsPeak(points, stats.peak) && IsMedianPoint(points, stats.median)
    && stats.average.intensity == Sum(Intensities(points)) / |points| as real
    && stats.average.performance == Sum(Performances(points)) / |points| as real
    && Sum(Bytes(samples)) > 0.0
    && stats.total.intensity == Sum(Work(samples, interval)) / Sum(Bytes(samples))
    && stats.total.performance == stats.average.performance <= stats.peak.performance
  }

  // ----- what the numbers mean -----

  lemma {:induction false} InsertKeepsOrder(xs: seq<real>, x: real)
    requires Ordered(xs)
    ensures Ordered(Insert(xs, x))
    ensures forall k :: 0 <= k <= |xs| ==> Insert(xs, x)[k] == x || Insert(xs, x)[k] in xs
  {
    if xs != [] && xs[|xs| - 1] > x {
      var front, last := xs[..|xs| - 1], xs[|xs| - 1];
      InsertKeepsOrder(front, x);
      forall k | 0 <= k < |xs| ensures Insert(front, x)[k] <= last {
        if Insert(front, x)[k] != x {
          var i :| 0 <= i < |front| && front[i] == Insert(front, x)[k];
        }
      }
    }
  }

  lemma {:induction false} SortOrders(xs: seq<real>)
    ensures Ordered(Sort(xs))
  {
    if xs != [] {
      SortOrders(xs[..|xs| - 1]);
      InsertKeepsOrder(Sort(xs[..|xs| - 1]), xs[|xs| - 1]);
    }
  }

  lemma SameMembers(xs: seq<real>, ys: seq<real>, x: real)
    requires multiset(xs) == multiset(ys)
    ensures x in xs <==> x in ys
  {
    assert x in multiset(xs) <==> x in multiset(ys);
  }

  // The rate of the median point is off the median by half the gap between the middle two values,
  // so it is the median itself for an odd number of points.
  lemma MedianPointIsNear(points: seq<Point>, median: Point)
    requires points != [] && IsMedianPoint(points, median)
    ensures var ys := Performances(points);
      Distance(median.performance, Median(ys)) == (Upper(ys) - Lower(ys)) / 2.0
      && (|ys| % 2 == 1 ==> median.performance == Median(ys))
  {
    var ys := Performances(points);
    var at: nat :| IsNearest(ys, Median(ys), at) && median == points[at];
    NearestIsHalfTheGap(ys, at);
    OddHasNoGap(ys);
  }

  lemma OddHasNoGap(ys: seq<real>)
    requires ys != []
    ensures |ys| % 2 == 1 ==> Upper(ys) == Lower(ys)
  {
    if |ys| % 2 == 1 { assert (|ys| - 1) / 2 == |ys| / 2; }
  }

  lemma NearestIsHalfTheGap(ys: seq<real>, at: nat)
    requires ys != [] && IsNearest(ys, Median(ys), at)
    ensures Distance(ys[at], Median(ys)) == (Upper(ys) - Lower(ys)) / 2.0
  {
    var k := LowerIsAttained(ys);
    NotNearer(ys, at);
    assert Distance(ys[at], Median(ys)) <= Distance(ys[k], Median(ys));
  }

  lemma LowerIsAttained(ys: seq<real>) returns (k: nat)
    requires ys != []
    ensures k < |ys| && ys[k] == Lower(ys) && Distance(ys[k], Median(ys)) == (Upper(ys) - Lower(ys)) / 2.0
  {
    SortOrders(ys);
    SameMembers(Sort(ys), ys, Lower(ys));
    assert Lower(ys) in Sort(ys);
    k :| 0 <= k < |ys| && ys[k] == Lower(ys);
    LowerBelowUpper(Sort(ys), (|ys| - 1) / 2, |ys| / 2);
  }

  lemma LowerBelowUpper(s: seq<real>, i: nat, j: nat)
    requires Ordered(s) && i <= j < |s|
    ensures s[i] <= s[j]
  {
  }

  // No value lies strictly between the middle two.
  lemma NotNearer(ys: seq<real>, i: nat)
    requires i < |ys|
    ensures ys[i] <= Lower(ys) || Upper(ys) <= ys[i]
    ensures Distance(ys[i], Median(ys)) >= (Upper(ys) - Lower(ys)) / 2.0
  {
    var s := Sort(ys);
    SortOrders(ys);
    SameMembers(s, ys, ys[i]);
    assert ys[i] in ys;
    var j :| 0 <= j < |s| && s[j] == ys[i];
    if j <= (|ys| - 1) / 2 { LowerBelowUpper(s, j, (|ys| - 1) / 2); } else { LowerBelowUpper(s, |ys| / 2, j); }
  }

  // How many values are at most, and how many at least y.
  function AtMost(xs: seq<real>, y: real): nat {
    if xs == [] then 0 else AtMost(xs[..|xs| - 1], y) + if xs[|xs| - 1] <= y then 1 else 0
  }

  function AtLeast(xs: seq<real>, y: real): nat {
    if xs == [] then 0 else AtLeast(xs[..|xs| - 1], y) + if xs[|xs| - 1] >= y then 1 else 0
  }

  lemma CountSnoc(xs: seq<real>, x: real, y: real)
    ensures AtMost(xs + [x], y) == AtMost(xs, y) + if x <= y then 1 else 0
    ensures AtLeast(xs + [x], y) == AtLeast(xs, y) + if x >= y then 1 else 0
  {
    assert (xs + [x])[..|xs|] == xs;
  }

  lemma {:induction false} InsertCounts(xs: seq<real>, x: real, y: real)
    ensures AtMost(Insert(xs, x), y) == AtMost(xs, y) + if x <= y then 1 else 0
    ensures AtLeast(Insert(xs, x), y) == AtLeast(xs, y) + if x >= y then 1 else 0
  {
    CountSnoc(xs, x, y);
    if xs != [] && xs[|xs| - 1] > x {
      var front, last := xs[..|xs| - 1], xs[|xs| - 1];
      InsertCounts(front, x, y);
      CountSnoc(Insert(front, x), last, y);
    }
  }

  lemma {:induction false} SortCounts(xs: seq<real>, y: real)
    ensures AtMost(Sort(xs), y) == AtMost(xs, y) && AtLeast(Sort(xs), y) == AtLeast(xs, y)
  {
    if xs != [] {
      SortCounts(xs[..|xs| - 1], y);
      InsertCounts(Sort(xs[..|xs| - 1]), xs[|xs| - 1], y);
    }
  }

  lemma {:induction false} OrderedCounts(s: seq<real>, k: nat, y: real)
    requires Ordered(s) && k < |s|
    ensures s[k] <= y ==> AtMost(s, y) >= k + 1
    ensures s[k] >= y ==> AtLeast(s, y) >= |s| - k
  {
    var front := s[..|s| - 1];
    if k < |front| {
      OrderedCounts(front, k, y);
    } else if front != [] {
      OrderedCounts(front, k - 1, y);
    }
  }

  // At least half of the values are at most the lower and at least half are at least the upper one
  // of the middle two.
  lemma MedianSplitsValues(ys: seq<real>)
    requires ys != []
    ensures 2 * AtMost(ys, Lower(ys)) >= |ys| && 2 * AtLeast(ys, Upper(ys)) >= |ys|
    ensures Lower(ys) <= Median(ys) <= Upper(ys)
  {
    SortOrders(ys);
    SortCounts(ys, Lower(ys));
    SortCounts(ys, Upper(ys));
    OrderedCounts(Sort(ys), (|ys| - 1) / 2, Lower(ys));
    OrderedCounts(Sort(ys), |ys| / 2, Upper(ys));
    LowerBelowUpper(Sort(ys), (|ys| - 1) / 2, |ys| / 2);
  }

  lemma StatsIntensityBetweenPoints(stats: Stats, samples: seq<Sample>, interval: real, lo: real, hi: real)
    requires samples != [] && IsRoofline(stats, samples, interval)
    requires forall p :: p in Points(samples, interval) ==> lo <= p.intensity <= hi
    ensures lo <= stats.total.intensity <= hi
  {
    TotalIntensityBetweenPoints(samples, interval, lo, hi);
  }

  // The total operational intensity lies between the smallest and the largest point.
  lemma TotalIntensityBetweenPoints(samples: seq<Sample>, interval: real, lo: real, hi: real)
    requires samples != []
    requires forall p :: p in Points(samples, interval) ==> lo <= p.intensity <= hi
    ensures Sum(Bytes(samples)) > 0.0
    ensures lo <= Sum(Work(samples, interval)) / Sum(Bytes(samples)) <= hi
  {
    var ws, bs := Work(samples, interval), Bytes(samples);
    forall i | 0 <= i < |bs| ensures Within(ws[i], bs[i], lo, hi) {
      TermWithin(samples, interval, lo, hi, i);
    }
    SumPositive(bs);
    SumWithin(ws, bs, lo, hi);
    QuotientWithin(Sum(ws), Sum(bs), lo, hi);
  }

  lemma TermWithin(samples: seq<Sample>, interval: real, lo: real, hi: real, i: nat)
    requires i < |samples|
    requires forall p :: p in Points(samples, interval) ==> lo <= p.intensity <= hi
    ensures Within(Work(samples, interval)[i], Bytes(samples)[i], lo, hi)
  {
    assert Points(samples, interval)[i] in Points(samples, interval);
    OneSampleWithin(samples[i], interval, lo, hi);
  }

  // Work over total time is the mean of the rates.
  lemma TotalTime(samples: seq<Sample>, interval: real, work: real, time: real)
    requires interval > 0.0 && samples != []
    requires work == Sum(Work(samples, interval)) && time == interval * |samples| as real
    ensures time > 0.0
    ensures work / time / GIGA == Sum(Performances(Points(samples, interval))) / |samples| as real
  {
    WorkIsScaledPerformance(samples, interval);
    CancelFactor(Sum(Performances(Points(samples, interval))), work, interval, |samples| as real, time);
  }

  lemma WorkIsScaledPerformance(samples: seq<Sample>, interval: real)
    ensures Sum(Work(samples, interval)) == Sum(Performances(Points(samples, interval))) * (GIGA * interval)
  {
    var ys, ws := Performances(Points(samples, interval)), Work(samples, interval);
    forall i | 0 <= i < |ys| ensures ws[i] == ys[i] * (GIGA * interval) {
      OneTermScaled(samples, interval, i);
    }
    SumScaled(ys, ws, GIGA * interval);
  }

  lemma OneTermScaled(samples: seq<Sample>, interval: real, i: nat)
    requires i < |samples|
    ensures Work(samples, interval)[i] == Performances(Points(samples, interval))[i] * (GIGA * interval)
  {
    var y := samples[i].flops / GIGA;
    assert Performances(Points(samples, interval))[i] == y;
    Regroup(y, interval);
  }

  lemma AddSample(before: seq<Sample>, s: Sample, interval: real)
    ensures Points(before + [s], interval) == Points(before, interval) + [PointOf(s, interval)]
    ensures Sum(Work(before + [s], interval)) == Sum(Work(before, interval)) + Operations(s, interval)
    ensures Sum(Bytes(before + [s])) == Sum(Bytes(before)) + s.bytes
  {
    var n := |before|;
    assert Work(before + [s], interval)[..n] == Work(before, interval);
    assert Bytes(before + [s])[..n] == Bytes(before);
  }

  // ----- sums -----

  lemma {:induction false} SumPositive(xs: seq<real>)
    requires xs != [] && forall i :: 0 <= i < |xs| ==> xs[i] > 0.0
    ensures Sum(xs) > 0.0
  {
    if |xs| > 1 { SumPositive(xs[..|xs| - 1]); } else { assert xs[..0] == []; }
  }

  predicate Within(w: real, b: real, lo: real, hi: real) { lo * b <= w <= hi * b }

  // Bounds on every term's share of its weight carry over to the sums.
  lemma {:induction false} SumWithin(ws: seq<real>, bs: seq<real>, lo: real, hi: real)
    requires |ws| == |bs| && forall i :: 0 <= i < |bs| ==> Within(ws[i], bs[i], lo, hi)
    ensures Within(Sum(ws), Sum(bs), lo, hi)
  {
    if bs != [] {
      var n := |bs| - 1;
      SumWithin(ws[..n], bs[..n], lo, hi);
      AddWithin(Sum(ws[..n]), Sum(bs[..n]), ws[n], bs[n], lo, hi);
    }
  }

  lemma AddWithin(w: real, b: real, w1: real, b1: real, lo: real, hi: real)
    requires Within(w, b, lo, hi) && Within(w1, b1, lo, hi)
    ensures Within(w + w1, b + b1, lo, hi)
  {
    Distribute(lo, b, b1);
    Distribute(hi, b, b1);
  }

  lemma {:induction false} SumScaled(xs: seq<real>, ys: seq<real>, c: real)
    requires |xs| == |ys| && forall i :: 0 <= i < |xs| ==> ys[i] == xs[i] * c
    ensures Sum(ys) == Sum(xs) * c
  {
    if xs != [] {
      var n := |xs| - 1;
      SumScaled(xs[..n], ys[..n], c);
      Distribute(c, Sum(xs[..n]), xs[n]);
    }
  }

  lemma {:induction false} SumBelow(xs: seq<real>, peak: real)
    requires forall i :: 0 <= i < |xs| ==> xs[i] <= peak
    ensures Sum(xs) <= peak * |xs| as real
  {
    if xs != [] {
      SumBelow(xs[..|xs| - 1], peak);
      Distribute(peak, (|xs| - 1) as real, 1.0);
    }
  }

  lemma AverageBelow(xs: seq<real>, peak: real)
    requires xs != [] && forall i :: 0 <= i < |xs| ==> xs[i] <= peak
    ensures Sum(xs) / |xs| as real <= peak
  {
    SumBelow(xs, peak);
    var n, y := |xs| as real, Sum(xs);
    assert y / n * n == y;
    Order(y / n, peak, n);
  }

  // ----- products and quotients of reals -----

  lemma OneSampleWithin(s: Sample, interval: real, lo: real, hi: real)
    requires lo <= PointOf(s, interval).intensity <= hi
    ensures Within(Operations(s, interval), s.bytes, lo, hi)
  {
    ScaleBounds(lo, PointOf(s, interval).intensity, hi, s.bytes);
  }

  lemma ScaleBounds(lo: real, x: real, hi: real, b: real)
    requires lo <= x <= hi && b > 0.0
    ensures lo * b <= x * b <= hi * b
  {
  }

  lemma Distribute(x: real, a: real, b: real)
    ensures x * (a + b) == x * a + x * b
  {
  }

  lemma Positive(x: real, y: real)
    requires x > 0.0 && y > 0.0
    ensures x * y > 0.0
  {
  }

  lemma Regroup(q: real, i: real)
    ensures (q * GIGA) * i == q * (GIGA * i)
  {
  }

  lemma CancelFactor(y: real, work: real, i: real, n: real, time: real)
    requires i > 0.0 && n > 0.0 && time == i * n && work == y * (GIGA * i)
    ensures time > 0.0 && work / time / GIGA == y / n
  {
    Positive(i, n);
    var q := y / n;
    assert work == (q * GIGA) * time by { assert y == q * n; RegroupAll(q, n, i); }
    Quotient(work, q * GIGA, time);
  }

  lemma RegroupAll(q: real, n: real, i: real)
    ensures (q * n) * (GIGA * i) == (q * GIGA) * (i * n)
  {
    assert (q * n) * i == q * (i * n);
  }

  lemma Quotient(w: real, q: real, d: real)
    requires d > 0.0 && w == q * d
    ensures w / d == q
  {
  }

  lemma QuotientWithin(w: real, d: real, lo: real, hi: real)
    requires d > 0.0 && Within(w, d, lo, hi)
    ensures lo <= w / d <= hi
  {
    var q := w / d;
    assert q * d == w;
    Order(lo, q, d);
    Order(q, hi, d);
  }

  lemma Order(x: real, y: real, d: real)
    requires d > 0.0 && x * d <= y * d
    ensures x <= y
  {
    var z := y - x;
    assert z * d >= 0.0;
  }
}
