// What the aggregation promises: floor-divided buckets, conservation, order independence, ordered statistics.
module MetricLaws {
  import opened Common
  import opened Sorting
  import opened Percentiles
  import opened Metrics
  import opened MetricSweep

  // ---------------------------------------------------------------- buckets by floor division

  // The values of the samples whose second, floor-divided by the resolution, is `k`.
  function InBucket(ms: seq<Sample>, resolution: int, k: int): seq<real>
    requires resolution > 0
  {
    if ms == [] then []
    else
      var rest, s := InBucket(ms[..|ms| - 1], resolution, k), ms[|ms| - 1];
      if s.at.second / resolution == k then rest + [s.value] else rest
  }

  lemma FloorIs(second: int, resolution: int, k: int)
    requires resolution > 0
    ensures second / resolution == k <==> k * resolution <= second < k * resolution + resolution
  {
    var d := second / resolution;
    assert second == resolution * d + second % resolution;
    if d < k {
      MultiplesApart(d, k, resolution);
    } else if k < d {
      MultiplesApart(k, d, resolution);
    }
  }

  lemma MultiplesApart(a: int, b: int, resolution: int)
    requires a < b && resolution > 0
    ensures a * resolution + resolution <= b * resolution
  {
    NotNegative(b - a - 1, resolution);
    assert (b - a - 1) * resolution == b * resolution - a * resolution - resolution;
  }

  lemma {:induction false} NotNegative(n: nat, resolution: int)
    requires resolution > 0
    ensures n * resolution >= 0
  {
    if n > 0 {
      NotNegative(n - 1, resolution);
      assert n * resolution == (n - 1) * resolution + resolution;
    }
  }

  lemma {:induction false} CollectIsFloor(ms: seq<Sample>, resolution: int, k: int)
    requires resolution > 0
    ensures Collect(ms, k * resolution, k * resolution + resolution) == InBucket(ms, resolution, k)
  {
    if ms != [] {
      CollectIsFloor(ms[..|ms| - 1], resolution, k);
      FloorIs(ms[|ms| - 1].at.second, resolution, k);
    }
  }

  lemma {:induction false} BucketAt(point: int -> Point, resolution: int, k: int, last: int, i: nat)
    requires resolution > 0 && i < |Buckets(point, resolution, k * resolution, last)|
    ensures Buckets(point, resolution, k * resolution, last)[i] == point((k + i) * resolution)
    decreases i
  {
    if i > 0 {
      assert (k + 1) * resolution == k * resolution + resolution;
      BucketAt(point, resolution, k + 1, last, i - 1);
      assert k + 1 + (i - 1) == k + i;
    }
  }

  lemma PointAt(ms: seq<Sample>, q: Query, k: int, last: int, i: nat, point: int -> Point)
    requires q.resolution > 0 && i < |Points(ms, q, k * q.resolution, last)| && point == (e => BucketPoint(ms, q, e))
    ensures Points(ms, q, k * q.resolution, last)[i] == point((k + i) * q.resolution)
  {
    BucketAt(point, q.resolution, k, last, i);
  }

  lemma FloorPoint(ms: seq<Sample>, q: Query, k: int)
    requires q.resolution > 0
    ensures BucketPoint(ms, q, k * q.resolution) == PointOf(Sort(InBucket(ms, q.resolution, k), Le), k * q.resolution, q)
  {
    CollectIsFloor(ms, q.resolution, k);
    PointIs(Sort(InBucket(ms, q.resolution, k), Le), ms, q, k * q.resolution);
  }

  // What a point says of the values of its bucket.
  ghost predicate Describes(p: Point, values: seq<real>, epoch: int, q: Query) {
    && p.epoch == epoch && p.count == |values| && p.sum == Sum(values)
    && (p.partial <==> q.now.second < epoch + q.resolution)
    && (values == [] ==> p.value == 0.0 && p.spread == Spread(0.0, 0.0, 0.0, None, None, None))
    && (values != [] ==> NamedRight(values, p.spread))
  }

  /** Point `i` of a series is the point of bucket first + i, begins at that many resolutions, and describes exactly
      the matching samples whose second, floor-divided by the resolution, is that number: their count, sum and
      statistics, and whether the bucket has ended. */
  lemma PointsAreFloorBuckets(samples: seq<Sample>, q: Query, points: seq<Point>, i: nat)
    requires q.resolution > 0 && points == SeriesOf(samples, q).points && i < |points|
    ensures var k := TruncDiv(q.start.second, q.resolution) + i;
            Describes(points[i], InBucket(Matching(samples, q), q.resolution, k), k * q.resolution, q)
  {
    SeriesPoints(samples, q, points);
    FloorBucketOf(Matching(samples, q), q, TruncDiv(q.start.second, q.resolution), Align(q.end, q.resolution), points, i);
  }

  lemma SeriesPoints(samples: seq<Sample>, q: Query, points: seq<Point>)
    requires q.resolution > 0 && points == SeriesOf(samples, q).points
    ensures points == Points(Matching(samples, q), q, TruncDiv(q.start.second, q.resolution) * q.resolution, Align(q.end, q.resolution))
  {
  }

  lemma FloorBucketOf(ms: seq<Sample>, q: Query, first: int, last: int, points: seq<Point>, i: nat)
    requires q.resolution > 0 && points == Points(ms, q, first * q.resolution, last) && i < |points|
    ensures Describes(points[i], InBucket(ms, q.resolution, first + i), (first + i) * q.resolution, q)
  {
    FloorBucket(ms, q, first, last, i);
  }

  lemma FloorBucket(ms: seq<Sample>, q: Query, first: int, last: int, i: nat)
    requires q.resolution > 0 && i < |Points(ms, q, first * q.resolution, last)|
    ensures Describes(Points(ms, q, first * q.resolution, last)[i], InBucket(ms, q.resolution, first + i), (first + i) * q.resolution, q)
  {
    PointAt(ms, q, first, last, i, e => BucketPoint(ms, q, e));
    BucketDescribes(ms, q, first + i, (first + i) * q.resolution);
  }

  lemma BucketDescribes(ms: seq<Sample>, q: Query, k: int, epoch: int)
    requires q.resolution > 0 && epoch == k * q.resolution
    ensures Describes(BucketPoint(ms, q, epoch), InBucket(ms, q.resolution, k), epoch, q)
  {
    FloorPoint(ms, q, k);
    PointDescribes(InBucket(ms, q.resolution, k), epoch, q);
  }

  lemma PointDescribes(values: seq<real>, epoch: int, q: Query)
    ensures Describes(PointOf(Sort(values, Le), epoch, q), values, epoch, q)
  {
    SumOfSort(values);
    if values != [] {
      StatisticsAreNamedRight(values);
    }
  }

  lemma {:induction false} BucketsAreMany(point: int -> Point, resolution: int, epoch: int, last: int, n: nat)
    requires resolution > 0 && last == epoch + n * resolution
    ensures |Buckets(point, resolution, epoch, last)| == n + 1
    decreases n
  {
    if n > 0 {
      Peel(n, resolution);
      BucketsAreMany(point, resolution, epoch + resolution, last, n - 1);
    } else {
      assert Buckets(point, resolution, epoch + resolution, last) == [];
    }
  }

  /** There is one point for each bucket from that of the start to that of the end, counting empty ones. */
  lemma OnePointPerBucket(samples: seq<Sample>, q: Query)
    requires q.resolution > 0
    ensures var first, last := TruncDiv(q.start.second, q.resolution), TruncDiv(q.end.second, q.resolution);
            |SeriesOf(samples, q).points| == if first <= last then last - first + 1 else 0
  {
    var ms := Matching(samples, q);
    var first, last := TruncDiv(q.start.second, q.resolution), TruncDiv(q.end.second, q.resolution);
    if first <= last {
      Apart(first, last, q.resolution);
      BucketsAreMany(e => BucketPoint(ms, q, e), q.resolution, first * q.resolution, last * q.resolution, last - first);
    } else {
      MultiplesApart(last, first, q.resolution);
    }
  }

  // ---------------------------------------------------------------- which samples count

  /** A sample counts exactly when it is of the metric asked for, of the environment if one is asked for, and was
      recorded in the closed window; and it counts as often as it occurs. */
  lemma MatchingIs(samples: seq<Sample>, q: Query, x: Sample)
    ensures multiset(Matching(samples, q))[x] ==
      if x.metric == q.metric && (q.environment == None || q.environment == Some(x.environment))
         && (q.start.second < x.at.second || (q.start.second == x.at.second && q.start.nanos <= x.at.nanos))
         && (x.at.second < q.end.second || (x.at.second == q.end.second && x.at.nanos <= q.end.nanos))
      then multiset(samples)[x] else 0
  {
    MatchingCount(samples, q, x);
  }

  // ---------------------------------------------------------------- order independence

  lemma {:induction false} MatchingCount(samples: seq<Sample>, q: Query, x: Sample)
    ensures multiset(Matching(samples, q))[x] == if Matches(x, q) then multiset(samples)[x] else 0
  {
    if samples != [] {
      MatchingCount(samples[1..], q, x);
      assert samples == [samples[0]] + samples[1..];
    }
  }

  lemma MatchingPermutes(xs: seq<Sample>, ys: seq<Sample>, q: Query)
    requires multiset(xs) == multiset(ys)
    ensures multiset(Matching(xs, q)) == multiset(Matching(ys, q))
  {
    forall x: Sample
      ensures multiset(Matching(xs, q))[x] == multiset(Matching(ys, q))[x]
    {
      MatchingCount(xs, q, x);
      MatchingCount(ys, q, x);
    }
  }

  lemma {:induction false} BucketsAgree(f: int -> Point, g: int -> Point, resolution: int, epoch: int, last: int)
    requires resolution > 0 && forall e :: f(e) == g(e)
    ensures Buckets(f, resolution, epoch, last) == Buckets(g, resolution, epoch, last)
    decreases last - epoch + resolution
  {
    if epoch <= last {
      BucketsAgree(f, g, resolution, epoch + resolution, last);
    }
  }

  lemma PointsPermute(xs: seq<Sample>, ys: seq<Sample>, q: Query, epoch: int, last: int)
    requires q.resolution > 0 && SameSamples(xs, ys)
    ensures Points(xs, q, epoch, last) == Points(ys, q, epoch, last)
  {
    var f, g := e => BucketPoint(xs, q, e), e => BucketPoint(ys, q, e);
    forall e
      ensures f(e) == g(e)
    {
      BucketIs(xs, ys, e, e + q.resolution);
    }
    BucketsAgree(f, g, q.resolution, epoch, last);
  }

  /** The series does not depend on the order of the samples. */
  lemma SeriesIgnoresOrder(xs: seq<Sample>, ys: seq<Sample>, q: Query)
    requires q.resolution > 0 && multiset(xs) == multiset(ys)
    ensures SeriesOf(xs, q) == SeriesOf(ys, q)
  {
    MatchingPermutes(xs, ys, q);
    var start, last := Align(q.start, q.resolution), Align(q.end, q.resolution);
    PointsPermute(Matching(xs, q), Matching(ys, q), q, start, last);
    BucketIs(Matching(xs, q), Matching(ys, q), start, Horizon(q.resolution, start, last));
  }

  // ---------------------------------------------------------------- conservation

  function Counts(points: seq<Point>): nat { if points == [] then 0 else points[0].count + Counts(points[1..]) }

  function Sums(points: seq<Point>): real { if points == [] then 0.0 else points[0].sum + Sums(points[1..]) }

  lemma {:induction false} SumSplit(v: seq<real>, w: seq<real>)
    ensures Sum(v + w) == Sum(v) + Sum(w)
  {
    if v == [] {
      assert v + w == w;
    } else {
      assert (v + w)[1..] == v[1..] + w;
      SumSplit(v[1..], w);
    }
  }

  lemma {:induction false} SumOfInsert(x: real, v: seq<real>)
    ensures Sum(Insert(x, v, Le)) == x + Sum(v) && |Insert(x, v, Le)| == 1 + |v|
  {
    if v == [] || Le(x, v[0]) {
      assert ([x] + v)[1..] == v;
    } else {
      SumOfInsert(x, v[1..]);
      assert ([v[0]] + Insert(x, v[1..], Le))[1..] == Insert(x, v[1..], Le);
    }
  }

  lemma {:induction false} SumOfSort(v: seq<real>)
    ensures Sum(Sort(v, Le)) == Sum(v) && |Sort(v, Le)| == |v|
  {
    if v != [] {
      SumOfSort(v[1..]);
      SumOfInsert(v[0], Sort(v[1..], Le));
    }
  }

  lemma SumOfLast(ms: seq<Sample>, s: Sample, lo: int, hi: int)
    ensures Sum(Collect(ms + [s], lo, hi)) == Sum(Collect(ms, lo, hi)) + if Within(s, lo, hi) then s.value else 0.0
    ensures |Collect(ms + [s], lo, hi)| == |Collect(ms, lo, hi)| + if Within(s, lo, hi) then 1 else 0
  {
    CollectSplit(ms, [s], lo, hi);
    CollectOne(s, lo, hi);
    SumSplit(Collect(ms, lo, hi), Collect([s], lo, hi));
    assert [s.value][1..] == [];
  }

  // Adjacent intervals add up.
  lemma {:induction false} CollectAdds(ms: seq<Sample>, lo: int, mid: int, hi: int)
    requires lo <= mid <= hi
    ensures |Collect(ms, lo, hi)| == |Collect(ms, lo, mid)| + |Collect(ms, mid, hi)|
    ensures Sum(Collect(ms, lo, hi)) == Sum(Collect(ms, lo, mid)) + Sum(Collect(ms, mid, hi))
  {
    if ms != [] {
      var rest, s := ms[..|ms| - 1], ms[|ms| - 1];
      CollectAdds(rest, lo, mid, hi);
      SumOfLast(rest, s, lo, hi);
      SumOfLast(rest, s, lo, mid);
      SumOfLast(rest, s, mid, hi);
      assert ms == rest + [s];
    }
  }

  lemma {:induction false} HorizonIsLater(resolution: int, epoch: int, last: int)
    requires resolution > 0
    ensures Horizon(resolution, epoch, last) >= epoch && Horizon(resolution, epoch, last) > last
    decreases last - epoch + resolution
  {
    if epoch <= last {
      HorizonIsLater(resolution, epoch + resolution, last);
    }
  }

  // Each point counts and sums the samples of its bucket.
  ghost predicate Tallies(point: int -> Point, ms: seq<Sample>, resolution: int) {
    forall e :: point(e).count == |Collect(ms, e, e + resolution)| && point(e).sum == Sum(Collect(ms, e, e + resolution))
  }

  lemma {:induction false} BucketsAddUp(point: int -> Point, ms: seq<Sample>, resolution: int, epoch: int, last: int)
    requires resolution > 0 && Tallies(point, ms, resolution)
    ensures Counts(Buckets(point, resolution, epoch, last)) == |Collect(ms, epoch, Horizon(resolution, epoch, last))|
    ensures Sums(Buckets(point, resolution, epoch, last)) == Sum(Collect(ms, epoch, Horizon(resolution, epoch, last)))
    decreases last - epoch + resolution
  {
    if epoch > last {
      CollectNothing(ms, epoch, epoch);
    } else {
      var next := epoch + resolution;
      BucketsAddUp(point, ms, resolution, next, last);
      HorizonIsLater(resolution, next, last);
      CollectAdds(ms, epoch, next, Horizon(resolution, epoch, last));
      assert Buckets(point, resolution, epoch, last)[1..] == Buckets(point, resolution, next, last);
    }
  }

  lemma PointsTally(ms: seq<Sample>, q: Query)
    ensures Tallies(e => BucketPoint(ms, q, e), ms, q.resolution)
  {
    var point := e => BucketPoint(ms, q, e);
    forall e
      ensures point(e).count == |Collect(ms, e, e + q.resolution)| && point(e).sum == Sum(Collect(ms, e, e + q.resolution))
    {
      BucketTallies(ms, q, e);
    }
  }

  lemma BucketTallies(ms: seq<Sample>, q: Query, e: int)
    ensures BucketPoint(ms, q, e).count == |Collect(ms, e, e + q.resolution)|
    ensures BucketPoint(ms, q, e).sum == Sum(Collect(ms, e, e + q.resolution))
  {
    SumOfSort(Collect(ms, e, e + q.resolution));
  }

  /** Counts and sums of the points add up to the count and the sum behind the summary; in particular the
      summary's average times its count is the sum of the points' sums. */
  lemma CountsAndSumsAddUp(samples: seq<Sample>, q: Query)
    requires q.resolution > 0
    ensures var s := SeriesOf(samples, q);
            && Counts(s.points) == s.summary.count
            && (s.hasData <==> s.summary.count > 0)
            && (s.hasData ==> s.summary.spread.avg == Sums(s.points) / s.summary.count as real)
            && (s.hasData && q.metric in COUNTERS ==> s.summary.total == Sums(s.points))
            && (s.hasData && q.metric !in COUNTERS ==> s.summary.total == s.summary.spread.avg)
            && (!s.hasData ==> s.summary.total == 0.0 && Sums(s.points) == 0.0)
  {
    var ms := Matching(samples, q);
    var start, last := Align(q.start, q.resolution), Align(q.end, q.resolution);
    PointsTally(ms, q);
    BucketsAddUp(e => BucketPoint(ms, q, e), ms, q.resolution, start, last);
    SumOfSort(Collect(ms, start, Horizon(q.resolution, start, last)));
  }

  // ---------------------------------------------------------------- nothing is lost, and exactly when

  // Every matching sample is counted, whatever the samples are.
  ghost predicate KeepsAll(q: Query)
    requires q.resolution > 0
  {
    forall samples: seq<Sample> :: SeriesOf(samples, q).summary.count == |Matching(samples, q)|
  }

  // The start of the window is on or after the epoch, or on a bucket boundary; or the window is empty.
  predicate StartsOnGrid(q: Query)
    requires q.resolution > 0
  {
    !NotAfter(q.start, q.end) || q.start.second >= 0 || q.start.second % q.resolution == 0
  }

  lemma {:induction false} MatchingIsMatched(samples: seq<Sample>, q: Query)
    ensures forall s :: s in Matching(samples, q) ==> Matches(s, q)
  {
    if samples != [] {
      MatchingIsMatched(samples[1..], q);
    }
  }

  lemma {:induction false} CollectAll(ms: seq<Sample>, lo: int, hi: int)
    requires forall s :: s in ms ==> Within(s, lo, hi)
    ensures |Collect(ms, lo, hi)| == |ms|
  {
    if ms != [] {
      CollectAll(ms[..|ms| - 1], lo, hi);
    }
  }

  // Truncation moves a second down to a multiple when it is not negative, up when it is.
  lemma AlignIs(second: int, resolution: int)
    requires resolution > 0
    ensures var a := TruncDiv(second, resolution) * resolution;
            && (second >= 0 ==> a <= second < a + resolution)
            && (second < 0 ==> second <= a < second + resolution)
            && (second < 0 ==> (a == second <==> second % resolution == 0))
  {
    if second >= 0 {
      assert second == second / resolution * resolution + second % resolution;
    } else {
      var n := -second;
      assert n == n / resolution * resolution + n % resolution;
      var d := second / resolution;
      assert second == d * resolution + second % resolution;
      if second % resolution == 0 {
        assert n == -d * resolution;
        MultipleIs(n, resolution, -d);
      }
      if n % resolution == 0 {
        assert second == -(n / resolution) * resolution;
        MultipleIs(second, resolution, -(n / resolution));
      }
    }
  }

  lemma MultipleIs(a: int, resolution: int, k: int)
    requires resolution > 0 && a == k * resolution
    ensures a % resolution == 0 && a / resolution == k
  {
    FloorIs(a, resolution, k);
    assert a == a / resolution * resolution + a % resolution;
  }

  lemma WindowIsOpen(s: Sample, q: Query)
    requires Matches(s, q)
    ensures NotAfter(q.start, q.end)
  {
  }

  lemma GridKeepsAll(samples: seq<Sample>, q: Query)
    requires q.resolution > 0 && StartsOnGrid(q)
    ensures SeriesOf(samples, q).summary.count == |Matching(samples, q)|
  {
    var ms := Matching(samples, q);
    var start, last := Align(q.start, q.resolution), Align(q.end, q.resolution);
    var horizon := Horizon(q.resolution, start, last);
    SumOfSort(Collect(ms, start, horizon));
    MatchingIsMatched(samples, q);
    if NotAfter(q.start, q.end) {
      AlignIs(q.start.second, q.resolution);
      AlignIs(q.end.second, q.resolution);
      LastBucketCovers(q, start, last);
      CollectAll(ms, start, horizon);
    } else if ms != [] {
      WindowIsOpen(ms[0], q);
      assert false;
    }
  }

  // The last bucket reaches past the end of the window, whatever its sign.
  lemma LastBucketCovers(q: Query, start: int, last: int)
    requires q.resolution > 0 && NotAfter(q.start, q.end)
    requires start == Align(q.start, q.resolution) && last == Align(q.end, q.resolution)
    ensures q.end.second < Horizon(q.resolution, start, last)
  {
    AlignIs(q.end.second, q.resolution);
    HorizonIsLater(q.resolution, start, last);
    if q.end.second >= 0 {
      BucketsInOrder(q.start.second, q.end.second, q.resolution);
      GridCovers(q.end.second, q.resolution, TruncDiv(q.start.second, q.resolution), TruncDiv(q.end.second, q.resolution));
    }
  }

  lemma GridCovers(end: int, resolution: int, k: int, l: int)
    requires resolution > 0 && k <= l && end < l * resolution + resolution
    ensures end < Horizon(resolution, k * resolution, l * resolution)
  {
    Apart(k, l, resolution);
    HorizonOnGrid(resolution, k * resolution, l * resolution, l - k);
  }

  lemma BucketsInOrder(start: int, end: int, resolution: int)
    requires resolution > 0 && start <= end && end >= 0
    ensures TruncDiv(start, resolution) <= TruncDiv(end, resolution)
  {
    if start >= 0 {
      DivUp(start, end, resolution);
    }
  }

  lemma DivUp(a: int, b: int, resolution: int)
    requires 0 <= a <= b && resolution > 0
    ensures a / resolution <= b / resolution
  {
    var k, l := a / resolution, b / resolution;
    FloorIs(a, resolution, k);
    FloorIs(b, resolution, l);
    if l < k {
      MultiplesApart(l, k, resolution);
    }
  }

  lemma Apart(k: int, l: int, resolution: int)
    ensures l * resolution == k * resolution + (l - k) * resolution
  {
  }

  lemma {:induction false} HorizonOnGrid(resolution: int, epoch: int, last: int, n: nat)
    requires resolution > 0 && last == epoch + n * resolution
    ensures Horizon(resolution, epoch, last) == last + resolution
    decreases n
  {
    if n > 0 {
      Peel(n, resolution);
      HorizonOnGrid(resolution, epoch + resolution, last, n - 1);
    }
  }

  lemma Peel(n: nat, resolution: int)
    requires n > 0 && resolution > 0
    ensures n * resolution == resolution + (n - 1) * resolution && (n - 1) * resolution >= 0
  {
    NotNegative(n - 1, resolution);
  }

  // A window off the grid before the epoch drops a sample recorded at its very start.
  lemma OffGridLoses(q: Query)
    requires q.resolution > 0 && !StartsOnGrid(q)
    ensures !KeepsAll(q)
  {
    var s := Sample(q.metric, if q.environment.Some? then q.environment.value else "", 0.0, q.start);
    assert Matching([s], q) == [s] by { assert [s][1..] == []; }
    var start, last := Align(q.start, q.resolution), Align(q.end, q.resolution);
    AlignIs(q.start.second, q.resolution);
    CollectNothing([s], start, Horizon(q.resolution, start, last));
    assert SeriesOf([s], q).summary.count == 0;
  }

  /** Every matching sample lands in a point, for every list of samples, exactly when the window starts on or
      after the Unix epoch, or on a bucket boundary, or is empty. */
  lemma NothingLostIff(q: Query)
    requires q.resolution > 0
    ensures KeepsAll(q) <==> StartsOnGrid(q)
  {
    if StartsOnGrid(q) {
      forall samples: seq<Sample>
        ensures SeriesOf(samples, q).summary.count == |Matching(samples, q)|
      {
        GridKeepsAll(samples, q);
      }
    } else {
      OffGridLoses(q);
    }
  }

  // ---------------------------------------------------------------- ordered statistics

  predicate Ordered(s: Spread) {
    && s.p50.Some? && s.p95.Some? && s.p99.Some?
    && s.min <= s.p50.value <= s.p95.value <= s.p99.value <= s.max
    && s.min <= s.avg <= s.max
  }

  // The metrics that count events.
  const COUNTERS := {"build_cache_hit_total", "deployment_health_check_total", "request_total", "request_error_total"}

  // A counter leads with its sum, any other metric with its average.
  predicate Headed(p: Point, q: Query)
    requires p.count > 0
  {
    p.spread.avg == p.sum / p.count as real && p.value == if q.metric in COUNTERS then p.sum else p.spread.avg
  }

  lemma {:induction false} SumIsBetween(v: seq<real>, lo: real, hi: real)
    requires forall i :: 0 <= i < |v| ==> lo <= v[i] <= hi
    ensures lo * |v| as real <= Sum(v) <= hi * |v| as real
  {
    if v != [] {
      SumIsBetween(v[1..], lo, hi);
      var n := |v[1..]| as real;
      assert |v| as real == n + 1.0;
      assert lo * (n + 1.0) == lo * n + lo && hi * (n + 1.0) == hi * n + hi;
    }
  }

  lemma DivideBounds(lo: real, sum: real, hi: real, n: real)
    requires n > 0.0 && lo * n <= sum <= hi * n
    ensures lo <= sum / n <= hi
  {
    var avg := sum / n;
    assert avg * n == sum;
    assert avg < lo ==> (lo - avg) * n > 0.0;
    assert avg > hi ==> (avg - hi) * n > 0.0;
  }

  lemma AverageIsBetween(s: seq<real>)
    requires s != [] && Ascending(s)
    ensures s[0] <= Sum(s) / |s| as real <= s[|s| - 1]
  {
    SumIsBetween(s, s[0], s[|s| - 1]);
    DivideBounds(s[0], Sum(s), s[|s| - 1], |s| as real);
  }

  lemma AscendingIsOrdered(s: seq<real>)
    requires s != [] && Ascending(s)
    ensures Ordered(SpreadOf(s))
  {
    PercentileIsOrdered(s, 50.0, 95.0);
    PercentileIsOrdered(s, 95.0, 99.0);
    AverageIsBetween(s);
  }

  lemma SortAscends(v: seq<real>)
    ensures Ascending(Sort(v, Le)) && |Sort(v, Le)| == |v|
  {
    LeIsOrder();
    SortSorts(v, Le);
    var s := Sort(v, Le);
    assert forall i, j :: 0 <= i < j < |s| ==> Le(s[i], s[j]);
  }

  lemma SpreadIsOrdered(v: seq<real>)
    requires v != []
    ensures Ordered(SpreadOf(Sort(v, Le)))
  {
    SortAscends(v);
    AscendingIsOrdered(Sort(v, Le));
  }

  lemma {:induction false} BucketsAreMade(point: int -> Point, resolution: int, epoch: int, last: int, p: Point)
    requires resolution > 0 && p in Buckets(point, resolution, epoch, last)
    ensures exists e :: p == point(e)
    decreases last - epoch + resolution
  {
    if p != point(epoch) {
      BucketsAreMade(point, resolution, epoch + resolution, last, p);
    }
  }

  // The value the fraction of the way along the sorted values, by linear interpolation.
  ghost predicate OnTheLine(s: seq<real>, pct: real, p: Option<real>) {
    && p.Some?
    && (|s| == 1 ==> p.value == s[0])
    && (forall k: nat :: k + 1 < |s| && k as real <= pct / 100.0 * (|s| - 1) as real < k as real + 1.0 ==>
          p.value - s[k] == (pct / 100.0 * (|s| - 1) as real - k as real) * (s[k + 1] - s[k]))
  }

  lemma PercentileIsOnTheLine(s: seq<real>, pct: real)
    requires s != [] && 0.0 <= pct <= 100.0
    ensures OnTheLine(s, pct, Some(Percentile(s, pct)))
  {
    forall k: nat | k + 1 < |s| && k as real <= pct / 100.0 * (|s| - 1) as real < k as real + 1.0
      ensures Percentile(s, pct) - s[k] == (pct / 100.0 * (|s| - 1) as real - k as real) * (s[k + 1] - s[k])
    {
      PercentileInterpolates(s, pct, k);
    }
  }

  // The statistics of some values: extremes that bound them, their mean, and percentiles on the line.
  ghost predicate NamedRight(v: seq<real>, spread: Spread)
    requires v != []
  {
    && spread.min in v && spread.max in v
    && (forall x :: x in v ==> spread.min <= x <= spread.max)
    && spread.avg == Sum(v) / |v| as real
    && OnTheLine(Sort(v, Le), 50.0, spread.p50)
    && OnTheLine(Sort(v, Le), 95.0, spread.p95)
    && OnTheLine(Sort(v, Le), 99.0, spread.p99)
  }

  /** Each statistic is what its name says, of the values in any order. */
  lemma StatisticsAreNamedRight(v: seq<real>)
    requires v != []
    ensures NamedRight(v, SpreadOf(Sort(v, Le)))
  {
    var s := Sort(v, Le);
    EndsAreExtremes(v, s);
    SumOfSort(v);
    PercentileIsOnTheLine(s, 50.0);
    PercentileIsOnTheLine(s, 95.0);
    PercentileIsOnTheLine(s, 99.0);
  }

  lemma EndsAreExtremes(v: seq<real>, s: seq<real>)
    requires v != [] && s == Sort(v, Le)
    ensures |s| == |v| && s[0] in v && s[|s| - 1] in v && forall x :: x in v ==> s[0] <= x <= s[|s| - 1]
  {
    SortAscends(v);
    SortKeeps(v, Le);
    assert s[0] in multiset(s) && s[|s| - 1] in multiset(s);
    forall x | x in v
      ensures s[0] <= x <= s[|s| - 1]
    {
      assert x in multiset(s);
      var i :| 0 <= i < |s| && s[i] == x;
    }
  }

  /** The summary's statistics are those of all the values the points describe, and there are none without values. */
  lemma SummaryIsNamedRight(samples: seq<Sample>, q: Query)
    requires q.resolution > 0
    ensures var start, last := Align(q.start, q.resolution), Align(q.end, q.resolution);
            var values, summary := Collect(Matching(samples, q), start, Horizon(q.resolution, start, last)), SeriesOf(samples, q).summary;
            && summary.count == |values|
            && (values != [] ==> NamedRight(values, summary.spread))
            && (values == [] ==> summary == Summary(0.0, 0, Spread(0.0, 0.0, 0.0, None, None, None)))
  {
    var start, last := Align(q.start, q.resolution), Align(q.end, q.resolution);
    var values := Collect(Matching(samples, q), start, Horizon(q.resolution, start, last));
    SumOfSort(values);
    if values != [] {
      StatisticsAreNamedRight(values);
    }
  }

  lemma BucketIsOrdered(ms: seq<Sample>, q: Query, epoch: int)
    ensures BucketPoint(ms, q, epoch).count > 0 ==>
              Ordered(BucketPoint(ms, q, epoch).spread) && Headed(BucketPoint(ms, q, epoch), q)
  {
    PointIsOrdered(Collect(ms, epoch, epoch + q.resolution), epoch, q);
  }

  lemma PointIsOrdered(v: seq<real>, epoch: int, q: Query)
    ensures PointOf(Sort(v, Le), epoch, q).count > 0 ==>
              Ordered(PointOf(Sort(v, Le), epoch, q).spread) && Headed(PointOf(Sort(v, Le), epoch, q), q)
  {
    SumOfSort(v);
    if v != [] {
      SpreadIsOrdered(v);
      SortedIsHeaded(Sort(v, Le), epoch, q);
    }
  }

  lemma SortedIsHeaded(s: seq<real>, epoch: int, q: Query)
    requires s != []
    ensures Headed(PointOf(s, epoch, q), q)
  {
  }

  /** min <= p50 <= p95 <= p99 <= max, and the average lies between the extremes, for every point and for the
      summary; without values there are no percentiles. */
  lemma StatisticsAreOrdered(samples: seq<Sample>, q: Query)
    requires q.resolution > 0
    ensures forall p :: p in SeriesOf(samples, q).points && p.count > 0 ==> Ordered(p.spread) && Headed(p, q)
    ensures SeriesOf(samples, q).hasData ==> Ordered(SeriesOf(samples, q).summary.spread)
  {
    var ms := Matching(samples, q);
    var start, last := Align(q.start, q.resolution), Align(q.end, q.resolution);
    var point := e => BucketPoint(ms, q, e);
    forall p | p in SeriesOf(samples, q).points && p.count > 0
      ensures Ordered(p.spread) && Headed(p, q)
    {
      BucketsAreMade(point, q.resolution, start, last, p);
      var e :| p == point(e);
      BucketIsOrdered(ms, q, e);
    }
    var all := Collect(ms, start, Horizon(q.resolution, start, last));
    SumOfSort(all);
    if all != [] {
      SpreadIsOrdered(all);
    }
  }

  // ---------------------------------------------------------------- the partial flag

  lemma {:induction false} SomePartial(point: int -> Point, resolution: int, now: int, epoch: int, last: int)
    requires resolution > 0 && epoch <= last && forall e :: point(e).partial <==> now < e + resolution
    ensures var points := Buckets(point, resolution, epoch, last);
            && points != []
            && (AnyPartial(points) <==> points[|points| - 1].partial)
            && (points[|points| - 1].partial <==> now < Horizon(resolution, epoch, last))
    decreases last - epoch + resolution
  {
    var points, next := Buckets(point, resolution, epoch, last), epoch + resolution;
    var rest := Buckets(point, resolution, next, last);
    if next <= last {
      SomePartial(point, resolution, now, next, last);
      HorizonIsLater(resolution, next, last);
      assert forall i :: 0 < i < |points| ==> points[i] == rest[i - 1];
    }
  }

  /** A series is partial exactly when its last bucket is, that is, when that bucket has not ended yet. */
  lemma PartialIff(samples: seq<Sample>, q: Query)
    requires q.resolution > 0
    ensures var start, last := Align(q.start, q.resolution), Align(q.end, q.resolution);
            SeriesOf(samples, q).partial <==> start <= last && q.now.second < Horizon(q.resolution, start, last)
  {
    var start, last := Align(q.start, q.resolution), Align(q.end, q.resolution);
    if start <= last {
      var ms := Matching(samples, q);
      SomePartial(e => BucketPoint(ms, q, e), q.resolution, q.now.second, start, last);
    }
  }
}
