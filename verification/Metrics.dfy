/** Metric aggregation: the simple definition of a series, bucket by bucket, and the two-pointer sweep that
    computes it. A time is a second of the Unix epoch and the nanoseconds within it; values are reals. */
module Metrics {
  import opened Common
  import opened Sorting
  import opened Percentiles

  datatype Time = Time(second: int, nanos: nat)

  predicate NotAfter(t: Time, u: Time) { t.second < u.second || (t.second == u.second && t.nanos <= u.nanos) }

  datatype Sample = Sample(metric: string, environment: string, value: real, at: Time)

  datatype Query = Query(metric: string, environment: Option<string>, start: Time, end: Time, resolution: int, now: Time)

  datatype Spread = Spread(min: real, max: real, avg: real, p50: Option<real>, p95: Option<real>, p99: Option<real>)

  datatype Point = Point(epoch: int, count: nat, value: real, sum: real, spread: Spread, partial: bool)

  datatype Summary = Summary(total: real, count: nat, spread: Spread)

  datatype Series = Series(points: seq<Point>, summary: Summary, hasData: bool, partial: bool)

  // Division as the program does it: toward zero.
  function TruncDiv(a: int, b: int): int
    requires b > 0
  {
    if a >= 0 then a / b else -(-a / b)
  }

  function Align(t: Time, resolution: int): int
    requires resolution > 0
  {
    TruncDiv(t.second, resolution) * resolution
  }

  predicate IsCounter(metric: string) {
    metric in {"build_cache_hit_total", "deployment_health_check_total", "request_total", "request_error_total"}
  }

  predicate Matches(s: Sample, q: Query) {
    && s.metric == q.metric
    && (q.environment.Some? ==> s.environment == q.environment.value)
    && NotAfter(q.start, s.at) && NotAfter(s.at, q.end)
  }

  function Matching(samples: seq<Sample>, q: Query): seq<Sample> {
    if samples == [] then []
    else (if Matches(samples[0], q) then [samples[0]] else []) + Matching(samples[1..], q)
  }

  predicate Within(s: Sample, lo: int, hi: int) { lo <= s.at.second < hi }

  // The values of the samples whose second lies in [lo, hi).
  function Collect(ms: seq<Sample>, lo: int, hi: int): seq<real> {
    if ms == [] then []
    else Collect(ms[..|ms| - 1], lo, hi) + (if Within(ms[|ms| - 1], lo, hi) then [ms[|ms| - 1].value] else [])
  }

  function Sum(v: seq<real>): real { if v == [] then 0.0 else v[0] + Sum(v[1..]) }

  function SpreadOf(v: seq<real>): Spread {
    if v == [] then Spread(0.0, 0.0, 0.0, None, None, None)
    else Spread(v[0], v[|v| - 1], Sum(v) / |v| as real,
                Some(Percentile(v, 50.0)), Some(Percentile(v, 95.0)), Some(Percentile(v, 99.0)))
  }

  // The point of one bucket, from its values in ascending order.
  function PointOf(v: seq<real>, epoch: int, q: Query): Point {
    var spread := SpreadOf(v);
    Point(epoch, |v|, if v == [] then 0.0 else if IsCounter(q.metric) then Sum(v) else spread.avg, Sum(v), spread,
          q.now.second < epoch + q.resolution)
  }

  function SummaryOf(v: seq<real>, q: Query): Summary {
    var spread := SpreadOf(v);
    Summary(if v == [] then 0.0 else if IsCounter(q.metric) then Sum(v) else spread.avg, |v|, spread)
  }

  // ---------------------------------------------------------------- the simple definition

  function BucketPoint(ms: seq<Sample>, q: Query, epoch: int): Point {
    PointOf(Sort(Collect(ms, epoch, epoch + q.resolution), Le), epoch, q)
  }

  // One point per bucket, from `epoch` to the bucket `last` inclusive, for any way of making a point.
  function Buckets(point: int -> Point, resolution: int, epoch: int, last: int): seq<Point>
    requires resolution > 0
    decreases last - epoch + resolution
  {
    if epoch > last then [] else [point(epoch)] + Buckets(point, resolution, epoch + resolution, last)
  }

  function Points(ms: seq<Sample>, q: Query, epoch: int, last: int): seq<Point>
    requires q.resolution > 0
  {
    Buckets(e => BucketPoint(ms, q, e), q.resolution, epoch, last)
  }

  // The end of the last bucket, or `epoch` if there is none.
  function Horizon(resolution: int, epoch: int, last: int): int
    requires resolution > 0
    decreases last - epoch + resolution
  {
    if epoch > last then epoch else Horizon(resolution, epoch + resolution, last)
  }

  predicate AnyPartial(points: seq<Point>) { exists i :: 0 <= i < |points| && points[i].partial }

  function SeriesOf(samples: seq<Sample>, q: Query): Series
    requires q.resolution > 0
  {
    var ms := Matching(samples, q);
    var start, last := Align(q.start, q.resolution), Align(q.end, q.resolution);
    var points := Points(ms, q, start, last);
    var all := Sort(Collect(ms, start, Horizon(q.resolution, start, last)), Le);
    Series(points, SummaryOf(all, q), all != [], AnyPartial(points))
  }
}
