// The two-pointer sweep, proved against the simple definition of a series.
module MetricSweep {
  import opened Common
  import opened Sorting
  import opened Percentiles
  import opened Metrics

  predicate Earlier(a: Sample, b: Sample) { NotAfter(a.at, b.at) }

  lemma {:induction false} CollectSplit(xs: seq<Sample>, ys: seq<Sample>, lo: int, hi: int)
    ensures Collect(xs + ys, lo, hi) == Collect(xs, lo, hi) + Collect(ys, lo, hi)
  {
    if ys == [] {
      assert xs + ys == xs;
    } else {
      assert (xs + ys)[..|xs + ys| - 1] == xs + ys[..|ys| - 1];
      CollectSplit(xs, ys[..|ys| - 1], lo, hi);
    }
  }

  lemma {:induction false} CollectNothing(ms: seq<Sample>, lo: int, hi: int)
    requires forall i :: 0 <= i < |ms| ==> !Within(ms[i], lo, hi)
    ensures Collect(ms, lo, hi) == []
  {
    if ms != [] {
      CollectNothing(ms[..|ms| - 1], lo, hi);
    }
  }

  // Two intervals that no sample tells apart.
  lemma {:induction false} CollectSame(ms: seq<Sample>, lo: int, hi: int, lo': int, hi': int)
    requires forall i :: 0 <= i < |ms| ==> (Within(ms[i], lo, hi) <==> Within(ms[i], lo', hi'))
    ensures Collect(ms, lo, hi) == Collect(ms, lo', hi')
  {
    if ms != [] {
      CollectSame(ms[..|ms| - 1], lo, hi, lo', hi');
    }
  }

  lemma CollectOne(x: Sample, lo: int, hi: int)
    ensures Collect([x], lo, hi) == if Within(x, lo, hi) then [x.value] else []
  {
    assert [x][..0] == [];
  }

  lemma CollectAround(a: seq<Sample>, x: Sample, b: seq<Sample>, lo: int, hi: int)
    ensures multiset(Collect(a + [x] + b, lo, hi)) == multiset(Collect(a + b, lo, hi)) + multiset(Collect([x], lo, hi))
  {
    CollectSplit(a + [x], b, lo, hi);
    CollectSplit(a, [x], lo, hi);
    CollectSplit(a, b, lo, hi);
  }

  // What is collected depends, up to order, on which samples there are and not on their order.
  lemma {:induction false} CollectPermutes(xs: seq<Sample>, ys: seq<Sample>, lo: int, hi: int)
    requires multiset(xs) == multiset(ys)
    ensures multiset(Collect(xs, lo, hi)) == multiset(Collect(ys, lo, hi))
    decreases |xs|
  {
    if xs == [] {
      assert ys == [] by { assert |multiset(ys)| == 0; }
    } else {
      var x, rest := xs[0], xs[1..];
      assert xs == [] + [x] + rest && [] + rest == rest;
      var a, b := AroundFirst(xs, ys);
      CollectAround([], x, rest, lo, hi);
      CollectAround(a, x, b, lo, hi);
      CollectPermutes(rest, a + b, lo, hi);
    }
  }

  lemma LeIsOrder()
    ensures TotalPreorder(Le) && forall x, y :: Le(x, y) && Le(y, x) ==> x == y
  {
  }

  // Sorting values forgets the order they came in.
  lemma SortForgets(v: seq<real>, w: seq<real>)
    requires multiset(v) == multiset(w)
    ensures Sort(v, Le) == Sort(w, Le)
  {
    LeIsOrder();
    SortSorts(v, Le);
    SortSorts(w, Le);
    SortedIsUnique(Sort(v, Le), Sort(w, Le), Le);
  }

  ghost predicate SameSamples(xs: seq<Sample>, ys: seq<Sample>) { multiset(xs) == multiset(ys) }

  ghost predicate InOrder(ms: seq<Sample>) {
    forall i, j :: 0 <= i < j < |ms| ==> ms[i].at.second <= ms[j].at.second
  }

  // Everything before `idx` lies before `edge`; everything after it does not, except before the first bucket.
  ghost predicate Swept(ms: seq<Sample>, idx: nat, start: int, edge: int) {
    && idx <= |ms|
    && (forall i :: 0 <= i < idx ==> ms[i].at.second < edge)
    && (edge > start ==> forall i :: idx <= i < |ms| ==> ms[i].at.second >= edge)
  }

  lemma CollectNext(ms: seq<Sample>, i: nat, lo: int, hi: int)
    requires i < |ms|
    ensures Collect(ms[..i + 1], lo, hi)
         == Collect(ms[..i], lo, hi) + if Within(ms[i], lo, hi) then [ms[i].value] else []
  {
    assert ms[..i + 1][..i] == ms[..i];
  }

  // Nothing at or after an index that all later samples are past.
  lemma CollectUpTo(ms: seq<Sample>, idx: nat, lo: int, hi: int)
    requires idx <= |ms| && forall i :: idx <= i < |ms| ==> ms[i].at.second >= hi
    ensures Collect(ms[..idx], lo, hi) == Collect(ms, lo, hi)
  {
    assert ms == ms[..idx] + ms[idx..];
    CollectSplit(ms[..idx], ms[idx..], lo, hi);
    CollectNothing(ms[idx..], lo, hi);
  }

  // At the start of a bucket the samples already passed belong to earlier ones.
  lemma BucketStart(ms: seq<Sample>, idx: nat, start: int, lo: int, hi: int)
    requires lo < hi && Swept(ms, idx, start, lo)
    ensures Collect(ms[..idx], lo, hi) == []
    ensures Collect(ms[..idx], start, lo) == Collect(ms[..idx], start, hi)
  {
    CollectNothing(ms[..idx], lo, hi);
    CollectSame(ms[..idx], start, lo, start, hi);
  }

  // One bucket of the sweep: move the index past the bucket, collecting values on the way.
  method SweepBucket(ms: seq<Sample>, idx: nat, start: int, lo: int, hi: int, all: seq<real>)
    returns (idx': nat, bucket: seq<real>, all': seq<real>)
    requires InOrder(ms) && start <= lo < hi && Swept(ms, idx, start, lo)
    requires all == Collect(ms[..idx], start, lo)
    ensures Swept(ms, idx', start, hi)
    ensures bucket == Collect(ms, lo, hi)
    ensures all' == Collect(ms[..idx'], start, hi)
  {
    idx', bucket, all' := idx, [], all;
    BucketStart(ms, idx, start, lo, hi);
    while idx' < |ms|
      invariant idx <= idx' <= |ms|
      invariant forall i :: 0 <= i < idx' ==> ms[i].at.second < hi
      invariant bucket == Collect(ms[..idx'], lo, hi)
      invariant all' == Collect(ms[..idx'], start, hi)
      decreases |ms| - idx'
    {
      var second := ms[idx'].at.second;
      CollectNext(ms, idx', lo, hi);
      CollectNext(ms, idx', start, hi);
      if second < lo {
        idx' := idx' + 1;
        continue;
      }
      if second >= hi {
        break;
      }
      bucket := bucket + [ms[idx'].value];
      all' := all' + [ms[idx'].value];
      idx' := idx' + 1;
    }
    assert forall i :: idx' <= i < |ms| ==> ms[i].at.second >= hi;
    CollectUpTo(ms, idx', lo, hi);
  }

  // The values of a bucket, in order, are the same however the samples were ordered.
  lemma BucketIs(ms: seq<Sample>, matching: seq<Sample>, lo: int, hi: int)
    requires SameSamples(ms, matching)
    ensures Sort(Collect(ms, lo, hi), Le) == Sort(Collect(matching, lo, hi), Le)
  {
    CollectPermutes(ms, matching, lo, hi);
    SortForgets(Collect(ms, lo, hi), Collect(matching, lo, hi));
  }

  lemma PointIs(sorted: seq<real>, ms: seq<Sample>, q: Query, epoch: int)
    requires sorted == Sort(Collect(ms, epoch, epoch + q.resolution), Le)
    ensures PointOf(sorted, epoch, q) == BucketPoint(ms, q, epoch)
  {
  }

  lemma TotalIs(ms: seq<Sample>, matching: seq<Sample>, idx: nat, start: int, edge: int, all: seq<real>)
    requires SameSamples(ms, matching) && start <= edge && Swept(ms, idx, start, edge)
    requires all == Collect(ms[..idx], start, edge)
    ensures Sort(all, Le) == Sort(Collect(matching, start, edge), Le)
  {
    if edge > start {
      CollectUpTo(ms, idx, start, edge);
    } else {
      CollectNothing(ms[..idx], start, edge);
      CollectNothing(ms, start, edge);
    }
    BucketIs(ms, matching, start, edge);
  }

  lemma EarlierIsOrder(ms: seq<Sample>)
    ensures TotalPreorder(Earlier)
    ensures Sorted(ms, Earlier) ==> InOrder(ms)
  {
  }

  ghost predicate Describes(point: int -> Point, ms: seq<Sample>, q: Query) {
    forall e {:trigger BucketPoint(ms, q, e)} :: point(e) == BucketPoint(ms, q, e)
  }

  // Where the sweep stands before the bucket at `epoch`: `idx` samples passed, their values in `all`.
  ghost predicate Passed(ms: seq<Sample>, idx: nat, start: int, epoch: int, all: seq<real>) {
    && start <= epoch && InOrder(ms)
    && Swept(ms, idx, start, epoch)
    && all == Collect(ms[..idx], start, epoch)
  }

  // One turn of the outer loop: the point of the bucket at `epoch`.
  method NextPoint(ms: seq<Sample>, q: Query, idx: nat, start: int, epoch: int, all: seq<real>,
                   ghost matching: seq<Sample>, ghost point: int -> Point)
    returns (idx': nat, all': seq<real>, p: Point)
    requires q.resolution > 0 && SameSamples(ms, matching) && Describes(point, matching, q)
    requires Passed(ms, idx, start, epoch, all)
    ensures Passed(ms, idx', start, epoch + q.resolution, all')
    ensures p == point(epoch)
  {
    var bucket;
    idx', bucket, all' := SweepBucket(ms, idx, start, epoch, epoch + q.resolution, all);
    BucketIs(ms, matching, epoch, epoch + q.resolution);
    var sorted := Sort(bucket, Le);
    PointIs(sorted, matching, q, epoch);
    p := PointOf(sorted, epoch, q);
  }

  // The sweep over all buckets, of samples in time order.
  method Sweep(ms: seq<Sample>, q: Query, start: int, last: int, ghost matching: seq<Sample>, ghost point: int -> Point)
    returns (points: seq<Point>, all: seq<real>)
    requires q.resolution > 0 && InOrder(ms) && SameSamples(ms, matching) && Describes(point, matching, q)
    ensures points == Buckets(point, q.resolution, start, last)
    ensures Sort(all, Le) == Sort(Collect(matching, start, Horizon(q.resolution, start, last)), Le)
  {
    points, all := [], [];
    var epoch := start;
    var idx: nat := 0;
    while epoch <= last
      invariant Passed(ms, idx, start, epoch, all)
      invariant points + Buckets(point, q.resolution, epoch, last) == Buckets(point, q.resolution, start, last)
      invariant Horizon(q.resolution, epoch, last) == Horizon(q.resolution, start, last)
      decreases last - epoch + q.resolution
    {
      var p;
      idx, all, p := NextPoint(ms, q, idx, start, epoch, all, matching, point);
      points := points + [p];
      epoch := epoch + q.resolution;
    }
    TotalIs(ms, matching, idx, start, epoch, all);
  }

  /** The whole aggregation: filter, sort by time, sweep the buckets with one index, sort the values of each
      bucket. It computes the series of the simple definition, for every list of samples. */
  method Aggregate(samples: seq<Sample>, q: Query) returns (series: Series)
    requires q.resolution > 0
    ensures series == SeriesOf(samples, q)
  {
    var matching := Matching(samples, q);
    var ms := Sort(matching, Earlier);
    EarlierIsOrder(ms);
    SortSorts(matching, Earlier);
    var start, last := Align(q.start, q.resolution), Align(q.end, q.resolution);
    ghost var point := e => BucketPoint(matching, q, e);
    var points, all := Sweep(ms, q, start, last, matching, point);
    var sorted := Sort(all, Le);
    series := Series(points, SummaryOf(sorted, q), sorted != [], AnyPartial(points));
  }
}
