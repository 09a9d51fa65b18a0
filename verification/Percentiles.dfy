// Interpolated percentiles, over the reals.
module Percentiles {

  predicate Le(x: real, y: real) { x <= y }

  ghost predicate Ascending(s: seq<real>) {
    forall i, j :: 0 <= i <= j < |s| ==> s[i] <= s[j]
  }

  function Ceil(r: real): int { -(-r).Floor }

  // The value at a fractional position of the list.
  function At(s: seq<real>, rank: real): real
    requires |s| >= 1 && 0.0 <= rank <= (|s| - 1) as real
  {
    var lower, upper := rank.Floor, Ceil(rank);
    if lower == upper then s[lower]
    else
      var weight := rank - lower as real;
      s[lower] * (1.0 - weight) + s[upper] * weight
  }

  function Rank(n: nat, pct: real): real
    requires n >= 1
  {
    pct / 100.0 * (n - 1) as real
  }

  lemma RankInRange(n: nat, pct: real)
    requires n >= 1 && 0.0 <= pct <= 100.0
    ensures 0.0 <= Rank(n, pct) <= (n - 1) as real
  {
    var top := (n - 1) as real;
    assert 0.0 <= pct / 100.0 <= 1.0;
    assert pct / 100.0 * top <= 1.0 * top by { TimesUp(pct / 100.0, 1.0, top); }
  }

  lemma RankUp(n: nat, pct: real, pct': real)
    requires n >= 1 && pct <= pct'
    ensures Rank(n, pct) <= Rank(n, pct')
    ensures Rank(n, 0.0) == 0.0 && Rank(n, 100.0) == (n - 1) as real
  {
    TimesUp(pct / 100.0, pct' / 100.0, (n - 1) as real);
  }

  lemma TimesUp(a: real, b: real, c: real)
    requires a <= b && 0.0 <= c
    ensures a * c <= b * c
  {
    var p := Product(b - a, c);
    assert p == b * c - a * c;
  }

  function Percentile(s: seq<real>, pct: real): real
    requires 0.0 <= pct <= 100.0
  {
    if |s| == 0 then 0.0
    else if |s| == 1 then s[0]
    else
      RankInRange(|s|, pct);
      At(s, Rank(|s|, pct))
  }

  // Both neighbours are in the list, and the value lies between them.
  lemma AtIsBetween(s: seq<real>, rank: real)
    requires |s| >= 1 && 0.0 <= rank <= (|s| - 1) as real && Ascending(s)
    ensures 0 <= rank.Floor <= Ceil(rank) <= rank.Floor + 1 && Ceil(rank) < |s|
    ensures s[rank.Floor] <= At(s, rank) <= s[Ceil(rank)]
  {
    var lower, upper := rank.Floor, Ceil(rank);
    assert lower as real <= rank <= upper as real;
    assert upper < |s| by {
      assert (-rank).Floor >= -(|s| - 1);
    }
    if lower != upper {
      var w, a, b := rank - lower as real, s[lower], s[upper];
      assert 0.0 <= w <= 1.0 && a <= b;
      Mix(a, b, w);
      assert At(s, rank) == a * (1.0 - w) + b * w;
    }
  }

  lemma Mix(a: real, b: real, w: real)
    requires a <= b && 0.0 <= w <= 1.0
    ensures a <= a * (1.0 - w) + b * w <= b
  {
    var part := Part(b - a, w);
    Blend(a, b, b - a, w, part);
    Between(a, b, a * (1.0 - w) + b * w, part);
  }

  lemma Between(a: real, b: real, mix: real, part: real)
    requires mix == a + part && 0.0 <= part <= b - a
    ensures a <= mix <= b
  {
  }

  lemma Blend(a: real, b: real, d: real, w: real, part: real)
    requires d == b - a && part == d * w
    ensures a * (1.0 - w) + b * w == a + part
  {
    assert a * (1.0 - w) == a - a * w;
    assert d * w == b * w - a * w;
  }

  lemma Part(d: real, w: real) returns (part: real)
    requires 0.0 <= d && 0.0 <= w <= 1.0
    ensures part == d * w && 0.0 <= part <= d
  {
    part := d * w;
    var rest := Product(d, 1.0 - w);
    var same := Product(d, w);
    assert rest == d - part;
  }

  lemma Product(x: real, y: real) returns (p: real)
    requires 0.0 <= x && 0.0 <= y
    ensures p == x * y && p >= 0.0
  {
    p := x * y;
  }

  lemma MixUp(a: real, b: real, w: real, w': real)
    requires a <= b && w <= w'
    ensures a * (1.0 - w) + b * w <= a * (1.0 - w') + b * w'
  {
    var d := b - a;
    Blend(a, b, d, w, d * w);
    Blend(a, b, d, w', d * w');
    TimesUp(w, w', d);
  }

  lemma AtIsMonotone(s: seq<real>, r: real, r': real)
    requires |s| >= 1 && 0.0 <= r <= r' <= (|s| - 1) as real && Ascending(s)
    ensures At(s, r) <= At(s, r')
  {
    AtIsBetween(s, r);
    AtIsBetween(s, r');
    if r.Floor == r'.Floor {
      if Ceil(r) == r.Floor {
      } else {
        assert Ceil(r') == Ceil(r) == r.Floor + 1;
        MixUp(s[r.Floor], s[r.Floor + 1], r - r.Floor as real, r' - r.Floor as real);
      }
    } else {
      assert Ceil(r) <= r'.Floor;
    }
  }

  /** Linear interpolation: at a rank k + t between two positions, the percentile lies the fraction t of the way from
      the k-th value to the next; at a whole rank it is that value. The rank is pct / 100 of the way from the first
      position to the last. */
  lemma PercentileInterpolates(s: seq<real>, pct: real, k: nat)
    requires |s| >= 2 && 0.0 <= pct <= 100.0
    requires k as real <= pct / 100.0 * (|s| - 1) as real < k as real + 1.0
    ensures k < |s| && (k == |s| - 1 ==> pct == 100.0 && Percentile(s, pct) == s[k])
    ensures k < |s| - 1 ==>
      Percentile(s, pct) - s[k] == (pct / 100.0 * (|s| - 1) as real - k as real) * (s[k + 1] - s[k])
    ensures pct / 100.0 * (|s| - 1) as real == k as real ==> Percentile(s, pct) == s[k]
  {
    RankInRange(|s|, pct);
    var rank := Rank(|s|, pct);
    assert rank.Floor == k;
    if k == |s| - 1 {
      FullRank(pct, (|s| - 1) as real);
    } else if rank == k as real {
      assert Ceil(rank) == k;
      assert (rank - k as real) * (s[k + 1] - s[k]) == 0.0 by { assert rank - k as real == 0.0; }
    } else {
      assert Ceil(rank) == k + 1;
      Blend(s[k], s[k + 1], s[k + 1] - s[k], rank - k as real, (s[k + 1] - s[k]) * (rank - k as real));
      assert Percentile(s, pct) == s[k] + (s[k + 1] - s[k]) * (rank - k as real);
    }
  }

  lemma FullRank(pct: real, top: real)
    requires top >= 1.0 && 0.0 <= pct <= 100.0 && top <= pct / 100.0 * top
    ensures pct == 100.0
  {
    var d := 1.0 - pct / 100.0;
    assert d * top == top - pct / 100.0 * top;
    assert d > 0.0 ==> d * top > 0.0;
  }

  /** The percentile of a sorted non-empty list never indexes outside it, lies between the smallest and the
      largest value, and grows with the percentage. */
  lemma PercentileIsOrdered(s: seq<real>, pct: real, pct': real)
    requires s != [] && Ascending(s) && 0.0 <= pct <= pct' <= 100.0
    ensures s[0] <= Percentile(s, pct) <= Percentile(s, pct') <= s[|s| - 1]
    ensures Percentile(s, 0.0) == s[0] && Percentile(s, 100.0) == s[|s| - 1]
  {
    if |s| > 1 {
      RankInRange(|s|, pct);
      RankInRange(|s|, pct');
      RankUp(|s|, pct, pct');
      AtIsBetween(s, Rank(|s|, pct));
      AtIsBetween(s, Rank(|s|, pct'));
      AtIsMonotone(s, Rank(|s|, pct), Rank(|s|, pct'));
    }
  }
}
