/** Segment widths of the carrier strip, over the reals. */
module SegmentShares {

  const MIN_SEGMENT_SHARE := 0.07

  function Sum(xs: seq<real>): real {
    if xs == [] then 0.0 else Sum(xs[..|xs| - 1]) + xs[|xs| - 1]
  }

  function Positive(b: real): real {
    if b > 0.0 then b else 0.0
  }

  function Positives(bs: seq<real>): (ps: seq<real>)
    ensures |ps| == |bs| && forall i :: 0 <= i < |bs| ==> ps[i] == Positive(bs[i])
  {
    seq(|bs|, i requires 0 <= i < |bs| => Positive(bs[i]))
  }

  function Max(x: real, y: real): real {
    if x >= y then x else y
  }

  /** Each positive bandwidth's fraction of the total, lifted to the legibility floor. */
  function Floored(bs: seq<real>, total: real): (fs: seq<real>)
    requires total > 0.0
    ensures |fs| == |bs| && forall i :: 0 <= i < |bs| ==> fs[i] == Max(Positive(bs[i]) / total, MIN_SEGMENT_SHARE)
  {
    seq(|bs|, i requires 0 <= i < |bs| => Max(if bs[i] > 0.0 then bs[i] / total else 0.0, MIN_SEGMENT_SHARE))
  }

  function Equal(n: nat): (es: seq<real>)
    requires n > 0
    ensures |es| == n && forall i :: 0 <= i < n ==> es[i] == 100.0 / n as real
  {
    seq(n, i requires 0 <= i < n => 100.0 / n as real)
  }

  /** The lifted fractions renormalised to 100; equal widths when there are too many segments for
      the floor, or no bandwidth at all. */
  function ComputeSegmentShares(bs: seq<real>): (shares: seq<real>)
    ensures |shares| == |bs|
  {
    var n := |bs|;
    if n == 0 then []
    else if n as real * MIN_SEGMENT_SHARE >= 1.0 then Equal(n)
    else
      var total := Sum(Positives(bs));
      if total <= 0.0 then Equal(n)
      else
        var floored := Floored(bs, total);
        var flooredTotal := Sum(floored);
        assert flooredTotal > 0.0 by { SumAtLeast(floored, MIN_SEGMENT_SHARE); }
        seq(n, i requires 0 <= i < n => floored[i] / flooredTotal * 100.0)
  }

  lemma {:induction false} SumAtLeast(xs: seq<real>, low: real)
    requires forall i :: 0 <= i < |xs| ==> xs[i] >= low
    ensures Sum(xs) >= |xs| as real * low
  {
    if xs != [] {
      SumAtLeast(xs[..|xs| - 1], low);
      assert (|xs| - 1) as real * low + low == |xs| as real * low;
    }
  }

  lemma {:induction false} SumScaled(xs: seq<real>, ys: seq<real>, k: real)
    requires |xs| == |ys| && forall i :: 0 <= i < |xs| ==> ys[i] == xs[i] * k
    ensures Sum(ys) == Sum(xs) * k
  {
    if xs != [] {
      SumScaled(xs[..|xs| - 1], ys[..|ys| - 1], k);
      assert (Sum(xs[..|xs| - 1]) + xs[|xs| - 1]) * k == Sum(xs[..|xs| - 1]) * k + xs[|xs| - 1] * k;
    }
  }

  lemma Quotient(x: real, y: real, c: real)
    requires y > 0.0
    ensures x / y * c == x * (c / y)
  {
    assert x / y == x * (1.0 / y);
    assert c / y == c * (1.0 / y);
  }

  lemma EqualTotal(n: nat)
    requires n > 0
    ensures Sum(Equal(n)) == 100.0
  {
    var ones := seq(n, i requires 0 <= i < n => 1.0);
    SumOfOnes(ones);
    SumScaled(ones, Equal(n), 100.0 / n as real);
    assert n as real * (100.0 / n as real) == 100.0;
  }

  lemma {:induction false} SumOfOnes(xs: seq<real>)
    requires forall i :: 0 <= i < |xs| ==> xs[i] == 1.0
    ensures Sum(xs) == |xs| as real
  {
    if xs != [] { SumOfOnes(xs[..|xs| - 1]); }
  }

  /** Dividing by the sum and scaling by 100 gives a sum of 100. */
  lemma Renormalised(xs: seq<real>, ys: seq<real>)
    requires |ys| == |xs| && Sum(xs) > 0.0 && forall i :: 0 <= i < |xs| ==> ys[i] == xs[i] / Sum(xs) * 100.0
    ensures Sum(ys) == 100.0
  {
    hide Sum;
    var t := Sum(xs);
    forall i | 0 <= i < |xs| ensures ys[i] == xs[i] * (100.0 / t) { Quotient(xs[i], t, 100.0); }
    SumScaled(xs, ys, 100.0 / t);
    assert t * (100.0 / t) == 100.0;
  }

  /** Shares of a non-empty list always add up to 100. */
  lemma SharesTotal(bs: seq<real>)
    requires bs != []
    ensures Sum(ComputeSegmentShares(bs)) == 100.0
  {
    hide Sum;
    var n := |bs|;
    var total := Sum(Positives(bs));
    if n as real * MIN_SEGMENT_SHARE >= 1.0 || total <= 0.0 {
      EqualTotal(n);
    } else {
      var floored := Floored(bs, total);
      SumAtLeast(floored, MIN_SEGMENT_SHARE);
      Renormalised(floored, ComputeSegmentShares(bs));
    }
  }

  lemma DivMono(x: real, y: real, t: real)
    requires t > 0.0 && x <= y
    ensures x / t <= y / t
  {
  }

  /** A wider carrier never gets a narrower segment. */
  lemma SharesKeepOrder(bs: seq<real>, i: nat, j: nat)
    requires i < |bs| && j < |bs| && bs[i] <= bs[j]
    ensures ComputeSegmentShares(bs)[i] <= ComputeSegmentShares(bs)[j]
  {
    var total := Sum(Positives(bs));
    if |bs| as real * MIN_SEGMENT_SHARE < 1.0 && total > 0.0 {
      var floored := Floored(bs, total);
      SumAtLeast(floored, MIN_SEGMENT_SHARE);
      DivMono(Positive(bs[i]), Positive(bs[j]), total);
      DivMono(floored[i], floored[j], Sum(floored));
    }
  }

  lemma {:induction false} MaxIndex(xs: seq<real>) returns (m: nat)
    requires xs != []
    ensures m < |xs| && forall i :: 0 <= i < |xs| ==> xs[i] <= xs[m]
  {
    m := 0;
    for k := 1 to |xs|
      invariant m < k && forall i :: 0 <= i < k ==> xs[i] <= xs[m]
    {
      if xs[k] > xs[m] { m := k; }
    }
  }

  lemma {:induction false} SumAtMost(xs: seq<real>, high: real)
    requires forall i :: 0 <= i < |xs| ==> xs[i] <= high
    ensures Sum(xs) <= |xs| as real * high
  {
    if xs != [] {
      SumAtMost(xs[..|xs| - 1], high);
      assert (|xs| - 1) as real * high + high == |xs| as real * high;
    }
  }

  /** Lifting raises the sum by at most the floor for each entry, and nothing for entry m. */
  lemma {:induction false} LiftedSum(ps: seq<real>, fs: seq<real>, m: nat)
    requires |fs| == |ps|
    requires forall i :: 0 <= i < |ps| ==> fs[i] <= ps[i] + if i == m then 0.0 else MIN_SEGMENT_SHARE
    ensures Sum(fs) <= Sum(ps) + MIN_SEGMENT_SHARE * (if m < |ps| then |ps| - 1 else |ps|) as real
  {
    if ps != [] { LiftedSum(ps[..|ps| - 1], fs[..|fs| - 1], m); }
  }

  /** The positive bandwidths as fractions of their total. */
  ghost function Fractions(bs: seq<real>, total: real): (ps: seq<real>)
    requires total > 0.0
    ensures |ps| == |bs| && forall i :: 0 <= i < |bs| ==> ps[i] == Positive(bs[i]) / total
  {
    seq(|bs|, i requires 0 <= i < |bs| => Positive(bs[i]) / total)
  }

  lemma FractionsTotal(bs: seq<real>, total: real)
    requires total == Sum(Positives(bs)) && total > 0.0
    ensures Sum(Fractions(bs, total)) == 1.0
  {
    hide Sum;
    var ps := Fractions(bs, total);
    forall i | 0 <= i < |bs| ensures ps[i] == Positives(bs)[i] * (1.0 / total) { Quotient(Positive(bs[i]), total, 1.0); }
    SumScaled(Positives(bs), ps, 1.0 / total);
    assert total * (1.0 / total) == 1.0;
  }

  lemma FlooredTotalBound(bs: seq<real>, total: real)
    requires 1 <= |bs| <= 14 && total == Sum(Positives(bs)) && total > 0.0
    ensures Sum(Floored(bs, total)) <= 1.0 + MIN_SEGMENT_SHARE * (|bs| - 1) as real
  {
    hide Sum;
    var ps, fs := Fractions(bs, total), Floored(bs, total);
    FractionsTotal(bs, total);
    var m := MaxIndex(ps);
    SumAtMost(ps, ps[m]);
    Largest(|bs|, ps[m]);
    forall i | 0 <= i < |bs| ensures fs[i] <= ps[i] + if i == m then 0.0 else MIN_SEGMENT_SHARE {
      FractionNotNegative(bs[i], total);
    }
    LiftedSum(ps, fs, m);
  }

  lemma FractionNotNegative(b: real, total: real)
    requires total > 0.0
    ensures Positive(b) / total >= 0.0
  {
  }

  lemma Largest(n: nat, x: real)
    requires 1 <= n <= 14 && n as real * x >= 1.0
    ensures x >= MIN_SEGMENT_SHARE
  {
    assert x >= 0.0;
    assert (14.0 - n as real) * x >= 0.0;
    assert 14.0 * x == n as real * x + (14.0 - n as real) * x;
  }

  lemma ShareBound(f: real, t: real, top: real)
    requires f >= MIN_SEGMENT_SHARE && 0.0 < t <= top
    ensures f / t * 100.0 >= 7.0 / top
  {
    DivMono(MIN_SEGMENT_SHARE, f, t);
    Quotient(MIN_SEGMENT_SHARE, t, 100.0);
    Shrink(7.0, t, top);
    assert MIN_SEGMENT_SHARE * (100.0 / t) == 7.0 / t;
  }

  lemma Shrink(x: real, t: real, top: real)
    requires x > 0.0 && 0.0 < t <= top
    ensures x / t >= x / top
  {
    assert x / top * top == x && x / t * t == x;
    assert x / top * t <= x;
  }

  lemma Floor(n: nat, top: real)
    requires 1 <= n <= 14 && top == 1.0 + MIN_SEGMENT_SHARE * (n - 1) as real
    ensures 7.0 / top == 700.0 / (93 + 7 * n) as real > 3.5
    ensures 100.0 / n as real >= 7.0 / top
  {
    var d := (93 + 7 * n) as real;
    assert 100.0 * top == d;
    assert 7.0 / top * d == 700.0;
    assert d <= 191.0;
    Shrink(700.0, d, 191.0);
    assert 700.0 / 191.0 > 3.5;
    Shrink(700.0, (7 * n) as real, d);
    assert 700.0 / (7 * n) as real * n as real == 100.0;
  }

  /** With up to 14 segments none is narrower than 700 / (93 + 7n) percent, so none than 3.5. */
  lemma SharesLegible(bs: seq<real>, i: nat)
    requires 1 <= |bs| <= 14 && i < |bs|
    ensures ComputeSegmentShares(bs)[i] >= 700.0 / (93 + 7 * |bs|) as real > 3.5
  {
    hide Sum;
    var total := Sum(Positives(bs));
    var top := 1.0 + MIN_SEGMENT_SHARE * (|bs| - 1) as real;
    Floor(|bs|, top);
    if total > 0.0 {
      var floored := Floored(bs, total);
      SumAtLeast(floored, MIN_SEGMENT_SHARE);
      FlooredTotalBound(bs, total);
      ShareBound(floored[i], Sum(floored), top);
    }
  }

  // ---------------------------------------------------------------- bandwidth drives the width

  /** What a segment is worth: its fraction of the positive bandwidth, at least seven hundredths. */
  function Worth(b: real, total: real): real
    requires total > 0.0
  {
    var fraction := if b > 0.0 then b / total else 0.0;
    if fraction >= 0.07 then fraction else 0.07
  }

  lemma CrossMultiply(x: real, y: real, c: real)
    ensures x * c * y == y * c * x
  {
  }

  /** One factor for all segments. */
  ghost function Scale(bs: seq<real>): (c: real)
    requires 0 < |bs| < 15 && Sum(Positives(bs)) > 0.0
    ensures c > 0.0
  {
    var floored := Floored(bs, Sum(Positives(bs)));
    SumAtLeast(floored, MIN_SEGMENT_SHARE);
    assert Sum(floored) > 0.0;
    100.0 / Sum(floored)
  }

  lemma ShareOf(bs: seq<real>, i: nat)
    requires i < |bs| < 15 && Sum(Positives(bs)) > 0.0
    ensures ComputeSegmentShares(bs)[i] == Worth(bs[i], Sum(Positives(bs))) * Scale(bs)
  {
    hide Sum;
    var total := Sum(Positives(bs));
    var floored := Floored(bs, total);
    SumAtLeast(floored, MIN_SEGMENT_SHARE);
    Quotient(floored[i], Sum(floored), 100.0);
  }

  /** With up to 14 segments and some bandwidth, widths are in proportion to worth: together with
      the total of 100 this fixes every share. */
  lemma SharesProportional(bs: seq<real>, i: nat, j: nat)
    requires i < |bs| && j < |bs| < 15 && Sum(Positives(bs)) > 0.0
    ensures var total := Sum(Positives(bs));
      ComputeSegmentShares(bs)[i] * Worth(bs[j], total) == ComputeSegmentShares(bs)[j] * Worth(bs[i], total)
  {
    hide *;
    ShareOf(bs, i);
    ShareOf(bs, j);
    CrossMultiply(Worth(bs[i], Sum(Positives(bs))), Worth(bs[j], Sum(Positives(bs))), Scale(bs));
  }

  /** Where no segment needs lifting, a segment is its fraction of the bandwidth. */
  lemma UnliftedShare(bs: seq<real>, i: nat)
    requires i < |bs| < 15 && Sum(Positives(bs)) > 0.0
    requires forall k :: 0 <= k < |bs| ==> bs[k] / Sum(Positives(bs)) >= 0.07
    ensures ComputeSegmentShares(bs)[i] == bs[i] / Sum(Positives(bs)) * 100.0
  {
    hide Sum;
    var total := Sum(Positives(bs));
    forall k | 0 <= k < |bs| ensures bs[k] > 0.0 { NotPositive(bs[k], total); }
    FractionsTotal(bs, total);
    assert Floored(bs, total) == Fractions(bs, total);
    assert Sum(Floored(bs, total)) == 1.0;
    ShareOf(bs, i);
  }

  lemma NotPositive(b: real, total: real)
    requires total > 0.0 && b / total >= 0.07
    ensures b > 0.0
  {
    assert b / total * total == b;
  }

  /** More worth, more width. */
  lemma SharesFollowWorth(bs: seq<real>, i: nat, j: nat)
    requires i < |bs| && j < |bs| < 15 && Sum(Positives(bs)) > 0.0
    requires Worth(bs[i], Sum(Positives(bs))) < Worth(bs[j], Sum(Positives(bs)))
    ensures ComputeSegmentShares(bs)[i] < ComputeSegmentShares(bs)[j]
  {
    hide *;
    ShareOf(bs, i);
    ShareOf(bs, j);
    StrictProduct(Worth(bs[i], Sum(Positives(bs))), Worth(bs[j], Sum(Positives(bs))), Scale(bs));
  }

  /** A strictly wider carrier above the floor gets a strictly wider segment. */
  lemma WiderIsWider(bs: seq<real>, i: nat, j: nat)
    requires i < |bs| && j < |bs| < 15 && Sum(Positives(bs)) > 0.0
    requires bs[i] < bs[j] && bs[j] / Sum(Positives(bs)) > 0.07
    ensures ComputeSegmentShares(bs)[i] < ComputeSegmentShares(bs)[j]
  {
    hide Sum, ComputeSegmentShares;
    var total := Sum(Positives(bs));
    NotPositive(bs[j], total);
    StrictFraction(bs[i], bs[j], total);
    SharesFollowWorth(bs, i, j);
  }

  lemma StrictFraction(x: real, y: real, total: real)
    requires total > 0.0 && x < y
    ensures x / total < y / total
  {
    assert x / total * total == x && y / total * total == y;
  }

  lemma StrictProduct(x: real, y: real, c: real)
    requires c > 0.0 && x < y
    ensures x * c < y * c
  {
  }

  /** From 15 segments on, or without any bandwidth, all widths are equal. */
  lemma EqualWidths(bs: seq<real>, i: nat)
    requires i < |bs| && (|bs| >= 15 || forall k :: 0 <= k < |bs| ==> bs[k] <= 0.0)
    ensures ComputeSegmentShares(bs)[i] == 100.0 / |bs| as real
  {
    if |bs| < 15 { SumAtMost(Positives(bs), 0.0); }
  }
}
