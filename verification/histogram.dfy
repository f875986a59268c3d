/** The numbers behind `Visualization::generateMatchDistanceHistogram`: fifty equal bins
    spanning the smallest to the largest distance, each distance counted in the bin its
    offset falls in (clamped to the first and last bin), and the mean distance. Drawing
    the chart and printing the labels are not part of this model. */
module Histogram {
  import opened Wrappers
  import Floats

  const BIN_COUNT: nat := 50

  /** `*std::min_element`: the smallest distance. */
  function Min(d: seq<real>): (m: real)
    requires |d| > 0
    ensures m in d
    ensures forall k :: 0 <= k < |d| ==> m <= d[k]
  {
    if |d| == 1 then d[0]
    else
      var rest := Min(d[1..]);
      if d[0] <= rest then d[0] else rest
  }

  /** `*std::max_element`: the largest distance. */
  function Max(d: seq<real>): (m: real)
    requires |d| > 0
    ensures m in d
    ensures forall k :: 0 <= k < |d| ==> d[k] <= m
  {
    if |d| == 1 then d[0]
    else
      var rest := Max(d[1..]);
      if d[0] >= rest then d[0] else rest
  }

  /** The upper end of the binned range: the largest distance, or the smallest plus one
      when all distances are equal. */
  function Top(d: seq<real>): (t: real)
    requires |d| > 0
    ensures Min(d) < t
    ensures forall k :: 0 <= k < |d| ==> d[k] <= t
    ensures t == Max(d) || t == Min(d) + 1.0
  {
    var hi := Max(d);
    if hi <= Min(d) then Min(d) + 1.0 else hi
  }

  /** The width of one bin, a fiftieth of the binned range. */
  function Width(d: seq<real>): (w: real)
    requires |d| > 0
    ensures w > 0.0
  {
    (Top(d) - Min(d)) / BIN_COUNT as real
  }

  /** The bin of distance `x`: the truncated offset in bin widths, moved into [0, 49]. */
  function BinOf(x: real, lo: real, width: real): (b: nat)
    requires width > 0.0
    ensures b < BIN_COUNT
    ensures var raw := Floats.Trunc((x - lo) / width);
            (0 <= raw < BIN_COUNT ==> b == raw) && (raw >= BIN_COUNT ==> b == BIN_COUNT - 1) && (raw < 0 ==> b == 0)
  {
    var raw := Floats.Trunc((x - lo) / width);
    if raw >= BIN_COUNT then BIN_COUNT - 1
    else if raw < 0 then 0
    else raw
  }

  /** An offset between `k` and `k + 1` widths, read off its quotient. */
  lemma BetweenMultiples(a: real, width: real, k: real)
    requires width > 0.0 && k <= a / width < k + 1.0
    ensures k * width <= a < (k + 1.0) * width
  {
    var q := a / width;
    assert q * width == a;
    var below := q - k;
    assert below * width >= 0.0;
    assert a == k * width + below * width;
    var gap := (k + 1.0) - q;
    assert gap * width > 0.0;
    assert (k + 1.0) * width == q * width + gap * width;
    assert a < (k + 1.0) * width;
  }

  /** Bin `b` covers the offsets from `b` to `b + 1` widths, the last bin its upper end
      as well. */
  predicate InItsBin(x: real, lo: real, width: real)
    requires width > 0.0
  {
    var b := BinOf(x, lo, width);
    b as real * width <= x - lo && (x - lo < (b + 1) as real * width || b == BIN_COUNT - 1)
  }

  /** A distance inside the binned range lies in its bin. */
  lemma BinCoversDistance(x: real, lo: real, width: real)
    requires width > 0.0 && lo <= x <= lo + BIN_COUNT as real * width
    ensures InItsBin(x, lo, width)
  {
    var raw := Floats.Trunc((x - lo) / width);
    BetweenMultiples(x - lo, width, raw as real);
    if raw >= BIN_COUNT {
      var extra := (raw - (BIN_COUNT - 1)) as real;
      assert extra * width >= 0.0;
      assert raw as real * width == (BIN_COUNT - 1) as real * width + extra * width;
      assert BinOf(x, lo, width) == BIN_COUNT - 1;
    } else {
      assert (raw + 1) as real == raw as real + 1.0;
    }
  }

  /** Every distance lies in the binned range, so each sits in the bin that covers it. */
  lemma DistanceInItsBin(d: seq<real>, k: nat)
    requires k < |d|
    ensures InItsBin(d[k], Min(d), Width(d))
  {
    var lo, t, w := Min(d), Top(d), Width(d);
    assert lo <= d[k] <= t;
    assert BIN_COUNT as real * w == t - lo by {
      assert w == (t - lo) / BIN_COUNT as real;
    }
    BinCoversDistance(d[k], lo, w);
  }

  /** The fifty bins, all zero. */
  function Empty(): (h: seq<nat>)
    ensures |h| == BIN_COUNT
    ensures forall b :: 0 <= b < BIN_COUNT ==> h[b] == 0
  {
    seq(BIN_COUNT, _ => 0)
  }

  /** The counts after filling the distances in order, one increment per distance. */
  function Fill(d: seq<real>, lo: real, width: real): (h: seq<nat>)
    requires width > 0.0
    ensures |h| == BIN_COUNT
  {
    if |d| == 0 then Empty()
    else
      var h := Fill(d[..|d| - 1], lo, width);
      var b := BinOf(d[|d| - 1], lo, width);
      h[b := h[b] + 1]
  }

  /** How many of the distances fall in bin `b`, counted directly. */
  function CountIn(d: seq<real>, lo: real, width: real, b: nat): nat
    requires width > 0.0
  {
    if |d| == 0 then 0
    else CountIn(d[..|d| - 1], lo, width, b) + (if BinOf(d[|d| - 1], lo, width) == b then 1 else 0)
  }

  function Sum(s: seq<nat>): nat
  {
    if |s| == 0 then 0 else Sum(s[..|s| - 1]) + s[|s| - 1]
  }

  /** `std::accumulate(..., 0.0)`: the distances added from the front. */
  function RealSum(d: seq<real>): real
  {
    if |d| == 0 then 0.0 else RealSum(d[..|d| - 1]) + d[|d| - 1]
  }

  lemma {:induction false} SumOfZeros(n: nat)
    ensures Sum(seq(n, _ => 0)) == 0
  {
    if n > 0 {
      assert seq(n, _ => 0)[..n - 1] == seq(n - 1, _ => 0);
      SumOfZeros(n - 1);
    }
  }

  /** Incrementing one entry raises the sum by one. */
  lemma {:induction false} SumIncrement(s: seq<nat>, k: nat)
    requires k < |s|
    ensures Sum(s[k := s[k] + 1]) == Sum(s) + 1
  {
    var t := s[k := s[k] + 1];
    if k == |s| - 1 {
      assert t[..|t| - 1] == s[..|s| - 1];
    } else {
      assert t[..|t| - 1] == s[..|s| - 1][k := s[k] + 1];
      SumIncrement(s[..|s| - 1], k);
    }
  }

  /** Every distance is counted exactly once: the bins add up to the number of
      distances. */
  lemma {:induction false} FillCountsEveryDistance(d: seq<real>, lo: real, width: real)
    requires width > 0.0
    ensures Sum(Fill(d, lo, width)) == |d|
  {
    if |d| == 0 {
      SumOfZeros(BIN_COUNT);
    } else {
      FillCountsEveryDistance(d[..|d| - 1], lo, width);
      SumIncrement(Fill(d[..|d| - 1], lo, width), BinOf(d[|d| - 1], lo, width));
    }
  }

  /** Each filled bin holds exactly the distances whose bin it is. */
  lemma {:induction false} FillMatchesCount(d: seq<real>, lo: real, width: real, b: nat)
    requires width > 0.0 && b < BIN_COUNT
    ensures Fill(d, lo, width)[b] == CountIn(d, lo, width, b)
  {
    if |d| > 0 {
      FillMatchesCount(d[..|d| - 1], lo, width, b);
    }
  }

  /** What the histogram records: the bin counts, the reported minimum and (possibly
      widened) maximum, the mean and the number of distances. */
  datatype Summary = Summary(bins: seq<nat>, minDist: real, maxDist: real, mean: real, count: nat)

  /** The fill loop and the running total of the distances. */
  method FillBins(d: seq<real>, lo: real, width: real) returns (hist: seq<nat>, total: real)
    requires width > 0.0
    ensures hist == Fill(d, lo, width)
    ensures total == RealSum(d)
  {
    hist := Empty();
    total := 0.0;
    var i := 0;
    while i < |d|
      invariant 0 <= i <= |d|
      invariant hist == Fill(d[..i], lo, width)
      invariant total == RealSum(d[..i])
    {
      assert d[..i + 1][..i] == d[..i];
      var b := BinOf(d[i], lo, width);
      hist := hist[b := hist[b] + 1];
      total := total + d[i];
      i := i + 1;
    }
    assert d[..|d|] == d;
  }

  /** The binning and statistics of `generateMatchDistanceHistogram`; no distances give
      no histogram. */
  method MatchDistanceHistogram(d: seq<real>) returns (r: Option<Summary>)
    ensures r.None? <==> |d| == 0
    ensures r.Some? ==>
              && |r.value.bins| == BIN_COUNT
              && Sum(r.value.bins) == |d| == r.value.count
              && (forall b :: 0 <= b < BIN_COUNT ==> r.value.bins[b] == CountIn(d, Min(d), Width(d), b))
              && r.value.minDist == Min(d) && r.value.maxDist == Top(d)
              && r.value.mean == RealSum(d) / |d| as real
  {
    if |d| == 0 {
      return None;
    }
    var lo := Min(d);
    var hi := Max(d);
    if hi <= lo {
      hi := lo + 1.0;
    }
    assert hi == Top(d);
    var width := (hi - lo) / BIN_COUNT as real;
    assert width == Width(d);
    var hist, total := FillBins(d, lo, width);
    FillCountsEveryDistance(d, lo, width);
    forall b | 0 <= b < BIN_COUNT
      ensures hist[b] == CountIn(d, lo, width, b)
    {
      FillMatchesCount(d, lo, width, b);
    }
    return Some(Summary(hist, lo, hi, total / |d| as real, |d|));
  }
}
