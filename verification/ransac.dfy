/** The RANSAC homography estimator (class `RANSAC`). The random generator is replaced by
    an injected sequence of raw draws, each in [0, n); running out of draws before the
    loop ends yields `Exhausted` (the C++ code would keep drawing). */
module Ransac {
  import opened Wrappers
  import opened Floats
  import opened Geometry
  import opened Features
  import Config

  /** A square root: only its non-negativity and the root of zero are relied upon. */
  type Root = f: real -> real | (forall d :: f(d) >= 0.0) && f(0.0) == 0.0 witness (d: real) => 0.0

  /** The numerical collaborators of the estimator. */
  datatype Numerics = Numerics(
    /** `cv::findHomography(pts1, pts2, 0)`: the least-squares fit through all points. */
    fit: (seq<Point>, seq<Point>) -> Matrix,
    /** `std::sqrt` */
    sqrt: Root,
    /** `static_cast<int>(log(1 - p) / log(1 - pow(w, 4)))` for confidence p and inlier
        ratio w. */
    budget: (real, real) -> int)

  datatype RansacResult = RansacResult(
    homography: Matrix,
    inlierMask: seq<bool>,
    numInliers: nat,
    inlierRatio: real,
    numIterations: nat,
    reprojectionError: Flt)

  datatype Outcome =
    | InputRejected           // fewer than 4 points or lists of different lengths
    | Exhausted               // the injected draws ran out before the loop ended
    | Estimated(result: RansacResult)

  // ---------------------------------------------------------------------------------
  // Inlier classification

  /** `std::sqrt` of a squared residual, which is never negative: NaN and +infinity
      are their own roots. */
  function Distance(num: Numerics, sq: Flt): (d: Flt)
    ensures d.Fin? <==> sq.Fin?
    ensures d.NaN? <==> sq.NaN? || sq.NegInf?
    ensures d.Fin? ==> d.v >= 0.0
  {
    match sq
    case Fin(s) => Fin(num.sqrt(s))
    case PosInf => PosInf
    case _ => NaN
  }

  /** The point's weight passes the 1e-10 test and its reprojection distance compares
      below `t` (so it is finite). */
  predicate IsInlier(num: Numerics, h: Matrix, p1: Point, p2: Point, t: real)
    requires h.Mat?
  {
    var r := SquaredResidual(h, p1, p2);
    r.Some? && Lt(Distance(num, r.value), Fin(t))
  }

  /** `findInliers`: one mask entry per point of `pts1`. */
  function FindInliers(num: Numerics, h: Matrix, pts1: seq<Point>, pts2: seq<Point>, t: real)
    : (mask: seq<bool>)
    requires h.Mat? && |pts2| >= |pts1|
    ensures |mask| == |pts1|
    ensures forall i :: 0 <= i < |pts1| ==> (mask[i] <==> IsInlier(num, h, pts1[i], pts2[i], t))
  {
    seq(|pts1|, i requires 0 <= i < |pts1| => IsInlier(num, h, pts1[i], pts2[i], t))
  }

  /** An infinite homogeneous weight with finite first rows sends the projection to
      the origin: the residual is the squared norm of `p2`, although the matrix is not
      finite. */
  lemma InfiniteWeightProjectsToOrigin(h: Matrix, p1: Point, p2: Point)
    requires h.Mat? && Row(h, 0, p1).Fin? && Row(h, 1, p1).Fin?
    requires Row(h, 2, p1).PosInf? || Row(h, 2, p1).NegInf?
    ensures !AllFinite(h)
    ensures SquaredResidual(h, p1, p2) == Some(Fin(p2.x * p2.x + p2.y * p2.y))
  {
    var w := Row(h, 2, p1);
    assert !h.e[6].Fin? || !h.e[7].Fin? || !h.e[8].Fin?;
    assert Div(Row(h, 0, p1), w) == Fin(0.0) && Div(Row(h, 1, p1), w) == Fin(0.0);
    assert Floats.Sub(Fin(0.0), Fin(p2.x)) == Fin(-p2.x);
    assert Floats.Sub(Fin(0.0), Fin(p2.y)) == Fin(-p2.y);
    assert (-p2.x) * (-p2.x) == p2.x * p2.x && (-p2.y) * (-p2.y) == p2.y * p2.y;
    assert !Lt(Abs(w), Fin(0.0000000001));
    assert SquaredResidual(h, p1, p2) == Some(NormSq(Fin(-p2.x), Fin(-p2.y)));
    var n := NormSq(Fin(-p2.x), Fin(-p2.y));
    assert n.Fin? && n.v == p2.x * p2.x + p2.y * p2.y;
  }

  /** Hence such a matrix counts a point mapped near the origin as an inlier: with
      `h20` infinite and `H` otherwise the identity, (1, 0) is an inlier at (0, 0) for
      every positive threshold. */
  lemma InfiniteWeightMakesInlier(num: Numerics, h: Matrix, p1: Point, t: real)
    requires h.Mat? && t > 0.0 && Row(h, 0, p1).Fin? && Row(h, 1, p1).Fin?
    requires Row(h, 2, p1).PosInf? || Row(h, 2, p1).NegInf?
    ensures !AllFinite(h) && IsInlier(num, h, p1, Point(0.0, 0.0), t)
  {
    InfiniteWeightProjectsToOrigin(h, p1, Point(0.0, 0.0));
  }

  /** Raising the threshold never clears a mask entry, so never lowers the inlier count. */
  lemma InliersGrowWithThreshold(num: Numerics, h: Matrix, pts1: seq<Point>, pts2: seq<Point>,
                                 t: real, t': real)
    requires h.Mat? && |pts2| >= |pts1| && t <= t'
    ensures forall i :: 0 <= i < |pts1| && FindInliers(num, h, pts1, pts2, t)[i] ==>
                          FindInliers(num, h, pts1, pts2, t')[i]
    ensures Count(FindInliers(num, h, pts1, pts2, t)) <= Count(FindInliers(num, h, pts1, pts2, t'))
  {
    CountMonotone(FindInliers(num, h, pts1, pts2, t), FindInliers(num, h, pts1, pts2, t'));
  }

  // ---------------------------------------------------------------------------------
  // Sampling

  predicate Distinct(s: seq<nat>)
  {
    forall i, j :: 0 <= i < j < |s| ==> s[i] != s[j]
  }

  /** The inner `while (sample.size() < 4)` loop: consume draws, appending each one not
      yet in the sample. */
  function DrawSample(draws: seq<nat>, sample: seq<nat>): (r: Option<(seq<nat>, seq<nat>)>)
    requires |sample| <= 4 && Distinct(sample)
    ensures r.Some? ==> |r.value.0| == 4 && Distinct(r.value.0)
    ensures r.Some? ==> forall x :: x in r.value.0 ==> x in sample || x in draws
    ensures r.Some? ==> |r.value.1| + 4 - |sample| <= |draws|
    ensures r.Some? ==> r.value.1 == draws[|draws| - |r.value.1|..]
    decreases |draws|
  {
    if |sample| == 4 then Some((sample, draws))
    else if |draws| == 0 then None
    else if draws[0] in sample then DrawSample(draws[1..], sample)
    else DrawSample(draws[1..], sample + [draws[0]])
  }

  predicate InRange(s: seq<nat>, n: nat)
  {
    forall k :: 0 <= k < |s| ==> s[k] < n
  }

  /** A drawn sample holds 4 pairwise-distinct indices in [0, n). */
  lemma SampleIsValid(draws: seq<nat>, n: nat)
    requires InRange(draws, n)
    ensures var r := DrawSample(draws, []);
            r.Some? ==> |r.value.0| == 4 && Distinct(r.value.0) && InRange(r.value.0, n)
                        && InRange(r.value.1, n) && |r.value.1| <= |draws| - 4
  {
    var r := DrawSample(draws, []);
    if r.Some? {
      forall k | 0 <= k < 4 ensures r.value.0[k] < n {
        assert r.value.0[k] in r.value.0;
      }
      forall k | 0 <= k < |r.value.1| ensures r.value.1[k] < n {
        assert r.value.1[k] == draws[|draws| - |r.value.1| + k];
      }
    }
  }

  /** How many complete samples the draws can supply one after another. */
  function SamplesAvailable(draws: seq<nat>): nat
    decreases |draws|
  {
    match DrawSample(draws, [])
    case None => 0
    case Some((_, rest)) => 1 + SamplesAvailable(rest)
  }

  // ---------------------------------------------------------------------------------
  // Minimal model

  /** A sample model that survives the gates of `computeHomographyMinimal`. */
  predicate Usable(h: Matrix)
  {
    h.Mat? && AllFinite(h) && !Lt(Abs(Det(h)), Fin(Config.HOMOGRAPHY_EPSILON))
  }

  /** `computeHomographyMinimal` on the four sampled correspondences. */
  function MinimalModel(num: Numerics, pts1: seq<Point>, pts2: seq<Point>, sample: seq<nat>)
    : (h: Matrix)
    requires |pts1| == |pts2| && |sample| == 4 && InRange(sample, |pts1|)
    ensures h.Mat? <==> Usable(num.fit([pts1[sample[0]], pts1[sample[1]], pts1[sample[2]], pts1[sample[3]]],
                                       [pts2[sample[0]], pts2[sample[1]], pts2[sample[2]], pts2[sample[3]]]))
    ensures h.Mat? ==> Usable(h) && (if RealDet(h) < 0.0 then -RealDet(h) else RealDet(h)) >= Config.HOMOGRAPHY_EPSILON
  {
    var s1 := [pts1[sample[0]], pts1[sample[1]], pts1[sample[2]], pts1[sample[3]]];
    var s2 := [pts2[sample[0]], pts2[sample[1]], pts2[sample[2]], pts2[sample[3]]];
    var h := num.fit(s1, s2);
    if h.Empty? then Empty
    else if Lt(Abs(Det(h)), Fin(Config.HOMOGRAPHY_EPSILON)) then Empty
    else if exists k :: 0 <= k < 9 && NonFinite(h.e[k]) then Empty
    else h
  }

  // ---------------------------------------------------------------------------------
  // The sampling loop

  datatype Search = Search(
    iterations: nat,
    maxIterations: int,
    bestInliers: nat,
    bestH: Matrix,
    bestMask: seq<bool>)

  /** What the loop keeps true of its best candidate. */
  ghost predicate Tracked(num: Numerics, pts1: seq<Point>, pts2: seq<Point>, t: real, s: Search)
    requires |pts1| == |pts2|
  {
    && |s.bestMask| == |pts1|
    && s.bestInliers == Count(s.bestMask)
    && (s.bestH.Empty? ==> s.bestInliers == 0)
    && (s.bestH.Mat? ==> s.bestInliers > 0 && Usable(s.bestH)
                         && s.bestMask == FindInliers(num, s.bestH, pts1, pts2, t))
  }

  /** Adopt `h` with mask `mask` if it has more inliers than the best so far, shrinking
      the iteration budget when the new inlier ratio lies strictly between 0 and 1. */
  function Improve(num: Numerics, n: nat, p: real, s: Search, h: Matrix, mask: seq<bool>): (s': Search)
    requires n > 0
    ensures s'.iterations == s.iterations
    ensures s'.maxIterations <= s.maxIterations
    ensures Count(mask) > s.bestInliers ==> s'.bestH == h && s'.bestMask == mask && s'.bestInliers == Count(mask)
    ensures Count(mask) <= s.bestInliers ==> s' == s
    ensures var w := Count(mask) as real / n as real;
            Count(mask) > s.bestInliers && 0.0 < w < 1.0 ==>
              s'.maxIterations == (if num.budget(p, w) + 1 < s.maxIterations then num.budget(p, w) + 1 else s.maxIterations)
  {
    var k := Count(mask);
    if k > s.bestInliers then
      var w := k as real / n as real;
      var budget := if 0.0 < w < 1.0 then
                      (if num.budget(p, w) + 1 < s.maxIterations then num.budget(p, w) + 1 else s.maxIterations)
                    else s.maxIterations;
      Search(s.iterations, budget, k, h, mask)
    else s
  }

  /** One pass of the loop body on a drawn sample: solve, classify, keep the better
      candidate, and count the iteration (a degenerate sample counts only when
      `countDegenerate` holds). */
  function Next(num: Numerics, pts1: seq<Point>, pts2: seq<Point>, t: real, p: real,
                s: Search, sample: seq<nat>, countDegenerate: bool): (s': Search)
    requires |pts1| == |pts2| >= 4 && |sample| == 4 && InRange(sample, |pts1|)
    ensures Tracked(num, pts1, pts2, t, s) ==> Tracked(num, pts1, pts2, t, s')
    ensures s'.maxIterations <= s.maxIterations
    ensures s'.bestInliers >= s.bestInliers
    ensures MinimalModel(num, pts1, pts2, sample).Empty? && !countDegenerate ==> s' == s
    ensures MinimalModel(num, pts1, pts2, sample).Empty? && countDegenerate ==> s' == s.(iterations := s.iterations + 1)
    ensures MinimalModel(num, pts1, pts2, sample).Mat? ==> s'.iterations == s.iterations + 1
  {
    var h := MinimalModel(num, pts1, pts2, sample);
    if h.Empty? then
      if countDegenerate then s.(iterations := s.iterations + 1) else s
    else
      var s' := Improve(num, |pts1|, p, s, h, FindInliers(num, h, pts1, pts2, t));
      s'.(iterations := s'.iterations + 1)
  }

  /** The `while (iterations < max_iterations_)` loop. With `countDegenerate` false it is
      the loop as written: a degenerate sample `continue`s past `iterations++`. With it
      true every drawn sample counts as an iteration. */
  function Loop(num: Numerics, pts1: seq<Point>, pts2: seq<Point>, t: real, p: real,
                s: Search, draws: seq<nat>, countDegenerate: bool): (r: Option<Search>)
    requires |pts1| == |pts2| >= 4 && InRange(draws, |pts1|)
    ensures r.Some? && Tracked(num, pts1, pts2, t, s) ==> Tracked(num, pts1, pts2, t, r.value)
    ensures r.Some? ==> r.value.iterations as int >= r.value.maxIterations
    ensures r.Some? ==> r.value.maxIterations <= s.maxIterations
    ensures r.Some? ==> s.iterations <= r.value.iterations
    ensures r.Some? ==> r.value.iterations as int <= (if s.iterations as int < s.maxIterations then s.maxIterations else s.iterations as int)
    ensures r.Some? ==> r.value.bestInliers >= s.bestInliers
    decreases |draws|
  {
    if s.iterations as int >= s.maxIterations then Some(s)
    else
      SampleIsValid(draws, |pts1|);
      match DrawSample(draws, [])
      case None => None
      case Some((sample, rest)) =>
        Loop(num, pts1, pts2, t, p, Next(num, pts1, pts2, t, p, s, sample, countDegenerate), rest, countDegenerate)
  }

  /** As written, a solver whose every sample is degenerate never lets the loop end:
      whatever the draws, the loop runs out of them before `iterations` moves. */
  lemma {:induction false} DegenerateSamplesNeverEnd(num: Numerics, pts1: seq<Point>, pts2: seq<Point>,
                                                     t: real, p: real, s: Search, draws: seq<nat>)
    requires |pts1| == |pts2| >= 4 && InRange(draws, |pts1|)
    requires forall a, b :: num.fit(a, b) == Empty
    requires s.iterations as int < s.maxIterations
    ensures Loop(num, pts1, pts2, t, p, s, draws, false) == None
    decreases |draws|
  {
    SampleIsValid(draws, |pts1|);
    match DrawSample(draws, [])
    case None =>
    case Some((sample, rest)) =>
      assert MinimalModel(num, pts1, pts2, sample).Empty?;
      assert Next(num, pts1, pts2, t, p, s, sample, false) == s;
      DegenerateSamplesNeverEnd(num, pts1, pts2, t, p, s, rest);
  }

  /** When every drawn sample counts, the loop ends as soon as the draws can supply as
      many samples as the remaining budget, whatever the solver returns. */
  lemma {:induction false} CountedLoopEnds(num: Numerics, pts1: seq<Point>, pts2: seq<Point>,
                                           t: real, p: real, s: Search, draws: seq<nat>)
    requires |pts1| == |pts2| >= 4 && InRange(draws, |pts1|)
    requires SamplesAvailable(draws) as int >= s.maxIterations - s.iterations as int
    ensures Loop(num, pts1, pts2, t, p, s, draws, true).Some?
    decreases |draws|
  {
    if s.iterations as int < s.maxIterations {
      SampleIsValid(draws, |pts1|);
      var d := DrawSample(draws, []);
      assert d.Some?;
      var sample, rest := d.value.0, d.value.1;
      assert SamplesAvailable(draws) == 1 + SamplesAvailable(rest);
      var s' := Next(num, pts1, pts2, t, p, s, sample, true);
      assert s'.iterations == s.iterations + 1;
      assert Loop(num, pts1, pts2, t, p, s, draws, true) == Loop(num, pts1, pts2, t, p, s', rest, true);
      CountedLoopEnds(num, pts1, pts2, t, p, s', rest);
    }
  }

  /** Counting degenerate samples changes nothing on runs whose samples are never
      degenerate. */
  lemma {:induction false} CountingAgreesWithoutDegenerateSamples(
    num: Numerics, pts1: seq<Point>, pts2: seq<Point>, t: real, p: real, s: Search, draws: seq<nat>)
    requires |pts1| == |pts2| >= 4 && InRange(draws, |pts1|)
    requires forall a, b :: Usable(num.fit(a, b))
    ensures Loop(num, pts1, pts2, t, p, s, draws, false) == Loop(num, pts1, pts2, t, p, s, draws, true)
    decreases |draws|
  {
    if s.iterations as int < s.maxIterations {
      SampleIsValid(draws, |pts1|);
      match DrawSample(draws, [])
      case None =>
      case Some((sample, rest)) =>
        var s' := Next(num, pts1, pts2, t, p, s, sample, true);
        assert Next(num, pts1, pts2, t, p, s, sample, false) == s';
        CountingAgreesWithoutDegenerateSamples(num, pts1, pts2, t, p, s', rest);
    }
  }

  // ---------------------------------------------------------------------------------
  // Refit and error report

  /** What holds of the candidate once the loop and the refit are over. */
  ghost predicate Consistent(num: Numerics, pts1: seq<Point>, pts2: seq<Point>, t: real, s: Search)
    requires |pts1| == |pts2|
  {
    && |s.bestMask| == |pts1|
    && s.bestInliers == Count(s.bestMask)
    && (s.bestH.Empty? ==> s.bestInliers == 0)
    && (s.bestH.Mat? ==> s.bestMask == FindInliers(num, s.bestH, pts1, pts2, t))
  }

  /** The all-inlier refit: with at least 4 inliers, fit through exactly the masked
      points; a non-empty fit replaces the candidate and is reclassified, an empty fit
      leaves the candidate and its mask unchanged. */
  function Refit(num: Numerics, pts1: seq<Point>, pts2: seq<Point>, t: real, s: Search): (s': Search)
    requires |pts1| == |pts2| && Tracked(num, pts1, pts2, t, s)
    ensures Consistent(num, pts1, pts2, t, s')
    ensures s'.iterations == s.iterations
    ensures s.bestInliers < 4 ==> s' == s
    ensures s.bestInliers >= 4 ==>
              var refined := num.fit(Select(pts1, s.bestMask), Select(pts2, s.bestMask));
              if refined.Empty? then s' == s
              else s'.bestH == refined && s'.bestMask == FindInliers(num, refined, pts1, pts2, t)
  {
    if s.bestInliers >= 4 then
      var refined := num.fit(Select(pts1, s.bestMask), Select(pts2, s.bestMask));
      if refined.Mat? then
        var mask := FindInliers(num, refined, pts1, pts2, t);
        s.(bestH := refined, bestMask := mask, bestInliers := Count(mask))
      else s
    else s
  }

  /** A distance as the error loop can meet it: never negative, never -infinity. */
  predicate NonNegative(e: Flt)
  {
    !e.NegInf? && (e.Fin? ==> e.v >= 0.0)
  }

  /** IEEE sum of the terms that are present, and how many there are. The terms are
      added from the last one back; over terms that are finite and non-negative,
      +infinity or NaN, the IEEE sum does not depend on the order. */
  function SumTerms(terms: seq<Option<Flt>>): (r: (Flt, nat))
    requires forall i :: 0 <= i < |terms| && terms[i].Some? ==> NonNegative(terms[i].value)
    ensures NonNegative(r.0)
    ensures r.1 <= |terms|
    ensures r.1 == 0 ==> r.0 == Fin(0.0)
  {
    if |terms| == 0 then (Fin(0.0), 0)
    else
      assert forall i :: 1 <= i < |terms| ==> terms[1..][i - 1] == terms[i];
      var rest := SumTerms(terms[1..]);
      if terms[0].Some? then
        AddNonNegative(terms[0].value, rest.0);
        (Add(terms[0].value, rest.0), rest.1 + 1)
      else rest
  }

  lemma AddNonNegative(a: Flt, b: Flt)
    requires NonNegative(a) && NonNegative(b)
    ensures NonNegative(Add(a, b))
  {
  }

  /** The terms of the error loop, one per point. */
  function ErrorTerms(num: Numerics, h: Matrix, pts1: seq<Point>, pts2: seq<Point>, mask: seq<bool>)
    : (ts: seq<Option<Flt>>)
    requires h.Mat? && |pts2| >= |pts1| && |mask| >= |pts1|
    ensures |ts| == |pts1|
    ensures forall i :: 0 <= i < |pts1| ==> ts[i] == ErrorTerm(num, h, pts1[i], pts2[i], mask[i])
    ensures forall i :: 0 <= i < |ts| && ts[i].Some? ==> NonNegative(ts[i].value)
  {
    seq(|pts1|, i requires 0 <= i < |pts1| => ErrorTerm(num, h, pts1[i], pts2[i], mask[i]))
  }

  /** IEEE sum of the reprojection distances of the masked points whose homogeneous
      weight passes the 1e-10 test, and how many there are (the loop of
      `computeReprojectionError`). */
  function ErrorSum(num: Numerics, h: Matrix, pts1: seq<Point>, pts2: seq<Point>, mask: seq<bool>)
    : (r: (Flt, nat))
    requires h.Mat? && |pts2| >= |pts1| && |mask| >= |pts1|
    ensures NonNegative(r.0)
    ensures r.1 <= |pts1|
    ensures r.1 == 0 ==> r.0 == Fin(0.0)
  {
    SumTerms(ErrorTerms(num, h, pts1, pts2, mask))
  }

  /** What one point adds to that sum: its distance, when it is masked and its weight
      passes the 1e-10 test. */
  function ErrorTerm(num: Numerics, h: Matrix, p1: Point, p2: Point, masked: bool): (r: Option<Flt>)
    requires h.Mat?
    ensures r.Some? <==> masked && SquaredResidual(h, p1, p2).Some?
    ensures r.Some? ==> r.value == Distance(num, SquaredResidual(h, p1, p2).value)
    ensures r.Some? ==> NonNegative(r.value)
  {
    var res := SquaredResidual(h, p1, p2);
    if masked && res.Some? then Some(Distance(num, res.value)) else None
  }

  /** `computeReprojectionError`: -1 for an empty matrix or when no masked point is
      usable, otherwise the IEEE mean distance. */
  function ReprojectionError(num: Numerics, h: Matrix, pts1: seq<Point>, pts2: seq<Point>, mask: seq<bool>)
    : (e: Flt)
    requires |pts2| >= |pts1| && |mask| >= |pts1|
    ensures h.Empty? ==> e == Fin(-1.0)
    ensures e == Fin(-1.0) || (!e.NegInf? && (e.Fin? ==> e.v >= 0.0))
  {
    if h.Empty? then Fin(-1.0)
    else
      var (total, count) := ErrorSum(num, h, pts1, pts2, mask);
      if count > 0 then
        assert total.Fin? ==> total.v / count as real >= 0.0;
        Div(total, Fin(count as real))
      else Fin(-1.0)
  }

  /** A NaN term makes the whole sum NaN. */
  lemma {:induction false} NaNTermPoisons(terms: seq<Option<Flt>>, i: nat)
    requires forall k :: 0 <= k < |terms| && terms[k].Some? ==> NonNegative(terms[k].value)
    requires i < |terms| && terms[i] == Some(NaN)
    ensures SumTerms(terms).0.NaN?
  {
    assert forall k :: 1 <= k < |terms| ==> terms[1..][k - 1] == terms[k];
    if i > 0 {
      NaNTermPoisons(terms[1..], i - 1);
    }
  }

  /** A masked point whose distance is NaN makes the whole sum NaN. */
  lemma NaNDistancePoisonsSum(num: Numerics, h: Matrix, pts1: seq<Point>, pts2: seq<Point>,
                              mask: seq<bool>, i: nat)
    requires h.Mat? && |pts2| >= |pts1| && |mask| >= |pts1| && i < |pts1|
    requires mask[i] && SquaredResidual(h, pts1[i], pts2[i]) == Some(NaN)
    ensures ErrorSum(num, h, pts1, pts2, mask).0.NaN?
  {
    NaNTermPoisons(ErrorTerms(num, h, pts1, pts2, mask), i);
  }

  /** Hence the reported error is NaN as soon as one masked point's distance is. */
  lemma NaNDistancePoisonsError(num: Numerics, h: Matrix, pts1: seq<Point>, pts2: seq<Point>,
                                mask: seq<bool>, i: nat)
    requires h.Mat? && |pts2| >= |pts1| && |mask| >= |pts1| && i < |pts1|
    requires mask[i] && SquaredResidual(h, pts1[i], pts2[i]) == Some(NaN)
    ensures ReprojectionError(num, h, pts1, pts2, mask).NaN?
  {
    NaNDistancePoisonsSum(num, h, pts1, pts2, mask, i);
  }

  /** Terms present exactly where the mask is set, each finite and below `t`, sum to a
      finite total below `count * t`, with one count per set entry. */
  lemma {:induction false} SumOfInlierTerms(terms: seq<Option<Flt>>, mask: seq<bool>, t: real)
    requires |terms| == |mask|
    requires forall i :: 0 <= i < |terms| ==> (terms[i].Some? <==> mask[i])
    requires forall i :: 0 <= i < |terms| && terms[i].Some? ==> terms[i].value.Fin? && 0.0 <= terms[i].value.v < t
    ensures SumTerms(terms).1 == Count(mask)
    ensures SumTerms(terms).0.Fin?
    ensures SumTerms(terms).1 > 0 ==> SumTerms(terms).0.v < Times(SumTerms(terms).1, t)
  {
    if |terms| > 0 {
      assert forall k :: 1 <= k < |terms| ==> terms[1..][k - 1] == terms[k] && mask[1..][k - 1] == mask[k];
      SumOfInlierTerms(terms[1..], mask[1..], t);
      var rest := SumTerms(terms[1..]);
      assert Count(mask) == (if mask[0] then 1 else 0) + Count(mask[1..]);
      if mask[0] {
        AddInlier(terms[0].value, rest.0, rest.1, t);
        assert SumTerms(terms) == (Add(terms[0].value, rest.0), rest.1 + 1);
      } else {
        assert SumTerms(terms) == rest;
      }
    }
  }

  /** Adding a finite distance below `t` to a finite total below `count * t`. */
  lemma AddInlier(e: Flt, total: Flt, count: nat, t: real)
    requires e.Fin? && e.v < t && total.Fin?
    requires (count == 0 ==> total.v == 0.0) && (count > 0 ==> total.v < Times(count, t))
    ensures Add(e, total).Fin? && Add(e, total).v < Times(count + 1, t)
  {
    AddBelow(e.v, total.v, count, t);
  }

  /** Over a mask that agrees with the classifier for the same matrix and threshold,
      every masked point is counted and each distance is below the threshold. */
  lemma ErrorSumOfInliers(num: Numerics, h: Matrix, pts1: seq<Point>, pts2: seq<Point>,
                          t: real, mask: seq<bool>)
    requires h.Mat? && |pts2| >= |pts1| && |mask| == |pts1|
    requires forall i :: 0 <= i < |pts1| ==> (mask[i] <==> IsInlier(num, h, pts1[i], pts2[i], t))
    ensures ErrorSum(num, h, pts1, pts2, mask).1 == Count(mask)
    ensures ErrorSum(num, h, pts1, pts2, mask).0.Fin?
    ensures ErrorSum(num, h, pts1, pts2, mask).1 > 0 ==>
              ErrorSum(num, h, pts1, pts2, mask).0.v < Times(ErrorSum(num, h, pts1, pts2, mask).1, t)
  {
    var terms := ErrorTerms(num, h, pts1, pts2, mask);
    forall i | 0 <= i < |terms|
      ensures terms[i].Some? <==> mask[i]
      ensures terms[i].Some? ==> terms[i].value.Fin? && 0.0 <= terms[i].value.v < t
    {
      if mask[i] {
        InlierTerm(num, h, pts1[i], pts2[i], t);
      }
    }
    SumOfInlierTerms(terms, mask, t);
  }

  /** An inlier contributes a finite distance below the threshold. */
  lemma InlierTerm(num: Numerics, h: Matrix, p1: Point, p2: Point, t: real)
    requires h.Mat? && IsInlier(num, h, p1, p2, t)
    ensures ErrorTerm(num, h, p1, p2, true).Some?
    ensures ErrorTerm(num, h, p1, p2, true).value.Fin? && ErrorTerm(num, h, p1, p2, true).value.v < t
  {
  }

  /** `n * t` by repeated addition, which keeps the sums above in linear arithmetic. */
  function Times(n: nat, t: real): real
  {
    if n == 0 then 0.0 else t + Times(n - 1, t)
  }

  lemma AddBelow(e: real, total: real, count: nat, t: real)
    requires e < t && (count == 0 ==> total == 0.0) && (count > 0 ==> total < Times(count, t))
    ensures e + total < Times(count + 1, t)
  {
  }

  lemma {:induction false} TimesIsProduct(n: nat, t: real)
    ensures Times(n, t) == n as real * t
  {
    if n > 0 {
      TimesIsProduct(n - 1, t);
    }
  }

  lemma MeanBelow(total: real, count: nat, t: real)
    requires count > 0 && 0.0 <= total < Times(count, t)
    ensures 0.0 <= total / count as real < t
  {
    TimesIsProduct(count, t);
    var c := count as real;
    assert total / c * c == total;
  }

  /** The reported error over a self-consistent mask is -1 exactly when there is no
      inlier, and otherwise a mean in [0, t). */
  lemma ReprojectionErrorBound(num: Numerics, h: Matrix, pts1: seq<Point>, pts2: seq<Point>, t: real)
    requires h.Mat? && |pts2| >= |pts1|
    ensures var mask := FindInliers(num, h, pts1, pts2, t);
            var e := ReprojectionError(num, h, pts1, pts2, mask);
            (Count(mask) == 0 ==> e == Fin(-1.0)) && (Count(mask) > 0 ==> e.Fin? && 0.0 <= e.v < t)
  {
    var mask := FindInliers(num, h, pts1, pts2, t);
    ErrorSumOfInliers(num, h, pts1, pts2, t, FindInliers(num, h, pts1, pts2, t));
    var r := ErrorSum(num, h, pts1, pts2, mask);
    if r.1 > 0 {
      MeanBelow(r.0.v, r.1, t);
    }
  }

  // ---------------------------------------------------------------------------------
  // The estimator

  function InitialSearch(n: nat, maxIterations: int): Search
  {
    Search(0, maxIterations, 0, Empty, seq(n, _ => false))
  }

  lemma RatioInUnit(k: nat, n: nat)
    requires 0 < n && k <= n
    ensures 0.0 <= k as real / n as real <= 1.0
  {
    assert k as real / n as real * n as real == k as real;
  }

  /** The fields of the returned `RANSACResult`, read off the final candidate. */
  function Report(num: Numerics, pts1: seq<Point>, pts2: seq<Point>, t: real, f: Search): (res: RansacResult)
    requires |pts1| == |pts2| > 0 && Consistent(num, pts1, pts2, t, f)
    ensures |res.inlierMask| == |pts1|
    ensures res.numInliers == Count(res.inlierMask)
    ensures res.inlierRatio == res.numInliers as real / |pts1| as real
    ensures 0.0 <= res.inlierRatio <= 1.0
    ensures res.numIterations == f.iterations
    ensures res.homography.Empty? ==> res.numInliers == 0 && res.reprojectionError == Fin(-1.0)
    ensures res.homography.Mat? ==> res.inlierMask == FindInliers(num, res.homography, pts1, pts2, t)
    ensures res.reprojectionError == Fin(-1.0) <==> res.numInliers == 0
    ensures res.numInliers > 0 ==> res.reprojectionError.Fin? && 0.0 <= res.reprojectionError.v < t
  {
    var err := ReprojectionError(num, f.bestH, pts1, pts2, f.bestMask);
    assert f.bestH.Mat? ==> (f.bestInliers == 0 ==> err == Fin(-1.0)) && (f.bestInliers > 0 ==> err.Fin? && 0.0 <= err.v < t) by {
      if f.bestH.Mat? {
        ReprojectionErrorBound(num, f.bestH, pts1, pts2, t);
      }
    }
    var n := |pts1| as real;
    assert f.bestInliers <= |pts1|;
    RatioInUnit(f.bestInliers, |pts1|);
    RansacResult(f.bestH, f.bestMask, f.bestInliers, f.bestInliers as real / n, f.iterations, err)
  }

  /** `findHomography`: guard, sampling loop, all-inlier refit and report. The loop is the
      corrected one that counts every drawn sample (see `Loop`). */
  function FindHomography(num: Numerics, pts1: seq<Point>, pts2: seq<Point>, t: real, p: real,
                          maxIterations: int, draws: seq<nat>): (r: Outcome)
    requires InRange(draws, |pts1|)
    ensures r.InputRejected? <==> |pts1| < 4 || |pts1| != |pts2|
    ensures r.Estimated? ==>
              var res := r.result;
              && |res.inlierMask| == |pts1|
              && res.numInliers == Count(res.inlierMask)
              && res.inlierRatio == res.numInliers as real / |pts1| as real
              && 0.0 <= res.inlierRatio <= 1.0
              && res.numIterations as int <= (if maxIterations > 0 then maxIterations else 0)
              && (res.homography.Empty? ==> res.numInliers == 0 && res.reprojectionError == Fin(-1.0))
              && (res.homography.Mat? ==> res.inlierMask == FindInliers(num, res.homography, pts1, pts2, t))
              && (res.reprojectionError == Fin(-1.0) <==> res.numInliers == 0)
              && (res.numInliers > 0 ==> res.reprojectionError.Fin? && 0.0 <= res.reprojectionError.v < t)
    ensures SamplesAvailable(draws) as int >= maxIterations && |pts1| == |pts2| >= 4 ==> r.Estimated?
  {
    if |pts1| < 4 || |pts1| != |pts2| then InputRejected
    else
      var s0 := InitialSearch(|pts1|, maxIterations);
      assert Count(s0.bestMask) == 0 by { CountAllFalse(|pts1|); }
      var loop := Loop(num, pts1, pts2, t, p, s0, draws, true);
      assert SamplesAvailable(draws) as int >= maxIterations ==> loop.Some? by {
        if SamplesAvailable(draws) as int >= maxIterations {
          CountedLoopEnds(num, pts1, pts2, t, p, s0, draws);
        }
      }
      if loop.None? then Exhausted
      else Estimated(Report(num, pts1, pts2, t, Refit(num, pts1, pts2, t, loop.value)))
  }

  lemma {:induction false} CountAllFalse(n: nat)
    ensures Count(seq(n, _ => false)) == 0
  {
    if n > 0 {
      assert seq(n, _ => false)[1..] == seq(n - 1, _ => false);
      CountAllFalse(n - 1);
    }
  }

  // ---------------------------------------------------------------------------------
  // Point extraction

  /** The keypoint index a match designates on the query or the train side. */
  function MatchIndex(m: DMatch, query: bool): int
  {
    if query then m.queryIdx else m.trainIdx
  }

  /** `extractPoints`: the designated keypoint of every match whose index is in range,
      in match order; out-of-range matches are skipped with a warning. */
  function ExtractPoints(keypoints: seq<KeyPoint>, matches: seq<DMatch>, query: bool): (pts: seq<Point>)
    ensures |pts| <= |matches|
    ensures (forall i :: 0 <= i < |matches| ==> 0 <= MatchIndex(matches[i], query) < |keypoints|) ==>
              |pts| == |matches| &&
              forall i :: 0 <= i < |matches| ==> pts[i] == keypoints[MatchIndex(matches[i], query)].pt
    ensures forall q :: q in pts ==> exists k :: 0 <= k < |keypoints| && keypoints[k].pt == q
  {
    if |matches| == 0 then []
    else
      var idx := MatchIndex(matches[0], query);
      var rest := ExtractPoints(keypoints, matches[1..], query);
      if 0 <= idx < |keypoints| then [keypoints[idx].pt] + rest else rest
  }
}
