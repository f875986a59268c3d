/** `FeatureMatcher::matchFeatures` and its ratio test. The brute-force k-nearest-neighbour
    search is passed in as `knn`; only the guards before it and the bookkeeping after it
    are modelled. */
module Matcher {
  import opened Wrappers
  import opened Features

  /** The shape of a descriptor matrix: one row per keypoint. */
  datatype Descriptors = Descriptors(rows: nat, cols: nat)

  /** `cv::Mat::empty()`: no elements at all. */
  predicate IsEmpty(d: Descriptors)
  {
    d.rows == 0 || d.cols == 0
  }

  /** `MatchingResult`. The two counters are left uninitialised on the error paths of the
      source; `None` stands for that indeterminate value. Timings are not modelled. */
  datatype MatchingResult = MatchingResult(
    goodMatches: seq<DMatch>,
    matchDistances: seq<real>,
    ratioTestThreshold: real,
    numInitialMatches: Option<nat>,
    numGoodMatches: Option<nat>)

  /** The default ratio of `matchFeatures`. */
  const DEFAULT_RATIO: real := 0.7

  /** Lowe's test on one neighbour list: exactly two neighbours and the nearer one
      clearly nearer. */
  predicate Passes(pair: seq<DMatch>, ratio: real)
  {
    |pair| == 2 && pair[0].distance < ratio * pair[1].distance
  }

  /** `ratioTest`: the nearest neighbour of every list that passes, in order. */
  function RatioTest(knn: seq<seq<DMatch>>, ratio: real): (good: seq<DMatch>)
    ensures |good| <= |knn|
    ensures forall m :: m in good ==> exists j :: 0 <= j < |knn| && Passes(knn[j], ratio) && knn[j][0] == m
    ensures forall j :: 0 <= j < |knn| && Passes(knn[j], ratio) ==> knn[j][0] in good
  {
    if |knn| == 0 then []
    else
      var rest := RatioTest(knn[1..], ratio);
      assert forall m :: m in rest ==> exists j :: 0 < j < |knn| && Passes(knn[j], ratio) && knn[j][0] == m by {
        forall m | m in rest ensures exists j :: 0 < j < |knn| && Passes(knn[j], ratio) && knn[j][0] == m {
          var j :| 0 <= j < |knn[1..]| && Passes(knn[1..][j], ratio) && knn[1..][j][0] == m;
          assert knn[j + 1] == knn[1..][j];
        }
      }
      assert forall j :: 1 <= j < |knn| ==> knn[j] == knn[1..][j - 1];
      if Passes(knn[0], ratio) then [knn[0][0]] + rest else rest
  }

  /** The ratio test works list by list: on a concatenation it is the concatenation of
      its results. */
  lemma {:induction false} RatioTestAppend(a: seq<seq<DMatch>>, b: seq<seq<DMatch>>, ratio: real)
    ensures RatioTest(a + b, ratio) == RatioTest(a, ratio) + RatioTest(b, ratio)
    decreases |a|
  {
    if |a| > 0 {
      assert (a + b)[1..] == a[1..] + b;
      RatioTestAppend(a[1..], b, ratio);
    } else {
      assert a + b == b;
    }
  }

  /** On one list it keeps the nearest neighbour exactly when Lowe's test passes. */
  lemma RatioTestSingle(pair: seq<DMatch>, ratio: real)
    ensures RatioTest([pair], ratio) == if Passes(pair, ratio) then [pair[0]] else []
  {
    assert [pair][1..] == [];
  }

  /** How many lists pass Lowe's test. */
  function PassCount(knn: seq<seq<DMatch>>, ratio: real): nat
  {
    if |knn| == 0 then 0 else (if Passes(knn[0], ratio) then 1 else 0) + PassCount(knn[1..], ratio)
  }

  /** The ratio test keeps one match per list that passes. */
  lemma {:induction false} RatioTestLength(knn: seq<seq<DMatch>>, ratio: real)
    ensures |RatioTest(knn, ratio)| == PassCount(knn, ratio)
  {
    if |knn| > 0 {
      RatioTestLength(knn[1..], ratio);
    }
  }

  /** `a` is `b` with some entries left out, the rest in the same order. */
  predicate IsSubsequence<T(==)>(a: seq<T>, b: seq<T>)
    decreases |b|
  {
    |a| == 0 || (|b| > 0 && ((a[0] == b[0] && IsSubsequence(a[1..], b[1..])) || IsSubsequence(a, b[1..])))
  }

  /** The nearest neighbour of every two-entry list: what the ratio test would keep if it
      let every candidate through. */
  function Candidates(knn: seq<seq<DMatch>>): (c: seq<DMatch>)
    ensures |c| <= |knn|
  {
    if |knn| == 0 then []
    else (if |knn[0]| == 2 then [knn[0][0]] else []) + Candidates(knn[1..])
  }

  /** The ratio test keeps a subsequence of the candidates, in their original order. */
  lemma {:induction false} RatioTestKeepsOrder(knn: seq<seq<DMatch>>, ratio: real)
    ensures IsSubsequence(RatioTest(knn, ratio), Candidates(knn))
  {
    if |knn| > 0 {
      RatioTestKeepsOrder(knn[1..], ratio);
      var rest := RatioTest(knn[1..], ratio);
      var crest := Candidates(knn[1..]);
      if |knn[0]| == 2 {
        assert Candidates(knn) == [knn[0][0]] + crest;
        assert Candidates(knn)[1..] == crest;
        if Passes(knn[0], ratio) {
          assert RatioTest(knn, ratio) == [knn[0][0]] + rest;
          assert RatioTest(knn, ratio)[1..] == rest;
        } else {
          SkipHead(rest, Candidates(knn));
        }
      } else {
        assert Candidates(knn) == crest;
      }
    }
  }

  /** A subsequence of the tail of `b` is a subsequence of `b`. */
  lemma SkipHead<T>(a: seq<T>, b: seq<T>)
    requires |b| > 0 && IsSubsequence(a, b[1..])
    ensures IsSubsequence(a, b)
  {
  }

  /** With non-negative distances a larger ratio keeps every match a smaller one keeps,
      and in the same order. */
  lemma {:induction false} RatioTestMonotone(knn: seq<seq<DMatch>>, r1: real, r2: real)
    requires r1 <= r2
    requires forall j, k :: 0 <= j < |knn| && 0 <= k < |knn[j]| ==> knn[j][k].distance >= 0.0
    ensures IsSubsequence(RatioTest(knn, r1), RatioTest(knn, r2))
  {
    if |knn| > 0 {
      RatioTestMonotone(knn[1..], r1, r2);
      var rest1 := RatioTest(knn[1..], r1);
      var rest2 := RatioTest(knn[1..], r2);
      if Passes(knn[0], r1) {
        ScaleMonotone(r1, r2, knn[0][1].distance);
        assert Passes(knn[0], r2);
        assert RatioTest(knn, r1)[1..] == rest1;
        assert RatioTest(knn, r2)[1..] == rest2;
      } else if Passes(knn[0], r2) {
        SkipHead(rest1, RatioTest(knn, r2));
      }
    }
  }

  lemma ScaleMonotone(r1: real, r2: real, d: real)
    requires r1 <= r2 && d >= 0.0
    ensures r1 * d <= r2 * d
  {
    assert r2 * d - r1 * d == (r2 - r1) * d;
  }

  /** `match_distances`, one entry per good match. */
  function Distances(good: seq<DMatch>): (ds: seq<real>)
    ensures |ds| == |good|
    ensures forall k :: 0 <= k < |good| ==> ds[k] == good[k].distance
  {
    seq(|good|, k requires 0 <= k < |good| => good[k].distance)
  }

  /** The three guards of `matchFeatures`: both descriptor sets non-empty, of the same
      width, and one descriptor row per keypoint. */
  predicate InputsUsable(d1: Descriptors, d2: Descriptors, nKeypoints1: nat, nKeypoints2: nat)
  {
    !IsEmpty(d1) && !IsEmpty(d2) && d1.cols == d2.cols && nKeypoints1 == d1.rows && nKeypoints2 == d2.rows
  }

  /** `matchFeatures`. The threshold is recorded before any guard, so every result carries
      it; a failed guard returns no matches and leaves the counters unset; otherwise the
      counters describe the lists they count. */
  function MatchFeatures(knn: (Descriptors, Descriptors) -> seq<seq<DMatch>>,
                         d1: Descriptors, d2: Descriptors,
                         keypoints1: seq<KeyPoint>, keypoints2: seq<KeyPoint>,
                         ratio: real): (r: MatchingResult)
    ensures r.ratioTestThreshold == ratio
    ensures !InputsUsable(d1, d2, |keypoints1|, |keypoints2|) ==>
              r.goodMatches == [] && r.matchDistances == [] && r.numInitialMatches.None? && r.numGoodMatches.None?
    ensures InputsUsable(d1, d2, |keypoints1|, |keypoints2|) ==>
              && r.numInitialMatches == Some(|knn(d1, d2)|)
              && r.numGoodMatches == Some(|r.goodMatches|)
              && r.goodMatches == RatioTest(knn(d1, d2), ratio)
              && |r.goodMatches| == PassCount(knn(d1, d2), ratio)
              && IsSubsequence(r.goodMatches, Candidates(knn(d1, d2)))
              && (forall m :: m in r.goodMatches ==> exists j :: 0 <= j < |knn(d1, d2)| && Passes(knn(d1, d2)[j], ratio) && knn(d1, d2)[j][0] == m)
              && (forall j :: 0 <= j < |knn(d1, d2)| && Passes(knn(d1, d2)[j], ratio) ==> knn(d1, d2)[j][0] in r.goodMatches)
              && |r.matchDistances| == |r.goodMatches|
              && (forall k :: 0 <= k < |r.goodMatches| ==> r.matchDistances[k] == r.goodMatches[k].distance)
  {
    if !InputsUsable(d1, d2, |keypoints1|, |keypoints2|) then
      MatchingResult([], [], ratio, None, None)
    else
      var pairs := knn(d1, d2);
      var good := RatioTest(pairs, ratio);
      RatioTestKeepsOrder(pairs, ratio);
      RatioTestLength(pairs, ratio);
      MatchingResult(good, Distances(good), ratio, Some(|pairs|), Some(|good|))
  }
}
