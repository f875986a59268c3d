/** `AKAZEDetector`: AKAZE has no feature budget of its own, so `detect` keeps the
    `max_features_` keypoints of largest response after detection. Detection, grey
    conversion and description are passed in; the model is the selection between them. */
module Akaze {
  import opened Features
  import opened Floats

  /** The detector's only state that matters here: `max_features_`, 2000 unless set. */
  datatype AkazeDetector = AkazeDetector(maxFeatures: Int32)

  function NewAkazeDetector(): (d: AkazeDetector)
    ensures d.maxFeatures == 2000
  {
    AkazeDetector(2000)
  }

  /** `setMaxFeatures` records the budget and does nothing else. */
  function SetMaxFeatures(d: AkazeDetector, n: Int32): (d': AkazeDetector)
    ensures d'.maxFeatures == n
    ensures d' == d.(maxFeatures := n)
  {
    if n != d.maxFeatures then AkazeDetector(n) else d
  }

  /** `static_cast<size_t>(max_features_)` on a 64-bit target: a negative budget wraps to
      a huge one. */
  function AsSize(n: Int32): (s: nat)
    ensures n >= 0 ==> s == n
    ensures n < 0 ==> s >= 0x1_0000_0000_0000_0000 - 0x8000_0000
  {
    if n >= 0 then n else n + 0x1_0000_0000_0000_0000
  }

  /** `PTRDIFF_MAX + 1`: no `std::vector` is longer than this. */
  const MAX_VECTOR_SIZE: nat := 0x8000_0000_0000_0000

  predicate SortedByResponse(s: seq<KeyPoint>)
  {
    forall i, j :: 0 <= i < j < |s| ==> s[i].response >= s[j].response
  }

  /** Places `k` in front of the first keypoint of no larger response. */
  function Insert(k: KeyPoint, s: seq<KeyPoint>): (r: seq<KeyPoint>)
    requires SortedByResponse(s)
    ensures SortedByResponse(r)
    ensures multiset(r) == multiset(s) + multiset{k}
    ensures |r| == |s| + 1
    ensures r[0] == k || (|s| > 0 && r[0] == s[0])
  {
    if |s| == 0 || k.response >= s[0].response then
      [k] + s
    else
      var tail := Insert(k, s[1..]);
      assert s == [s[0]] + s[1..];
      [s[0]] + tail
  }

  /** The keypoints ordered by decreasing response: one of the orders the comparator
      `a.response > b.response` admits. */
  function SortByResponse(s: seq<KeyPoint>): (r: seq<KeyPoint>)
    ensures SortedByResponse(r)
    ensures multiset(r) == multiset(s)
    ensures |r| == |s|
  {
    if |s| == 0 then []
    else
      assert s == [s[0]] + s[1..];
      Insert(s[0], SortByResponse(s[1..]))
  }

  /** The `partial_sort` and `resize` of `detect`: with more keypoints than the budget,
      the budget's worth of largest responses, in decreasing order; otherwise all of them,
      untouched. */
  function KeepStrongest(all: seq<KeyPoint>, maxFeatures: Int32): (kept: seq<KeyPoint>)
    requires |all| < MAX_VECTOR_SIZE
    ensures |all| > AsSize(maxFeatures) ==> |kept| == maxFeatures && SortedByResponse(kept)
    ensures |all| <= AsSize(maxFeatures) ==> kept == all
    ensures multiset(kept) <= multiset(all)
  {
    if |all| > AsSize(maxFeatures) then
      var sorted := SortByResponse(all);
      assert sorted == sorted[..maxFeatures] + sorted[maxFeatures..];
      assert multiset(sorted) == multiset(sorted[..maxFeatures]) + multiset(sorted[maxFeatures..]);
      sorted[..maxFeatures]
    else all
  }

  /** In a sequence sorted by decreasing response, the first `n` outrank the rest. */
  lemma PrefixOutranksSuffix(sorted: seq<KeyPoint>, n: nat)
    requires SortedByResponse(sorted) && n <= |sorted|
    ensures forall a, b :: a in sorted[..n] && b in multiset(sorted[n..]) ==> a.response >= b.response
  {
    forall a, b | a in sorted[..n] && b in multiset(sorted[n..])
      ensures a.response >= b.response
    {
      var i :| 0 <= i < n && sorted[..n][i] == a;
      var j :| 0 <= j < |sorted| - n && sorted[n..][j] == b;
      assert sorted[i] == a && sorted[n + j] == b;
    }
  }

  /** No discarded keypoint responds more strongly than a kept one. */
  lemma KeptOutrankDiscarded(all: seq<KeyPoint>, maxFeatures: Int32)
    requires |all| < MAX_VECTOR_SIZE
    ensures var kept := KeepStrongest(all, maxFeatures);
            forall a, b :: a in kept && b in multiset(all) - multiset(kept) ==> a.response >= b.response
  {
    var kept := KeepStrongest(all, maxFeatures);
    if |all| > AsSize(maxFeatures) {
      var sorted := SortByResponse(all);
      assert sorted == kept + sorted[maxFeatures..];
      assert multiset(all) - multiset(kept) == multiset(sorted[maxFeatures..]);
      PrefixOutranksSuffix(sorted, maxFeatures);
    } else {
      assert multiset(all) - multiset(kept) == multiset{};
    }
  }

  /** What `detect` hands back: the keypoints and descriptors `compute` produced. */
  datatype DetectionResult<D> = DetectionResult(keypoints: seq<KeyPoint>, descriptors: D, detectorName: string)

  /** `detect`: grey conversion of three-channel input, detection, the budget cut, then
      description of the kept keypoints only (`compute` may drop keypoints it cannot
      describe, so the result holds whatever it returns). */
  function Detect<I, D>(d: AkazeDetector, image: I, channels: nat,
                        toGray: I -> I, detect: I -> seq<KeyPoint>,
                        compute: (I, seq<KeyPoint>) -> (seq<KeyPoint>, D)): (r: DetectionResult<D>)
    requires |detect(if channels == 3 then toGray(image) else image)| < MAX_VECTOR_SIZE
    ensures r.detectorName == "AKAZE"
    ensures var gray := if channels == 3 then toGray(image) else image;
            var all := detect(gray);
            (r.keypoints, r.descriptors) == compute(gray, KeepStrongest(all, d.maxFeatures))
  {
    var gray := if channels == 3 then toGray(image) else image;
    var kept := KeepStrongest(detect(gray), d.maxFeatures);
    var (kps, desc) := compute(gray, kept);
    DetectionResult(kps, desc, "AKAZE")
  }
}
