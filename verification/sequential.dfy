/** The two ways of stitching a list of images pair by pair. The pipeline starts from the
    middle image and grows the panorama to the left, then to the right; the command-line
    driver grows it from the first image to the right. The pairwise stitch is a parameter
    (`None` is the empty matrix it returns on failure), so the orchestration can be stated
    for every behaviour of the stitch. */
module Sequential {
  import opened Wrappers

  // ---------------------------------------------------------------------------------
  // Reference: a chain of steps in a fixed order

  /** One step of a stitch around reference position `m`: an image left of the
      reference is stitched in front of the panorama, any other behind it. */
  function Step<T>(stitch: (T, T) -> Option<T>, images: seq<T>, m: nat, k: nat, pano: T): Option<T>
    requires k < |images|
  {
    if k < m then stitch(images[k], pano) else stitch(pano, images[k])
  }

  predicate Indices<T>(images: seq<T>, order: seq<nat>)
  {
    forall j :: 0 <= j < |order| ==> order[j] < |images|
  }

  /** The steps for `order` in turn, stopping at the first failure. */
  function Chain<T>(stitch: (T, T) -> Option<T>, images: seq<T>, m: nat, order: seq<nat>, pano: T): Option<T>
    requires Indices(images, order)
    decreases |order|
  {
    if |order| == 0 then Some(pano)
    else
      match Step(stitch, images, m, order[0], pano)
      case None => None
      case Some(p) => Chain(stitch, images, m, order[1..], p)
  }

  /** `[i, i - 1, ..., 0]` */
  function Descending(i: int): (s: seq<nat>)
    requires i >= -1
    ensures |s| == i + 1
    ensures forall j :: 0 <= j < |s| ==> s[j] == i - j
    decreases i + 1
  {
    if i < 0 then [] else [i as nat] + Descending(i - 1)
  }

  /** `[lo, lo + 1, ..., hi - 1]` */
  function Ascending(lo: nat, hi: nat): (s: seq<nat>)
    ensures |s| == if lo <= hi then hi - lo else 0
    ensures forall j :: 0 <= j < |s| ==> s[j] == lo + j
    decreases hi - lo
  {
    if lo >= hi then [] else [lo] + Ascending(lo + 1, hi)
  }

  /** The middle-out order for `n` images: every index but the middle one, the left ones
      from the middle outwards first, then the right ones from the middle outwards. */
  function MiddleOutOrder(n: nat): (o: seq<nat>)
    requires n >= 2
    ensures |o| == n - 1
    ensures forall k :: k in o <==> 0 <= k < n && k != n / 2
    ensures forall j :: 0 <= j < |o| ==> o[j] < n
  {
    var d := Descending(n / 2 - 1);
    var a := Ascending(n / 2 + 1, n);
    var o := d + a;
    assert |d| == n / 2 && |a| == n - n / 2 - 1;
    forall j | 0 <= j < |o| ensures o[j] < n && o[j] != n / 2 {
      if j < |d| {
        assert o[j] == d[j];
      } else {
        assert o[j] == a[j - |d|];
      }
    }
    forall k | k in o ensures k < n && k != n / 2 {
      var j :| 0 <= j < |o| && o[j] == k;
    }
    forall k: nat | k < n && k != n / 2 ensures k in o {
      if k < n / 2 {
        assert o[n / 2 - 1 - k] == d[n / 2 - 1 - k] == k;
      } else {
        assert o[|d| + (k - n / 2 - 1)] == a[k - n / 2 - 1] == k;
      }
    }
    o
  }

  /** Chaining two orders is chaining the first, then the second from where it ended. */
  lemma {:induction false} ChainAppend<T>(stitch: (T, T) -> Option<T>, images: seq<T>, m: nat,
                                          a: seq<nat>, b: seq<nat>, pano: T)
    requires Indices(images, a) && Indices(images, b)
    ensures Indices(images, a + b)
    ensures Chain(stitch, images, m, a + b, pano) ==
              match Chain(stitch, images, m, a, pano)
              case None => None
              case Some(p) => Chain(stitch, images, m, b, p)
    decreases |a|
  {
    if |a| == 0 {
      assert a + b == b;
    } else {
      assert (a + b)[0] == a[0];
      assert (a + b)[1..] == a[1..] + b;
      match Step(stitch, images, m, a[0], pano)
      case None =>
      case Some(p) => ChainAppend(stitch, images, m, a[1..], b, p);
    }
  }

  // ---------------------------------------------------------------------------------
  // performSequentialStitching of the pipeline

  /** How the left pass ended: with a panorama, or at the image that failed. */
  datatype LeftOutcome<T> = LeftDone(pano: T) | LeftFailed(at: nat)

  /** Images `i, i - 1, ..., 0` stitched in front of the panorama in turn; the first
      failure ends the pass. */
  function LeftPass<T>(stitch: (T, T) -> Option<T>, images: seq<T>, i: int, pano: T): (r: LeftOutcome<T>)
    requires -1 <= i < |images|
    ensures r.LeftFailed? ==> r.at <= i
    decreases i + 1
  {
    if i < 0 then LeftDone(pano)
    else
      match stitch(images[i], pano)
      case None => LeftFailed(i as nat)
      case Some(p) => LeftPass(stitch, images, i - 1, p)
  }

  /** Images `i, ..., n - 1` stitched behind the panorama in turn. A failure on the last
      image returns the panorama built so far; a failure before it returns nothing. */
  function RightPass<T>(stitch: (T, T) -> Option<T>, images: seq<T>, i: nat, pano: T): Option<T>
    requires i <= |images|
    decreases |images| - i
  {
    if i == |images| then Some(pano)
    else
      match stitch(pano, images[i])
      case None => if i == |images| - 1 then Some(pano) else None
      case Some(p) => RightPass(stitch, images, i + 1, p)
  }

  /** Middle-out stitching: nothing for no images, a copy of a single one; otherwise the
      left pass from the middle image, then the right pass. A failure on image 0 when
      right images remain restarts from the middle image alone and runs the right pass. */
  function MiddleOut<T>(stitch: (T, T) -> Option<T>, images: seq<T>): (r: Option<T>)
    ensures |images| == 0 ==> r.None?
    ensures |images| == 1 ==> r == Some(images[0])
  {
    if |images| == 0 then None
    else if |images| == 1 then Some(images[0])
    else
      var m := |images| / 2;
      match LeftPass(stitch, images, m - 1, images[m])
      case LeftDone(p) => RightPass(stitch, images, m + 1, p)
      case LeftFailed(i) =>
        if i == 0 && m + 1 < |images| then RightPass(stitch, images, m + 1, images[m]) else None
  }

  /** The left pass agrees with the chain over `[i, ..., 0]`: it fails exactly when the
      chain does, and otherwise ends with the chain's panorama. */
  lemma {:induction false} LeftPassIsChain<T>(stitch: (T, T) -> Option<T>, images: seq<T>, m: nat, i: int, pano: T)
    requires -1 <= i < m <= |images|
    ensures Indices(images, Descending(i))
    ensures LeftPass(stitch, images, i, pano).LeftFailed? <==> Chain(stitch, images, m, Descending(i), pano).None?
    ensures LeftPass(stitch, images, i, pano).LeftDone? ==>
              Chain(stitch, images, m, Descending(i), pano) == Some(LeftPass(stitch, images, i, pano).pano)
    decreases i + 1
  {
    if i >= 0 {
      var d := Descending(i);
      assert d[0] == i && d[1..] == Descending(i - 1);
      match stitch(images[i], pano)
      case None =>
      case Some(p) => LeftPassIsChain(stitch, images, m, i - 1, p);
    }
  }

  /** When the chain over `[i, ..., n - 1]` succeeds, the right pass returns its result. */
  lemma {:induction false} RightPassIsChain<T>(stitch: (T, T) -> Option<T>, images: seq<T>, m: nat, i: nat, pano: T)
    requires m < i <= |images|
    ensures Indices(images, Ascending(i, |images|))
    ensures Chain(stitch, images, m, Ascending(i, |images|), pano).Some? ==>
              RightPass(stitch, images, i, pano) == Chain(stitch, images, m, Ascending(i, |images|), pano)
    decreases |images| - i
  {
    if i < |images| {
      var a := Ascending(i, |images|);
      assert a[0] == i && a[1..] == Ascending(i + 1, |images|);
      match stitch(pano, images[i])
      case None =>
      case Some(p) => RightPassIsChain(stitch, images, m, i + 1, p);
    }
  }

  /** Without failures, middle-out stitching is the chain in middle-out order from the
      middle image. */
  lemma MiddleOutFollowsOrder<T>(stitch: (T, T) -> Option<T>, images: seq<T>)
    requires |images| >= 2
    ensures var m := |images| / 2;
            Chain(stitch, images, m, MiddleOutOrder(|images|), images[m]).Some? ==>
              MiddleOut(stitch, images) == Chain(stitch, images, m, MiddleOutOrder(|images|), images[m])
  {
    var n := |images|;
    var m := n / 2;
    var d := Descending(m - 1);
    var a := Ascending(m + 1, n);
    assert MiddleOutOrder(n) == d + a;
    LeftPassIsChain(stitch, images, m, m - 1, images[m]);
    ChainAppend(stitch, images, m, d, a, images[m]);
    var whole := Chain(stitch, images, m, d + a, images[m]);
    if whole.Some? {
      var p := Chain(stitch, images, m, d, images[m]).value;
      assert LeftPass(stitch, images, m - 1, images[m]) == LeftDone(p);
      RightPassIsChain(stitch, images, m, m + 1, p);
    }
  }

  /** When image 0 fails and right images remain, the left work is dropped: the result
      is the right pass from the middle image alone. When image 0 is also the last
      image to the left of nothing pending, or a later left image fails, the result is
      nothing. */
  lemma LeftFailureHandling<T>(stitch: (T, T) -> Option<T>, images: seq<T>)
    requires |images| >= 2
    requires LeftPass(stitch, images, |images| / 2 - 1, images[|images| / 2]).LeftFailed?
    ensures var m := |images| / 2;
            var at := LeftPass(stitch, images, m - 1, images[m]).at;
            && (at == 0 && m + 1 < |images| ==> MiddleOut(stitch, images) == RightPass(stitch, images, m + 1, images[m]))
            && (at > 0 || m + 1 == |images| ==> MiddleOut(stitch, images).None?)
  {
  }

  /** After a completed left pass, middle-out stitching is the right pass from its
      panorama. */
  lemma MiddleOutAfterLeftDone<T>(stitch: (T, T) -> Option<T>, images: seq<T>, pano: T)
    requires |images| >= 2
    requires LeftPass(stitch, images, |images| / 2 - 1, images[|images| / 2]) == LeftDone(pano)
    ensures MiddleOut(stitch, images) == RightPass(stitch, images, |images| / 2 + 1, pano)
  {
  }

  /** A failure on the last image keeps the panorama built so far; a failure on an
      earlier right image loses everything. */
  lemma {:induction false} RightFailureHandling<T>(stitch: (T, T) -> Option<T>, images: seq<T>, m: nat,
                                                   i: nat, j: nat, pano: T, q: T)
    requires m < i <= j < |images|
    requires Chain(stitch, images, m, Ascending(i, j), pano) == Some(q)
    requires stitch(q, images[j]).None?
    ensures j == |images| - 1 ==> RightPass(stitch, images, i, pano) == Some(q)
    ensures j < |images| - 1 ==> RightPass(stitch, images, i, pano).None?
    decreases j - i
  {
    if i < j {
      var a := Ascending(i, j);
      assert a[0] == i && a[1..] == Ascending(i + 1, j);
      var p := stitch(pano, images[i]).value;
      RightFailureHandling(stitch, images, m, i + 1, j, p, q);
    }
  }

  /** The same rule seen from the whole middle-out stitch, after a completed left pass. */
  lemma RightFailureInMiddleOut<T>(stitch: (T, T) -> Option<T>, images: seq<T>, pano: T, j: nat, q: T)
    requires |images| >= 2 && |images| / 2 < j < |images|
    requires LeftPass(stitch, images, |images| / 2 - 1, images[|images| / 2]) == LeftDone(pano)
    requires Chain(stitch, images, |images| / 2, Ascending(|images| / 2 + 1, j), pano) == Some(q)
    requires stitch(q, images[j]).None?
    ensures j == |images| - 1 ==> MiddleOut(stitch, images) == Some(q)
    ensures j < |images| - 1 ==> MiddleOut(stitch, images).None?
  {
    MiddleOutAfterLeftDone(stitch, images, pano);
    RightFailureHandling(stitch, images, |images| / 2, |images| / 2 + 1, j, pano, q);
  }

  // ---------------------------------------------------------------------------------
  // performSequentialStitching of the command-line driver

  /** Images `i, ..., n - 1` stitched behind the panorama; any failure returns nothing. */
  function Accumulate<T>(stitch: (T, T) -> Option<T>, images: seq<T>, i: nat, pano: T): Option<T>
    requires 1 <= i <= |images|
    decreases |images| - i
  {
    if i == |images| then Some(pano)
    else
      match stitch(pano, images[i])
      case None => None
      case Some(p) => Accumulate(stitch, images, i + 1, p)
  }

  /** Left-to-right stitching from the first image: nothing for no images. */
  function LeftToRight<T>(stitch: (T, T) -> Option<T>, images: seq<T>): (r: Option<T>)
    ensures |images| == 0 ==> r.None?
    ensures |images| == 1 ==> r == Some(images[0])
  {
    if |images| == 0 then None else Accumulate(stitch, images, 1, images[0])
  }

  /** Left-to-right stitching is exactly the chain over `[1, ..., n - 1]` from image 0,
      every image joining behind the panorama. */
  lemma {:induction false} AccumulateIsChain<T>(stitch: (T, T) -> Option<T>, images: seq<T>, i: nat, pano: T)
    requires 1 <= i <= |images|
    ensures Indices(images, Ascending(i, |images|))
    ensures Accumulate(stitch, images, i, pano) == Chain(stitch, images, 0, Ascending(i, |images|), pano)
    decreases |images| - i
  {
    if i < |images| {
      var a := Ascending(i, |images|);
      assert a[0] == i && a[1..] == Ascending(i + 1, |images|);
      match stitch(pano, images[i])
      case None =>
      case Some(p) => AccumulateIsChain(stitch, images, i + 1, p);
    }
  }

  lemma LeftToRightIsChain<T>(stitch: (T, T) -> Option<T>, images: seq<T>)
    requires |images| >= 1
    ensures Indices(images, Ascending(1, |images|))
    ensures LeftToRight(stitch, images) == Chain(stitch, images, 0, Ascending(1, |images|), images[0])
  {
    AccumulateIsChain(stitch, images, 1, images[0]);
  }

  /** The driver's strategy for exactly three images: image 0 joined to image 1 as the
      reference (`stitch(images[1], images[0])`), then image 2 behind that; if either
      fails, left-to-right stitching of all three. Any other count goes left to right. */
  function ThreeImageFirst<T>(stitch: (T, T) -> Option<T>, images: seq<T>): (r: Option<T>)
    ensures |images| != 3 ==> r == LeftToRight(stitch, images)
    ensures |images| == 3 && stitch(images[1], images[0]).Some?
              && stitch(stitch(images[1], images[0]).value, images[2]).Some? ==>
              r == stitch(stitch(images[1], images[0]).value, images[2])
    ensures |images| == 3 && (stitch(images[1], images[0]).None?
              || stitch(stitch(images[1], images[0]).value, images[2]).None?) ==>
              r == LeftToRight(stitch, images)
  {
    if |images| == 3 then
      match stitch(images[1], images[0])
      case Some(left) =>
        (match stitch(left, images[2])
         case Some(p) => Some(p)
         case None => LeftToRight(stitch, images))
      case None => LeftToRight(stitch, images)
    else LeftToRight(stitch, images)
  }
}
