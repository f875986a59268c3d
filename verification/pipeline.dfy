/** `StitchingPipeline`: the pairwise stitch with its full chain of checks, stitching from
    file paths, and middle-out stitching of a list of images. Detection, matching and
    RANSAC, inversion, projection, warping and the blender's image operations are the
    `Stages` parameter; everything the pipeline decides between them is modelled. */
module StitchingPipeline {
  import opened Wrappers
  import opened Images
  import opened Geometry
  import opened Blending
  import opened DetectorFactory
  import opened BlenderFactory
  import opened PairStitch
  import Sequential
  import Config

  /** The ratio the pipeline passes to the ratio test. */
  const PIPELINE_RATIO: real := 0.75

  /** `static_cast<size_t>(rows) * cols` summed over both images. */
  function TotalPixels(img1: Image, img2: Image): nat
  {
    Area(img1.rows, img1.cols) + Area(img2.rows, img2.cols)
  }

  /** The checks and parameter choices before detection: the input checks, the threshold
      and budget fallbacks, the combined pixel limit, the detector from the factory (an
      unknown name throws, which the pipeline turns into a failure), per-image budgets,
      and the matcher norm (L2 only for the exact name "sift"). */
  function Prepare(img1: Image, img2: Image, detectorType: string, threshold: real, maxFeatures: int)
    : (r: Result<MatchRequest, Reject>)
    ensures InputGate(img1, img2).Some? ==> r == Failure(InputGate(img1, img2).value)
    ensures InputGate(img1, img2).None? ==>
              (r == Failure(TooManyPixels) <==> TotalPixels(img1, img2) > Config.MAX_IMAGE_PIXELS)
    ensures InputGate(img1, img2).None? && TotalPixels(img1, img2) <= Config.MAX_IMAGE_PIXELS ==>
              (r == Failure(UnknownDetector) <==> CreateDetectorByName(detectorType).Failure?)
    ensures r.Success? ==>
              var budget := EffectiveMaxFeatures(maxFeatures, Config.DEFAULT_MAX_FEATURES);
              && InputGate(img1, img2).None?
              && TotalPixels(img1, img2) <= Config.MAX_IMAGE_PIXELS
              && CreateDetectorByName(detectorType).Success?
              && r.value.img1 == img1 && r.value.img2 == img2
              && r.value.detector == CreateDetectorByName(detectorType).value
              && r.value.features1 == AdaptiveFeatures(Area(img1.rows, img1.cols), budget, true)
              && r.value.features2 == AdaptiveFeatures(Area(img2.rows, img2.cols), budget, true)
              && r.value.ratio == PIPELINE_RATIO
              && (r.value.l2Norm <==> detectorType == "sift")
              && r.value.ransacThreshold == EffectiveThreshold(threshold)
    ensures r.Failure? ==> r.error in {EmptyInput, WrongType, TooSmall, TooManyPixels, UnknownDetector}
  {
    match InputGate(img1, img2)
    case Some(e) => Failure(e)
    case None =>
      var t := EffectiveThreshold(threshold);
      var budget := EffectiveMaxFeatures(maxFeatures, Config.DEFAULT_MAX_FEATURES);
      if TotalPixels(img1, img2) > Config.MAX_IMAGE_PIXELS then Failure(TooManyPixels)
      else
        var f1 := AdaptiveFeatures(Area(img1.rows, img1.cols), budget, true);
        var f2 := AdaptiveFeatures(Area(img2.rows, img2.cols), budget, true);
        match CreateDetectorByName(detectorType)
        case Failure(_) => Failure(UnknownDetector)
        case Success(d) => Success(MatchRequest(img1, img2, d, f1, f2, PIPELINE_RATIO, detectorType == "sift", t))
  }

  /** The blender of the pipeline: the factory's blender for a known mode name, and a
      feathering blender when the factory throws on an unknown one. */
  function ChooseBlender(blendMode: string): (b: Blender)
    ensures StringToMode(blendMode).Success? ==> b.mode == StringToMode(blendMode).value
    ensures StringToMode(blendMode).Failure? ==> b.mode == Feathering
  {
    match CreateBlenderByName(blendMode)
    case Success(b) => b
    case Failure(_) => CreateBlender(Feathering)
  }

  /** `performStitchingDirect`: the first failing check names the result; when every
      check passes the two images are warped and blended onto the planned canvas. */
  function PerformStitchingDirect(st: Stages, img1: Image, img2: Image, detectorType: string, blendMode: string,
                                  threshold: real, maxFeatures: int, maxDim: int): (r: Result<Stitched, Reject>)
    ensures Prepare(img1, img2, detectorType, threshold, maxFeatures).Failure? ==>
              r == Failure(Prepare(img1, img2, detectorType, threshold, maxFeatures).error)
    ensures Prepare(img1, img2, detectorType, threshold, maxFeatures).Success? ==>
              var est := st.estimate(Prepare(img1, img2, detectorType, threshold, maxFeatures).value);
              var gate := PipelineHomographyGate(est.homography, est.numInliers);
              && (gate.Some? ==> r == Failure(gate.value))
              && (gate.None? ==> match Finish(st, img1, img2, est.homography, maxDim, true, ChooseBlender(blendMode))
                                 case Failure(e) => r == Failure(e)
                                 case Success(done) => r.Success? && r.value.canvas == done.0 && r.value.panorama == done.1)
    ensures r.Success? ==>
              && Prepare(img1, img2, detectorType, threshold, maxFeatures) == Success(r.value.request)
              && PipelineHomographyGate(st.estimate(r.value.request).homography, st.estimate(r.value.request).numInliers).None?
              && st.invert(st.estimate(r.value.request).homography).Some?
              && 0 < r.value.canvas.width <= maxDim && 0 < r.value.canvas.height <= maxDim
              && 6 * Area(r.value.canvas.width, r.value.canvas.height) <= Config.MAX_PANORAMA_MEMORY
              && r.value.blender == ChooseBlender(blendMode)
    ensures r != Failure(BlendFailed)
  {
    match Prepare(img1, img2, detectorType, threshold, maxFeatures)
    case Failure(e) => Failure(e)
    case Success(req) =>
      var est := st.estimate(req);
      match PipelineHomographyGate(est.homography, est.numInliers)
      case Some(e) => Failure(e)
      case None =>
        var blender := ChooseBlender(blendMode);
        match Finish(st, img1, img2, est.homography, maxDim, true, blender)
        case Failure(e) => Failure(e)
        case Success(done) => Success(Stitched(done.1, req, done.0, blender))
  }

  /** When every check passes, the pipeline produces a panorama: the blend cannot fail,
      because both inputs are 8-bit three-channel images warped to the same canvas. */
  lemma ChecksPassedMeansPanorama(st: Stages, img1: Image, img2: Image, detectorType: string, blendMode: string,
                                  threshold: real, maxFeatures: int, maxDim: int)
    ensures var prep := Prepare(img1, img2, detectorType, threshold, maxFeatures);
            prep.Success? ==>
            var est := st.estimate(prep.value);
            PipelineHomographyGate(est.homography, est.numInliers).None? ==>
            st.invert(est.homography).Some? ==>
            var plan := PlanCanvas(img1, img2, st.invert(est.homography).value, st.transform);
            CanvasGate(plan.width, plan.height, maxDim, true).None? ==>
            PerformStitchingDirect(st, img1, img2, detectorType, blendMode, threshold, maxFeatures, maxDim).Success?
  {
  }

  /** The memory check never decides anything at the pipeline's own side limit: with
      `maxDim` at 15000 the result is the same as with the check switched off. */
  lemma MemoryCheckRedundantAtDefaultLimit(st: Stages, img1: Image, img2: Image, h: Matrix, blender: Blender)
    ensures Finish(st, img1, img2, h, Config.MAX_PANORAMA_DIMENSION, true, blender)
            == Finish(st, img1, img2, h, Config.MAX_PANORAMA_DIMENSION, false, blender)
  {
    if st.invert(h).Some? {
      var plan := PlanCanvas(img1, img2, st.invert(h).value, st.transform);
      if 0 < plan.width <= Config.MAX_PANORAMA_DIMENSION && 0 < plan.height <= Config.MAX_PANORAMA_DIMENSION {
        MemoryCheckIdleAtDimensionLimit(plan.width, plan.height);
      }
    }
  }

  /** A detector name the factory accepts only in another case ("SIFT") builds a SIFT
      detector but leaves the matcher on the Hamming norm: the norm test is
      case-sensitive while the factory is not. */
  lemma MixedCaseSiftKeepsHamming(img1: Image, img2: Image, threshold: real, maxFeatures: int)
    requires InputGate(img1, img2).None? && TotalPixels(img1, img2) <= Config.MAX_IMAGE_PIXELS
    ensures Prepare(img1, img2, "SIFT", threshold, maxFeatures).Success?
    ensures Prepare(img1, img2, "SIFT", threshold, maxFeatures).value.detector == SIFTDetector
    ensures !Prepare(img1, img2, "SIFT", threshold, maxFeatures).value.l2Norm
  {
    assert Text.Lower("SIFT") == "sift";
  }

  /** `performStitching`: load both files (`load` stands for `cv::imread`, which returns
      an empty image on failure) and stitch with the pipeline's side limit. */
  function PerformStitching(st: Stages, load: string -> Image, path1: string, path2: string,
                            detectorType: string, blendMode: string, threshold: real, maxFeatures: int)
    : (r: Result<Stitched, Reject>)
    ensures IsEmptyImage(load(path1)) || IsEmptyImage(load(path2)) ==> r == Failure(EmptyInput)
    ensures !IsEmptyImage(load(path1)) && !IsEmptyImage(load(path2)) ==>
              r == PerformStitchingDirect(st, load(path1), load(path2), detectorType, blendMode,
                                          threshold, maxFeatures, Config.MAX_PANORAMA_DIMENSION)
  {
    var img1 := load(path1);
    var img2 := load(path2);
    if IsEmptyImage(img1) || IsEmptyImage(img2) then Failure(EmptyInput)
    else PerformStitchingDirect(st, img1, img2, detectorType, blendMode, threshold, maxFeatures,
                                Config.MAX_PANORAMA_DIMENSION)
  }

  /** The pairwise stitch as the sequential stitch sees it: a panorama or nothing. */
  function StitchPair(st: Stages, detectorType: string, blendMode: string, threshold: real, maxFeatures: int)
    : (f: (Image, Image) -> Option<Image>)
  {
    (a: Image, b: Image) =>
      match PerformStitchingDirect(st, a, b, detectorType, blendMode, threshold, maxFeatures,
                                   Config.MAX_PANORAMA_DIMENSION)
      case Success(s) => Some(s.panorama)
      case Failure(_) => None
  }

  /** The pairwise stitch yields a panorama exactly when the direct stitch of the two
      images succeeds, and then it is that stitch's panorama. */
  lemma StitchPairIsDirectStitch(st: Stages, detectorType: string, blendMode: string, threshold: real,
                                 maxFeatures: int, a: Image, b: Image)
    ensures var r := PerformStitchingDirect(st, a, b, detectorType, blendMode, threshold, maxFeatures,
                                            Config.MAX_PANORAMA_DIMENSION);
            var f := StitchPair(st, detectorType, blendMode, threshold, maxFeatures);
            && (f(a, b).Some? <==> r.Success?)
            && (r.Success? ==> f(a, b) == Some(r.value.panorama))
  {
  }

  /** `performSequentialStitching`: middle-out stitching with the pipeline's pairwise
      stitch. */
  function PerformSequentialStitching(st: Stages, images: seq<Image>, detectorType: string, blendMode: string,
                                      threshold: real, maxFeatures: int): (r: Option<Image>)
    ensures |images| == 0 ==> r.None?
    ensures |images| == 1 ==> r == Some(images[0])
    ensures |images| >= 2 ==>
              var stitch := StitchPair(st, detectorType, blendMode, threshold, maxFeatures);
              var m := |images| / 2;
              Sequential.Chain(stitch, images, m, Sequential.MiddleOutOrder(|images|), images[m]).Some? ==>
                r == Sequential.Chain(stitch, images, m, Sequential.MiddleOutOrder(|images|), images[m])
  {
    var stitch := StitchPair(st, detectorType, blendMode, threshold, maxFeatures);
    if |images| >= 2 then
      Sequential.MiddleOutFollowsOrder(stitch, images);
      Sequential.MiddleOut(stitch, images)
    else Sequential.MiddleOut(stitch, images)
  }

  /** The pipeline's sequential stitch is middle-out stitching with its pairwise stitch. */
  lemma PipelineIsMiddleOut(st: Stages, images: seq<Image>, detectorType: string, blendMode: string,
                            threshold: real, maxFeatures: int, stitch: (Image, Image) -> Option<Image>)
    requires stitch == StitchPair(st, detectorType, blendMode, threshold, maxFeatures)
    ensures PerformSequentialStitching(st, images, detectorType, blendMode, threshold, maxFeatures)
            == Sequential.MiddleOut(stitch, images)
  {
  }

  /** A failed left join in the pipeline: on image 0 with right images still to come
      the stitch restarts from the middle image and runs the right pass; on any other
      left image, or with no right image, the result is nothing. `stitch` names the
      pipeline's pairwise stitch. */
  lemma SequentialLeftFailure(st: Stages, images: seq<Image>, detectorType: string, blendMode: string,
                              threshold: real, maxFeatures: int, stitch: (Image, Image) -> Option<Image>)
    requires stitch == StitchPair(st, detectorType, blendMode, threshold, maxFeatures)
    requires |images| >= 2
    requires Sequential.LeftPass(stitch, images, |images| / 2 - 1, images[|images| / 2]).LeftFailed?
    ensures Sequential.LeftPass(stitch, images, |images| / 2 - 1, images[|images| / 2]).at == 0 && |images| / 2 + 1 < |images| ==>
              PerformSequentialStitching(st, images, detectorType, blendMode, threshold, maxFeatures)
              == Sequential.RightPass(stitch, images, |images| / 2 + 1, images[|images| / 2])
    ensures Sequential.LeftPass(stitch, images, |images| / 2 - 1, images[|images| / 2]).at > 0 || |images| / 2 + 1 == |images| ==>
              PerformSequentialStitching(st, images, detectorType, blendMode, threshold, maxFeatures).None?
  {
    PipelineIsMiddleOut(st, images, detectorType, blendMode, threshold, maxFeatures, stitch);
    Sequential.LeftFailureHandling(stitch, images);
  }

  /** A failed right join in the pipeline: when joining image `j` onto the panorama `q`
      built so far fails, on the last image `q` is returned, on an earlier one nothing. */
  lemma SequentialRightFailure(st: Stages, images: seq<Image>, detectorType: string, blendMode: string,
                               threshold: real, maxFeatures: int, stitch: (Image, Image) -> Option<Image>,
                               pano: Image, j: nat, q: Image)
    requires stitch == StitchPair(st, detectorType, blendMode, threshold, maxFeatures)
    requires |images| >= 2 && |images| / 2 < j < |images|
    requires Sequential.LeftPass(stitch, images, |images| / 2 - 1, images[|images| / 2]) == Sequential.LeftDone(pano)
    requires Sequential.Chain(stitch, images, |images| / 2, Sequential.Ascending(|images| / 2 + 1, j), pano) == Some(q)
    ensures stitch(q, images[j]).None? && j == |images| - 1 ==>
              PerformSequentialStitching(st, images, detectorType, blendMode, threshold, maxFeatures) == Some(q)
    ensures stitch(q, images[j]).None? && j < |images| - 1 ==>
              PerformSequentialStitching(st, images, detectorType, blendMode, threshold, maxFeatures).None?
  {
    if stitch(q, images[j]).None? {
      PipelineIsMiddleOut(st, images, detectorType, blendMode, threshold, maxFeatures, stitch);
      Sequential.RightFailureInMiddleOut(stitch, images, pano, j, q);
    }
  }
}
