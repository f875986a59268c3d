/** The command-line driver of src/main.cpp: its own copy of the pairwise stitch (exact
    detector and blend names, an uncapped feature budget, fewer homography checks, no
    memory estimate), left-to-right stitching, the option loop and the exit codes of
    `main`. `cv::imread` is the `load` parameter; writing files, showing windows and the
    experiment runner are reported in the `Outcome` rather than performed. */
module Driver {
  import opened Wrappers
  import opened Floats
  import opened Geometry
  import opened Images
  import opened Blending
  import opened DetectorFactory
  import opened PairStitch
  import ArgumentParser
  import BlenderFactory
  import StitchingPipeline
  import Sequential
  import Matcher
  import Config

  // ---------------------------------------------------------------------------------
  // performStitchingDirect

  /** `int pixels = rows * cols`: the product on a two's-complement wrap to 32 bits (signed
      overflow is undefined behaviour in C++; this is what common targets do). */
  function Wrap32(x: int): (r: Int32)
    ensures (r - x) % 0x1_0000_0000 == 0
    ensures -0x8000_0000 <= x < 0x8000_0000 ==> r == x
  {
    var m := x % 0x1_0000_0000;
    if m >= 0x8000_0000 then m - 0x1_0000_0000 else m
  }

  /** The pixel count the driver scales the feature budget by. */
  function Pixels(img: Image): Int32
  {
    Wrap32(Area(img.rows, img.cols))
  }

  /** The two detectors the driver builds, by exact name. */
  function DetectorFor(name: string): (r: Option<Detector>)
    ensures r.Some? <==> name == "orb" || name == "akaze"
    ensures name == "orb" ==> r == Some(ORBDetector)
    ensures name == "akaze" ==> r == Some(AKAZEDetector)
  {
    if name == "orb" then Some(ORBDetector)
    else if name == "akaze" then Some(AKAZEDetector)
    else None
  }

  /** The driver's names are a case-sensitive subset of the factory's: whatever the driver
      accepts, the factory builds the same way, but "sift" and any other casing of "orb"
      are refused. */
  lemma DriverDetectorsAgreeWithFactory(name: string)
    ensures DetectorFor(name).Some? ==> CreateDetectorByName(name) == Success(DetectorFor(name).value)
    ensures DetectorFor("sift").None? && CreateDetectorByName("sift") == Success(SIFTDetector)
    ensures DetectorFor("ORB").None? && CreateDetectorByName("ORB") == Success(ORBDetector)
  {
    assert Text.Lower("orb") == "orb";
    assert Text.Lower("akaze") == "akaze";
    assert Text.Lower("sift") == "sift";
    assert Text.Lower("ORB") == "orb";
  }

  /** A default blender (feathering), switched only by the three exact mode names. */
  function DriverBlender(blendMode: string): (b: Blender)
    ensures blendMode == "simple" ==> b.mode == SimpleOverlay
    ensures blendMode == "multiband" ==> b.mode == Multiband
    ensures blendMode !in {"simple", "multiband"} ==> b.mode == Feathering
  {
    var b := NewBlender();
    if blendMode == "simple" then b.(mode := SimpleOverlay)
    else if blendMode == "feather" then b.(mode := Feathering)
    else if blendMode == "multiband" then b.(mode := Multiband)
    else b
  }

  /** On the exact lower-case names the driver and the pipeline pick the same blender;
      an upper-case name is honoured by the pipeline and ignored by the driver. */
  lemma DriverBlenderAgreesOnExactNames(blendMode: string)
    requires blendMode in {"simple", "feather", "multiband"}
    ensures DriverBlender(blendMode).mode == StitchingPipeline.ChooseBlender(blendMode).mode
    ensures DriverBlender("SIMPLE").mode == Feathering
    ensures StitchingPipeline.ChooseBlender("SIMPLE").mode == SimpleOverlay
  {
    assert Text.Lower("simple") == "simple";
    assert Text.Lower("feather") == "feather";
    assert Text.Lower("multiband") == "multiband";
    assert Text.Lower("SIMPLE") == "simple";
  }

  /** The checks and choices before detection: the input checks, the threshold fallback,
      the budget fallback to 2000, uncapped per-image budgets from the 32-bit pixel
      counts, the detector by exact name, and a default matcher (ratio 0.7, Hamming). */
  function Prepare(img1: Image, img2: Image, detectorType: string, threshold: real, maxFeatures: int)
    : (r: Result<MatchRequest, Reject>)
    ensures InputGate(img1, img2).Some? ==> r == Failure(InputGate(img1, img2).value)
    ensures InputGate(img1, img2).None? ==> (r == Failure(UnknownDetector) <==> DetectorFor(detectorType).None?)
    ensures r.Success? ==>
              var budget := EffectiveMaxFeatures(maxFeatures, Config.MAIN_DEFAULT_MAX_FEATURES);
              && InputGate(img1, img2).None?
              && r.value.img1 == img1 && r.value.img2 == img2
              && Some(r.value.detector) == DetectorFor(detectorType)
              && r.value.features1 == AdaptiveFeatures(Pixels(img1), budget, false)
              && r.value.features2 == AdaptiveFeatures(Pixels(img2), budget, false)
              && r.value.ratio == Matcher.DEFAULT_RATIO && !r.value.l2Norm
              && r.value.ransacThreshold == EffectiveThreshold(threshold)
    ensures r.Failure? ==> r.error in {EmptyInput, WrongType, TooSmall, UnknownDetector}
  {
    match InputGate(img1, img2)
    case Some(e) => Failure(e)
    case None =>
      var t := EffectiveThreshold(threshold);
      var budget := EffectiveMaxFeatures(maxFeatures, Config.MAIN_DEFAULT_MAX_FEATURES);
      var f1 := AdaptiveFeatures(Pixels(img1), budget, false);
      var f2 := AdaptiveFeatures(Pixels(img2), budget, false);
      match DetectorFor(detectorType)
      case None => Failure(UnknownDetector)
      case Some(d) => Success(MatchRequest(img1, img2, d, f1, f2, Matcher.DEFAULT_RATIO, false, t))
  }

  /** An image of 2^31 pixels or more, on a two's-complement wrap of the `int` product
      (signed overflow is undefined behaviour in C++), gives a pixel count the budget
      scaling does not see as large: 46341 × 46341 pixels keep the unscaled budget. */
  lemma HugeImageKeepsBaseBudget(maxFeatures: int)
    ensures var img := Image(U8C3, 46341, 46341, []);
            Pixels(img) < 0 && AdaptiveFeatures(Pixels(img), maxFeatures, false) == maxFeatures
  {
    AreaIsProduct(46341, 46341);
  }

  /** The driver's `performStitchingDirect`: the driver's checks in order, then the shared
      inversion, canvas plan, dimension check (no memory estimate), warp and blend. */
  function PerformStitchingDirect(st: Stages, img1: Image, img2: Image, detectorType: string, blendMode: string,
                                  threshold: real, maxFeatures: int, maxDim: int): (r: Result<Stitched, Reject>)
    ensures Prepare(img1, img2, detectorType, threshold, maxFeatures).Failure? ==>
              r == Failure(Prepare(img1, img2, detectorType, threshold, maxFeatures).error)
    ensures Prepare(img1, img2, detectorType, threshold, maxFeatures).Success? ==>
              var est := st.estimate(Prepare(img1, img2, detectorType, threshold, maxFeatures).value);
              var gate := MainHomographyGate(est.homography, est.numInliers);
              && (gate.Some? ==> r == Failure(gate.value))
              && (gate.None? ==> match Finish(st, img1, img2, est.homography, maxDim, false, DriverBlender(blendMode))
                                 case Failure(e) => r == Failure(e)
                                 case Success(done) => r.Success? && r.value.canvas == done.0 && r.value.panorama == done.1)
    ensures r.Success? ==>
              && Prepare(img1, img2, detectorType, threshold, maxFeatures) == Success(r.value.request)
              && MainHomographyGate(st.estimate(r.value.request).homography, st.estimate(r.value.request).numInliers).None?
              && st.invert(st.estimate(r.value.request).homography).Some?
              && 0 < r.value.canvas.width <= maxDim && 0 < r.value.canvas.height <= maxDim
              && r.value.blender == DriverBlender(blendMode)
    ensures r.Failure? ==> r.error !in {TooManyPixels, NonFiniteHomography, SingularH22, CanvasTooHeavy, BlendFailed}
  {
    match Prepare(img1, img2, detectorType, threshold, maxFeatures)
    case Failure(e) => Failure(e)
    case Success(req) =>
      var est := st.estimate(req);
      match MainHomographyGate(est.homography, est.numInliers)
      case Some(e) => Failure(e)
      case None =>
        var blender := DriverBlender(blendMode);
        match Finish(st, img1, img2, est.homography, maxDim, false, blender)
        case Failure(e) => Failure(e)
        case Success(done) => Success(Stitched(done.1, req, done.0, blender))
  }

  /** A NaN homography with enough inliers passes every driver gate: the stitch goes on
      to invert it, and the outcome is whatever inverting, planning and blending make of
      it. A NaN matrix that `st.invert` refuses fails there. */
  lemma NaNHomographyReachesInversion(st: Stages, img1: Image, img2: Image, detectorType: string, blendMode: string,
                                      threshold: real, maxFeatures: int, maxDim: int)
    requires Prepare(img1, img2, detectorType, threshold, maxFeatures).Success?
    ensures st.estimate(Prepare(img1, img2, detectorType, threshold, maxFeatures).value)
            == Estimate(NaNMatrix(), Config.MAIN_MIN_INLIERS_REQUIRED) ==>
              var r := PerformStitchingDirect(st, img1, img2, detectorType, blendMode, threshold, maxFeatures, maxDim);
              match Finish(st, img1, img2, NaNMatrix(), maxDim, false, DriverBlender(blendMode))
              case Failure(e) => r == Failure(e)
              case Success(done) => r.Success? && r.value.canvas == done.0 && r.value.panorama == done.1
    ensures st.estimate(Prepare(img1, img2, detectorType, threshold, maxFeatures).value)
            == Estimate(NaNMatrix(), Config.MAIN_MIN_INLIERS_REQUIRED) && st.invert(NaNMatrix()).None? ==>
              PerformStitchingDirect(st, img1, img2, detectorType, blendMode, threshold, maxFeatures, maxDim)
              == Failure(NotInvertible)
  {
    DriverAdmitsNaNHomography(Config.MAIN_MIN_INLIERS_REQUIRED);
  }

  /** `performStitching`: load both files and stitch with the 10000-pixel side limit. */
  function PerformStitching(st: Stages, load: string -> Image, path1: string, path2: string,
                            detectorType: string, blendMode: string, threshold: real, maxFeatures: int)
    : (r: Result<Stitched, Reject>)
    ensures IsEmptyImage(load(path1)) || IsEmptyImage(load(path2)) ==> r == Failure(EmptyInput)
    ensures !IsEmptyImage(load(path1)) && !IsEmptyImage(load(path2)) ==>
              r == PerformStitchingDirect(st, load(path1), load(path2), detectorType, blendMode,
                                          threshold, maxFeatures, Config.MAIN_MAX_PANORAMA_DIMENSION)
  {
    var img1 := load(path1);
    var img2 := load(path2);
    if IsEmptyImage(img1) || IsEmptyImage(img2) then Failure(EmptyInput)
    else PerformStitchingDirect(st, img1, img2, detectorType, blendMode, threshold, maxFeatures,
                                Config.MAIN_MAX_PANORAMA_DIMENSION)
  }

  // ---------------------------------------------------------------------------------
  // Options and multi-image stitching

  /** The settings the option loop fills in. */
  datatype Options = Options(detectorType: string, blendMode: string, threshold: real,
                             maxFeatures: Int32, output: string, visualize: bool)

  /** The initial settings of both stitch modes; only the output name differs. */
  function DefaultOptions(output: string): Options
  {
    Options("orb", "feather", Config.MAIN_DEFAULT_RANSAC_THRESHOLD, Config.MAIN_DEFAULT_MAX_FEATURES as Int32,
            output, false)
  }

  /** The threshold and budget lie in the ranges the option loop admits. */
  predicate InRange(o: Options)
  {
    && Config.MIN_RANSAC_THRESHOLD <= o.threshold <= Config.MAX_RANSAC_THRESHOLD
    && Config.MIN_FEATURES <= o.maxFeatures <= Config.MAX_FEATURES
  }

  /** The six option names; an argument that is none of them is skipped. */
  predicate IsOptionName(arg: string)
  {
    arg in {"--detector", "--blend-mode", "--ransac-threshold", "--max-features", "--output", "--visualize"}
  }

  /** A string value that is the setting `o` already had or the argument after one of
      the positions `i..` where `name` stands. */
  predicate FromArgv(argv: seq<string>, i: nat, name: string, before: string, after: string)
  {
    after == before || exists j :: i <= j && j + 1 < |argv| && argv[j] == name && after == argv[j + 1]
  }

  /** The option loop of both stitch modes from position `i`: a value option takes the
      next argument when there is one; a value that does not parse or lies outside
      [0.1, 50] or [10, 50000] leaves the default (3.0 or 2000); anything else, including
      a value option in last position, is skipped. */
  function ParseOptions(rd: ArgumentParser.Readers, argv: seq<string>, i: nat, o: Options): (r: Options)
    requires i <= |argv|
    ensures InRange(o) ==> InRange(r)
    ensures FromArgv(argv, i, "--detector", o.detectorType, r.detectorType)
    ensures FromArgv(argv, i, "--blend-mode", o.blendMode, r.blendMode)
    ensures FromArgv(argv, i, "--output", o.output, r.output)
    ensures o.visualize ==> r.visualize
    ensures r.visualize ==> o.visualize || "--visualize" in argv[i..]
    decreases |argv| - i
  {
    if i == |argv| then o
    else
      var arg := argv[i];
      var hasValue := i + 1 < |argv|;
      if arg == "--detector" && hasValue then
        ParseOptions(rd, argv, i + 2, o.(detectorType := argv[i + 1]))
      else if arg == "--blend-mode" && hasValue then
        ParseOptions(rd, argv, i + 2, o.(blendMode := argv[i + 1]))
      else if arg == "--ransac-threshold" && hasValue then
        var (ok, v) := ArgumentParser.ParseDouble(rd, argv[i + 1], o.threshold,
                                                  Config.MIN_RANSAC_THRESHOLD, Config.MAX_RANSAC_THRESHOLD);
        ParseOptions(rd, argv, i + 2, o.(threshold := if ok then v else Config.MAIN_DEFAULT_RANSAC_THRESHOLD))
      else if arg == "--max-features" && hasValue then
        var (ok, v) := ArgumentParser.ParseInt(rd, argv[i + 1], o.maxFeatures,
                                               Config.MIN_FEATURES, Config.MAX_FEATURES);
        ParseOptions(rd, argv, i + 2, o.(maxFeatures := if ok then v else Config.MAIN_DEFAULT_MAX_FEATURES as Int32))
      else if arg == "--output" && hasValue then
        ParseOptions(rd, argv, i + 2, o.(output := argv[i + 1]))
      else if arg == "--visualize" then
        ParseOptions(rd, argv, i + 1, o.(visualize := true))
      else
        ParseOptions(rd, argv, i + 1, o)
  }

  /** Arguments that are no option names change nothing. */
  lemma {:induction false} UnknownArgumentsIgnored(rd: ArgumentParser.Readers, argv: seq<string>, i: nat, o: Options)
    requires i <= |argv|
    requires forall j :: i <= j < |argv| ==> !IsOptionName(argv[j])
    ensures ParseOptions(rd, argv, i, o) == o
    decreases |argv| - i
  {
    if i < |argv| {
      assert !IsOptionName(argv[i]);
      UnknownArgumentsIgnored(rd, argv, i + 1, o);
    }
  }

  /** A `--ransac-threshold` option followed by no other option name decides the
      threshold whatever the earlier options set: the number read when it is well formed
      and within [0.1, 50], the default 3.0 otherwise. Every other setting is kept. */
  lemma TrailingThresholdDecides(rd: ArgumentParser.Readers, argv: seq<string>, i: nat, o: Options)
    requires i + 1 < |argv| && argv[i] == "--ransac-threshold"
    requires forall j :: i + 2 <= j < |argv| ==> !IsOptionName(argv[j])
    ensures var r := ParseOptions(rd, argv, i, o);
            var read := rd.readReal(argv[i + 1]);
            var good := read.Some? && !ArgumentParser.HasToken(read.value.1)
                        && Config.MIN_RANSAC_THRESHOLD <= read.value.0 <= Config.MAX_RANSAC_THRESHOLD;
            && r == o.(threshold := r.threshold)
            && (good ==> r.threshold == read.value.0)
            && (!good ==> r.threshold == Config.MAIN_DEFAULT_RANSAC_THRESHOLD)
  {
    var (ok, v) := ArgumentParser.ParseDouble(rd, argv[i + 1], o.threshold,
                                              Config.MIN_RANSAC_THRESHOLD, Config.MAX_RANSAC_THRESHOLD);
    UnknownArgumentsIgnored(rd, argv, i + 2, o.(threshold := if ok then v else Config.MAIN_DEFAULT_RANSAC_THRESHOLD));
  }

  /** The same for `--max-features`: the integer read when it is well formed and within
      [10, 50000], the default 2000 otherwise. */
  lemma TrailingMaxFeaturesDecides(rd: ArgumentParser.Readers, argv: seq<string>, i: nat, o: Options)
    requires i + 1 < |argv| && argv[i] == "--max-features"
    requires forall j :: i + 2 <= j < |argv| ==> !IsOptionName(argv[j])
    ensures var r := ParseOptions(rd, argv, i, o);
            var read := rd.readInt(argv[i + 1]);
            var good := read.Some? && !ArgumentParser.HasToken(read.value.1)
                        && Config.MIN_FEATURES <= read.value.0 as int <= Config.MAX_FEATURES;
            && r == o.(maxFeatures := r.maxFeatures)
            && (good ==> r.maxFeatures == read.value.0)
            && (!good ==> r.maxFeatures as int == Config.MAIN_DEFAULT_MAX_FEATURES)
  {
    var (ok, v) := ArgumentParser.ParseInt(rd, argv[i + 1], o.maxFeatures, Config.MIN_FEATURES, Config.MAX_FEATURES);
    UnknownArgumentsIgnored(rd, argv, i + 2,
                            o.(maxFeatures := if ok then v else Config.MAIN_DEFAULT_MAX_FEATURES as Int32));
  }

  /** The last occurrence wins: `--ransac-threshold 7 --ransac-threshold 5` sets 5, and a
      final value that does not parse resets to 3.0 rather than keeping 7. */
  lemma LastThresholdWins(rd: ArgumentParser.Readers, o: Options)
    requires rd.readReal("7") == Some((7.0, "")) && rd.readReal("5") == Some((5.0, ""))
    requires rd.readReal("x").None?
    ensures ParseOptions(rd, ["--ransac-threshold", "7", "--ransac-threshold", "5"], 0, o).threshold == 5.0
    ensures ParseOptions(rd, ["--ransac-threshold", "7", "--ransac-threshold", "x"], 0, o).threshold
            == Config.MAIN_DEFAULT_RANSAC_THRESHOLD
  {
    var a := ["--ransac-threshold", "7", "--ransac-threshold", "5"];
    var b := ["--ransac-threshold", "7", "--ransac-threshold", "x"];
    assert !ArgumentParser.HasToken("");
    assert ParseOptions(rd, a, 0, o) == ParseOptions(rd, a, 2, o.(threshold := 7.0));
    TrailingThresholdDecides(rd, a, 2, o.(threshold := 7.0));
    assert ParseOptions(rd, b, 0, o) == ParseOptions(rd, b, 2, o.(threshold := 7.0));
    TrailingThresholdDecides(rd, b, 2, o.(threshold := 7.0));
  }

  /** Whatever the command line says, the threshold and budget reaching the stitch are
      already in range, so the stitch's own fallbacks never apply to them. */
  lemma CommandLineNeedsNoFallback(rd: ArgumentParser.Readers, argv: seq<string>, i: nat, output: string)
    requires i <= |argv|
    ensures var o := ParseOptions(rd, argv, i, DefaultOptions(output));
            && EffectiveThreshold(o.threshold) == o.threshold
            && EffectiveMaxFeatures(o.maxFeatures, Config.MAIN_DEFAULT_MAX_FEATURES) == o.maxFeatures
  {
  }

  /** The driver's pairwise stitch as the multi-image modes see it. */
  function StitchPair(st: Stages, o: Options): (f: (Image, Image) -> Option<Image>)
    ensures forall a, b :: f(a, b).Some? <==>
              PerformStitchingDirect(st, a, b, o.detectorType, o.blendMode, o.threshold, o.maxFeatures,
                                     Config.MAIN_MAX_PANORAMA_DIMENSION).Success?
  {
    (a: Image, b: Image) =>
      match PerformStitchingDirect(st, a, b, o.detectorType, o.blendMode, o.threshold, o.maxFeatures,
                                   Config.MAIN_MAX_PANORAMA_DIMENSION)
      case Success(s) => Some(s.panorama)
      case Failure(_) => None
  }

  /** `performSequentialStitching`: every image in turn joined behind the panorama started
      from the first; nothing when there are no images or any join fails. */
  function PerformSequentialStitching(st: Stages, images: seq<Image>, o: Options): (r: Option<Image>)
    ensures |images| == 0 ==> r.None?
    ensures |images| >= 1 ==>
              r == Sequential.Chain(StitchPair(st, o), images, 0, Sequential.Ascending(1, |images|), images[0])
  {
    if |images| >= 1 then
      Sequential.LeftToRightIsChain(StitchPair(st, o), images);
      Sequential.LeftToRight(StitchPair(st, o), images)
    else Sequential.LeftToRight(StitchPair(st, o), images)
  }

  // ---------------------------------------------------------------------------------
  // main

  /** What `main` does. `Outcome`: it returned an exit code, having possibly printed the
      usage text, run the experiments or written a panorama (`saved`, with the path).
      `Aborted`: `cv::imwrite` threw while writing `attempted`; nothing in `main` catches
      it, so the program ends without returning an exit code. */
  datatype Outcome =
    | Outcome(code: int, usage: bool, experiments: bool, saved: Option<(string, Image)>)
    | Aborted(attempted: (string, Image))

  /** Whether `cv::imwrite` throws on a path and image (an unknown extension, for
      instance), as the environment decides. Returning `false` from `cv::imwrite` is not
      distinguished from writing: `main` ignores its result. */
  type WriteThrows = (string, Image) -> bool

  function UsageExit(code: int): Outcome
  {
    Outcome(code, true, false, None)
  }

  /** `cv::imwrite` followed by `return 0`, or the exception it throws. */
  function Save(throws: WriteThrows, path: string, panorama: Image): (r: Outcome)
    ensures r.Aborted? <==> throws(path, panorama)
    ensures r.Aborted? ==> r.attempted == (path, panorama)
    ensures r.Outcome? ==> r == Outcome(0, false, false, Some((path, panorama)))
  {
    if throws(path, panorama) then Aborted((path, panorama)) else Outcome(0, false, false, Some((path, panorama)))
  }

  /** `--stitch <img1> <img2> [options]`: exit code 0 unless the write throws; the
      panorama is written only when the stitch succeeds. */
  function StitchTwo(st: Stages, rd: ArgumentParser.Readers, load: string -> Image, throws: WriteThrows,
                     argv: seq<string>): (r: Outcome)
    requires |argv| >= 4
    ensures var o := ParseOptions(rd, argv, 4, DefaultOptions("panorama.jpg"));
            var s := PerformStitching(st, load, argv[2], argv[3], o.detectorType, o.blendMode,
                                      o.threshold, o.maxFeatures);
            && (r.Aborted? <==> s.Success? && throws(o.output, s.value.panorama))
            && (r.Aborted? ==> r.attempted == (o.output, s.value.panorama))
            && (r.Outcome? ==> r.code == 0 && !r.usage && !r.experiments)
            && (r.Outcome? ==> (r.saved.Some? <==> s.Success?))
            && (r.Outcome? && s.Success? ==> r.saved == Some((o.output, s.value.panorama)))
  {
    var o := ParseOptions(rd, argv, 4, DefaultOptions("panorama.jpg"));
    match PerformStitching(st, load, argv[2], argv[3], o.detectorType, o.blendMode, o.threshold, o.maxFeatures)
    case Success(s) => Save(throws, o.output, s.panorama)
    case Failure(_) => Outcome(0, false, false, None)
  }

  /** `cv::imread` of every path, in order. */
  function LoadAll(load: string -> Image, paths: seq<string>): (images: seq<Image>)
    ensures |images| == |paths|
    ensures forall n :: 0 <= n < |paths| ==> images[n] == load(paths[n])
  {
    seq(|paths|, n requires 0 <= n < |paths| => load(paths[n]))
  }

  predicate AllLoaded(images: seq<Image>)
  {
    forall n :: 0 <= n < |images| ==> !IsEmptyImage(images[n])
  }

  /** The paths `--stitch-multiple` collects: from position 2 up to the first argument
      starting with '-'. */
  function MultiPaths(argv: seq<string>): (paths: seq<string>)
    requires |argv| >= 2
    ensures forall n :: 0 <= n < |paths| ==> ArgumentParser.FirstChar(paths[n]) != '-'
    ensures paths == argv[2..ArgumentParser.CollectEnd(argv, 2)]
  {
    argv[2..ArgumentParser.CollectEnd(argv, 2)]
  }

  /** The options of `--stitch-multiple`, read after the paths. */
  function MultiOptions(rd: ArgumentParser.Readers, argv: seq<string>): Options
    requires |argv| >= 2
  {
    ParseOptions(rd, argv, ArgumentParser.CollectEnd(argv, 2), DefaultOptions("multi_panorama.jpg"))
  }

  /** The file the multi-image panorama is written to: an empty output path falls back to
      the default name. */
  function SaveName(output: string): (name: string)
    ensures name != ""
    ensures output != "" ==> name == output
  {
    if output == "" then "multi_panorama.jpg" else output
  }

  /** `--stitch-multiple <img1> <img2> <img3> ... [options]`: fewer than three paths, an
      unreadable image or a failed stitch exit with 1; otherwise the panorama is written
      and the exit code is 0, unless the write throws. */
  function StitchMultiple(st: Stages, rd: ArgumentParser.Readers, load: string -> Image, throws: WriteThrows,
                          argv: seq<string>): (r: Outcome)
    requires |argv| >= 2
    ensures var p := Sequential.ThreeImageFirst(StitchPair(st, MultiOptions(rd, argv)), LoadAll(load, MultiPaths(argv)));
            var stitched := |MultiPaths(argv)| >= 3 && AllLoaded(LoadAll(load, MultiPaths(argv))) && p.Some?;
            && (r.Outcome? ==> !r.usage && !r.experiments)
            && (r.Outcome? ==> r.code == 0 || r.code == 1)
            && (r.Outcome? ==> (r.code == 0 <==> r.saved.Some?))
            && (r.Outcome? ==> (r.code == 0 <==> stitched))
            && (r.Aborted? <==> stitched && throws(SaveName(MultiOptions(rd, argv).output), p.value))
            && (stitched ==> (if r.Outcome? then r.saved.value else r.attempted)
                               == (SaveName(MultiOptions(rd, argv).output), p.value))
  {
    var paths := MultiPaths(argv);
    if |paths| < 3 then Outcome(1, false, false, None)
    else
      var images := LoadAll(load, paths);
      if !AllLoaded(images) then Outcome(1, false, false, None)
      else
        match Sequential.ThreeImageFirst(StitchPair(st, MultiOptions(rd, argv)), images)
        case None => Outcome(1, false, false, None)
        case Some(p) => Save(throws, SaveName(MultiOptions(rd, argv).output), p)
  }

  /** `main`: dispatch on the first argument. `argv[0]` is the program name. */
  function Run(st: Stages, rd: ArgumentParser.Readers, load: string -> Image, throws: WriteThrows,
               argv: seq<string>): (r: Outcome)
    ensures r.Outcome? ==> r.code == 0 || r.code == 1
    ensures r.Outcome? && r.saved.Some? ==> r.code == 0
    ensures r.Aborted? ==> |argv| >= 4 && argv[1] in {"--stitch", "--stitch-multiple"} && throws(r.attempted.0, r.attempted.1)
    ensures |argv| < 2 ==> r == UsageExit(1)
    ensures |argv| >= 2 && argv[1] == "--help" ==> r == UsageExit(0)
    ensures |argv| >= 2 && argv[1] == "--experiment-mode" ==> r == Outcome(0, false, true, None)
    ensures |argv| >= 4 && argv[1] == "--stitch" ==> r == StitchTwo(st, rd, load, throws, argv)
    ensures |argv| >= 4 && argv[1] == "--stitch-multiple" ==> r == StitchMultiple(st, rd, load, throws, argv)
    ensures |argv| >= 2 && argv[1] !in {"--help", "--experiment-mode"} && (|argv| < 4 || argv[1] !in {"--stitch", "--stitch-multiple"})
            ==> r == UsageExit(1)
  {
    if |argv| < 2 then UsageExit(1)
    else if argv[1] == "--help" then UsageExit(0)
    else if argv[1] == "--experiment-mode" then Outcome(0, false, true, None)
    else if argv[1] == "--stitch" && |argv| >= 4 then StitchTwo(st, rd, load, throws, argv)
    else if argv[1] == "--stitch-multiple" && |argv| >= 4 then StitchMultiple(st, rd, load, throws, argv)
    else UsageExit(1)
  }

  /** A two-image run succeeds or fails silently: the exit code is 0 even when nothing is
      written, for instance when an image cannot be read. */
  lemma UnreadableImageStillExitsZero(st: Stages, rd: ArgumentParser.Readers, load: string -> Image,
                                      throws: WriteThrows, argv: seq<string>)
    requires |argv| >= 4 && argv[1] == "--stitch" && IsEmptyImage(load(argv[2]))
    ensures Run(st, rd, load, throws, argv) == Outcome(0, false, false, None)
  {
  }

  /** A write that throws ends a successful two-image run without an exit code. */
  lemma ThrowingWriteAborts(st: Stages, rd: ArgumentParser.Readers, load: string -> Image,
                            throws: WriteThrows, argv: seq<string>)
    requires |argv| >= 4 && argv[1] == "--stitch"
    ensures var o := ParseOptions(rd, argv, 4, DefaultOptions("panorama.jpg"));
            var s := PerformStitching(st, load, argv[2], argv[3], o.detectorType, o.blendMode,
                                      o.threshold, o.maxFeatures);
            s.Success? && throws(o.output, s.value.panorama) ==> Run(st, rd, load, throws, argv).Aborted?
  {
  }

  /** Two paths followed by an option are too few for `--stitch-multiple`. */
  lemma TwoPathsAreTooFew(st: Stages, rd: ArgumentParser.Readers, load: string -> Image, throws: WriteThrows,
                          a: string, b: string)
    requires ArgumentParser.FirstChar(a) != '-' && ArgumentParser.FirstChar(b) != '-'
    ensures Run(st, rd, load, throws, ["prog", "--stitch-multiple", a, b, "--output", "x.jpg"]) == Outcome(1, false, false, None)
  {
    var argv := ["prog", "--stitch-multiple", a, b, "--output", "x.jpg"];
    assert ArgumentParser.FirstChar(argv[4]) == '-';
    assert ArgumentParser.CollectEnd(argv, 2) == 4;
  }
}
