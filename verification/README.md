# Panorama stitching: a Dafny model of the geometric core

The repository is a C++/OpenCV panorama stitcher. It detects features in two images,
matches them with a ratio test, and estimates a homography with its own RANSAC loop. It then
checks the homography, plans a canvas, warps both images onto it and blends them by overwrite,
feathering or multiband. Longer sequences are stitched pair by pair, by one of two
orchestrators. A command-line front end and an argument parser choose the options.

This project models the decision logic of that core as pure Dafny functions over immutable
data and proves what each step promises:

- **RANSAC** (`ransac.dfy`, module `Ransac`):
  - the input guard, the 4-distinct-index sampling, the degenerate-model gate and the inlier classifier;
  - best-model tracking and the shrinking iteration budget;
  - the all-inlier refit and the mean reprojection error.
- **Homography estimator** (`homography_estimator.dfy`): correspondence extraction, inlier-mask remapping and `calculateOutputBounds`.
- **Pairwise stitch** (`pair.dfy`, `canvas.dfy`, `pipeline.dfy`, `driver.dfy`):
  - the input gates, the threshold and feature-budget fallbacks, and the adaptive feature budget;
  - the homography gates and canvas planning (bounding box, translation and size);
  - the canvas gates and the blender choice.

  This covers both the library pipeline (`StitchingPipeline`) and the separate, weaker copy in the command-line driver (`Driver`).
- **Compositor** (`blender.dfy`, module `Blending`): the mode dispatch, overwrite, feathering, the Gaussian and Laplacian pyramids, reconstruction and multiband blending.
- **Orchestration** (`sequential.dfy`, `pipeline.dfy`, `driver.dfy`):
  - middle-out stitching with its reset and partial-result rules;
  - the driver's three-image reference strategy;
  - the driver's strict left-to-right fallback.
- **Small helpers**:
  - the blend-mode and detector factories (`blender_factory.dfy`, `detector_factory.dfy`) and the ratio test and matcher guards (`matcher.dfy`);
  - AKAZE top-N selection (`akaze.dfy`), the argument parser and output-path validator (`cli.dfy`, module `ArgumentParser`);
  - the configuration constants (`config.dfy`) and the match-distance histogram (`histogram.dfy`).

OpenCV's numerical work has no source here. It appears as function-valued parameters that carry only the facts the code relies on. These are:

- `cv::findHomography`, `determinant`, `inv`, `perspectiveTransform`, `warpPerspective`;
- `pyrDown`/`pyrUp`, `distanceTransform`;
- `knnMatch`, feature detection and description;
- `std::log` in the iteration budget;
- stream extraction in `parseArgument`;
- `cv::imread`.

The random generator of RANSAC becomes an injected sequence of draws. Arithmetic is exact (`real`). Where the code's IEEE behaviour matters, a value is a `Floats.Flt`: finite, NaN or infinite. This covers NaN and infinite matrix entries, the determinant, the reprojection residual and error, and the scale checks. The IEEE operations (`Floats.Add`, `Floats.Mul`, `Floats.Div`) follow the IEEE rules for NaN and the infinities, while a finite result is the exact real one: rounding and overflow to infinity are not modelled.

A failing pairwise stitch returns an empty `cv::Mat` in the code. The model returns a `Reject` value naming the check that failed. The `Reject` is only a label: the tests that decide it are the code's.

## Model

| member | source | states |
|---|---|---|
| Config.ConstantsConsistent | src/config.h:15-45 | every threshold and limit range the gates use is non-empty and holds its default; confidence lies in (0,1); the iteration cap is positive and at least 4 inliers are required; the driver's duplicated limits lie inside the library's |
| Text.Lower | src/stitching/blender_factory.cpp:20-22 | lower-casing keeps the length and maps each character through ASCII `tolower` |
| Text.LowerFixesLower | src/feature_detection/detector_factory.cpp:26-28 | a lower-cased string has no upper-case letter, lower-casing is idempotent, and it leaves lower-case strings unchanged |
| BlenderFactory.StringToMode | src/stitching/blender_factory.cpp:19-33 | a name is accepted exactly when its lower-case form is "simple", "feather" or "multiband"; exposure compensation is never produced; any other name fails with "Unknown blend mode: " followed by the name |
| BlenderFactory.ModeToString | src/stitching/blender_factory.cpp:35-46 | names are lower-case, and "unknown" is returned exactly for the mode without a name |
| BlenderFactory.ModeRoundTrip | src/stitching/blender_factory.cpp:19-46 | printing a named mode and parsing it back gives the mode |
| BlenderFactory.NameRoundTrip | src/stitching/blender_factory.cpp:19-46 | parsing an accepted name and printing it gives its lower-case form |
| BlenderFactory.CreateBlenderByName | src/stitching/blender_factory.cpp:6-11 | succeeds exactly when the name parses, with the parsed mode; otherwise carries the parse error |
| BlenderFactory.CreateBlender | src/stitching/blender_factory.cpp:13-17 | the blender has the given mode |
| DetectorFactory.StringToType | src/feature_detection/detector_factory.cpp:25-39 | accepted exactly when the lower-case name is "orb", "akaze" or "sift"; otherwise fails with "Unknown detector type: " followed by the name |
| DetectorFactory.TypeToString | src/feature_detection/detector_factory.cpp:41-52 | names are lower-case, and "unknown" is returned exactly for an unlisted type |
| DetectorFactory.TypeRoundTrip | src/feature_detection/detector_factory.cpp:25-52 | printing a listed type and parsing it back gives the type |
| DetectorFactory.DetectorNameRoundTrip | src/feature_detection/detector_factory.cpp:25-52 | parsing an accepted name and printing it gives its lower-case form |
| DetectorFactory.CreateDetector | src/feature_detection/detector_factory.cpp:12-23 | one detector kind per listed type; an unlisted type fails |
| DetectorFactory.CreateDetectorByName | src/feature_detection/detector_factory.cpp:8-10 | a detector is built exactly for the case-insensitive names "orb", "akaze" and "sift"; otherwise the parse error is passed on |
| Akaze.NewAkazeDetector | src/feature_detection/feature_detector.h:33 | a new detector has a budget of 2000 |
| Akaze.SetMaxFeatures | src/feature_detection/akaze_detector.cpp:14-19 | only the budget changes |
| Akaze.AsSize | src/feature_detection/akaze_detector.cpp:40 | a non-negative budget keeps its value as a `size_t`; a negative one becomes larger than any vector |
| Akaze.SortByResponse | src/feature_detection/akaze_detector.cpp:41-46 | the result is a permutation of the input in non-increasing response order |
| Akaze.KeepStrongest | src/feature_detection/akaze_detector.cpp:39-49 | more keypoints than the budget leave exactly the budget's worth, sorted by response; otherwise nothing changes; the kept keypoints are a sub-multiset of those detected |
| Akaze.KeptOutrankDiscarded | src/feature_detection/akaze_detector.cpp:41-48 | no discarded keypoint has a larger response than a kept one |
| Akaze.Detect | src/feature_detection/akaze_detector.cpp:21-59 | the name is "AKAZE"; three-channel input is converted to grey; only the keypoints that survive the budget are described, and the result is what description returns |
| Matcher.RatioTest | src/feature_matching/matcher.cpp:73-88 | the output is no longer than the input; every kept match is the first of a two-entry pair whose first distance is below ratio times the second, and the first entry of every such pair is kept |
| Matcher.RatioTestAppend | src/feature_matching/matcher.cpp:79-85 | the test works list by list: on a concatenation it gives the concatenation of the results |
| Matcher.RatioTestSingle | src/feature_matching/matcher.cpp:79-85 | on one list it keeps the nearest neighbour exactly when the list has two entries and the first distance is below ratio times the second |
| Matcher.RatioTestLength | src/feature_matching/matcher.cpp:79-85 | exactly one match is kept per list that passes |
| Matcher.RatioTestKeepsOrder | src/feature_matching/matcher.cpp:79-85 | the kept matches are an order-preserving subsequence of the pairs' first entries |
| Matcher.RatioTestMonotone | src/feature_matching/matcher.cpp:81 | with non-negative distances, raising the ratio keeps every match kept before, as a subsequence |
| Matcher.Distances | src/feature_matching/matcher.cpp:65-68 | the distances are parallel to the good matches |
| Matcher.MatchFeatures | src/feature_matching/matcher.cpp:22-71 | the ratio is recorded on every path; empty or mismatched descriptors, or keypoint counts that differ from descriptor rows, give no matches and no counts; otherwise the good matches are the ratio test of the neighbour lists: one per passing list, in order, with every passing list represented; the counts are the number of lists and of good matches, and the distances are parallel to the good matches |
| Features.Select | src/feature_matching/ransac.cpp:83-89 | the selected points are as many as the mask's set entries, all taken from the input |
| Floats.Add | src/pipeline/stitching_pipeline.cpp:244 | an IEEE sum is finite exactly when both operands are, and then exact; NaN propagates; opposite infinities give NaN |
| Floats.Mul | src/pipeline/stitching_pipeline.cpp:244 | an IEEE product is finite exactly when both factors are, and then exact; NaN propagates; zero times an infinity is NaN |
| Floats.InfinityAbsorbsFinite | src/feature_matching/ransac.cpp:150 | a finite value plus an infinity is that infinity |
| Floats.InfinityTimesNonZero | src/pipeline/stitching_pipeline.cpp:244 | an infinity times a non-zero finite value is an infinity |
| Geometry.Det | src/pipeline/stitching_pipeline.cpp:244 | the IEEE cofactor expansion is finite exactly when every entry is finite, and then it is the exact determinant |
| Geometry.Row | src/feature_matching/ransac.cpp:149-152 | a row of `H * (x, y, 1)` is finite exactly when the row's three entries are, and then it is the exact dot product |
| Geometry.ProjectedResidual | src/feature_matching/ransac.cpp:152-163 | the residual is absent exactly when the weight's magnitude is below 1e-10, and is never negative |
| Geometry.SquaredResidual | src/feature_matching/ransac.cpp:149-163 | the IEEE squared reprojection distance, when present, is never negative or -infinity; a NaN weight gives NaN rather than skipping the point |
| Geometry.FiniteResidualIsExact | src/feature_matching/ransac.cpp:149-163 | on a finite matrix the IEEE residual is absent exactly when the exact one is, and otherwise equals it |
| Floats.NaNPassesRangeGate | src/main.cpp:302-310 | a NaN passes any `x < lo \|\| x > hi` range check, because both comparisons are false |
| Floats.Trunc | src/pipeline/stitching_pipeline.cpp:338-341 | `static_cast<int>` truncates toward zero |
| Floats.Ceil | src/homography/homography_estimator.cpp:102-103 | `std::ceil` gives the least integer not below its argument |
| Images.Add | src/stitching/blender.cpp:206 | an image sum keeps the shape and adds pixel by pixel |
| Images.Sub | src/stitching/blender.cpp:190 | an image difference keeps the shape and subtracts pixel by pixel |
| Images.AddUndoesSub | src/stitching/blender.cpp:190-206 | adding back what was subtracted gives the original pixels |
| Blending.NewBlender | src/stitching/blender.h:41 | a new blender feathers |
| Blending.Blend | src/stitching/blender.cpp:7-20 | the dispatch is overwrite for SIMPLE and for exposure compensation, feathering with radius 30, and multiband with 5 bands; the result is empty exactly when the images differ in size or type |
| Blending.Overlay | src/stitching/blender.cpp:22-36 | the result is empty exactly for incompatible images; otherwise it has img1's type and size, and each pixel is img2's where mask2 is non-zero and img1's elsewhere; mask1 plays no part |
| Blending.OverlayExtremes | src/stitching/blender.cpp:22-36 | a full mask2 yields img2 and an empty one yields img1 |
| Blending.FeatherWeight | src/stitching/blender.cpp:52-68 | with a positive radius the weight lies in [0,1], is 1 at or beyond the radius and 0 on the mask edge; otherwise it is the mask value over 255 |
| Blending.MixConvex | src/stitching/blender.cpp:74-97 | with non-negative weights a mixed channel lies between the two inputs when a weight is positive, is 0 when both vanish, and is the single covering input when only one weight is positive |
| Blending.FeatherWeights | src/stitching/blender.cpp:52-68 | one weight per pixel, computed from that pixel's distance and mask value |
| Blending.FeatherBlend | src/stitching/blender.cpp:38-100 | the result is empty exactly for incompatible images; otherwise it is 8-bit three-channel, of img1's size, with each pixel the weighted mix of the two inputs |
| Blending.FeatherIsConvex | src/stitching/blender.cpp:52-97 | for byte masks both weights lie in [0,1]; each output channel lies between the inputs where a weight is positive and is black where both vanish |
| Blending.ZeroRadiusAveragesOverlap | src/stitching/blender.cpp:60-97 | with radius 0, where both masks are 255 the output is the mean of the two pixels, not an overwrite |
| Blending.GaussianPyramid | src/stitching/blender.cpp:161-175 | the pyramid has `levels` entries (one when `levels` is at most 1); entry 0 is the input, and entry i keeps its type with both sides halved i times |
| Blending.Bands | src/stitching/blender.cpp:185-195 | the band loop yields `levels` entries of the halved shapes, ending with the low-pass residual |
| Blending.LaplacianPyramid | src/stitching/blender.cpp:177-198 | `levels` entries of the halved shapes, in float when the input is 8-bit three-channel |
| Blending.Collapse | src/stitching/blender.cpp:201-207 | collapsing gives an image of the finest entry's size and the coarsest entry's type |
| Blending.Reconstruct | src/stitching/blender.cpp:200-213 | reconstruction gives an 8-bit three-channel image of the finest entry's size |
| Blending.CollapseBands | src/stitching/blender.cpp:177-207 | collapsing the bands of an image returns its pixels, whatever `pyrDown` and `pyrUp` compute |
| Blending.LaplacianRoundTrip | src/stitching/blender.cpp:177-213 | decomposing and then reconstructing an unblended pyramid gives back the input's pixels and size |
| Blending.LevelWeights | src/stitching/blender.cpp:132-139 | non-negative mask values with a positive sum give non-negative weights summing to 1; a zero sum gives two zero weights |
| Blending.WeightedSumOfEqual | src/stitching/blender.cpp:148-152 | weights summing to 1 leave a value both bands share unchanged |
| Blending.BlendLevel | src/stitching/blender.cpp:141-155 | a blended level keeps the band's shape, and each pixel is the two bands weighted by that pixel's normalised mask weights |
| Blending.BlendedPyramid | src/stitching/blender.cpp:128-156 | level i blends level i of both Laplacian pyramids under level i of both mask pyramids |
| Blending.GaussianOfMaskIsMask | src/stitching/blender.cpp:161-175 | when `pyrDown` keeps values in range, every level of a byte mask's pyramid is a byte mask |
| Blending.MultibandWeightsSumToOne | src/stitching/blender.cpp:130-156 | at every level and pixel the normalised weights sum to 1 and lie in [0,1] where the masks do not both vanish, and are both 0 where they do; a value both bands share survives the blend |
| Blending.MultibandBlend | src/stitching/blender.cpp:102-159 | the result is empty exactly for incompatible images; otherwise it is the 8-bit reconstruction of the blended pyramid, of img1's size |
| Canvas.Corners | src/pipeline/stitching_pipeline.cpp:314-318 | four corners with coordinates 0 or the side lengths |
| Canvas.Bound | src/pipeline/stitching_pipeline.cpp:323-331 | the box contains img1's rectangle and every projected corner, and each side is either a side of img1's rectangle or a corner's coordinate |
| Canvas.Translate | src/pipeline/stitching_pipeline.cpp:333-336 | translation moves the box's minimum to the origin, so a contained point lands in [0, extent] |
| Canvas.PaddedSide | src/pipeline/stitching_pipeline.cpp:338-341 | a truncated extent plus twice the padding is at least twice the padding and exceeds the extent |
| Canvas.TranslatedPointsOnCanvas | src/pipeline/stitching_pipeline.cpp:314-341 | every point of the box, once translated, lies in [0,width) × [0,height) of the padded canvas |
| HomographyEstimator.NewEstimator | src/homography/homography_estimator.cpp:8-11 | a new estimator stores threshold 3.0, confidence 0.995 and no result |
| HomographyEstimator.SetRANSACThreshold | src/homography/homography_estimator.h:19 | only the stored threshold changes |
| HomographyEstimator.ValidPrefix | src/homography/homography_estimator.cpp:29-35 | the valid matches among the first k are at most k, all with both indices in range |
| HomographyEstimator.RankLocates | src/homography/homography_estimator.cpp:49-57 | a valid match's rank among the valid matches is where it sits in the correspondence lists, and later valid matches rank higher |
| HomographyEstimator.Correspondences | src/homography/homography_estimator.cpp:29-35 | the two point lists have equal length, the number of valid matches; the valid match of rank i contributes point i to each, from its query and train keypoints |
| HomographyEstimator.KeptIndices | src/homography/homography_estimator.cpp:48-58 | the kept match indices increase, and index j is kept exactly when match j is valid and its rank is set in the mask |
| HomographyEstimator.RemapInliers | src/homography/homography_estimator.cpp:48-58 | the remapped inliers are the kept matches in order, each a valid match from the input |
| HomographyEstimator.KeptCount | src/homography/homography_estimator.cpp:48-58 | when the mask has one entry per correspondence, the number kept equals the set entries of the mask |
| HomographyEstimator.EstimateHomography | src/homography/homography_estimator.cpp:13-61 | fewer than 4 matches, or fewer than 4 valid ones, give an empty matrix with the output list untouched; otherwise RANSAC runs on the correspondences with the argument threshold and confidence 0.995; the result stored is the one returned, and the inlier list is the remapped mask |
| HomographyEstimator.StoredThresholdUnused | src/homography/homography_estimator.cpp:42-45 | the threshold stored by the setter has no effect on the estimate |
| HomographyEstimator.CalculateOutputBounds | src/homography/homography_estimator.cpp:64-110 | the rectangle starts at (0,0); each side is the ceiling of the box's extent plus 20, clamped to 15000; each side is at least img1's side plus 20, up to the clamp |
| Ransac.Distance | src/feature_matching/ransac.cpp:163 | `std::sqrt` of a residual is finite exactly when the residual is, NaN exactly for NaN (or -infinity), and never negative |
| Ransac.FindInliers | src/feature_matching/ransac.cpp:142-171 | one mask entry per point, set exactly when the weight passes the 1e-10 test and the IEEE distance compares below the threshold |
| Ransac.InfiniteWeightProjectsToOrigin | src/feature_matching/ransac.cpp:149-163 | an infinite weight with finite first rows projects to the origin: the residual is the squared norm of the target point, although the matrix is not finite |
| Ransac.InfiniteWeightMakesInlier | src/feature_matching/ransac.cpp:142-171 | such a matrix makes a point an inlier of the origin for every positive threshold |
| Ransac.InliersGrowWithThreshold | src/feature_matching/ransac.cpp:163-167 | raising the threshold never clears a mask entry, so the inlier count cannot fall |
| Ransac.DrawSample | src/feature_matching/ransac.cpp:46-52 | a completed sample has 4 distinct indices, each from the sample so far or from the draws consumed |
| Ransac.SampleIsValid | src/feature_matching/ransac.cpp:46-52 | with draws in [0,n), a sample is 4 distinct indices in [0,n), and at least 4 draws are consumed |
| Ransac.MinimalModel | src/feature_matching/ransac.cpp:112-140 | a sample model is kept exactly when the fit is non-empty, its determinant's magnitude is at least 1e-10 and every entry is finite |
| Ransac.Improve | src/feature_matching/ransac.cpp:67-77 | a strictly better inlier count replaces the best model and mask; the budget is recomputed only when 0 < w < 1, to min(estimate + 1, old), so it never grows; otherwise nothing changes |
| Ransac.Next | src/feature_matching/ransac.cpp:45-80 | one iteration keeps the best mask consistent with the best model, never raises the budget or lowers the best count, and counts the iteration unless the sample was degenerate and is skipped |
| Ransac.Loop | src/feature_matching/ransac.cpp:45-80 | a finished loop has reached its budget, never exceeds the larger of the start count and the budget, and keeps the best model consistent |
| Ransac.DegenerateSamplesNeverEnd | src/feature_matching/ransac.cpp:62 | when every sample is degenerate, the loop as written never finishes, however many draws it gets |
| Ransac.CountedLoopEnds | src/feature_matching/ransac.cpp:45-80 | counting degenerate samples as iterations, enough draws always finish the loop |
| Ransac.CountingAgreesWithoutDegenerateSamples | src/feature_matching/ransac.cpp:45-80 | when no sample is degenerate, the counted loop is the loop as written |
| Ransac.Refit | src/feature_matching/ransac.cpp:82-97 | with at least 4 best inliers the refit uses exactly the masked points, and a non-empty refit replaces the model and recomputes the mask; with an empty refit or too few inliers nothing changes |
| Ransac.ErrorTerm | src/feature_matching/ransac.cpp:185-203 | a point contributes exactly when it is masked and its weight passes the 1e-10 test, and then contributes its distance |
| Ransac.ErrorSum | src/feature_matching/ransac.cpp:181-204 | the IEEE total is never negative or -infinity, counts at most one error per point, and is 0 when nothing is counted |
| Ransac.ReprojectionError | src/feature_matching/ransac.cpp:173-207 | -1 for an empty model, and otherwise -1 or an IEEE mean that is never negative or -infinity |
| Ransac.SumTerms | src/feature_matching/ransac.cpp:184-204 | a sum of present terms that are never negative or -infinity is itself never negative or -infinity, counts at most one per term, and is 0 when nothing is counted |
| Ransac.ErrorTerms | src/feature_matching/ransac.cpp:184-204 | one term per point, each the point's contribution |
| Ransac.NaNTermPoisons | src/feature_matching/ransac.cpp:202 | one NaN term makes the sum NaN |
| Ransac.SumOfInlierTerms | src/feature_matching/ransac.cpp:202-203 | terms present exactly at the set mask entries, each finite and in [0, t), sum to a finite total below count × t, counting each set entry once |
| Ransac.NaNDistancePoisonsSum | src/feature_matching/ransac.cpp:198-203 | one masked point with a NaN residual makes the total NaN |
| Ransac.NaNDistancePoisonsError | src/feature_matching/ransac.cpp:173-207 | and then the reported error is NaN |
| Ransac.ErrorSumOfInliers | src/feature_matching/ransac.cpp:142-207 | for a mask computed from the same model and threshold, every inlier is counted, and the total is finite and below count × threshold |
| Ransac.ReprojectionErrorBound | src/feature_matching/ransac.cpp:173-207 | with the mask from the same model and threshold, the error is -1 when there are no inliers and lies in [0, threshold) otherwise |
| Ransac.Report | src/feature_matching/ransac.cpp:101-106 | the inlier count is the number of set mask entries, the ratio is the count over n and lies in [0,1], and the reported iteration count is the loop's |
| Ransac.FindHomography | src/feature_matching/ransac.cpp:13-110 | fewer than 4 points, or lists of different lengths, are rejected; a result has a full-length mask, a count and ratio that agree with it, at most the iteration cap, an empty model only with no inliers, a mask recomputed from the reported model, and an error in [0, threshold) exactly when there are inliers; enough draws always yield a result |
| Ransac.ExtractPoints | src/feature_matching/ransac.cpp:209-228 | the output is no longer than the matches; every output point is a keypoint's; when every index is in range, the output is the indexed keypoints in order |
| PairStitch.InputGate | src/pipeline/stitching_pipeline.cpp:65-79 | an empty image is rejected first, then a non-8-bit-three-channel one, then a side under 50; the gate passes exactly when none applies |
| PairStitch.EffectiveThreshold | src/pipeline/stitching_pipeline.cpp:81-84 | a threshold in (0, 50] is kept and any other becomes 3.0 |
| PairStitch.EffectiveMaxFeatures | src/pipeline/stitching_pipeline.cpp:86-89 | a budget in [10, 50000] is kept and any other becomes the caller's fallback |
| PairStitch.ScaleSq | src/pipeline/stitching_pipeline.cpp:22-23 | the squared scale is the pixel ratio, capped at 9 when the cap applies |
| PairStitch.TruncScaled | src/pipeline/stitching_pipeline.cpp:24 | the product with the square-root scale truncates toward zero to the integer square root of its square |
| PairStitch.AdaptiveFeatures | src/pipeline/stitching_pipeline.cpp:18-30 | at or below 1.5 × the base pixel count, the budget is unchanged |
| PairStitch.AdaptiveFeaturesBounds | src/pipeline/stitching_pipeline.cpp:21-26 | above the threshold the budget never shrinks, and with the cap it at most triples |
| PairStitch.AdaptiveFeaturesSaturate | src/pipeline/stitching_pipeline.cpp:23-24 | from 9 × the base pixel count on, the capped budget is exactly three times the input |
| PairStitch.CapIrrelevantBelowNineFold | src/main.cpp:237-243 | below 9 × the base pixel count, the driver's uncapped scaling agrees with the pipeline's capped one |
| PairStitch.PipelineHomographyGate | src/pipeline/stitching_pipeline.cpp:229-278 | rejections in order: empty, a NaN or infinite entry, determinant magnitude outside [0.001, 1000], \|h22\| below 1e-10, a normalised column norm outside [0.1, 10], fewer than 20 inliers; it passes exactly when none applies |
| PairStitch.MainHomographyGate | src/main.cpp:296-333 | the driver's gate: empty, determinant out of range, scale out of range, fewer than 20 inliers, with no finiteness or h22 check |
| PairStitch.PipelineGateStricter | src/pipeline/stitching_pipeline.cpp:229-278 | every homography the pipeline accepts, the driver accepts too |
| PairStitch.DriverAdmitsNaNHomography | src/main.cpp:301-326 | an all-NaN matrix with enough inliers passes the driver's gate and fails the pipeline's finiteness check |
| PairStitch.InfiniteEntryFailsDeterminant | src/main.cpp:302-306 | an infinite h02 with a non-zero cofactor, other entries finite, gives an infinite determinant: the driver rejects it at the determinant check and the pipeline at the finiteness check |
| PairStitch.FiniteScaleCheck | src/pipeline/stitching_pipeline.cpp:254-265 | for a finite matrix with a usable h22, the squared scales are the squared norms of the normalised first two columns |
| PairStitch.ProjectedCorners | src/pipeline/stitching_pipeline.cpp:314-321 | img2's four corners are each projected through the inverse homography |
| PairStitch.PlanCanvas | src/pipeline/stitching_pipeline.cpp:314-341 | the box bounds img1's rectangle and the projected corners; the canvas is at least img1's size plus the padding; every translated corner of both images lies in [0,width) × [0,height) |
| PairStitch.CanvasGate | src/pipeline/stitching_pipeline.cpp:343-369 | rejections in order: a non-positive side, a side over the limit, then (when checked) more than 2 GiB at 6 bytes per pixel; it passes exactly when none applies |
| PairStitch.PlannedCanvasPositive | src/pipeline/stitching_pipeline.cpp:338-346 | a planned canvas is never rejected as non-positive |
| PairStitch.MemoryCheckIdleAtDimensionLimit | src/pipeline/stitching_pipeline.cpp:362-363 | a canvas within 15000 × 15000 never exceeds the memory limit |
| PairStitch.Warp | src/pipeline/stitching_pipeline.cpp:375-384 | a warp keeps the type and has the canvas size |
| PairStitch.FullMask | src/pipeline/stitching_pipeline.cpp:377 | the validity mask of an image is single-channel, of its size, and 255 everywhere |
| PairStitch.Compose | src/pipeline/stitching_pipeline.cpp:371-397 | warping and blending onto a positive canvas succeeds exactly when the two images have the same type |
| PairStitch.Finish | src/pipeline/stitching_pipeline.cpp:306-397 | a non-invertible homography fails; otherwise the canvas is planned, the canvas gate decides, and blending follows; a result lies within the limits, and within the memory limit when that is checked |
| StitchingPipeline.Prepare | src/pipeline/stitching_pipeline.cpp:65-167 | the input gate, then more than 1e8 combined pixels, then an unknown detector, fail in that order; on success the fallbacks apply, each image's budget is the capped adaptive one, the ratio is 0.75, and L2 matching is used exactly for the name "sift" |
| StitchingPipeline.ChooseBlender | src/pipeline/stitching_pipeline.cpp:388-395 | a known mode name gives its mode, and any other name falls back to feathering |
| StitchingPipeline.PerformStitchingDirect | src/pipeline/stitching_pipeline.cpp:53-406 | the first failing check names the failure, in source order; a panorama has passed every check, on a canvas within the limit and the memory bound; blending never fails |
| StitchingPipeline.ChecksPassedMeansPanorama | src/pipeline/stitching_pipeline.cpp:53-406 | when every check passes, the result is a panorama |
| StitchingPipeline.MemoryCheckRedundantAtDefaultLimit | src/pipeline/stitching_pipeline.cpp:362-369 | at the 15000 limit the memory check never changes the result |
| StitchingPipeline.MixedCaseSiftKeepsHamming | src/pipeline/stitching_pipeline.cpp:158-162 | for images that pass the input and pixel checks, "SIFT" is prepared with a SIFT detector but matched with the Hamming norm |
| StitchingPipeline.PerformStitching | src/pipeline/stitching_pipeline.cpp:32-51 | an unreadable image fails as empty input; otherwise the direct stitch runs with the 15000 limit |
| StitchingPipeline.StitchPairIsDirectStitch | src/pipeline/stitching_pipeline.cpp:435-450 | the pairwise stitch yields a panorama exactly when the direct stitch succeeds, and then it is that stitch's panorama |
| StitchingPipeline.PerformSequentialStitching | src/pipeline/stitching_pipeline.cpp:408-476 | no images fail and one image is returned as it is; when the full middle-out chain succeeds, the result is that chain |
| Sequential.MiddleOutOrder | src/pipeline/stitching_pipeline.cpp:427-473 | the order visits every index except the middle one, exactly once each |
| Sequential.LeftPass | src/pipeline/stitching_pipeline.cpp:432-452 | a failing left pass fails at an index it reached |
| Sequential.MiddleOut | src/pipeline/stitching_pipeline.cpp:418-425 | no images fail and one image is returned as it is |
| Sequential.LeftPassIsChain | src/pipeline/stitching_pipeline.cpp:432-452 | the left pass stitches images[i] onto the panorama for i descending, and fails exactly when that chain fails |
| Sequential.RightPassIsChain | src/pipeline/stitching_pipeline.cpp:454-473 | when the chain over ascending indices succeeds, the right pass is that chain, with the panorama first |
| Sequential.MiddleOutFollowsOrder | src/pipeline/stitching_pipeline.cpp:427-473 | when every step succeeds, middle-out stitching is the chain over left indices descending and then right indices ascending, from the middle image |
| Sequential.LeftFailureHandling | src/pipeline/stitching_pipeline.cpp:442-450 | a left failure at index 0 with right images pending restarts from the middle image; any other left failure fails |
| Sequential.RightFailureHandling | src/pipeline/stitching_pipeline.cpp:464-470 | a right failure at the last image returns the panorama so far; any earlier right failure fails |
| Sequential.RightFailureInMiddleOut | src/pipeline/stitching_pipeline.cpp:453-472 | after a completed left pass, a right failure at the last image makes middle-out stitching return the panorama so far, and an earlier one makes it fail |
| StitchingPipeline.SequentialLeftFailure | src/pipeline/stitching_pipeline.cpp:432-451 | in the pipeline's sequential stitch, a failed left join on image 0 with right images pending restarts the right pass from the middle image; any other left failure gives no panorama |
| StitchingPipeline.SequentialRightFailure | src/pipeline/stitching_pipeline.cpp:453-472 | a failed right join on the last image returns the panorama built so far; on an earlier image, no panorama |
| Sequential.LeftToRight | src/main.cpp:459-465 | no images fail and one image is returned as it is |
| Sequential.AccumulateIsChain | src/main.cpp:468-485 | the driver's loop is the chain over ascending indices, with the panorama first |
| Sequential.LeftToRightIsChain | src/main.cpp:449-488 | the driver's sequential stitch is the ascending chain from images[0], aborting on any failure |
| Sequential.ThreeImageFirst | src/main.cpp:628-677 | with exactly 3 images, when both reference steps succeed the result is stitch(stitch(images[1], images[0]), images[2]); in every other case it is the sequential stitch |
| ArgumentParser.Defaults | src/cli/argument_parser.h:18-26 | no mode, no paths, output "panorama_output.jpg", detector "orb", blend "feather", threshold 3.0, 20000 features, no visualising and no help |
| ArgumentParser.ParseArgument | src/cli/argument_parser.h:47-65 | succeeds exactly when the leading token reads and nothing but white space follows; the value is written only on success |
| ArgumentParser.ParseDouble | src/cli/argument_parser.cpp:42-55 | true exactly when the read succeeds and the value is in range; the value read is stored even when the range check fails |
| ArgumentParser.ParseInt | src/cli/argument_parser.cpp:57-70 | the same for integers |
| ArgumentParser.RangeFailureKeepsValue | src/cli/argument_parser.cpp:42-55 | a readable out-of-range number fails but is left in the variable |
| ArgumentParser.TraversalRejected | src/cli/argument_parser.cpp:22-25 | any path containing ".." is rejected |
| ArgumentParser.SystemPrefixRejected | src/cli/argument_parser.cpp:27-37 | a path starting with a system directory is rejected, and the test is textual, so "/usrx" is rejected too |
| ArgumentParser.RelativePathAccepted | src/cli/argument_parser.cpp:21-40 | every path without ".." that does not start with '/' is accepted, the empty path included |
| ArgumentParser.DefaultsValid | src/cli/argument_parser.h:18-26 | the default values pass every check the parser applies |
| ArgumentParser.CollectEnd | src/cli/argument_parser.cpp:99-101 | collection stops at the first argument starting with '-', or at the end |
| ArgumentParser.Classify | src/cli/argument_parser.cpp:83-182 | a token is an option exactly when it is spelt like one |
| ArgumentParser.StitchMultipleStep | src/cli/argument_parser.cpp:97-107 | the mode is set and the paths are appended before the count check; the parse goes on exactly when there are at least 2 paths, all of them not starting with '-' |
| ArgumentParser.ParseStep | src/cli/argument_parser.cpp:80-182 | every return sets the help flag; going on never does, keeps every value valid and only appends paths from argv |
| ArgumentParser.StepStopsOnHelpOrUnknown | src/cli/argument_parser.cpp:178-182 | `--help` or an unknown token returns at once, with only the help flag changed |
| ArgumentParser.StepNeedsValue | src/cli/argument_parser.cpp:111-116 | a value option at the end of argv returns with only the help flag changed |
| ArgumentParser.StepStitch | src/cli/argument_parser.cpp:87-96 | `--stitch` goes on exactly when two arguments follow; it sets the mode and appends both |
| ArgumentParser.StepNamedValue | src/cli/argument_parser.cpp:111-174 | the detector, blend-mode and output values are stored, and the parse goes on exactly when the value is an accepted exact name, or a valid output path |
| ArgumentParser.StepNumericValue | src/cli/argument_parser.cpp:137-162 | the threshold and feature values go on exactly when the number reads and is in range, and what was read is stored either way |
| ArgumentParser.ParseFrom | src/cli/argument_parser.cpp:80-185 | a parse that ends without help has only valid values; paths only accumulate, all from argv |
| ArgumentParser.Parse | src/cli/argument_parser.cpp:72-186 | fewer than two arguments, or `--help` first, give the defaults with help; a result without help is valid; every path comes from argv |
| Driver.Wrap32 | src/main.cpp:229-230 | on a two's-complement wrap, a 32-bit `int` product agrees with the exact product modulo 2^32, and equals it when in range |
| Driver.HugeImageKeepsBaseBudget | src/main.cpp:229-243 | on a two's-complement wrap, a 46341 × 46341 image overflows to a negative pixel count and keeps the unscaled budget |
| Driver.DetectorFor | src/main.cpp:249-258 | the driver knows exactly "orb" and "akaze", spelt exactly |
| Driver.DriverDetectorsAgreeWithFactory | src/main.cpp:249-258 | where the driver builds a detector the factory builds the same; "sift" and "ORB" are refused by the driver but accepted by the factory |
| Driver.DriverBlender | src/main.cpp:431-441 | exact "simple" and "multiband" select their modes, and anything else leaves the default feathering |
| Driver.DriverBlenderAgreesOnExactNames | src/main.cpp:431-441 | on the three exact names the driver and the pipeline agree; "SIMPLE" feathers in the driver and overwrites in the pipeline |
| Driver.Prepare | src/main.cpp:199-277 | the input gate, then an unknown detector, fail in that order; on success the fallbacks use 2000, the budgets are the uncapped adaptive ones on the 32-bit pixel count, and matching uses ratio 0.7 with the Hamming norm |
| Driver.PerformStitchingDirect | src/main.cpp:188-446 | the first failing driver check names the failure; after the driver's gate the outcome is inversion, canvas planning and blending; a panorama has passed the driver's gate on a canvas within the limit, with the driver's blender; no memory, NaN or h22 failure is possible |
| Driver.NaNHomographyReachesInversion | src/main.cpp:301-356 | an all-NaN estimate with 20 inliers passes every driver gate: the result is what inversion, canvas planning and blending make of it, and a failure only if the inversion refuses the matrix |
| Driver.PerformStitching | src/main.cpp:165-185 | an unreadable image fails as empty input; otherwise the direct stitch runs with the 10000 limit |
| Driver.ParseOptions | src/main.cpp:524-545 | in-range values stay in range; the detector, blend mode and output each keep their previous value or become the argument that follows their option in argv; visualising, once on, stays on, and is switched on only when `--visualize` appears |
| Driver.UnknownArgumentsIgnored | src/main.cpp:524-545 | arguments that name no option change nothing |
| Driver.TrailingThresholdDecides | src/main.cpp:532-535 | a final `--ransac-threshold` changes only the threshold: a readable value in [0.1, 50] is taken, anything else resets it to 3.0 |
| Driver.TrailingMaxFeaturesDecides | src/main.cpp:536-539 | a final `--max-features` changes only the budget: a readable value in [10, 50000] is taken, anything else resets it to 2000 |
| Driver.LastThresholdWins | src/main.cpp:524-545 | of two `--ransac-threshold` options the last decides, and an unreadable last value resets to the default rather than keeping the earlier one |
| Driver.CommandLineNeedsNoFallback | src/main.cpp:215-223 | options parsed on the command line already satisfy the direct stitch's fallbacks |
| Driver.StitchPair | src/main.cpp:637-652 | the driver's pairwise stitch yields a panorama exactly when its direct stitch succeeds |
| Driver.PerformSequentialStitching | src/main.cpp:449-488 | no images fail; otherwise the result is the left-to-right chain from images[0] |
| Driver.Save | src/main.cpp:554-564 | `cv::imwrite` either throws, ending the program without an exit code, or is followed by exit code 0 with the panorama saved under the path |
| Driver.StitchTwo | src/main.cpp:512-565 | the program ends without an exit code exactly when the stitch succeeds and the write throws; otherwise the exit code is 0, and the panorama is saved under the output path exactly when the stitch succeeds |
| Driver.LoadAll | src/main.cpp:617-626 | each path is loaded, in order |
| Driver.MultiPaths | src/main.cpp:568-574 | the paths are the arguments from index 2 up to the first starting with '-' |
| Driver.SaveName | src/main.cpp:680-686 | an empty output path saves to "multi_panorama.jpg"; any other is used as given |
| Driver.StitchMultiple | src/main.cpp:567-689 | at least 3 paths, all loading, and a successful three-image-or-sequential stitch lead to a write of the panorama under the save name; the write either throws, ending the program without an exit code, or the exit code is 0; in every other case the exit code is 1 and nothing is written |
| Driver.Run | src/main.cpp:490-693 | no arguments give usage and exit 1; `--help` exits 0; experiment mode exits 0; `--stitch` and `--stitch-multiple` with at least 4 arguments run their branch; anything else prints usage and exits 1; only those two branches can end in a throwing write |
| Driver.UnreadableImageStillExitsZero | src/main.cpp:547-564 | `--stitch` with an unreadable image exits 0 and saves nothing |
| Driver.ThrowingWriteAborts | src/main.cpp:554-555 | a successful `--stitch` whose write throws ends without an exit code |
| Driver.TwoPathsAreTooFew | src/main.cpp:576-579 | `--stitch-multiple` with two paths exits 1 |
| Histogram.Min | src/experiments/visualization.cpp:26 | the minimum is one of the distances and bounds them all from below |
| Histogram.Max | src/experiments/visualization.cpp:27 | the maximum is one of the distances and bounds them all from above |
| Histogram.Top | src/experiments/visualization.cpp:29-31 | the upper end exceeds the minimum and bounds every distance; it is the maximum, or the minimum plus one |
| Histogram.Width | src/experiments/visualization.cpp:35 | the bin width is positive |
| Histogram.BinOf | src/experiments/visualization.cpp:39-41 | the bin is the truncated offset clamped into [0, 49] |
| Histogram.BinCoversDistance | src/experiments/visualization.cpp:38-43 | a distance within the range lies in its bin's interval, the last bin closed above |
| Histogram.DistanceInItsBin | src/experiments/visualization.cpp:26-43 | every distance lies in the interval of its bin |
| Histogram.Empty | src/experiments/visualization.cpp:34 | fifty zero bins |
| Histogram.FillCountsEveryDistance | src/experiments/visualization.cpp:34-43 | the bins add up to the number of distances |
| Histogram.FillMatchesCount | src/experiments/visualization.cpp:38-43 | each bin holds exactly the distances whose bin it is |
| Histogram.FillBins | src/experiments/visualization.cpp:38-43 | the fill loop yields the filled bins and the sum of the distances |
| Histogram.MatchDistanceHistogram | src/experiments/visualization.cpp:16-61 | no distances give no histogram; otherwise 50 bins that add up to the count, each bin holding exactly its distances, with the minimum, the widened maximum and the mean |

## Left out

- Image I/O (`imread`, `imwrite`), `imshow`/`waitKey`, timing, logging and the visualisation writes of the pipeline: these are side effects only. Loading is a parameter. Saving is recorded in the driver's outcome, and whether `cv::imwrite` throws is a parameter; a `false` return from it is not distinguished, as `main` ignores it. Exceptions from `imshow` and `waitKey` are not modelled.
- The experiment runner, report generator, tests and Python scripts are outside the core. Experiment mode is modelled only as its exit code.
- Drawing the histogram chart and its labels is not modelled; only the numbers behind it are.
- OpenCV numerics are parameters. They carry only the shape and type facts the code relies on: `findHomography`, `determinant` (its value), `inv`, `perspectiveTransform`, `warpPerspective`, `pyrDown`/`pyrUp`, `distanceTransform`, `knnMatch`, detection and description. ORB and SIFT are thin OpenCV wrappers and appear only as detector kinds.
- Floating-point rounding: reals are exact. The float casts of corner coordinates, `convertTo` rounding and 8-bit saturation are not modelled. So the Laplacian round trip holds before the final 8-bit conversion.
- The 255 that `sum += (sum == 0)` adds where a weight sum is zero is taken as the result of that addition. Whether OpenCV accepts the mixed-type addition is outside the model. The numerators are zero there, so the quotient does not depend on the value.
- `std::random_device`/`mt19937`: the draws are a parameter. Running out of draws ends the estimate with no result, where the code would keep drawing.
- `std::log` in the iteration budget is a parameter. The budget is recomputed with `min(estimate + 1, old)` exactly as written.
- Ransac.FindHomography: the iteration count is an unbounded integer. The overflow of the `int` counter in the looping case is not modelled.
- Ransac.FindHomography: runs the corrected loop, in which every drawn sample counts towards the iteration budget (see Findings), not the loop as written. `HomographyEstimator.EstimateHomography` inherits this. The two agree on every run without a degenerate sample (`Ransac.CountingAgreesWithoutDegenerateSamples`).
- Floats.Add: a finite sum, product or quotient is the exact real result. Rounding and overflow to infinity are not modelled, so every `Flt` infinity or NaN comes from an infinite or NaN input or a division. Ransac.ErrorSum adds from the last point back; over its terms (finite and non-negative, +infinity or NaN) the order does not change the IEEE result.
- Akaze.KeepStrongest: `partial_sort` admits several orders among keypoints of equal response. The model fixes one, and its contract states only what every admissible order shares.
- Akaze.Detect: a negative budget from `setMaxFeatures` is modelled through `size_t` wrap-around. A list longer than a vector can hold is excluded by a precondition.
- StitchingPipeline.Prepare: the pixel products use exact integers. The pipeline's `int` products cannot overflow once the combined pixel check has passed, and the `size_t` sum cannot overflow for `int` sides. The driver's `int` product, which can overflow, is modelled explicitly (`Driver.Wrap32`).
- Casts of canvas extents too large for an `int` are not modelled.
- Blending.MultibandBlend: requires at least one band. The code indexes `pyramid.back()` of an empty vector for fewer, which is undefined behaviour; every caller passes 5.
- Driver.ParseOptions: states visualising in one direction only. A value option can consume the token "--visualize", so its presence in argv does not imply the flag.
- Driver.StitchTwo: requires the 4 arguments the driver's dispatch checks before calling it.
- The driver's own `parseArgument`/`parseDouble`/`parseInt` (src/main.cpp:89-142) repeat the parser's templates word for word. The model defines them once, in `ArgumentParser`.
- The refit is not claimed to improve the mean reprojection error: the code does not compare the errors before and after, and nothing guarantees it.

Where the repository's own description and its code disagree, the model follows the code:

- The translation maps the box's minimum corner to the origin, not to a padding offset. The padding only enlarges the canvas size (src/pipeline/stitching_pipeline.cpp:333-341).
- The band count is fixed at 5 and never reduced for large canvases.
- Feathering with radius 0 does not converge to an overwrite. Where both masks are set, it averages the two images (`Blending.ZeroRadiusAveragesOverlap`).
- The header declares a 4-argument `estimateHomography`, but the .cpp defines one with a fifth threshold argument. The .cpp is modelled. The pipeline and driver call the 4-argument form, so which threshold reaches RANSAC there is undetermined. The callers' estimate is therefore a parameter. The value `setRANSACThreshold` stores is never read (`HomographyEstimator.StoredThresholdUnused`).
- The header's detector enum lists only ORB and AKAZE, while the factory also handles SIFT. The model's type has SIFT and one unlisted value for the `default` branch.
- Failures are empty matrices in the code, not typed errors.
- The driver's multi-image path always falls back to strict left-to-right from image 0. It does not stitch outward from the middle.

## Findings

| source | as written | input that shows it | evidently intended | confidence | as-written member | corrected member |
|---|---|---|---|---|---|---|
| src/feature_matching/ransac.cpp:62 | `if (H.empty()) continue;` skips `iterations++`, so a degenerate sample does not count against the budget | any correspondence set on which every 4-point fit is empty, singular or non-finite (for example 4 or more identical points): the loop never ends | every sample, degenerate or not, counts as an iteration, so at most `max_iterations` samples are drawn | not executed | Ransac.DegenerateSamplesNeverEnd | Ransac.CountedLoopEnds |

`Ransac.FindHomography` runs the counted loop. `Ransac.CountingAgreesWithoutDegenerateSamples` shows that this changes nothing on runs that never draw a degenerate sample.
