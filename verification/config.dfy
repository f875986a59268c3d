/** Tuning constants of the stitcher (`PanoramaConfig` in src/config.h) and the older
    duplicate set used by the command-line driver (`StitchingConfig` in src/main.cpp).
    Doubles are exact reals here. */
module Config {

  // Feature detection
  const DEFAULT_MAX_FEATURES: int := 50000
  const MIN_FEATURES: int := 10
  const MAX_FEATURES: int := 50000

  // RANSAC
  const DEFAULT_RANSAC_THRESHOLD: real := 3.0
  const MIN_RANSAC_THRESHOLD: real := 0.1
  const MAX_RANSAC_THRESHOLD: real := 50.0
  const DEFAULT_RANSAC_CONFIDENCE: real := 0.995
  const DEFAULT_RANSAC_MAX_ITERATIONS: int := 2000
  const MIN_INLIERS_REQUIRED: int := 20

  // Panorama size limits
  const MAX_PANORAMA_DIMENSION: int := 15000
  const MIN_IMAGE_DIMENSION: int := 50
  const PANORAMA_PADDING: int := 10
  const MAX_PANORAMA_MEMORY: int := 2147483648

  // Homography validation
  const MIN_HOMOGRAPHY_DETERMINANT: real := 0.001
  const MAX_HOMOGRAPHY_DETERMINANT: real := 1000.0
  const MIN_HOMOGRAPHY_SCALE: real := 0.1
  const MAX_HOMOGRAPHY_SCALE: real := 10.0
  const HOMOGRAPHY_EPSILON: real := 0.0000000001

  // Adaptive feature scaling
  const REFERENCE_IMAGE_WIDTH: int := 2048
  const REFERENCE_IMAGE_HEIGHT: int := 1536
  const PANORAMA_SCALE_THRESHOLD: real := 1.5

  // Memory limits
  const MAX_IMAGE_PIXELS: int := 100000000
  const WARNING_IMAGE_PIXELS: int := 50000000

  // The duplicate constants of the command-line driver (`StitchingConfig`)
  const MAIN_DEFAULT_MAX_FEATURES: int := 2000
  const MAIN_DEFAULT_RANSAC_THRESHOLD: real := 3.0
  const MAIN_MAX_PANORAMA_DIMENSION: int := 10000
  const MAIN_PANORAMA_PADDING: int := 10
  const MAIN_MIN_INLIERS_REQUIRED: int := 20

  /** The ranges every gate relies on are non-empty and contain their defaults. */
  lemma ConstantsConsistent()
    ensures 0.0 < MIN_RANSAC_THRESHOLD <= DEFAULT_RANSAC_THRESHOLD <= MAX_RANSAC_THRESHOLD
    ensures 0 < MIN_FEATURES <= DEFAULT_MAX_FEATURES <= MAX_FEATURES
    ensures 0.0 < MIN_HOMOGRAPHY_DETERMINANT <= MAX_HOMOGRAPHY_DETERMINANT
    ensures 0.0 < MIN_HOMOGRAPHY_SCALE <= MAX_HOMOGRAPHY_SCALE
    ensures 0.0 < DEFAULT_RANSAC_CONFIDENCE < 1.0
    ensures DEFAULT_RANSAC_MAX_ITERATIONS > 0 && MIN_INLIERS_REQUIRED >= 4
    ensures MIN_FEATURES <= MAIN_DEFAULT_MAX_FEATURES <= MAX_FEATURES
    ensures MAIN_MAX_PANORAMA_DIMENSION < MAX_PANORAMA_DIMENSION
  {
  }
}
