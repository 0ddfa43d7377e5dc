/** The pinhole-camera relation behind calibration and distance estimation:
    an object of real width W at distance D projects to P pixels with
    focal length F exactly when P * D == F * W. */
module Pinhole {
  /** Multiplier applied to every estimate; 1.0 leaves it unchanged. */
  const SCALING_FACTOR: real := 1.0

  /** The focal length, in pixels, that makes an object `knownWidth` wide
      at `distance` project to `pixelWidth` pixels. */
  function CalculateFocalLength(distance: real, knownWidth: real, pixelWidth: real): (f: real)
    requires knownWidth != 0.0
    ensures f * knownWidth == pixelWidth * distance
    ensures distance > 0.0 && knownWidth > 0.0 && pixelWidth > 0.0 ==> f > 0.0
  {
    (pixelWidth * distance) / knownWidth
  }

  /** The distance at which an object `knownWidth` wide projects to
      `pixelWidth` pixels under `focalLength`, times the scaling factor. */
  function EstimateDistance(focalLength: real, knownWidth: real, pixelWidth: real): (d: real)
    requires pixelWidth != 0.0
    ensures d * pixelWidth == knownWidth * focalLength
    ensures focalLength > 0.0 && knownWidth > 0.0 && pixelWidth > 0.0 ==> d > 0.0
  {
    var distance := (knownWidth * focalLength) / pixelWidth;
    distance * SCALING_FACTOR
  }

  /** Estimating at the calibration width gives back the calibration
      distance: the two formulas are inverse to each other. */
  lemma EstimateInvertsCalibration(distance: real, knownWidth: real, pixelWidth: real)
    requires knownWidth != 0.0 && pixelWidth != 0.0
    ensures EstimateDistance(CalculateFocalLength(distance, knownWidth, pixelWidth), knownWidth, pixelWidth) == distance
  {
  }

  /** Calibrating at an estimated distance gives back the focal length. */
  lemma CalibrationInvertsEstimate(focalLength: real, knownWidth: real, pixelWidth: real)
    requires knownWidth != 0.0 && pixelWidth != 0.0
    ensures CalculateFocalLength(EstimateDistance(focalLength, knownWidth, pixelWidth), knownWidth, pixelWidth) == focalLength
  {
  }

  /** Smaller boxes mean farther faces: for a positive focal length and
      width the estimate falls strictly as the pixel width grows, and
      only then. */
  lemma EstimateDecreasesWithPixelWidth(focalLength: real, knownWidth: real, p1: real, p2: real)
    requires focalLength > 0.0 && knownWidth > 0.0 && p1 > 0.0 && p2 > 0.0
    ensures EstimateDistance(focalLength, knownWidth, p1) > EstimateDistance(focalLength, knownWidth, p2) <==> p1 < p2
  {
  }

  /** A longer focal length gives a strictly larger estimate, and only then. */
  lemma EstimateIncreasesWithFocalLength(f1: real, f2: real, knownWidth: real, pixelWidth: real)
    requires knownWidth > 0.0 && pixelWidth > 0.0
    ensures EstimateDistance(f1, knownWidth, pixelWidth) < EstimateDistance(f2, knownWidth, pixelWidth) <==> f1 < f2
  {
  }
}
