/** The stand-alone estimator: calibrate once against a face at a known
    distance, then print a distance, in metres, for every frame until the
    camera fails or the user presses `q`. Lengths are in centimetres. */
module LocalEstimator {
  import opened Wrappers
  import opened Detection
  import opened Pinhole

  /** Reference distance of the calibration face, in centimetres. */
  const KNOWN_DISTANCE: real := 40.0
  /** Reference width of a face, in centimetres. */
  const KNOWN_WIDTH: real := 15.0
  /** Number of camera reads calibration may spend. */
  const CALIBRATION_ATTEMPTS: nat := 30
  /** The message of the exception calibration raises. */
  const CALIBRATION_FAILED: string := "Calibration failed. No face detected."
  /** The key code of `q`, which ends the tracking loop. */
  const QUIT_KEY: int := 113

  /** The index of the first read in `[lo, hi)` that detected a face. */
  function FirstDetection(script: seq<Capture>, lo: nat, hi: nat): (r: Option<nat>)
    decreases hi - lo
    ensures r.Some? ==> lo <= r.value < hi && Detects(ReadAt(script, r.value))
    ensures r.Some? ==> forall j :: lo <= j < r.value ==> !Detects(ReadAt(script, j))
    ensures r.None? <==> forall j :: lo <= j < hi ==> !Detects(ReadAt(script, j))
  {
    if lo >= hi then None
    else if Detects(ReadAt(script, lo)) then Some(lo)
    else FirstDetection(script, lo + 1, hi)
  }

  /** The focal length calibrated from the primary box of a detecting read. */
  function FocalLengthFrom(c: Capture): (f: real)
    requires Detects(c)
    ensures f > 0.0
    ensures EstimateDistance(f, KNOWN_WIDTH, c.faces[0].w as real) == KNOWN_DISTANCE
  {
    EstimateInvertsCalibration(KNOWN_DISTANCE, KNOWN_WIDTH, c.faces[0].w as real);
    CalculateFocalLength(KNOWN_DISTANCE, KNOWN_WIDTH, c.faces[0].w as real)
  }

  /** Four frames without a face, then one with a 100-pixel box: the fifth
      read wins with focal length 100 * 40 / 15, so a calibration from the
      first read stops after five reads. */
  lemma FifthFrameCalibrates(script: seq<Capture>, box: Box)
    requires |script| >= 5 && box.w == 100
    requires forall j :: 0 <= j < 4 ==> script[j] == Frame([])
    requires script[4].Frame? && |script[4].faces| > 0 && script[4].faces[0] == box
    ensures FirstDetection(script, 0, CALIBRATION_ATTEMPTS) == Some(4)
    ensures FocalLengthFrom(ReadAt(script, 4)) == 4000.0 / 15.0
  {
  }

  /** Calibration from read `start` on: up to 30 reads, unreadable frames
      skipped, stopping at the first frame with a face. `next` is the read
      after the last one performed. */
  method Calibrate(script: seq<Capture>, start: nat) returns (focal: Result<real, string>, next: nat)
    ensures start < next <= start + CALIBRATION_ATTEMPTS
    ensures match FirstDetection(script, start, start + CALIBRATION_ATTEMPTS)
      case Some(k) => next == k + 1 && focal == Ok(FocalLengthFrom(ReadAt(script, k)))
      case None => next == start + CALIBRATION_ATTEMPTS && focal == Err(CALIBRATION_FAILED)
  {
    var focalLength: Option<real> := None;
    var i := 0;
    next := start;
    while i < CALIBRATION_ATTEMPTS
      invariant 0 <= i <= CALIBRATION_ATTEMPTS
      invariant next == start + i && focalLength.None?
      invariant forall j :: start <= j < start + i ==> !Detects(ReadAt(script, j))
    {
      var frame := ReadAt(script, start + i);
      next := start + i + 1;
      if frame.NoFrame? {
        i := i + 1;
        continue;
      }
      match SelectPrimary(frame.faces) {
        case Some(box) =>
          focalLength := Some(CalculateFocalLength(KNOWN_DISTANCE, KNOWN_WIDTH, box.w as real));
          break;
        case None =>
      }
      i := i + 1;
    }
    if focalLength.None? {
      focal := Err(CALIBRATION_FAILED);
    } else {
      focal := Ok(focalLength.value);
    }
  }

  /** The distance to the primary face, converted from centimetres to
      metres; `None` when the detector found nothing. */
  function DetectFaceAndDistance(faces: seq<Box>, focal: real): (r: Option<real>)
    ensures r.None? <==> |faces| == 0
    ensures r.Some? ==> r.value * 100.0 == EstimateDistance(focal, KNOWN_WIDTH, faces[0].w as real)
  {
    match SelectPrimary(faces)
    case None => None
    case Some(box) =>
      var distanceCm := EstimateDistance(focal, KNOWN_WIDTH, box.w as real);
      Some(distanceCm / 100.0)
  }

  /** A face as wide as at calibration time reads as the calibration
      distance, 0.4 metres. */
  lemma CalibrationWidthReadsKnownDistance(c: Capture, faces: seq<Box>)
    requires Detects(c) && |faces| > 0 && faces[0].w == c.faces[0].w
    ensures DetectFaceAndDistance(faces, FocalLengthFrom(c)) == Some(0.4)
  {
  }

  /** `waitKey(1) & 0xFF == ord('q')`; `waitKey` returns -1 when no key was
      pressed, and masking with 0xFF is the non-negative remainder mod 256. */
  predicate IsQuit(key: int)
  {
    key % 256 == QUIT_KEY
  }

  /** The key seen after showing the `j`-th tracked frame; none after the
      script of key presses runs out. */
  function KeyAt(keys: seq<int>, j: nat): int
  {
    if j < |keys| then keys[j] else -1
  }

  /** What the tracking loop prints from read `i` on, with `shown` frames
      already displayed: one result per readable frame, up to the first
      failed read or the first `q`. */
  function Tracked(script: seq<Capture>, i: nat, focal: real, keys: seq<int>, shown: nat): seq<Option<real>>
    decreases |script| - i
  {
    if i >= |script| || script[i].NoFrame? then []
    else if IsQuit(KeyAt(keys, shown)) then [DetectFaceAndDistance(script[i].faces, focal)]
    else [DetectFaceAndDistance(script[i].faces, focal)] + Tracked(script, i + 1, focal, keys, shown + 1)
  }

  /** The `k`-th printed result comes from read `i + k`, which was readable,
      and no `q` was pressed before it. */
  lemma {:induction false} TrackedReportsEachFrame(script: seq<Capture>, i: nat, focal: real, keys: seq<int>, shown: nat, k: nat)
    requires k < |Tracked(script, i, focal, keys, shown)|
    ensures i + k < |script| && script[i + k].Frame?
    ensures Tracked(script, i, focal, keys, shown)[k] == DetectFaceAndDistance(script[i + k].faces, focal)
    ensures forall j :: shown <= j < shown + k ==> !IsQuit(KeyAt(keys, j))
    decreases k
  {
    if k > 0 {
      assert !IsQuit(KeyAt(keys, shown));
      TrackedReportsEachFrame(script, i + 1, focal, keys, shown + 1, k - 1);
    }
  }

  /** The loop stops only at a failed read, or after a frame followed by
      `q`. */
  lemma {:induction false} TrackedStops(script: seq<Capture>, i: nat, focal: real, keys: seq<int>, shown: nat)
    ensures var n := |Tracked(script, i, focal, keys, shown)|;
      ReadAt(script, i + n).NoFrame? || (n > 0 && IsQuit(KeyAt(keys, shown + n - 1)))
    decreases |script| - i
  {
    if i < |script| && script[i].Frame? && !IsQuit(KeyAt(keys, shown)) {
      TrackedStops(script, i + 1, focal, keys, shown + 1);
    }
  }

  /** The frame loop: read, estimate, report, and stop when a read fails or
      `q` is pressed after a frame is shown. */
  method Track(script: seq<Capture>, start: nat, focal: real, keys: seq<int>) returns (reports: seq<Option<real>>)
    ensures reports == Tracked(script, start, focal, keys, 0)
  {
    reports := [];
    var i, shown := start, 0;
    while i < |script| && script[i].Frame?
      invariant i == start + shown
      invariant reports + Tracked(script, i, focal, keys, shown) == Tracked(script, start, focal, keys, 0)
      decreases |script| - i
    {
      var frame := script[i];
      var distance := DetectFaceAndDistance(frame.faces, focal);
      ghost var done, rest := reports, Tracked(script, i + 1, focal, keys, shown + 1);
      reports := reports + [distance];
      if IsQuit(KeyAt(keys, shown)) {
        return;
      }
      assert Tracked(script, i, focal, keys, shown) == [distance] + rest;
      assert reports + rest == done + ([distance] + rest);
      i, shown := i + 1, shown + 1;
    }
  }

  /** The program: calibrate from the first read, then track from the read
      after calibration stopped. An uncaught calibration failure ends it
      before any distance is printed. */
  method Run(script: seq<Capture>, keys: seq<int>) returns (r: Result<seq<Option<real>>, string>)
    ensures match FirstDetection(script, 0, CALIBRATION_ATTEMPTS)
      case None => r == Err(CALIBRATION_FAILED)
      case Some(k) => r == Ok(Tracked(script, k + 1, FocalLengthFrom(ReadAt(script, k)), keys, 0))
  {
    var focal, next := Calibrate(script, 0);
    if focal.Err? {
      return Err(focal.error);
    }
    var reports := Track(script, next, focal.value, keys);
    r := Ok(reports);
  }
}
