/** The websocket service: one session reports calibration progress over 30
    camera reads, then streams one distance reading per frame until a read
    fails. Lengths are in metres. */
module DistanceServer {
  import opened Wrappers
  import opened Detection
  import opened Pinhole

  /** Reference distance of the calibration face, in metres. */
  const KNOWN_DISTANCE: real := 0.45
  /** Reference width of a face, in metres. */
  const KNOWN_WIDTH: real := 0.15
  /** Number of camera reads calibration always spends. */
  const TOTAL_FRAMES: nat := 30
  /** The distance sent for a frame without a face. */
  const NO_FACE: real := -1.0
  const CAMERA_READY: string := "Camera initialized"
  const CALIBRATION_FAILED: string := "Calibration failed. No face detected."
  const CAPTURE_FAILED: string := "Failed to capture frame"

  /** The `calibrationStatus` text, up to the number formatting inside it. */
  datatype CalibrationStatus = Started | Calibrating | Failed | Complete(focalLength: real)

  /** The JSON objects the server sends. A reading's image is the JPEG of
      the frame read at index `frame`, annotated with the detection. */
  datatype Message =
    | Info(message: string)
    | Calibration(status: CalibrationStatus, progress: real)
    | Reading(frame: nat, distance: real)
    | Error(error: string)

  /** The percentage reported after attempt `i` (0-based). */
  function Progress(i: nat): (p: real)
    ensures p > 0.0
    ensures i < TOTAL_FRAMES ==> p <= 100.0
    ensures i + 1 == TOTAL_FRAMES ==> p == 100.0
  {
    ((i + 1) as real / TOTAL_FRAMES as real) * 100.0
  }

  /** Later attempts report strictly more progress. */
  lemma ProgressIncreases(i: nat, j: nat)
    requires i < j
    ensures Progress(i) < Progress(j)
  {
  }

  /** The index of the last read in `[lo, lo + n)` that detected a face. */
  function LastDetection(script: seq<Capture>, lo: nat, n: nat): (r: Option<nat>)
    ensures r.Some? ==> lo <= r.value < lo + n && Detects(ReadAt(script, r.value))
    ensures r.Some? ==> forall j :: r.value < j < lo + n ==> !Detects(ReadAt(script, j))
    ensures r.None? <==> forall j :: lo <= j < lo + n ==> !Detects(ReadAt(script, j))
  {
    if n == 0 then None
    else if Detects(ReadAt(script, lo + n - 1)) then Some(lo + n - 1)
    else LastDetection(script, lo, n - 1)
  }

  /** The focal length `(w * KNOWN_DISTANCE) / KNOWN_WIDTH` from the primary
      box of a detecting read. */
  function FocalLengthFrom(c: Capture): (f: real)
    requires Detects(c)
    ensures f > 0.0
  {
    CalculateFocalLength(KNOWN_DISTANCE, KNOWN_WIDTH, c.faces[0].w as real)
  }

  /** The focal length held after `n` attempts from read `lo`: the one from
      the most recent detection, since the loop never stops early. */
  function FocalAfter(script: seq<Capture>, lo: nat, n: nat): (r: Option<real>)
    ensures r.Some? <==> exists j :: lo <= j < lo + n && Detects(ReadAt(script, j))
    ensures r.Some? ==>
      (LastDetection(script, lo, n).Some?
       && r.value == FocalLengthFrom(ReadAt(script, LastDetection(script, lo, n).value)))
  {
    match LastDetection(script, lo, n)
    case None => None
    case Some(k) => Some(FocalLengthFrom(ReadAt(script, k)))
  }

  /** The progress messages of the first `n` attempts from read `lo`: one
      per readable frame, with or without a face; none for a failed read. */
  function Emitted(script: seq<Capture>, lo: nat, n: nat): seq<Message>
  {
    if n == 0 then []
    else
      Emitted(script, lo, n - 1)
      + if ReadAt(script, lo + n - 1).Frame? then [Calibration(Calibrating, Progress(n - 1))] else []
  }

  /** Progress messages are `Calibrating`, lie in (0, 100], do not exceed
      the progress of the last attempt, and strictly increase. */
  lemma {:induction false} EmittedIncreasing(script: seq<Capture>, lo: nat, n: nat)
    requires n <= TOTAL_FRAMES
    ensures forall k :: 0 <= k < |Emitted(script, lo, n)| ==>
      Emitted(script, lo, n)[k].Calibration? && Emitted(script, lo, n)[k].status == Calibrating
      && 0.0 < Emitted(script, lo, n)[k].progress <= Progress(n - 1) <= 100.0
    ensures forall a, b :: 0 <= a < b < |Emitted(script, lo, n)| ==>
      Emitted(script, lo, n)[a].progress < Emitted(script, lo, n)[b].progress
  {
    if n > 0 {
      EmittedIncreasing(script, lo, n - 1);
      if n > 1 {
        ProgressIncreases(n - 2, n - 1);
      }
    }
  }

  /** Progress depends only on which reads succeeded, not on what the
      detector saw in them. */
  lemma {:induction false} EmittedIgnoresFaces(s1: seq<Capture>, s2: seq<Capture>, lo: nat, n: nat)
    requires forall j :: lo <= j < lo + n ==> ReadAt(s1, j).Frame? == ReadAt(s2, j).Frame?
    ensures Emitted(s1, lo, n) == Emitted(s2, lo, n)
  {
    if n > 0 {
      EmittedIgnoresFaces(s1, s2, lo, n - 1);
    }
  }

  /** When every read succeeds, attempt `i` reports exactly `Progress(i)`. */
  lemma {:induction false} EmittedAllReadable(script: seq<Capture>, lo: nat, n: nat)
    requires forall j :: lo <= j < lo + n ==> ReadAt(script, j).Frame?
    ensures |Emitted(script, lo, n)| == n
    ensures forall i :: 0 <= i < n ==> Emitted(script, lo, n)[i] == Calibration(Calibrating, Progress(i))
  {
    if n > 0 {
      EmittedAllReadable(script, lo, n - 1);
    }
  }

  /** The attempts among the first `n` from read `lo` whose read succeeded,
      in order. */
  function ReadableAttempts(script: seq<Capture>, lo: nat, n: nat): seq<nat>
  {
    if n == 0 then []
    else ReadableAttempts(script, lo, n - 1) + if ReadAt(script, lo + n - 1).Frame? then [n - 1] else []
  }

  /** One progress message per readable attempt `i`, in attempt order,
      reporting `Progress(i)`; none for a failed read. */
  lemma {:induction false} EmittedPerReadableAttempt(script: seq<Capture>, lo: nat, n: nat)
    ensures |Emitted(script, lo, n)| == |ReadableAttempts(script, lo, n)|
    ensures forall k :: 0 <= k < |Emitted(script, lo, n)| ==>
      Emitted(script, lo, n)[k] == Calibration(Calibrating, Progress(ReadableAttempts(script, lo, n)[k]))
    ensures forall i :: 0 <= i < n ==> (ReadAt(script, lo + i).Frame? <==> i in ReadableAttempts(script, lo, n))
    ensures forall a, b :: 0 <= a < b < |ReadableAttempts(script, lo, n)| ==>
      ReadableAttempts(script, lo, n)[a] < ReadableAttempts(script, lo, n)[b]
    ensures forall k :: 0 <= k < |ReadableAttempts(script, lo, n)| ==> ReadableAttempts(script, lo, n)[k] < n
  {
    if n > 0 {
      EmittedPerReadableAttempt(script, lo, n - 1);
    }
  }

  /** What calibration from read `lo` returns. */
  function CalibratedFocal(script: seq<Capture>, lo: nat): (r: Result<real, string>)
    ensures r.Err? <==> forall j :: lo <= j < lo + TOTAL_FRAMES ==> !Detects(ReadAt(script, j))
    ensures r.Err? ==> r.error == CALIBRATION_FAILED
    ensures r.Ok? ==> r.value > 0.0
    ensures r.Ok? ==>
      (LastDetection(script, lo, TOTAL_FRAMES).Some?
       && r.value == FocalLengthFrom(ReadAt(script, LastDetection(script, lo, TOTAL_FRAMES).value)))
  {
    match FocalAfter(script, lo, TOTAL_FRAMES)
    case None => Err(CALIBRATION_FAILED)
    case Some(f) => Ok(f)
  }

  /** Every message calibration from read `lo` sends. */
  function CalibrationMessages(script: seq<Capture>, lo: nat): seq<Message>
  {
    [Calibration(Started, 0.0)]
    + Emitted(script, lo, TOTAL_FRAMES)
    + match CalibratedFocal(script, lo)
      case Err(_) => [Calibration(Failed, 100.0)]
      case Ok(f) => [Calibration(Complete(f), 100.0)]
  }

  /** Calibration starts at 0 and ends, success or failure, at 100, with
      the progress never falling in between and strictly rising across the
      per-attempt messages; it fails exactly when its last message says so. */
  lemma CalibrationMessagesProgress(script: seq<Capture>, lo: nat)
    ensures var m := CalibrationMessages(script, lo);
      && |m| >= 2 && m[0] == Calibration(Started, 0.0)
      && m[|m| - 1].Calibration? && m[|m| - 1].progress == 100.0
      && (m[|m| - 1].status == Failed <==> CalibratedFocal(script, lo).Err?)
      && (forall k :: 0 <= k < |m| ==> m[k].Calibration?)
      && (forall a, b :: 0 <= a < b < |m| ==> m[a].progress <= m[b].progress)
      && (forall a, b :: 1 <= a < b < |m| - 1 ==> m[a].progress < m[b].progress)
  {
    var e := Emitted(script, lo, TOTAL_FRAMES);
    EmittedIncreasing(script, lo, TOTAL_FRAMES);
    var m := CalibrationMessages(script, lo);
    assert forall k :: 1 <= k < |m| - 1 ==> m[k] == e[k - 1];
  }

  /** `calibrate`: 30 reads from `start`, with a progress message after
      every readable one; the last detection's focal length is kept. */
  method Calibrate(script: seq<Capture>, start: nat) returns (focal: Result<real, string>, messages: seq<Message>, next: nat)
    ensures next == start + TOTAL_FRAMES
    ensures focal == CalibratedFocal(script, start)
    ensures messages == CalibrationMessages(script, start)
  {
    messages := [Calibration(Started, 0.0)];
    var focalLength: Option<real> := None;
    for i := 0 to TOTAL_FRAMES
      invariant messages == [Calibration(Started, 0.0)] + Emitted(script, start, i)
      invariant focalLength == FocalAfter(script, start, i)
    {
      var frame := ReadAt(script, start + i);
      if frame.NoFrame? {
        continue;
      }
      match SelectPrimary(frame.faces) {
        case Some(box) =>
          focalLength := Some(CalculateFocalLength(KNOWN_DISTANCE, KNOWN_WIDTH, box.w as real));
          messages := messages + [Calibration(Calibrating, Progress(i))];
        case None =>
          messages := messages + [Calibration(Calibrating, Progress(i))];
      }
    }
    next := start + TOTAL_FRAMES;
    if focalLength.None? {
      messages := messages + [Calibration(Failed, 100.0)];
      focal := Err(CALIBRATION_FAILED);
    } else {
      messages := messages + [Calibration(Complete(focalLength.value), 100.0)];
      focal := Ok(focalLength.value);
    }
  }

  /** `detect_face_and_distance`: `KNOWN_WIDTH * focal / w` for the primary
      box, `None` without a face. */
  function DetectFaceAndDistance(faces: seq<Box>, focal: real): (r: Option<real>)
    ensures r.None? <==> |faces| == 0
    ensures r.Some? ==> r.value * faces[0].w as real == KNOWN_WIDTH * focal
  {
    match SelectPrimary(faces)
    case None => None
    case Some(box) => Some(EstimateDistance(focal, KNOWN_WIDTH, box.w as real))
  }

  /** A face as wide as the one calibrated on reads as `KNOWN_DISTANCE`. */
  lemma CalibrationWidthReadsKnownDistance(c: Capture, faces: seq<Box>)
    requires Detects(c) && |faces| > 0 && faces[0].w == c.faces[0].w
    ensures DetectFaceAndDistance(faces, FocalLengthFrom(c)) == Some(KNOWN_DISTANCE)
  {
    EstimateInvertsCalibration(KNOWN_DISTANCE, KNOWN_WIDTH, c.faces[0].w as real);
  }

  /** The `distance` field: the estimate, or the -1 sentinel. */
  function WireDistance(d: Option<real>): (r: real)
    ensures d.Some? ==> r == d.value
    ensures d.None? ==> r == NO_FACE
  {
    if d.Some? then d.value else NO_FACE
  }

  /** With a positive focal length the sentinel is unambiguous: the distance
      sent is negative exactly when no face was found. */
  lemma SentinelMeansNoFace(faces: seq<Box>, focal: real)
    requires focal > 0.0
    ensures WireDistance(DetectFaceAndDistance(faces, focal)) < 0.0 <==> |faces| == 0
  {
  }

  /** The steady-state messages from read `i` on: a reading per frame, then
      the capture error at the first failed read. */
  function Streamed(script: seq<Capture>, i: nat, focal: real): seq<Message>
    decreases |script| - i
  {
    if i >= |script| || script[i].NoFrame? then [Error(CAPTURE_FAILED)]
    else [Reading(i, WireDistance(DetectFaceAndDistance(script[i].faces, focal)))] + Streamed(script, i + 1, focal)
  }

  /** The stream is closed by exactly one error, sent at the first failed
      read, and holds one message per read before it. */
  lemma {:induction false} StreamedEnd(script: seq<Capture>, i: nat, focal: real)
    ensures |Streamed(script, i, focal)| >= 1
    ensures Streamed(script, i, focal)[|Streamed(script, i, focal)| - 1] == Error(CAPTURE_FAILED)
    ensures ReadAt(script, i + |Streamed(script, i, focal)| - 1).NoFrame?
    decreases |script| - i
  {
    if i < |script| && script[i].Frame? {
      StreamedEnd(script, i + 1, focal);
    }
  }

  /** Every message before the closing error is the reading of read
      `i + k`, which succeeded. */
  lemma {:induction false} StreamedReading(script: seq<Capture>, i: nat, focal: real, k: nat)
    requires k < |Streamed(script, i, focal)| - 1
    ensures i + k < |script| && script[i + k].Frame?
    ensures Streamed(script, i, focal)[k] == Reading(i + k, WireDistance(DetectFaceAndDistance(script[i + k].faces, focal)))
    decreases k
  {
    if k > 0 {
      StreamedReading(script, i + 1, focal, k - 1);
    }
  }

  /** The frame loop of the endpoint after calibration. */
  method Stream(script: seq<Capture>, start: nat, focal: real) returns (messages: seq<Message>)
    ensures messages == Streamed(script, start, focal)
  {
    messages := [];
    var i := start;
    while i < |script| && script[i].Frame?
      invariant i >= start
      invariant messages + Streamed(script, i, focal) == Streamed(script, start, focal)
      decreases |script| - i
    {
      var distance := DetectFaceAndDistance(script[i].faces, focal);
      ghost var done, rest := messages, Streamed(script, i + 1, focal);
      messages := messages + [Reading(i, WireDistance(distance))];
      assert messages + rest == done + ([Reading(i, WireDistance(distance))] + rest);
      i := i + 1;
    }
    messages := messages + [Error(CAPTURE_FAILED)];
  }

  /** Every message of one websocket session once the camera is open:
      the camera announcement, calibration from the first read, then the
      stream, or the calibration error and nothing more. */
  function SessionMessages(script: seq<Capture>): seq<Message>
  {
    [Info(CAMERA_READY)] + CalibrationMessages(script, 0)
    + match CalibratedFocal(script, 0)
      case Err(e) => [Error(e)]
      case Ok(f) => Streamed(script, TOTAL_FRAMES, f)
  }

  /** `websocket_endpoint` after `get_camera`. */
  method Session(script: seq<Capture>) returns (messages: seq<Message>)
    ensures messages == SessionMessages(script)
  {
    var focal, calibration, next := Calibrate(script, 0);
    messages := [Info(CAMERA_READY)] + calibration;
    if focal.Err? {
      messages := messages + [Error(focal.error)];
      return;
    }
    var stream := Stream(script, next, focal.value);
    messages := messages + stream;
  }

  /** A session always ends with an error message, and it streams a reading
      only after a successful calibration, for a frame read after the 30
      calibration reads. */
  lemma SessionShape(script: seq<Capture>)
    ensures var m := SessionMessages(script);
      && m[|m| - 1].Error?
      && (CalibratedFocal(script, 0).Err? ==> forall k :: 0 <= k < |m| ==> !m[k].Reading?)
      && (forall k :: 0 <= k < |m| && m[k].Reading? ==> CalibratedFocal(script, 0).Ok? && m[k].frame >= TOTAL_FRAMES)
  {
    CalibrationMessagesProgress(script, 0);
    var c := CalibrationMessages(script, 0);
    var m := SessionMessages(script);
    if CalibratedFocal(script, 0).Ok? {
      var f := CalibratedFocal(script, 0).value;
      StreamedEnd(script, TOTAL_FRAMES, f);
      var s := Streamed(script, TOTAL_FRAMES, f);
      assert m == [Info(CAMERA_READY)] + c + s;
      forall k | 1 + |c| <= k < |m| && m[k].Reading?
        ensures m[k].frame >= TOTAL_FRAMES
      {
        assert m[k] == s[k - 1 - |c|];
        StreamedReading(script, TOTAL_FRAMES, f, k - 1 - |c|);
      }
    }
  }
}
