/** The face detector and the camera, seen from the code that uses them.

    The cascade classifier is a foreign call: for each camera read the model
    is given what the read returned, either a failed read or the list of
    boxes the detector reported for that frame, in the detector's own order.
    A camera is a scripted sequence of such reads; every read past the end
    of the script fails. */
module Detection {
  import opened Wrappers

  /** A box dimension in pixels; the detector never reports an empty box. */
  type Pixels = n: int | n > 0 witness 1

  /** An axis-aligned detection `(x, y, w, h)`. */
  datatype Box = Box(x: int, y: int, w: Pixels, h: Pixels)

  /** What one `camera.read()` followed by `detectMultiScale` yields. */
  datatype Capture = NoFrame | Frame(faces: seq<Box>)

  /** The `i`-th read of the scripted camera. */
  function ReadAt(script: seq<Capture>, i: nat): Capture
  {
    if i < |script| then script[i] else NoFrame
  }

  /** A read that produced a frame with at least one face. */
  predicate Detects(c: Capture)
  {
    c.Frame? && |c.faces| > 0
  }

  /** The primary detection: the first box the detector returned, whatever
      the sizes of the others. */
  function SelectPrimary(faces: seq<Box>): (r: Option<Box>)
    ensures r.None? <==> |faces| == 0
    ensures r.Some? ==> r.value == faces[0] && r.value in faces
  {
    if |faces| == 0 then None else Some(faces[0])
  }

  /** The choice ignores box size: a larger second box never wins. */
  lemma PrimaryIgnoresSize(b1: Box, b2: Box, rest: seq<Box>)
    requires b2.w > b1.w
    ensures SelectPrimary([b1, b2] + rest) == Some(b1)
  {
  }
}
