# Face distance detection, modelled in Dafny

The system estimates how far a face is from a webcam. It uses the pinhole-camera relation. Calibration looks at a face held at a known distance and derives a focal length from the width of its box in pixels. After that, every frame's box width is turned back into a distance. The model covers the repository's own logic:

- `Pinhole` (`backend/distance.py`): `calculate_focal_length` and `estimate_distance` over `real`. It proves that they are exact inverses and that the estimate falls strictly as the box widens and rises strictly with the focal length.
- `Detection`: the detector and the camera as the code sees them. A camera is a scripted `seq<Capture>`: each read either fails (`NoFrame`) or yields the boxes the cascade classifier reported, in the classifier's order. Every read past the end of the script fails. The primary box is the first one.
- `LocalEstimator` (`backend/distance.py`): the stand-alone program, with lengths in centimetres. `calibrate` makes at most 30 reads, skips unreadable frames and stops at the first frame with a face. `detect_face_and_distance` converts centimetres to metres. The tracking loop prints one result per frame until a read fails or `q` is pressed.
- `DistanceServer` (`backend/main.py`): the websocket service, with lengths in metres. Its `calibrate` always makes 30 reads and never stops early, so the *last* detection's focal length is kept. It sends a progress message after every readable read and a terminal message at 100 %. The stream sends one reading per frame, with `-1` for "no face", until a read fails. The whole session is modelled as the list of JSON messages it sends.
- `DetectPage` (`app/detect/page.tsx`): the browser page as a class.
  - Its fields are `isDetecting`, `distance`, `unit`, `history`, `image` and the socket.
  - It has one method per handler. Each method's new state is given by a pure function of the old state (`Received`, `Toggled`, `UnitToggled`).
  - Lemmas cover the dispatch precedence of `onmessage`, the `-1` sentinel and the last-ten history.

The camera cursor is explicit. Calibration returns the index of the next read, and the frame loop starts there. The stand-alone program therefore never sees a frame that calibration consumed.

The two calibration loops differ:
- `backend/distance.py` calibration stops at the first detection; `backend/main.py` calibration has no `break` and keeps the last detection.
- In `backend/main.py`, the progress after attempt `i` is `(i + 1) / 30 * 100`.
- Unreadable reads send no progress.

Two behaviours of the page are visible in the model:
- An `error` message sets `isDetecting` to false but leaves the socket in place. The next start then replaces it with a new one without closing it.
- Calibration progress messages carry no `message`, `error` or `distance` field, so the page ignores them.

## Model

| member | source | states |
|---|---|---|
| `Detection.SelectPrimary` | backend/distance.py:35-36 | the primary box is absent exactly for an empty detection list, otherwise it is the first box |
| `Detection.PrimaryIgnoresSize` | backend/main.py:55-56 | a larger second box never displaces the first |
| `Pinhole.CalculateFocalLength` | backend/distance.py:14-16 | the focal length satisfies `f * knownWidth == pixelWidth * distance` and is positive for positive inputs |
| `Pinhole.EstimateDistance` | backend/distance.py:19-21 | the estimate satisfies `d * pixelWidth == knownWidth * focalLength` (scaling factor 1.0) and is positive for positive inputs |
| `Pinhole.EstimateInvertsCalibration` | backend/distance.py:12-21 | estimating at the calibration width with the calibrated focal length returns the calibration distance exactly |
| `Pinhole.CalibrationInvertsEstimate` | backend/distance.py:14-21 | calibrating at an estimated distance returns the focal length used |
| `Pinhole.EstimateDecreasesWithPixelWidth` | backend/distance.py:19-21 | for positive focal length and width, a wider box gives a strictly smaller estimate, and only a wider box does |
| `Pinhole.EstimateIncreasesWithFocalLength` | backend/distance.py:19-21 | a longer focal length gives a strictly larger estimate, and only a longer one does |
| `LocalEstimator.FirstDetection` | backend/distance.py:27-38 | the index found is the first read in range that detected a face; none is found exactly when no read in range detected one |
| `LocalEstimator.FocalLengthFrom` | backend/distance.py:36-37 | the focal length from the first box of a detecting read is positive and maps that box's width back to 40 cm |
| `LocalEstimator.FifthFrameCalibrates` | backend/distance.py:27-38 | four faceless frames then a 100-pixel box: the fifth read is chosen and the focal length is 4000/15 |
| `LocalEstimator.Calibrate` | backend/distance.py:24-46 | at most 30 reads; on success the focal length of the first detecting read, with nothing read after it; unreadable frames are skipped; fails with the source's message exactly when none of the 30 reads detected a face |
| `LocalEstimator.DetectFaceAndDistance` | backend/distance.py:49-64 | no face gives `None`; otherwise the result times 100 is the centimetre estimate for the first box |
| `LocalEstimator.CalibrationWidthReadsKnownDistance` | backend/distance.py:53-56 | a live face as wide as the calibration face reads as 0.4 m |
| `LocalEstimator.TrackedReportsEachFrame` | backend/distance.py:74-90 | the k-th printed result is the estimate for read `start + k`, which succeeded, and `q` was not pressed after any earlier frame |
| `LocalEstimator.TrackedStops` | backend/distance.py:74-90 | the loop stops only at a failed read or after a frame followed by `q` |
| `LocalEstimator.Track` | backend/distance.py:74-90 | the loop prints exactly the results for the readable frames up to the first failed read or the first `q` |
| `LocalEstimator.Run` | backend/distance.py:71-79 | calibration failure ends the program with its message before any distance; otherwise tracking starts at the read after the detecting one, with its focal length |
| `DistanceServer.Progress` | backend/main.py:58 | progress after attempt `i` is positive, at most 100, and exactly 100 after the 30th attempt |
| `DistanceServer.ProgressIncreases` | backend/main.py:58-67 | later attempts report strictly higher progress |
| `DistanceServer.LastDetection` | backend/main.py:48-57 | the index found is the last read in range that detected a face; none is found exactly when no read detected one |
| `DistanceServer.FocalLengthFrom` | backend/main.py:56-57 | the focal length from a detecting read's first box is positive |
| `DistanceServer.FocalAfter` | backend/main.py:46-57 | a focal length is held after n attempts exactly when one of them detected a face, and it is the one from the last detecting read |
| `DistanceServer.EmittedIncreasing` | backend/main.py:48-68 | the per-attempt messages all say "calibrating", lie in (0, 100] and strictly increase |
| `DistanceServer.EmittedIgnoresFaces` | backend/main.py:55-68 | the progress messages depend only on which reads succeeded, not on whether a face was found |
| `DistanceServer.EmittedAllReadable` | backend/main.py:49-68 | when every read succeeds there are 30 progress messages, the i-th reporting `(i + 1) / 30 * 100` |
| `DistanceServer.EmittedPerReadableAttempt` | backend/main.py:48-68 | there is one progress message per readable attempt `i`, in attempt order, reporting `Progress(i)`, and none for a failed read |
| `DistanceServer.CalibratedFocal` | backend/main.py:71-80 | calibration fails with the source's message exactly when no attempt detected a face, and otherwise returns the positive focal length of the last detecting read |
| `DistanceServer.CalibrationMessagesProgress` | backend/main.py:44-78 | calibration messages start at 0 and end at 100 whether it fails or not; progress never falls, and it rises strictly across the per-attempt messages; the last message says "failed" exactly when calibration fails |
| `DistanceServer.Calibrate` | backend/main.py:44-80 | always reads 30 frames; returns the last detection's focal length and sends exactly the calibration messages above |
| `DistanceServer.DetectFaceAndDistance` | backend/main.py:82-93 | no face gives `None`; otherwise `distance * w == KNOWN_WIDTH * focal` for the first box |
| `DistanceServer.CalibrationWidthReadsKnownDistance` | backend/main.py:87-89 | a live face as wide as the calibration face reads as `KNOWN_DISTANCE` |
| `DistanceServer.WireDistance` | backend/main.py:119 | the wire distance is the estimate when there is one and -1 otherwise |
| `DistanceServer.SentinelMeansNoFace` | backend/main.py:117-120 | with a positive focal length, the wire distance is negative exactly when no face was found |
| `DistanceServer.StreamedEnd` | backend/main.py:105-110 | the stream ends with exactly one capture error, sent at the first failed read |
| `DistanceServer.StreamedReading` | backend/main.py:105-120 | each message before that error is the reading for consecutive read `start + k`, which succeeded |
| `DistanceServer.Stream` | backend/main.py:105-122 | the frame loop sends exactly those messages |
| `DistanceServer.Session` | backend/main.py:95-125 | a session sends the camera notice, the calibration messages, then either the calibration error or the stream |
| `DistanceServer.SessionShape` | backend/main.py:99-125 | every session ends with an error message; a failed calibration streams no reading; every reading follows a successful calibration and is of a read after the 30 calibration reads |
| `DetectPage.LastEntries` | app/detect/page.tsx:43 | `slice(-10)` keeps the last min(n, 10) entries, as a suffix |
| `DetectPage.Appended` | app/detect/page.tsx:43 | after an append the history has 1 to 10 entries and the new one is last; the oldest entry is dropped only when there were already 10 |
| `DetectPage.AppendedWindow` | app/detect/page.tsx:43 | appending to the last ten and trimming equals trimming everything appended |
| `DetectPage.Received` | app/detect/page.tsx:33-49 | a message with `message` changes nothing; otherwise one with `error` only clears `isDetecting`; a distance message sets the image when it carries one and keeps it otherwise; the unit and socket are never touched; a history of at most 10 stays at most 10 |
| `DetectPage.SentinelKeepsReadings` | app/detect/page.tsx:40-47 | a negative distance leaves the distance and history unchanged but still shows its image |
| `DetectPage.ReadingRecorded` | app/detect/page.tsx:41-44 | a non-negative distance becomes the shown distance and the newest entry of a history of at most 10 |
| `DetectPage.ProgressIgnored` | app/detect/page.tsx:35-48 | a message with no `message`, `error` or `distance` changes nothing |
| `DetectPage.ReceivedHistory` | app/detect/page.tsx:40-44 | a message changes the history only by appending an accepted reading |
| `DetectPage.ReplayKeepsLastTen` | app/detect/page.tsx:33-49 | after any sequence of messages the history is the last ten accepted readings in arrival order |
| `DetectPage.Toggled` | app/detect/page.tsx:25-52 | toggling flips `isDetecting`; stopping clears the socket; starting opens one to `ws://localhost:8000/ws`; nothing else changes |
| `DetectPage.StartStopRestores` | app/detect/page.tsx:25-52 | starting and then stopping an idle page without a socket restores it |
| `DetectPage.OtherUnit` | app/detect/page.tsx:55 | the other unit differs from the current one |
| `DetectPage.UnitToggled` | app/detect/page.tsx:54-56 | toggling the unit changes the unit and nothing else |
| `DetectPage.UnitToggleInvolutive` | app/detect/page.tsx:54-56 | toggling the unit twice is the identity |
| `DetectPage.Page.constructor` | app/detect/page.tsx:10-15 | the initial state: not detecting, distance 0, metres, empty history, no image, no socket |
| `DetectPage.Page.OnMessage` | app/detect/page.tsx:33-49 | the handler's new state is `Received` of the old one, and the history stays at most 10 |
| `DetectPage.Page.ToggleDetection` | app/detect/page.tsx:25-52 | the new state is `Toggled` of the old one |
| `DetectPage.Page.ToggleUnit` | app/detect/page.tsx:54-56 | the new state is `UnitToggled` of the old one |

## Left out

- Face detection (`CascadeClassifier.detectMultiScale`) and `cvtColor` are foreign calls. Each read's detections are an input. The two detector parameter sets in `backend/main.py` are not told apart: each script entry is what the detector reported for that read.
- Box widths are positive. The detector never reports an empty box; a zero width, which would give an infinite distance, is not modelled.
- The frame annotation is not modelled: `rectangle`, `putText`, `imshow` and the "No face detected" overlay. Also left out are JPEG encoding, base64, and the `print` and `logger` output beyond the values printed.
- `waitKey` is a script of key codes, one per shown frame, with -1 meaning no key. The effect of `& 0xFF` is modelled as the remainder mod 256.
- `get_camera` is left out: camera probing with retries, the frame it reads itself, and `asyncio.sleep`. A session starts once the camera is open.
- The FastAPI app, CORS, websocket accept and send, the `PORT` variable and uvicorn are transport and process setup.
- The exact `calibrationStatus` strings are left out, because their `:.0f` and `:.2f` number formatting is not modelled. The status appears as `Started`, `Calibrating`, `Failed` or `Complete(focalLength)`.
- Floating-point behaviour is left out; all arithmetic is over `real`.
- On the page, `JSON.parse` is modelled as a payload of optional fields. The `distance` field is a number or absent.
- `DetectPage.Page.OnMessage` can be called in any state. In the browser it runs only while its socket is open.
- The `useEffect` unmount cleanup, the `close()` side effect on the socket, React rendering and the `toFixed` display strings are left out. Timestamps from `toLocaleTimeString` are opaque strings passed to the handler.
