# Speed Estimator using YOLO — the per-detection speed-tracking step

The repository has three near-identical scripts, `vid_main.py`, `main.py` and
`webcam.py`. Each one runs a YOLO detector on video frames. For every detected
box it estimates an on-screen speed and draws an annotated box. This project
models the part of each script that has state and decisions in it:

- `calculate_speed`: a guarded estimator. It reports nothing when there is no
  previous sample, or when the elapsed time is not positive. Otherwise it
  reports the pixel distance, divided by `pixels_per_cm = 5`, divided by the
  elapsed seconds.
- the centroid of a box: the floor midpoint of its integer corners.
- `process_frame`: a loop over the detections of a frame. Every detection
  reads the process-wide sample `(prev_x, prev_y, prev_time)` and then
  overwrites it, so the last writer wins, even inside one frame.
- `draw_bounding_box_and_label`: which draw operations are issued on the
  frame, at which coordinates and in which style.

Layout:

- `tracking.dfy` (module `Tracking`) holds what the three scripts share.
  - `Detection` is one detector box with its class name.
  - `Ticks` holds the two wall-clock readings a detection causes.
  - `TrackState` is the sample. `Centroid` and `Store` compute what a detection writes into it.
  - `FinalTrack` folds a frame over the sample. `Run` folds successive frames.
  - `Speed` and `Denotes` describe an exact speed reading.
  - `DrawOp` and `Frame` describe the operations issued on a frame.
- `vid_main.dfy` (`VidMainScript`), `main_script.dfy` (`MainScript`) and
  `webcam.dfy` (`WebcamScript`) model one script each. Each has:
  - its own `CalculateSpeed` and `Annotation`;
  - the method `DrawBoundingBoxAndLabel`, which appends to the frame in place;
  - the specification functions `Speeds` and `FrameOps`;
  - a class `Tracker`. Its three fields are the script's globals. Its
    `ProcessFrame` method is the script's loop, proved against `FinalTrack`
    and `FrameOps`.

Modelling choices:

- **Square root.** Dafny has no real square root. An available reading is
  kept exactly, as `Speed(dx, dy, elapsed)`: the centroid displacement in
  pixels and the elapsed seconds.
  - `Denotes(s, v)` says that `v` is its value in cm/s: `v >= 0` and
    `(5 · elapsed · v)² = dx² + dy²`.
  - `SpeedFormula` proves that `(distance / 5) / elapsed` is that value, for
    the non-negative root `distance`.
  - `SpeedUnique` proves that the value is unique.
- **Clock.** `time.time()` becomes an input. Each detection gets a
  `Ticks(estimate, store)`:
  - `estimate` is the reading inside `calculate_speed`;
  - `store` is the reading taken after drawing, which becomes `prev_time`.
- **Detector output.** The detector's `results`/`boxes` nesting is flattened, in
  order, into one `seq<Detection>`.
- **Two-field guard.** `main.py` and `webcam.py` test only `prev_x` and `prev_y`
  before computing `time.time() - prev_time`. Their `CalculateSpeed` returns
  `Failure(TypeError)` when the time is absent but both coordinates are present.
  - Their `Tracker.Valid()` says that the three fields are set together. The
    constructor establishes it and `ProcessFrame` keeps it, so the failure is
    never reached.
  - `GuardAgreesWithVidMain` and `SpeedsAgreeWithVidMain` prove that, under
    that invariant, these scripts compute exactly `vid_main.py`'s readings.
- **Centroid and floor division.** The centroid expression is the same in all
  three scripts (`main.py:52`, `webcam.py:41`), so `Tracking.Centroid` models
  all three. Python's `//` floors. For the divisor 2, Dafny's `/` gives the
  same result.

Two points about the guards and the boxes:

- `vid_main.py` checks all three fields before measuring; `main.py` and
  `webcam.py` check both coordinates and then subtract `prev_time`.
- No script checks `x1 < x2` or `y1 < y2`, so the model does not require it.
  `Centroid` proves the centroid lies inside the box whenever `x1 <= x2` and
  `y1 <= y2`.

## Model

| member | source | states |
|---|---|---|
| `Tracking.Centroid` | vid_main.py:52 | the centroid is the floor of the corner midpoint (`2c <= x1 + x2 <= 2c + 1`, per axis) and lies within the box whenever `x1 <= x2` and `y1 <= y2` |
| `Tracking.LastWriterWins` | vid_main.py:49-61 | after a frame the sample is the last detection's centroid and post-draw clock read, whatever came before; a frame without detections leaves it unchanged |
| `Tracking.FinalTrackCoherent` | main.py:56-57 | handling a frame keeps `prev_x`, `prev_y`, `prev_time` jointly present or jointly absent, and after a non-empty frame they are all present |
| `Tracking.RunIsOneFold` | vid_main.py:89-97 | the sample is never reset between frames: handing frames to `process_frame` one after another equals handling all their detections as one sequence |
| `Tracking.RunKeepsCoherent` | webcam.py:45-46 | over any sequence of frames the three fields stay jointly absent or jointly present |
| `Tracking.SpeedFormula` | vid_main.py:19-23 | `(distance / pixels_per_cm) / elapsed`, with `distance` the non-negative root of `dx² + dy²`, is non-negative and is the value of the reading |
| `Tracking.SpeedUnique` | vid_main.py:19-23 | a reading with positive elapsed time has exactly one value: any two values agree |
| `Tracking.SpeedZeroIffStationary` | vid_main.py:19-23 | a reading's value is 0 exactly when the centroid did not move |
| `VidMainScript.CalculateSpeed` | vid_main.py:16-24 | a reading exists iff `prev_x`, `prev_y` and `prev_time` are all present and `now - prev_time > 0`; it holds the centroid displacement and the positive elapsed time |
| `VidMainScript.ReportedSpeed` | vid_main.py:14-23 | with all fields present and positive elapsed time, the reported value is `(sqrt(dx² + dy²) / 5) / elapsed` |
| `VidMainScript.Annotation` | vid_main.py:26-36 | each detection gets exactly one outline on its box corners, drawn first, and exactly one label (the class name at `y1 - 20`, scale, colour and thickness as drawn); a speed line at `y1 - 50`, 30 px above the label, carrying the reading, occurs iff a reading exists and then comes last, right after the label; no fill |
| `VidMainScript.DrawBoundingBoxAndLabel` | vid_main.py:26-36 | appends exactly the operations of `Annotation` to the frame, in place |
| `VidMainScript.SpeedUsesPredecessor` | vid_main.py:55-61 | the n-th detection of a frame is measured against the sample left by the detections before it; for n ≥ 1 that is detection n-1's centroid and post-draw time, not any earlier frame's |
| `VidMainScript.FirstDetectionUnavailable` | vid_main.py:10-24 | the first detection after start never gets a reading |
| `VidMainScript.FrameOpsUseSpeeds` | vid_main.py:55-57 | what a frame draws is, detection by detection and in order, the annotation with exactly the reading `Speeds` gives that detection |
| `VidMainScript.FrameDraws` | vid_main.py:49-57 | a frame gets one outline and one label per detection, no fill, and one speed line per detection that has a reading |
| `VidMainScript.WorkedExample` | vid_main.py:14-23 | centroid (0,0) stored at t = 0, then centroid (50,0) read at t = 2: the first reading is absent and the second is 5 cm/s |
| `VidMainScript.Tracker.constructor` | vid_main.py:10-11 | the three globals start out absent |
| `VidMainScript.Tracker.ProcessFrame` | vid_main.py:43-63 | the loop leaves the sample at `FinalTrack` of the frame and appends `FrameOps` to the frame; with no detections neither changes |
| `MainScript.CalculateSpeed` | main.py:14-22 | raises TypeError iff both coordinates are present and `prev_time` is absent; returns no reading iff a coordinate is absent or `now - prev_time <= 0`; otherwise holds the displacement and positive elapsed time |
| `MainScript.GuardAgreesWithVidMain` | main.py:16-18 | while the fields are coherent, the two-field guard never raises and gives exactly the three-field guard's answer |
| `MainScript.GuardDiffersWhenIncoherent` | main.py:16-18 | for every centroid, previous point and clock value: with both coordinates present and no time, this guard raises `TypeError` where the three-field guard reports no reading |
| `MainScript.ReportedSpeed` | main.py:12-21 | with all fields present and positive elapsed time, the reported value is `(sqrt(dx² + dy²) / 5) / elapsed` |
| `MainScript.Annotation` | main.py:24-36 | each detection gets exactly one red fill blended at alpha 0.4, drawn first, then one outline, then one label (the class name at `y1 - 10`, scale, colour and thickness as drawn); a speed line at `y1 - 40` carrying the reading occurs iff a reading exists and then comes last, right after the label |
| `MainScript.DrawBoundingBoxAndLabel` | main.py:24-36 | appends exactly the operations of `Annotation` to the frame, in place |
| `MainScript.SpeedsAgreeWithVidMain` | main.py:49-57 | from any coherent sample, every detection of a frame gets the same reading as under `vid_main.py` |
| `MainScript.FirstDetectionUnavailable` | main.py:10-22 | the first detection after start never gets a reading |
| `MainScript.FrameOpsUseSpeeds` | main.py:54-55 | what a frame draws is, detection by detection and in order, the annotation with exactly the reading `Speeds` gives that detection |
| `MainScript.FrameDraws` | main.py:49-57 | a frame gets one fill, one outline and one label per detection, and one speed line per detection that has a reading |
| `MainScript.Tracker.constructor` | main.py:10-11 | the three globals start out absent, hence coherent |
| `MainScript.Tracker.ProcessFrame` | main.py:43-59 | keeps the fields coherent, never raises, leaves the sample at `FinalTrack` of the frame and appends `FrameOps` to the frame |
| `WebcamScript.CalculateSpeed` | webcam.py:12-19 | raises TypeError iff both coordinates are present and `prev_time` is absent; returns no reading iff a coordinate is absent or `now - prev_time <= 0`; otherwise holds the displacement and positive elapsed time |
| `WebcamScript.GuardAgreesWithVidMain` | webcam.py:13-15 | while the fields are coherent, the two-field guard never raises and gives exactly the three-field guard's answer |
| `WebcamScript.GuardDiffersWhenIncoherent` | webcam.py:13-15 | for every centroid, previous point and clock value: with both coordinates present and no time, this guard raises `TypeError` where the three-field guard reports no reading |
| `WebcamScript.ReportedSpeed` | webcam.py:10-18 | with all fields present and positive elapsed time, the reported value is `(sqrt(dx² + dy²) / 5) / elapsed` |
| `WebcamScript.Annotation` | webcam.py:21-27 | each detection gets exactly one outline, drawn first, and exactly one label (the class name at `y1 - 10`, scale, colour and thickness as drawn); a speed line at `y1 - 30` carrying the reading occurs iff a reading exists and then comes last, right after the label; no fill |
| `WebcamScript.DrawBoundingBoxAndLabel` | webcam.py:21-27 | appends exactly the operations of `Annotation` to the frame, in place |
| `WebcamScript.SpeedsAgreeWithVidMain` | webcam.py:38-46 | from any coherent sample, every detection of a frame gets the same reading as under `vid_main.py` |
| `WebcamScript.FirstDetectionUnavailable` | webcam.py:8-19 | the first detection after start never gets a reading |
| `WebcamScript.FrameOpsUseSpeeds` | webcam.py:43-44 | what a frame draws is, detection by detection and in order, the annotation with exactly the reading `Speeds` gives that detection |
| `WebcamScript.FrameDraws` | webcam.py:38-44 | a frame gets one outline and one label per detection, no fill, and one speed line per detection that has a reading |
| `WebcamScript.Tracker.constructor` | webcam.py:8-9 | the three globals start out absent, hence coherent |
| `WebcamScript.Tracker.ProcessFrame` | webcam.py:33-48 | keeps the fields coherent, never raises, leaves the sample at `FinalTrack` of the frame and appends `FrameOps` to the frame |

## Left out

- The YOLO model: loading it and running inference (`detect_objects`). It is a foreign library call. Its output is an input sequence of integer boxes with class names.
- The lookup `r.names[int(box.cls[0])]`. The class name is taken as given.
- The `map(int, box.xyxy[0])` conversion of tensor coordinates. The integer corners are taken as given.
- `np.sqrt` and floating-point rounding. Arithmetic is exact `real`, and a reading carries its displacement and elapsed time instead of a rounded float.
- `time.time()`. It is a wall clock, so its readings are supplied as inputs.
  - The model takes the `estimate` reading for every detection. The scripts read the clock inside `calculate_speed` only when the guard passes.
  - Reading a clock changes nothing else, so the two agree on every state and every drawn operation.
- The pixels that `cv2.rectangle`, `cv2.putText` and `cv2.addWeighted` produce, the font face, and the `:.2f` text formatting. These are library rendering and float formatting. The model records which operations are issued, with their coordinates, colours, sizes and the reading they show.
- The driver loops of the three scripts. This covers video capture and writing, display, the Esc-key poll, the zero-width/height abort and resource release. They are I/O, so only the fact that the sample persists across frames is modelled (`Tracking.Run`).
- The interactive `'w'`/`'v'` prompt of `main.py`. It is command-line plumbing.
- `MainScript.Tracker.ProcessFrame`, `WebcamScript.Tracker.ProcessFrame`: they require `Valid()`, the coherence of the three fields. The scripts' own code never breaks it, because the fields start absent and are only assigned together. The behaviour when the invariant is broken, a TypeError, is modelled in `CalculateSpeed`.
