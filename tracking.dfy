/**
 * Shared vocabulary of the three speed-estimator scripts (vid_main.py, main.py
 * and webcam.py): detections, the wall-clock readings a detection causes, the
 * process-wide track sample, exact speed readings, the draw operations issued
 * on a frame, and the fold that advances the track sample over a frame.
 */
module Tracking {

  datatype Option<+T> = None | Some(value: T)

  datatype Result<+T, +E> = Success(value: T) | Failure(error: E)

  /** The exception Python raises for `time.time() - None`. */
  datatype Raised = TypeError

  /** pixels_per_cm: how many pixels make one centimetre on screen. */
  const PixelsPerCm: real := 5.0

  /** One box reported by the detector, with integer corners and its class name. */
  datatype Detection = Detection(x1: int, y1: int, x2: int, y2: int, name: string)

  /**
   * The two wall-clock readings (seconds) taken while one detection is handled:
   * `estimate` is read inside calculate_speed, `store` after the box is drawn,
   * when the sample is saved.
   */
  datatype Ticks = Ticks(estimate: real, store: real)

  /**
   * The centroid of a box: the midpoint of its corners, rounded down
   * (Python's `//`; for the divisor 2 Dafny's `/` rounds the same way).
   */
  function Centroid(d: Detection): (c: (int, int))
    ensures 2 * c.0 <= d.x1 + d.x2 <= 2 * c.0 + 1
    ensures 2 * c.1 <= d.y1 + d.y2 <= 2 * c.1 + 1
    ensures d.x1 <= d.x2 ==> d.x1 <= c.0 <= d.x2
    ensures d.y1 <= d.y2 ==> d.y1 <= c.1 <= d.y2
  {
    ((d.x1 + d.x2) / 2, (d.y1 + d.y2) / 2)
  }

  /**
   * The module-level sample (prev_x, prev_y, prev_time) that every detection
   * reads and then overwrites.
   */
  datatype TrackState = TrackState(prevX: Option<int>, prevY: Option<int>, prevTime: Option<real>) {
    predicate AllPresent() { prevX.Some? && prevY.Some? && prevTime.Some? }
    predicate AllAbsent() { prevX.None? && prevY.None? && prevTime.None? }
    /** The three fields are set together or not at all. */
    predicate Coherent() { AllPresent() || AllAbsent() }
  }

  /** The sample at process start: nothing seen yet. */
  const Start := TrackState(None, None, None)

  /** The sample written after a detection: its centroid and the clock read after drawing it. */
  function Store(d: Detection, t: Ticks): TrackState {
    var c := Centroid(d);
    TrackState(Some(c.0), Some(c.1), Some(t.store))
  }

  /** The sample after the detections of one frame are handled in order, starting from `t`. */
  function FinalTrack(t: TrackState, dets: seq<Detection>, clock: seq<Ticks>): TrackState
    requires |clock| == |dets|
    decreases |dets|
  {
    if dets == [] then t else FinalTrack(Store(dets[0], clock[0]), dets[1..], clock[1..])
  }

  /**
   * Last writer wins: a frame without detections leaves the sample alone;
   * otherwise the sample is the last detection's centroid and post-draw time,
   * whatever came before it.
   */
  lemma {:induction false} LastWriterWins(t: TrackState, dets: seq<Detection>, clock: seq<Ticks>)
    requires |clock| == |dets|
    ensures dets == [] ==> FinalTrack(t, dets, clock) == t
    ensures dets != [] ==> FinalTrack(t, dets, clock) == Store(dets[|dets| - 1], clock[|dets| - 1])
    decreases |dets|
  {
    if |dets| > 1 {
      LastWriterWins(Store(dets[0], clock[0]), dets[1..], clock[1..]);
    }
  }

  /** Handling a frame keeps the three fields jointly present or jointly absent. */
  lemma FinalTrackCoherent(t: TrackState, dets: seq<Detection>, clock: seq<Ticks>)
    requires |clock| == |dets|
    requires t.Coherent()
    ensures FinalTrack(t, dets, clock).Coherent()
    ensures dets != [] ==> FinalTrack(t, dets, clock).AllPresent()
  {
    LastWriterWins(t, dets, clock);
  }

  /** Handling two detection runs one after the other is handling their concatenation. */
  lemma {:induction false} FinalTrackAppend(t: TrackState, a: seq<Detection>, ca: seq<Ticks>, b: seq<Detection>, cb: seq<Ticks>)
    requires |ca| == |a| && |cb| == |b|
    ensures FinalTrack(t, a + b, ca + cb) == FinalTrack(FinalTrack(t, a, ca), b, cb)
    decreases |a|
  {
    if a != [] {
      assert (a + b)[1..] == a[1..] + b;
      assert (ca + cb)[1..] == ca[1..] + cb;
      FinalTrackAppend(Store(a[0], ca[0]), a[1..], ca[1..], b, cb);
    } else {
      assert a + b == b && ca + cb == cb;
    }
  }

  // ---------------------------------------------------------------------------
  // Successive frames: the sample lives as long as the process.

  function Flatten<T>(xss: seq<seq<T>>): seq<T> {
    if xss == [] then [] else xss[0] + Flatten(xss[1..])
  }

  /** Every frame comes with one pair of clock readings per detection. */
  predicate Matched(frames: seq<seq<Detection>>, clocks: seq<seq<Ticks>>) {
    |clocks| == |frames| && forall k :: 0 <= k < |frames| ==> |clocks[k]| == |frames[k]|
  }

  lemma {:induction false} FlattenMatched(frames: seq<seq<Detection>>, clocks: seq<seq<Ticks>>)
    requires Matched(frames, clocks)
    ensures |Flatten(clocks)| == |Flatten(frames)|
  {
    if frames != [] {
      assert Matched(frames[1..], clocks[1..]) by {
        forall k | 0 <= k < |frames| - 1 ensures |clocks[1..][k]| == |frames[1..][k]| {
          assert |clocks[k + 1]| == |frames[k + 1]|;
        }
      }
      FlattenMatched(frames[1..], clocks[1..]);
      assert |clocks[0]| == |frames[0]|;
    }
  }

  /** The sample after the driver has handed each frame to process_frame in turn. */
  function Run(t: TrackState, frames: seq<seq<Detection>>, clocks: seq<seq<Ticks>>): TrackState
    requires Matched(frames, clocks)
    decreases |frames|
  {
    if frames == [] then t
    else
      assert |clocks[0]| == |frames[0]|;
      assert Matched(frames[1..], clocks[1..]) by {
        forall k | 0 <= k < |frames| - 1 ensures |clocks[1..][k]| == |frames[1..][k]| {
          assert |clocks[k + 1]| == |frames[k + 1]|;
        }
      }
      Run(FinalTrack(t, frames[0], clocks[0]), frames[1..], clocks[1..])
  }

  /**
   * The sample is never reset between frames: running frame after frame is the
   * same as handling all their detections as one sequence.
   */
  lemma {:induction false} RunIsOneFold(t: TrackState, frames: seq<seq<Detection>>, clocks: seq<seq<Ticks>>)
    requires Matched(frames, clocks)
    ensures |Flatten(clocks)| == |Flatten(frames)|
    ensures Run(t, frames, clocks) == FinalTrack(t, Flatten(frames), Flatten(clocks))
    decreases |frames|
  {
    FlattenMatched(frames, clocks);
    if frames != [] {
      assert Matched(frames[1..], clocks[1..]) by {
        forall k | 0 <= k < |frames| - 1 ensures |clocks[1..][k]| == |frames[1..][k]| {
          assert |clocks[k + 1]| == |frames[k + 1]|;
        }
      }
      assert |clocks[0]| == |frames[0]|;
      RunIsOneFold(FinalTrack(t, frames[0], clocks[0]), frames[1..], clocks[1..]);
      FlattenMatched(frames[1..], clocks[1..]);
      FinalTrackAppend(t, frames[0], clocks[0], Flatten(frames[1..]), Flatten(clocks[1..]));
    }
  }

  /** Over any sequence of frames the three fields stay jointly absent or jointly present. */
  lemma RunKeepsCoherent(t: TrackState, frames: seq<seq<Detection>>, clocks: seq<seq<Ticks>>)
    requires Matched(frames, clocks)
    requires t.Coherent()
    ensures Run(t, frames, clocks).Coherent()
  {
    RunIsOneFold(t, frames, clocks);
    FinalTrackCoherent(t, Flatten(frames), Flatten(clocks));
  }

  // ---------------------------------------------------------------------------
  // Speed readings.

  /**
   * An available speed reading, kept exact: the centroid displacement in pixels
   * and the elapsed seconds. It stands for sqrt(dx² + dy²) / PixelsPerCm / elapsed
   * centimetres per second.
   */
  datatype Speed = Speed(dx: int, dy: int, elapsed: real)

  /**
   * `v` is the value in cm/s of reading `s`: non-negative, and v centimetres per
   * second over `elapsed` seconds cover the pixel displacement at PixelsPerCm.
   */
  ghost predicate Denotes(s: Speed, v: real) {
    var covered := PixelsPerCm * s.elapsed * v;
    v >= 0.0 && covered * covered == (s.dx * s.dx + s.dy * s.dy) as real
  }

  /** The estimator's formula (distance / PixelsPerCm) / elapsed yields the value of the reading. */
  lemma SpeedFormula(s: Speed, distance: real)
    requires s.elapsed > 0.0
    requires distance >= 0.0 && distance * distance == (s.dx * s.dx + s.dy * s.dy) as real
    ensures Denotes(s, (distance / PixelsPerCm) / s.elapsed)
  {
    var v := (distance / PixelsPerCm) / s.elapsed;
    assert v * s.elapsed == distance / PixelsPerCm;
    assert PixelsPerCm * s.elapsed * v == distance;
    assert v >= 0.0 by {
      assert distance / PixelsPerCm >= 0.0;
    }
  }

  lemma SquaresOfNonNegatives(v: real, w: real)
    requires v >= 0.0 && w >= 0.0 && v * v == w * w
    ensures v == w
  {
    assert (v - w) * (v + w) == 0.0;
    if v + w == 0.0 {
    } else {
      assert v - w == 0.0;
    }
  }

  /** A reading has at most one value. */
  lemma SpeedUnique(s: Speed, v: real, w: real)
    requires s.elapsed > 0.0
    requires Denotes(s, v) && Denotes(s, w)
    ensures v == w
  {
    var k := PixelsPerCm * s.elapsed;
    assert k > 0.0;
    SquaresOfNonNegatives(k * v, k * w);
    assert k * (v - w) == 0.0;
  }

  /** The value is zero exactly when the centroid did not move. */
  lemma SpeedZeroIffStationary(s: Speed, v: real)
    requires s.elapsed > 0.0
    requires Denotes(s, v)
    ensures v == 0.0 <==> s.dx == 0 && s.dy == 0
  {
    var k := PixelsPerCm * s.elapsed;
    assert k > 0.0;
    assert s.dx * s.dx >= 0 && s.dy * s.dy >= 0;
    if v == 0.0 {
      assert s.dx * s.dx + s.dy * s.dy == 0;
    }
    if s.dx == 0 && s.dy == 0 {
      assert k * v >= 0.0;
      SquaresOfNonNegatives(k * v, 0.0);
    }
  }

  // ---------------------------------------------------------------------------
  // Draw operations issued on a frame (what is drawn where, not the pixels).

  /** An OpenCV colour, in blue-green-red order. */
  datatype Color = Bgr(b: int, g: int, r: int)

  datatype DrawOp =
    /** cv2.rectangle outline of the given thickness. */
    | Rectangle(x1: int, y1: int, x2: int, y2: int, color: Color, thickness: int)
    /** A filled rectangle on a copy of the frame, blended back with weight `alpha`. */
    | BlendedFill(x1: int, y1: int, x2: int, y2: int, color: Color, alpha: real)
    /** cv2.putText of the class name, anchored at (x, y). */
    | LabelText(text: string, x: int, y: int, scale: real, color: Color, thickness: int)
    /** cv2.putText of "Speed: <value> cm/s", anchored at (x, y). */
    | SpeedText(speed: Speed, x: int, y: int, scale: real, color: Color, thickness: int)

  /** A frame buffer, seen through the draw operations issued on it so far. */
  class Frame {
    var drawn: seq<DrawOp>

    constructor ()
      ensures drawn == []
    {
      drawn := [];
    }
  }

  datatype Kind = Outline | Fill | Label | SpeedLine

  function KindOf(op: DrawOp): Kind {
    match op
    case Rectangle(_, _, _, _, _, _) => Outline
    case BlendedFill(_, _, _, _, _, _) => Fill
    case LabelText(_, _, _, _, _, _) => Label
    case SpeedText(_, _, _, _, _, _) => SpeedLine
  }

  /** How many operations of kind `k` occur in `ops`. */
  function Count(ops: seq<DrawOp>, k: Kind): (n: nat)
    ensures n <= |ops|
  {
    if ops == [] then 0 else (if KindOf(ops[0]) == k then 1 else 0) + Count(ops[1..], k)
  }

  lemma CountCons(op: DrawOp, rest: seq<DrawOp>)
    ensures forall k :: Count([op] + rest, k) == (if KindOf(op) == k then 1 else 0) + Count(rest, k)
  {
    assert ([op] + rest)[1..] == rest;
  }

  lemma {:induction false} CountAppend(a: seq<DrawOp>, b: seq<DrawOp>, k: Kind)
    ensures Count(a + b, k) == Count(a, k) + Count(b, k)
  {
    if a != [] {
      assert (a + b)[1..] == a[1..] + b;
      CountAppend(a[1..], b, k);
    } else {
      assert a + b == b;
    }
  }

  /** How many detections of a frame got a speed reading. */
  function CountAvailable(speeds: seq<Option<Speed>>): (n: nat)
    ensures n <= |speeds|
  {
    if speeds == [] then 0 else (if speeds[0].Some? then 1 else 0) + CountAvailable(speeds[1..])
  }
}
