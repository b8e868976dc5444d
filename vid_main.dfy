/**
 * vid_main.py: the recorded-video variant. Its estimator tests all three
 * fields of the track sample; the class name is written 20 px above the box
 * and the speed 50 px above it, in dark green and dark red.
 */
module VidMainScript {
  import opened Tracking

  const LabelOffset := 20
  const SpeedOffset := 50
  const BoxColor := Bgr(0, 100, 0)
  const BoxThickness := 4
  const TextScale := 1.0
  const LabelColor := Bgr(0, 100, 0)
  const SpeedColor := Bgr(0, 0, 150)
  const TextThickness := 3

  /**
   * calculate_speed: a reading exists exactly when all three previous fields
   * are present and the clock has moved forward since the stored time; it
   * holds the centroid displacement and the elapsed time. `now` is the clock
   * reading taken inside the call.
   */
  function CalculateSpeed(cx: int, cy: int, prevX: Option<int>, prevY: Option<int>, prevTime: Option<real>, now: real): (r: Option<Speed>)
    ensures r.Some? <==> prevX.Some? && prevY.Some? && prevTime.Some? && now - prevTime.value > 0.0
    ensures r.Some? ==> r.value.dx == cx - prevX.value && r.value.dy == cy - prevY.value
    ensures r.Some? ==> r.value.elapsed == now - prevTime.value && r.value.elapsed > 0.0
  {
    if prevX.Some? && prevY.Some? && prevTime.Some? then
      var elapsed := now - prevTime.value;
      if elapsed > 0.0 then Some(Speed(cx - prevX.value, cy - prevY.value, elapsed)) else None
    else
      None
  }

  /**
   * The value reported is (pixel distance / PixelsPerCm) / elapsed seconds,
   * for the non-negative square root `distance` of dx² + dy².
   */
  lemma ReportedSpeed(cx: int, cy: int, px: int, py: int, pt: real, now: real, distance: real)
    requires now - pt > 0.0
    requires distance >= 0.0 && distance * distance == ((cx - px) * (cx - px) + (cy - py) * (cy - py)) as real
    ensures CalculateSpeed(cx, cy, Some(px), Some(py), Some(pt), now).Some?
    ensures Denotes(CalculateSpeed(cx, cy, Some(px), Some(py), Some(pt), now).value, (distance / PixelsPerCm) / (now - pt))
  {
    SpeedFormula(Speed(cx - px, cy - py, now - pt), distance);
  }

  /**
   * draw_bounding_box_and_label, as the operations it issues: one outline of
   * the box, one label at LabelOffset above its top edge, and a speed line at
   * SpeedOffset above it (30 px above the label) exactly when a reading exists.
   */
  function Annotation(d: Detection, speed: Option<Speed>): (ops: seq<DrawOp>)
    ensures |ops| > 0 && ops[0].Rectangle?
    ensures Count(ops, Outline) == 1 && Count(ops, Label) == 1 && Count(ops, Fill) == 0
    ensures Count(ops, SpeedLine) == if speed.Some? then 1 else 0
    ensures forall op <- ops :: op.Rectangle? ==> op == Rectangle(d.x1, d.y1, d.x2, d.y2, BoxColor, BoxThickness)
    ensures forall op <- ops :: op.LabelText? ==> op == LabelText(d.name, d.x1, d.y1 - LabelOffset, TextScale, LabelColor, TextThickness)
    ensures forall op <- ops :: op.SpeedText? ==> speed == Some(op.speed) && op == SpeedText(op.speed, d.x1, d.y1 - SpeedOffset, TextScale, SpeedColor, TextThickness)
    ensures speed.Some? ==> ops[|ops| - 1].SpeedText? && ops[|ops| - 2].LabelText?
  {
    var line := if speed.Some? then [SpeedText(speed.value, d.x1, d.y1 - SpeedOffset, TextScale, SpeedColor, TextThickness)] else [];
    var texts := [LabelText(d.name, d.x1, d.y1 - LabelOffset, TextScale, LabelColor, TextThickness)] + line;
    CountCons(Rectangle(d.x1, d.y1, d.x2, d.y2, BoxColor, BoxThickness), texts);
    CountCons(texts[0], line);
    if speed.Some? then CountCons(line[0], []); [Rectangle(d.x1, d.y1, d.x2, d.y2, BoxColor, BoxThickness)] + texts
    else [Rectangle(d.x1, d.y1, d.x2, d.y2, BoxColor, BoxThickness)] + texts
  }

  /** Issues the annotation of one detection on the frame, in place. */
  method DrawBoundingBoxAndLabel(frame: Frame, d: Detection, speed: Option<Speed>)
    modifies frame
    ensures frame.drawn == old(frame.drawn) + Annotation(d, speed)
  {
    var box := Rectangle(d.x1, d.y1, d.x2, d.y2, BoxColor, BoxThickness);
    var text := LabelText(d.name, d.x1, d.y1 - LabelOffset, TextScale, LabelColor, TextThickness);
    frame.drawn := frame.drawn + [box];
    frame.drawn := frame.drawn + [text];
    if speed.Some? {
      var line := SpeedText(speed.value, d.x1, d.y1 - SpeedOffset, TextScale, SpeedColor, TextThickness);
      frame.drawn := frame.drawn + [line];
      assert Annotation(d, speed) == [box] + ([text] + [line]);
      assert frame.drawn == old(frame.drawn) + ([box] + ([text] + [line]));
    } else {
      assert Annotation(d, speed) == [box] + ([text] + []);
      assert frame.drawn == old(frame.drawn) + ([box] + ([text] + []));
    }
  }

  /** The reading detection `d` gets when the sample is `t`. */
  function SpeedFor(t: TrackState, d: Detection, tick: Ticks): Option<Speed> {
    var c := Centroid(d);
    CalculateSpeed(c.0, c.1, t.prevX, t.prevY, t.prevTime, tick.estimate)
  }

  /** The readings of a frame's detections, in order, starting from sample `t`. */
  function Speeds(t: TrackState, dets: seq<Detection>, clock: seq<Ticks>): (r: seq<Option<Speed>>)
    requires |clock| == |dets|
    ensures |r| == |dets|
    decreases |dets|
  {
    if dets == [] then []
    else [SpeedFor(t, dets[0], clock[0])] + Speeds(Store(dets[0], clock[0]), dets[1..], clock[1..])
  }

  /** The operations process_frame issues on a frame, starting from sample `t`. */
  function FrameOps(t: TrackState, dets: seq<Detection>, clock: seq<Ticks>): seq<DrawOp>
    requires |clock| == |dets|
    decreases |dets|
  {
    if dets == [] then []
    else Annotation(dets[0], SpeedFor(t, dets[0], clock[0])) + FrameOps(Store(dets[0], clock[0]), dets[1..], clock[1..])
  }

  /** The annotations of the detections `dets`, the i-th drawn with reading `speeds[i]`, in order. */
  function AnnotateAll(dets: seq<Detection>, speeds: seq<Option<Speed>>): seq<DrawOp>
    requires |speeds| == |dets|
    decreases |dets|
  {
    if dets == [] then [] else Annotation(dets[0], speeds[0]) + AnnotateAll(dets[1..], speeds[1..])
  }

  /**
   * What process_frame draws is each detection's annotation with exactly the
   * reading `Speeds` gives that detection, detection by detection, in order.
   */
  lemma {:induction false} FrameOpsUseSpeeds(t: TrackState, dets: seq<Detection>, clock: seq<Ticks>)
    requires |clock| == |dets|
    ensures FrameOps(t, dets, clock) == AnnotateAll(dets, Speeds(t, dets, clock))
    decreases |dets|
  {
    if dets != [] {
      FrameOpsUseSpeeds(Store(dets[0], clock[0]), dets[1..], clock[1..]);
      assert Speeds(t, dets, clock)[1..] == Speeds(Store(dets[0], clock[0]), dets[1..], clock[1..]);
    }
  }

  /**
   * The n-th detection of a frame is measured against the sample left by the
   * detections before it; from the second on, that is the previous detection's
   * centroid and post-draw time, not anything from an earlier frame.
   */
  lemma {:induction false} SpeedUsesPredecessor(t: TrackState, dets: seq<Detection>, clock: seq<Ticks>, n: nat)
    requires |clock| == |dets| && n < |dets|
    ensures Speeds(t, dets, clock)[n] == SpeedFor(FinalTrack(t, dets[..n], clock[..n]), dets[n], clock[n])
    ensures n > 0 ==> Speeds(t, dets, clock)[n] == SpeedFor(Store(dets[n - 1], clock[n - 1]), dets[n], clock[n])
    decreases n
  {
    if n > 0 {
      SpeedUsesPredecessor(Store(dets[0], clock[0]), dets[1..], clock[1..], n - 1);
      assert dets[1..][..n - 1] == dets[..n][1..];
      assert clock[1..][..n - 1] == clock[..n][1..];
      LastWriterWins(t, dets[..n], clock[..n]);
    }
  }

  /** The first detection after start never has a reading. */
  lemma FirstDetectionUnavailable(dets: seq<Detection>, clock: seq<Ticks>)
    requires |clock| == |dets| && |dets| > 0
    ensures Speeds(Start, dets, clock)[0] == None
  {
  }

  /**
   * A frame gets one outline and one label per detection, no fill, and one
   * speed line per detection that has a reading.
   */
  lemma {:induction false} FrameDraws(t: TrackState, dets: seq<Detection>, clock: seq<Ticks>)
    requires |clock| == |dets|
    ensures Count(FrameOps(t, dets, clock), Outline) == |dets|
    ensures Count(FrameOps(t, dets, clock), Label) == |dets|
    ensures Count(FrameOps(t, dets, clock), Fill) == 0
    ensures Count(FrameOps(t, dets, clock), SpeedLine) == CountAvailable(Speeds(t, dets, clock))
    decreases |dets|
  {
    if dets != [] {
      var a := Annotation(dets[0], SpeedFor(t, dets[0], clock[0]));
      var rest := FrameOps(Store(dets[0], clock[0]), dets[1..], clock[1..]);
      FrameDraws(Store(dets[0], clock[0]), dets[1..], clock[1..]);
      CountAppend(a, rest, Outline);
      CountAppend(a, rest, Label);
      CountAppend(a, rest, Fill);
      CountAppend(a, rest, SpeedLine);
      assert Speeds(t, dets, clock)[1..] == Speeds(Store(dets[0], clock[0]), dets[1..], clock[1..]);
    }
  }

  /**
   * A worked example: a box centred on (0, 0) stored at time 0, then a box
   * centred on (50, 0) seen two seconds later, reads 50 / 5 / 2 = 5 cm/s.
   */
  lemma WorkedExample()
    ensures var dets := [Detection(0, 0, 0, 0, "car"), Detection(40, 0, 60, 0, "car")];
            var clock := [Ticks(0.0, 0.0), Ticks(2.0, 2.0)];
            var s := Speeds(Start, dets, clock);
            s[0] == None && s[1].Some? && Denotes(s[1].value, 5.0)
  {
    var dets := [Detection(0, 0, 0, 0, "car"), Detection(40, 0, 60, 0, "car")];
    var clock := [Ticks(0.0, 0.0), Ticks(2.0, 2.0)];
    var stored := Store(dets[0], clock[0]);
    assert stored == TrackState(Some(0), Some(0), Some(0.0));
    assert Centroid(dets[1]) == (50, 0);
    assert SpeedFor(stored, dets[1], clock[1]) == Some(Speed(50, 0, 2.0));
    assert Speeds(stored, dets[1..], clock[1..]) == [Some(Speed(50, 0, 2.0))];
    assert Speeds(Start, dets, clock) == [None, Some(Speed(50, 0, 2.0))];
    SpeedFormula(Speed(50, 0, 2.0), 50.0);
  }

  /**
   * One more detection handled: its annotation moves from the operations still
   * to come to those already drawn, and the sample becomes its Store.
   */
  lemma FrameStep(t: TrackState, dets: seq<Detection>, clock: seq<Ticks>, i: nat, drawn: seq<DrawOp>, total: seq<DrawOp>)
    requires |clock| == |dets| && i < |dets|
    requires drawn + FrameOps(t, dets[i..], clock[i..]) == total
    ensures FinalTrack(t, dets[i..], clock[i..]) == FinalTrack(Store(dets[i], clock[i]), dets[i + 1..], clock[i + 1..])
    ensures (drawn + Annotation(dets[i], SpeedFor(t, dets[i], clock[i])))
            + FrameOps(Store(dets[i], clock[i]), dets[i + 1..], clock[i + 1..]) == total
  {
    assert dets[i..][1..] == dets[i + 1..] && clock[i..][1..] == clock[i + 1..];
    var a := Annotation(dets[i], SpeedFor(t, dets[i], clock[i]));
    var rest := FrameOps(Store(dets[i], clock[i]), dets[i + 1..], clock[i + 1..]);
    assert FrameOps(t, dets[i..], clock[i..]) == a + rest;
    assert drawn + (a + rest) == (drawn + a) + rest;
  }

  /** The process-wide globals prev_x, prev_y, prev_time and the process_frame loop. */
  class Tracker {
    var prevX: Option<int>
    var prevY: Option<int>
    var prevTime: Option<real>

    function State(): TrackState
      reads this
    {
      TrackState(prevX, prevY, prevTime)
    }

    /** All three fields start out absent. */
    constructor ()
      ensures State() == Start
    {
      prevX, prevY := None, None;
      prevTime := None;
    }

    /**
     * process_frame on the detector's boxes `dets` (flattened in order), with
     * the clock readings of each detection: every detection is measured against
     * the current sample, drawn, and then overwrites the sample.
     */
    method ProcessFrame(frame: Frame, dets: seq<Detection>, clock: seq<Ticks>)
      requires |clock| == |dets|
      modifies this, frame
      ensures State() == FinalTrack(old(State()), dets, clock)
      ensures frame.drawn == old(frame.drawn) + FrameOps(old(State()), dets, clock)
      ensures dets == [] ==> State() == old(State()) && frame.drawn == old(frame.drawn)
    {
      var i := 0;
      assert dets[i..] == dets && clock[i..] == clock;
      while i < |dets|
        invariant 0 <= i <= |dets|
        invariant FinalTrack(State(), dets[i..], clock[i..]) == FinalTrack(old(State()), dets, clock)
        invariant frame.drawn + FrameOps(State(), dets[i..], clock[i..]) == old(frame.drawn) + FrameOps(old(State()), dets, clock)
      {
        var d := dets[i];
        var c := Centroid(d);
        var cx, cy := c.0, c.1;
        var speed := CalculateSpeed(cx, cy, prevX, prevY, prevTime, clock[i].estimate);
        FrameStep(State(), dets, clock, i, frame.drawn, old(frame.drawn) + FrameOps(old(State()), dets, clock));
        DrawBoundingBoxAndLabel(frame, d, speed);
        prevX, prevY := Some(cx), Some(cy);
        prevTime := Some(clock[i].store);
        i := i + 1;
      }
      assert dets[i..] == [] && clock[i..] == [];
    }
  }
}
