/** The radar's module-level state and the three routines that change it:
    the per-frame step `drawRadar` (with `drawEntryDotOnRadar`) and the
    mousemove and mouseout handlers of the entry canvas. Drawing calls are
    not modelled; a frame instead returns what it draws that has logical
    content: the beam endpoint, the bearing labels, the trail points visited
    by the trace loop, and whether the entry dot was drawn. */
module Radar {
  import opened Trail
  import opened Sweep
  import Bearings
  import Pointer
  import Detection

  datatype Point = Point(x: real, y: real)

  class RadarDisplay {
    /** Radar centre: half the radar canvas's width and height. */
    const centerX: real
    const centerY: real
    /** π, for the ten-degree threshold. */
    const pi: real
    /** Beam endpoint after k steps: centre + radius * (cos, sin) of Angle(k). */
    const beamEnd: nat -> Point
    /** The four-quadrant arctangent of an offset (dx, dy). */
    const bearing: (real, real) -> real

    /** Frames drawn so far; `rotationAngle` is Angle(steps). */
    var steps: nat
    /** `tracePositions`, oldest first. */
    var trace: seq<Point>
    /** `isMouseInEntryCanvas`, `entryX`, `entryY`. */
    var pointerActive: bool
    var entryX: real
    var entryY: real
    /** `isDotBright`: written only when the entry dot is drawn. */
    var dotBright: bool

    /** π is known to five decimals, and the arctangent lies in [-π, π]. */
    ghost predicate Geometry()
    {
      Detection.PiBounds(pi) && forall dx: real, dy: real :: -pi <= bearing(dx, dy) <= pi
    }

    /** Between frames the trail is exactly the one the frames so far built. */
    ghost predicate Valid()
      reads this
    {
      Geometry() && trace == TraceAfter(beamEnd, steps)
    }

    function Sample(): Pointer.Sample
      reads this
    {
      Pointer.Sample(pointerActive, entryX, entryY)
    }

    function RotationAngle(): real
      reads this
    {
      Angle(steps)
    }

    /** The pointer's bearing as seen from the radar centre. */
    function MouseAngle(): (a: real)
      reads this
      ensures Geometry() ==> -pi <= a <= pi
    {
      bearing(entryX - centerX, entryY - centerY)
    }

    /** The script's initial state, before the first frame. */
    constructor (width: real, height: real, pi: real, beamEnd: nat -> Point, bearing: (real, real) -> real)
      requires Detection.PiBounds(pi)
      requires forall dx: real, dy: real :: -pi <= bearing(dx, dy) <= pi
      ensures Valid()
      ensures this.centerX == width / 2.0 && this.centerY == height / 2.0
      ensures this.pi == pi && this.beamEnd == beamEnd && this.bearing == bearing
      ensures steps == 0 && RotationAngle() == 0.0 && trace == []
      ensures Sample() == Pointer.Initial && !dotBright
    {
      centerX, centerY := width / 2.0, height / 2.0;
      this.pi, this.beamEnd, this.bearing := pi, beamEnd, bearing;
      steps, trace := 0, [];
      pointerActive, entryX, entryY := false, 0.0, 0.0;
      dotBright := false;
    }

    /** One run of `drawRadar`. The beam is drawn at the current angle and
        its endpoint pushed; the trace loop visits the whole trail including
        that new point; only then is the oldest point shifted off if more
        than 50 remain; the angle is advanced; and last the entry dot is
        drawn, so its test sees the advanced angle. */
    method DrawFrame() returns (beam: Point, labels: seq<int>, drawn: seq<Point>, dotDrawn: bool)
      requires Valid()
      modifies this`steps, this`trace, this`dotBright
      ensures Valid()
      ensures beam == beamEnd(old(steps))
      ensures |labels| == Bearings.NumDirections
      ensures forall i :: 0 <= i < |labels| ==> labels[i] == Bearings.LabelValue(i)
      ensures drawn == old(trace) + [beam]
      ensures |drawn| == Min(old(steps) + 1, Capacity + 1)
      ensures trace == Step(old(trace), beam)
      ensures |trace| <= Capacity && trace[|trace| - 1] == beam
      ensures steps == old(steps) + 1
      ensures RotationAngle() == old(RotationAngle()) + AngleStep
      ensures unchanged(this`pointerActive, this`entryX, this`entryY)
      ensures dotDrawn <==> pointerActive
      ensures dotDrawn ==> dotBright == Detection.BrightAsWritten(MouseAngle(), Angle(steps), pi)
      ensures dotDrawn && steps >= 332 ==> !dotBright
      ensures !dotDrawn ==> dotBright == old(dotBright)
    {
      beam := beamEnd(steps);
      labels := Bearings.DirectionLabels();
      ghost var k := steps;
      drawn := UpdateTrace(beam);
      dotDrawn := AdvanceAndDetect();
      assert trace == TraceAfter(beamEnd, k + 1);
    }

    /** The end of a frame: advance the angle by one step, then, if the
        pointer is in, draw the entry dot, whose test therefore reads the
        advanced angle. */
    method AdvanceAndDetect() returns (dotDrawn: bool)
      requires Geometry()
      modifies this`steps, this`dotBright
      ensures steps == old(steps) + 1
      ensures dotDrawn <==> pointerActive
      ensures dotDrawn ==> dotBright == Detection.BrightAsWritten(MouseAngle(), Angle(steps), pi)
      ensures dotDrawn && steps >= 332 ==> !dotBright
      ensures !dotDrawn ==> dotBright == old(dotBright)
    {
      steps := steps + 1;
      dotDrawn := pointerActive;
      if pointerActive {
        var _ := DrawEntryDot();
      }
    }

    /** The trail part of a frame: push the new endpoint, visit every stored
        point (the new one included), and only then shift off the oldest
        point when more than `Capacity` remain. */
    method UpdateTrace(beam: Point) returns (drawn: seq<Point>)
      modifies this`trace
      ensures drawn == old(trace) + [beam]
      ensures trace == Step(old(trace), beam)
    {
      trace := trace + [beam];
      drawn := [];
      var i := 0;
      while i < |trace|
        invariant 0 <= i <= |trace|
        invariant drawn == trace[..i]
      {
        drawn := drawn + [trace[i]];
        i := i + 1;
      }
      assert trace[..i] == trace;
      if |trace| > Capacity {
        trace := trace[1..];
      }
    }

    /** `drawEntryDotOnRadar`: decide the dot's brightness from the pointer's
        bearing and the current rotation angle, compared raw. From step 332 on
        the answer is always false. */
    method DrawEntryDot() returns (bright: bool)
      requires Geometry()
      modifies this`dotBright
      ensures bright == Detection.BrightAsWritten(MouseAngle(), RotationAngle(), pi)
      ensures steps >= 332 ==> !bright
      ensures dotBright == bright
    {
      bright := Detection.BrightAsWritten(MouseAngle(), RotationAngle(), pi);
      dotBright := bright;
      if steps >= 332 {
        Detection.NeverBrightAfterFirstTurn(MouseAngle(), steps, pi);
      }
    }

    /** The mousemove handler: the pointer is in, at the canvas-local position. */
    method OnMouseMove(clientX: real, clientY: real, rectLeft: real, rectTop: real)
      modifies this`pointerActive, this`entryX, this`entryY
      ensures Sample() == Pointer.Handle(old(Sample()), Pointer.MouseMove(clientX, clientY, rectLeft, rectTop))
      ensures pointerActive && entryX == clientX - rectLeft && entryY == clientY - rectTop
    {
      pointerActive := true;
      entryX := clientX - rectLeft;
      entryY := clientY - rectTop;
    }

    /** The mouseout handler: the pointer is out; its last position stays. */
    method OnMouseOut()
      modifies this`pointerActive
      ensures Sample() == Pointer.Handle(old(Sample()), Pointer.MouseOut)
      ensures !pointerActive && entryX == old(entryX) && entryY == old(entryY)
    {
      pointerActive := false;
    }
  }
}
