/** The twelve bearing spokes and their degree labels. */
module Bearings {

  /** Number of spokes (`numDirections`). */
  const NumDirections: nat := 12

  /** Degrees in a full turn, the numerator of the label expression. */
  const FullTurn: nat := 360

  /** The number printed beside spoke i. The source divides in floating
      point; 360 / 12 is exactly 30, so integer division agrees. */
  function LabelValue(i: nat): (r: int)
    ensures r * NumDirections == FullTurn * i
    ensures i < NumDirections ==> 0 <= r < FullTurn
  {
    FullTurn / NumDirections * i
  }

  /** Spoke i's direction in radians, the loop's `directionAngle`, with π
      given as a parameter. */
  function DirectionAngle(i: nat, pi: real): real
  {
    (pi * 2.0 * i as real) / NumDirections as real
  }

  /** The label of each spoke is its direction written in degrees. */
  lemma LabelMatchesDirection(i: nat, pi: real)
    ensures LabelValue(i) as real * pi / 180.0 == DirectionAngle(i, pi)
  {
    assert LabelValue(i) * 12 == 360 * i;
  }

  /** The label loop of a frame: one label per spoke, in spoke order. */
  method DirectionLabels() returns (labels: seq<int>)
    ensures |labels| == NumDirections
    ensures forall i :: 0 <= i < |labels| ==> labels[i] == LabelValue(i)
    ensures labels[0] == 0 && labels[|labels| - 1] == 330
    ensures forall i, j :: 0 <= i < j < |labels| ==> labels[i] < labels[j]
    ensures forall i :: 0 <= i < |labels| ==> 0 <= labels[i] < FullTurn
  {
    labels := [];
    for i := 0 to NumDirections
      invariant |labels| == i
      invariant forall j :: 0 <= j < i ==> labels[j] == LabelValue(j)
    {
      labels := labels + [LabelValue(i)];
    }
  }
}
