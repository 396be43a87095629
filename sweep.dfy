/** The sweep angle. The source accumulates `rotationAngle += 0.01` once per
    frame from 0; the model keeps the number k of completed frames and reads
    the angle as k steps of 0.01 radian. */
module Sweep {

  /** Radians the beam turns per frame. */
  const AngleStep: real := 0.01

  /** The rotation angle after k frames from the start. */
  function Angle(k: nat): (a: real)
    ensures k == 0 ==> a == 0.0
    ensures a >= 0.0
    ensures k > 0 ==> a == Angle(k - 1) + AngleStep
  {
    k as real * AngleStep
  }

  /** The angle grows strictly with the number of frames; it never decreases
      and never wraps. */
  lemma AngleIncreases(k: nat, k': nat)
    requires k < k'
    ensures Angle(k) < Angle(k')
    ensures Angle(k') - Angle(k) == (k' - k) as real * AngleStep
  {
  }
}
