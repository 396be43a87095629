/** The "bright dot" test: is the beam within 10 degrees of the pointer's
    bearing? Angles are reals and π is a parameter; the bearing of the
    pointer (the four-quadrant arctangent of its offset from the centre) is
    an input that lies in [-π, π]. */
module Detection {
  import opened Sweep

  function Abs(x: real): real
  {
    if x < 0.0 then -x else x
  }

  /** `10 * Math.PI / 180`, ten degrees in radians. */
  function Threshold(pi: real): (r: real)
    ensures pi > 0.0 ==> r > 0.0
    ensures PiBounds(pi) ==> 0.1745 < r < 0.1746
  {
    10.0 * pi / 180.0
  }

  /** The test as the source writes it: the raw difference between the
      pointer's bearing and the accumulated rotation angle. */
  predicate BrightAsWritten(mouseAngle: real, rotationAngle: real, pi: real): (b: bool)
    ensures b <==> rotationAngle - Threshold(pi) < mouseAngle < rotationAngle + Threshold(pi)
  {
    Abs(mouseAngle - rotationAngle) < Threshold(pi)
  }

  /** π to five decimals, enough to locate the first frame at which the
      unwrapped test can no longer succeed. */
  predicate PiBounds(pi: real)
  {
    3.14159 < pi < 3.1416
  }

  /** Once the rotation angle has passed π plus ten degrees (from step 332
      on), no bearing the arctangent can produce is within ten degrees of
      it, so the dot is never bright again. */
  lemma NeverBrightAfterFirstTurn(mouseAngle: real, k: nat, pi: real)
    requires PiBounds(pi)
    requires -pi <= mouseAngle <= pi
    requires k >= 332
    ensures !BrightAsWritten(mouseAngle, Angle(k), pi)
  {
  }

  /** During the first half turn the unwrapped test does work: a pointer at
      any bearing in [0, π] is lit at some step the detection reads (the
      first frame's test already sees step 1). */
  lemma BrightDuringFirstHalfTurn(mouseAngle: real, pi: real)
    requires PiBounds(pi)
    requires 0.0 <= mouseAngle <= pi
    ensures exists k: nat :: 1 <= k <= 315 && BrightAsWritten(mouseAngle, Angle(k), pi)
  {
    var n := (mouseAngle / AngleStep).Floor;
    assert 0 <= n <= 314;
    var k: nat := n + 1;
    assert mouseAngle < Angle(k) <= mouseAngle + AngleStep;
    assert BrightAsWritten(mouseAngle, Angle(k), pi);
  }

  /** a shifted by a whole number of turns into [-π, π). */
  function Normalize(a: real, pi: real): (r: real)
    requires pi > 0.0
    ensures -pi <= r < pi
  {
    var c := 2.0 * pi;
    var q := (a + pi) / c;
    var t := Turns(a, pi) as real;
    assert c * q == a + pi;
    ScaleBetween(c, q, t, a + pi);
    WithinOneTurn(a, pi, c, c * t);
    a - c * t
  }

  /** The number of whole turns Normalize takes off. */
  function Turns(a: real, pi: real): int
    requires pi > 0.0
  {
    ((a + pi) / (2.0 * pi)).Floor
  }

  /** Linear bookkeeping for Normalize, with the product c * t named r. */
  lemma WithinOneTurn(a: real, pi: real, c: real, r: real)
    requires c == 2.0 * pi
    requires r <= a + pi < r + c
    ensures -pi <= a - r < pi
  {
  }

  lemma ScaleBetween(c: real, q: real, t: real, s: real)
    requires c > 0.0 && t <= q < t + 1.0 && c * q == s
    ensures c * t <= s < c * t + c
  {
    var x := q - t;
    assert q == t + x;
    assert c * q == c * t + c * x;
    assert 0.0 <= c * x < c;
    assert s == c * t + c * x;
  }

  lemma MulMonotone(x: real, y: real, c: real)
    requires c > 0.0 && x <= y
    ensures c * x <= c * y
    ensures x < y ==> c * x < c * y
  {
  }

  /** Whole turns make no difference to Normalize. */
  lemma NormalizeShift(a: real, m: int, pi: real)
    requires pi > 0.0
    ensures Normalize(a + 2.0 * pi * m as real, pi) == Normalize(a, pi)
  {
    var q := (a + pi) / (2.0 * pi);
    var q' := (a + 2.0 * pi * m as real + pi) / (2.0 * pi);
    assert q' == q + m as real;
    assert Turns(a + 2.0 * pi * m as real, pi) == Turns(a, pi) + m;
  }

  /** Normalize leaves an angle already in [-π, π) alone. */
  lemma NormalizeIdentity(a: real, pi: real)
    requires pi > 0.0
    requires -pi <= a < pi
    ensures Normalize(a, pi) == a
  {
    var q := (a + pi) / (2.0 * pi);
    MulMonotone(0.0, q, 2.0 * pi);
    MulMonotone(q, 1.0, 2.0 * pi);
    assert 0.0 <= q < 1.0;
    assert Turns(a, pi) == 0;
  }

  /** The shortest angle between two directions. */
  function AngularDistance(x: real, y: real, pi: real): (d: real)
    requires pi > 0.0
    ensures 0.0 <= d <= pi
  {
    Abs(Normalize(x - y, pi))
  }

  /** The test with the difference wrapped to the shortest angle. */
  predicate Bright(mouseAngle: real, rotationAngle: real, pi: real)
    requires pi > 0.0
  {
    AngularDistance(mouseAngle, rotationAngle, pi) < Threshold(pi)
  }

  /** The wrapped test depends on the sweep direction only, not on how
      many turns the beam has made. */
  lemma BrightIsPeriodic(mouseAngle: real, rotationAngle: real, pi: real)
    requires pi > 0.0
    ensures Bright(mouseAngle, rotationAngle + 2.0 * pi, pi) <==> Bright(mouseAngle, rotationAngle, pi)
  {
    assert mouseAngle - (rotationAngle + 2.0 * pi) == (mouseAngle - rotationAngle) + 2.0 * pi * (-1) as real;
    NormalizeShift(mouseAngle - rotationAngle, -1, pi);
  }

  /** At every step some bearing in [-π, π] is lit: the one pointing along
      the beam. */
  lemma BrightAtEveryStep(k: nat, pi: real)
    requires pi > 0.0
    ensures exists mouseAngle :: -pi <= mouseAngle <= pi && Bright(mouseAngle, Angle(k), pi)
  {
    BrightAlongBeam(Angle(k), pi);
  }

  /** With the wrapped test a pointer that stays put is lit at least once in
      every 629 consecutive steps, a little more than one whole turn. */
  lemma BrightEveryTurn(mouseAngle: real, k0: nat, pi: real)
    requires PiBounds(pi)
    ensures exists k: nat :: k0 <= k < k0 + 629 && Bright(mouseAngle, Angle(k), pi)
  {
    // The bearing moved back by t whole turns lies in one turn from Angle(k0).
    var t, r := WholeTurnsBelow(mouseAngle - Angle(k0), pi);
    var k := StepBefore(mouseAngle - r, k0, 2.0 * pi);
    ShiftedSmallOffsetIsBright(mouseAngle, Angle(k), mouseAngle - r - Angle(k), t, r, pi);
  }

  /** The largest whole number t of turns with r = 2π t <= s. */
  lemma WholeTurnsBelow(s: real, pi: real) returns (t: int, r: real)
    requires pi > 0.0
    ensures r == 2.0 * pi * t as real && r <= s < r + 2.0 * pi
  {
    var c := 2.0 * pi;
    var q := s / c;
    t := q.Floor;
    assert c * q == s;
    ScaleBetween(c, q, t as real, s);
    r := c * t as real;
  }

  /** The last step at or before an angle phi that lies in the turn
      starting at step k0. */
  lemma StepBefore(phi: real, k0: nat, c: real) returns (k: nat)
    requires Angle(k0) <= phi < Angle(k0) + c && c < 6.2832
    ensures k0 <= k < k0 + 629
    ensures 0.0 <= phi - Angle(k) < AngleStep
  {
    k := (phi / AngleStep).Floor;
  }

  /** A difference of less than one step plus whole turns is lit. */
  lemma ShiftedSmallOffsetIsBright(mouseAngle: real, rotationAngle: real, d: real, t: int, r: real, pi: real)
    requires PiBounds(pi)
    requires r == 2.0 * pi * t as real && mouseAngle - rotationAngle == d + r
    requires 0.0 <= d < AngleStep
    ensures Bright(mouseAngle, rotationAngle, pi)
  {
    NormalizeShift(d, t, pi);
    NormalizeIdentity(d, pi);
    SmallOffsetIsBright(mouseAngle, rotationAngle, pi);
  }

  /** A wrapped difference of less than one step is within the threshold. */
  lemma SmallOffsetIsBright(mouseAngle: real, rotationAngle: real, pi: real)
    requires PiBounds(pi)
    requires 0.0 <= Normalize(mouseAngle - rotationAngle, pi) < AngleStep
    ensures Bright(mouseAngle, rotationAngle, pi)
  {
  }

  /** The bearing along the beam, normalised, is lit. */
  lemma BrightAlongBeam(a: real, pi: real)
    requires pi > 0.0
    ensures Bright(Normalize(a, pi), a, pi)
  {
    var m := -Turns(a, pi);
    var d := Normalize(a, pi) - a;
    var e := 2.0 * pi * m as real;
    assert d == e;
    WholeTurnsNormalizeToZero(m, pi);
    assert Normalize(e, pi) == 0.0;
    assert Normalize(d, pi) == 0.0;
    assert AngularDistance(Normalize(a, pi), a, pi) == 0.0;
    assert Threshold(pi) > 0.0;
  }

  /** A whole number of turns is no turn at all. */
  lemma WholeTurnsNormalizeToZero(m: int, pi: real)
    requires pi > 0.0
    ensures Normalize(2.0 * pi * m as real, pi) == 0.0
  {
    NormalizeShift(0.0, m, pi);
    NormalizeIdentity(0.0, pi);
    assert 0.0 + 2.0 * pi * m as real == 2.0 * pi * m as real;
  }

  /** Wrapping only adds detections: every pointer the unwrapped test
      lights is lit by the wrapped one too. */
  lemma BrightExtendsAsWritten(mouseAngle: real, rotationAngle: real, pi: real)
    requires pi > 0.0
    requires BrightAsWritten(mouseAngle, rotationAngle, pi)
    ensures Bright(mouseAngle, rotationAngle, pi)
  {
    NormalizeIdentity(mouseAngle - rotationAngle, pi);
  }
}
