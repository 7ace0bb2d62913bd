/**
 * Lift decay and the altitude ceiling, shared by all pilots (src/game/FlightPhysics.ts), and the
 * arithmetic of src/game/math.ts.
 */
module FlightPhysics {
  const ALT_CEILING := 260.0
  const ALT_CEILING_FADE := 50.0

  function Max(a: real, b: real): (m: real) { if a < b then b else a }

  function Min(a: real, b: real): (m: real) { if b < a then b else a }

  function Abs(a: real): (m: real) { if a < 0.0 then -a else a }

  function Clamp(v: real, lo: real, hi: real): (r: real)
    requires lo <= hi
    ensures lo <= r <= hi
  {
    Max(lo, Min(hi, v))
  }

  function Lerp(a: real, b: real, t: real): (r: real) { a + (b - a) * t }

  function GlideLiftScale(airSeconds: real): (k: real) {
    if airSeconds < 1.2 then 1.0
    else if airSeconds < 3.7 then Lerp(1.0, 0.15, Clamp((airSeconds - 1.2) / 2.5, 0.0, 1.0))
    else Lerp(0.15, 0.06, Clamp((airSeconds - 3.7) / 2.3, 0.0, 1.0))
  }

  function DampClimbAtCeiling(vy: real, altitude: real): (r: real) {
    if vy <= 0.0 then vy
    else vy * (1.0 - Clamp((altitude - (ALT_CEILING - ALT_CEILING_FADE)) / ALT_CEILING_FADE, 0.0, 1.0))
  }

  /** Lift only fades with time in the air, and never fades out. */
  lemma LiftFades(a: real, b: real)
    requires a <= b
    ensures 0.06 <= GlideLiftScale(b) <= GlideLiftScale(a) <= 1.0
  {
  }

  /** The ceiling takes speed from a climb and never gives any; at the ceiling no climb is left. */
  lemma CeilingOnlyBrakesClimbs(vy: real, altitude: real)
    ensures vy <= 0.0 ==> DampClimbAtCeiling(vy, altitude) == vy
    ensures vy > 0.0 ==> 0.0 <= DampClimbAtCeiling(vy, altitude) <= vy
    ensures vy > 0.0 && altitude <= ALT_CEILING - ALT_CEILING_FADE ==> DampClimbAtCeiling(vy, altitude) == vy
    ensures vy > 0.0 && altitude >= ALT_CEILING ==> DampClimbAtCeiling(vy, altitude) == 0.0
  {
    var fade := Clamp((altitude - (ALT_CEILING - ALT_CEILING_FADE)) / ALT_CEILING_FADE, 0.0, 1.0);
    if vy > 0.0 {
      Between(vy, 1.0 - fade);
      if altitude >= ALT_CEILING {
        assert fade == 1.0;
      }
    }
  }

  /* --------------------------------------------------------- products of reals */

  lemma NonNegative(a: real, b: real)
    requires a >= 0.0 && b >= 0.0
    ensures a * b >= 0.0
  {
  }

  lemma Between(a: real, k: real)
    requires a >= 0.0 && 0.0 <= k <= 1.0
    ensures 0.0 <= a * k <= a
  {
    NonNegative(a, k);
    NonNegative(a, 1.0 - k);
    assert a * (1.0 - k) == a - a * k;
  }

  lemma Monotone(a: real, b: real, k: real)
    requires a <= b && k >= 0.0
    ensures a * k <= b * k
  {
    NonNegative(b - a, k);
    assert (b - a) * k == b * k - a * k;
  }

  lemma SquareOrder(a: real, b: real)
    requires a >= 0.0 && b >= 0.0 && a * a <= b * b
    ensures a <= b
  {
    if a > b {
      Monotone(b, a, b);
      Monotone(b, a, a);
      assert b * b <= a * b <= a * a;
      assert a * a - b * b == (a - b) * (a + b);
      Positive(a - b, a + b);
    }
  }

  lemma Positive(a: real, b: real)
    requires a > 0.0 && b > 0.0
    ensures a * b > 0.0
  {
  }

  lemma SquareEqual(a: real, b: real)
    requires a >= 0.0 && b >= 0.0 && a * a == b * b
    ensures a == b
  {
    SquareOrder(a, b);
    SquareOrder(b, a);
  }
}
