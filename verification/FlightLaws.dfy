/**
 * What flight, touchdown, water and sleep do to a bird in one step (src/game/Bird.ts), told by what can
 * be seen of it before and after.
 */
module FlightLaws {
  import opened BirdRuns
  import opened BirdStep
  import opened Carving
  import opened FlightPhysics
  import opened Terrain
  import opened Text

  /* ------------------------------------------------------------ letting go of a crest */

  /** On a parabola the slope is the derivative's, and the curvature is positive on a crest and only there. */
  lemma {:induction false} CurvatureOfParabola(w: World, a: real, m: real, k: real, x: real)
    requires Measures(w) && forall u :: w.height(u) == a + m * u - k * (u * u)
    ensures SlopeAt(w, x) == m - 2.0 * k * x
    ensures var t := TangentX(w, x);
      CurvatureAt(w, x) == 2.0 * k * (t * t * t)
    ensures CurvatureAt(w, x) > 0.0 <==> k > 0.0
  {
    SecondDifference(a, m, k, x);
    var t := TangentX(w, x);
    Positive(t, t);
    Positive(t * t, t);
    SignOfProduct(2.0 * k, t * t * t);
  }

  lemma SignOfProduct(a: real, p: real)
    requires p > 0.0
    ensures a * p > 0.0 <==> a > 0.0
  {
    if a > 0.0 {
      Positive(a, p);
    } else {
      NonNegative(-a, p);
      assert -a * p == -(a * p);
    }
  }

  lemma SecondDifference(a: real, m: real, k: real, x: real)
    ensures var h := (u: real) => a + m * u - k * (u * u);
      (h(x - 1.1) - 2.0 * h(x) + h(x + 1.1)) / (1.1 * 1.1) == -2.0 * k &&
      (h(x + 0.45) - h(x - 0.45)) / 0.9 == m - 2.0 * k * x
  {
  }

  /** On the ground a bird moves along it by its speed. */
  lemma RollsOn(w: World, b: Bird, o: Opts, dt: real)
    requires Measures(w)
    ensures var r := Carve(w, b, o, dt);
      r.at == Place(Ahead(b.at.x, Later(w, b, o, dt), TangentX(w, b.at.x), dt), w.height(r.at.x) + 0.9)
  {
    LaterIs(w, b, o, dt);
    RideIs(w, b.at.x, Later(w, b, o, dt), dt);
  }

  /** A speed along the ground, its part in x, and a time. */
  function Ahead(x: real, s: real, cosine: real, dt: real): (to: real) { x + s * cosine * dt }

  lemma RideIs(w: World, x: real, s: real, dt: real)
    requires Measures(w)
    ensures RideTo(w, x, s, dt) == Ahead(x, s, TangentX(w, x), dt)
  {
  }

  /** What gravity and grip can hold on to: 96 and 190 held, 18 and 13 gliding. */
  function Downforce(holding: bool, gMult: real, cosine: real): (a: real) {
    (if holding then 96.0 else 18.0) * gMult * cosine + if holding then 190.0 else 13.0
  }

  /** At speed `s` the crest at `x` asks for more. */
  predicate Outruns(w: World, x: real, s: real, holding: bool, gMult: real)
    requires Measures(w)
  {
    var bend := CurvatureAt(w, x);
    bend > 0.0 && s * s * bend > Downforce(holding, gMult, TangentX(w, x))
  }

  /**
   * It lets go exactly where the crest asks for more than that. A flight then starts with its clock at
   * zero, its apex at its height, and a report of the speed and the slope.
   */
  lemma LetsGoExactly(w: World, b: Bird, o: Opts, dt: real)
    requires Measures(w) && b.grounded
    ensures var s := Later(w, b, o, dt);
      var r := Carve(w, b, o, dt);
      (!r.grounded <==> Outruns(w, r.at.x, s, o.diving && !b.asleep, Or(o.gravityMult, 1.0))) &&
      (!r.grounded ==>
         r.air == Air(0.0, r.at.y) && r.report.justLaunched &&
         r.report.launchSlope == SlopeAt(w, r.at.x) && r.report.launchSpeed == Abs(s))
  {
    var s := Later(w, b, o, dt);
    var x := RideTo(w, b.at.x, s, dt);
    LaterIs(w, b, o, dt);
    LeavesExactly(w, x, s, o.diving && !b.asleep, Or(o.gravityMult, 1.0));
    RideLeaves(w, b, s, Leaves(w, x, s, o.diving && !b.asleep, Or(o.gravityMult, 1.0)), dt);
  }

  lemma RideLeaves(w: World, b: Bird, s: real, leaves: bool, dt: real)
    requires Measures(w) && b.grounded
    ensures var r := Ride(w, b, s, leaves, dt);
      r.at.x == RideTo(w, b.at.x, s, dt) && (!r.grounded <==> leaves) &&
      (leaves ==>
         r.air == Air(0.0, r.at.y) && r.report.justLaunched &&
         r.report.launchSlope == SlopeAt(w, r.at.x) && r.report.launchSpeed == Abs(s))
  {
  }

  lemma LeavesExactly(w: World, x: real, s: real, holding: bool, gMult: real)
    requires Measures(w)
    ensures Leaves(w, x, s, holding, gMult) <==> Outruns(w, x, s, holding, gMult)
  {
  }

  /** A faster bird lets go of every crest a slower one lets go of. */
  lemma FasterLetsGo(w: World, x: real, slow: real, fast: real, holding: bool, gMult: real)
    requires Measures(w) && 0.0 <= slow <= fast && Leaves(w, x, slow, holding, gMult)
    ensures Leaves(w, x, fast, holding, gMult)
  {
    var bend := CurvatureAt(w, x);
    Monotone(slow, fast, slow);
    Monotone(slow, fast, fast);
    Monotone(slow * slow, fast * fast, bend);
  }

  /* ------------------------------------------------------------------- in the air */

  /** The lift of a gliding bird is its wing's and fades with its time in the air. */
  lemma LiftLaw(o: Opts, speed: real, airTime: real, share: real, fade: real)
    requires speed >= 0.0 && share == Min(speed / 62.0, 1.0) && fade == GlideLiftScale(airTime)
    ensures Lift(o, false, speed, airTime) == Wing(share, Or(o.liftMult, 1.0)) * fade
  {
    assert speed / 62.0 >= 0.0;
  }

  lemma HoldingHasNoLift(o: Opts, speed: real, airTime: real)
    ensures Lift(o, true, speed, airTime) == 0.0
  {
  }

  /** The fade, piece by piece. */
  lemma FadeLaw(airTime: real)
    ensures airTime <= 1.2 ==> GlideLiftScale(airTime) == 1.0
    ensures 1.2 <= airTime <= 3.7 ==> GlideLiftScale(airTime) == 1.0 - 0.34 * (airTime - 1.2)
    ensures 3.7 <= airTime <= 6.0 ==> GlideLiftScale(airTime) == 0.15 - 0.09 * ((airTime - 3.7) / 2.3)
    ensures airTime >= 6.0 ==> GlideLiftScale(airTime) == 0.06
  {
  }

  /** The lift of a share of full speed: 55 percent at full, 85 at most. */
  function Wing(share: real, m: real): (k: real) { Min(0.85, 0.55 * share * m) }

  /** More speed never lifts less. */
  lemma WingGrows(slow: real, fast: real, m: real, fade: real)
    requires slow <= fast && m >= 0.0 && fade >= 0.0
    ensures Wing(slow, m) * fade <= Wing(fast, m) * fade
  {
    Monotone(slow, fast, m);
    WingOrder(slow * m, fast * m, 0.55 * slow * m, 0.55 * fast * m);
    Monotone(Wing(slow, m), Wing(fast, m), fade);
  }

  lemma WingOrder(p: real, q: real, a: real, b: real)
    requires p <= q && a == 0.55 * p && b == 0.55 * q
    ensures Min(0.85, a) <= Min(0.85, b)
  {
  }

  /** The speed downwards that gravity, less lift, gives in a step, and what drag leaves of a speed. */
  function Fallen(g: real, gMult: real, lift: real, dt: real): (v: real) { g * gMult * (1.0 - lift) * dt }

  function Left(c: real, z: real, speed: real, dt: real): (k: real) {
    Max(0.0, 1.0 - c * z * speed * dt)
  }

  /** What gravity, less lift, and drag leave of a velocity in a step, before cap and ceiling. */
  function Pull(o: Opts, v: Velocity, speed: real, holding: bool, lift: real, dt: real): (r: Velocity) {
    var left := Left(if holding then 0.00016 else 0.00042, Or(o.dragMult, 1.0), speed, dt);
    Velocity(v.x * left, (v.y - Fallen(if holding then 96.0 else 18.0, Or(o.gravityMult, 1.0), lift, dt)) * left)
  }

  lemma PullIsPulled(o: Opts, v: Velocity, speed: real, holding: bool, airTime: real, dt: real)
    ensures Pulled(o, v, speed, holding, airTime, dt)
         == Pull(o, v, speed, holding, Lift(o, holding, speed, airTime), dt)
  {
  }

  /** Below the cap and the ceiling's band a flight step is gravity less lift, then drag. */
  lemma FlightLaw(w: World, b: Bird, o: Opts, dt: real, v: Velocity)
    requires Measures(w) && Sane(o) && b.at.y - w.height(b.at.x) - BIRD_RADIUS <= 210.0
    requires var holding, speed := o.diving && !b.asleep, Max(0.001, Speed(w, b.v));
      v == Pull(o, b.v, speed, holding, Lift(o, holding, speed, b.air.time), dt)
    requires Speed(w, v) <= Cap(o)
    ensures var r := Fly(w, b, o, dt);
      r.v == v && r.at == Place(b.at.x + v.x * dt, b.at.y + v.y * dt) &&
      r.air == Air(b.air.time + dt, Max(b.air.apexY, r.at.y)) && r.grounded == b.grounded
  {
    CapIsNonNegative(o);
    PullIsPulled(o, b.v, Max(0.001, Speed(w, b.v)), o.diving && !b.asleep, b.air.time, dt);
    CeilingOnlyBrakesClimbs(v.y, b.at.y - w.height(b.at.x) - BIRD_RADIUS);
    assert FlightVelocity(w, b, o, dt) == v;
    DriftIs(b, v, dt);
  }

  lemma DriftIs(b: Bird, v: Velocity, dt: real)
    ensures var r := Drift(b, v, dt);
      r.v == v && r.at == Place(b.at.x + v.x * dt, b.at.y + v.y * dt) &&
      r.air == Air(b.air.time + dt, Max(b.air.apexY, r.at.y)) && r.grounded == b.grounded
  {
  }

  /** The cap is 108 m/s, or 128 in a fever, times the pilot's multiplier, and 42 more under a boost. */
  lemma CapIs(o: Opts)
    ensures !o.boost ==> Cap(o) == (if o.fever then 128.0 else 108.0) * o.speedMult
    ensures o.boost ==> Cap(o) == Cap(o.(boost := false)) + 42.0
  {
  }

  /** Over the cap a velocity is shortened to it and keeps its direction. */
  lemma CapLaw(w: World, v: Velocity, cap: real)
    requires Measures(w) && cap >= 0.0
    ensures var r := Capped(w, v, cap);
      Speed(w, r) == Min(Speed(w, v), cap) && r.x * v.y == r.y * v.x && r.x * v.x >= 0.0
  {
    var s := Speed(w, v);
    assert IsLength(w.hyp(v.x, v.y), v.x, v.y);
    if s > cap {
      var k := cap / s;
      assert s * k == cap;
      ScaledSafe(w, v, k);
      NonNegativeSquare(v.x);
      NonNegative(v.x * v.x, k);
      assert v.x * k * v.x == v.x * v.x * k;
      assert v.x * k * v.y == v.y * k * v.x;
    } else {
      NonNegativeSquare(v.x);
    }
  }

  /** From level flight on, holding falls faster than gliding with any lift, and keeps more of the forward speed. */
  lemma HoldingFallsFaster(o: Opts, v: Velocity, speed: real, lift: real, dt: real)
    requires Sane(o) && Or(o.dragMult, 1.0) >= 0.0
    requires dt >= 0.0 && speed >= 0.0 && v.x >= 0.0 && v.y <= 0.0 && 0.0 <= lift <= 1.0
    ensures var held := Pull(o, v, speed, true, 0.0, dt);
      var glided := Pull(o, v, speed, false, lift, dt);
      held.y <= glided.y && held.x >= glided.x
  {
    FallsAndKeeps(
      v, Or(o.gravityMult, 1.0), Or(o.dragMult, 1.0), lift, speed, dt,
      Pull(o, v, speed, true, 0.0, dt), Pull(o, v, speed, false, lift, dt));
  }

  lemma FallsAndKeeps(
      v: Velocity, g: real, z: real, lift: real, speed: real, dt: real, held: Velocity, glided: Velocity)
    requires g >= 0.0 && z >= 0.0 && 0.0 <= lift <= 1.0 && speed >= 0.0 && dt >= 0.0 && v.x >= 0.0 && v.y <= 0.0
    requires var k := Left(0.00016, z, speed, dt);
      held == Velocity(v.x * k, (v.y - Fallen(96.0, g, 0.0, dt)) * k)
    requires var j := Left(0.00042, z, speed, dt);
      glided == Velocity(v.x * j, (v.y - Fallen(18.0, g, lift, dt)) * j)
    ensures held.y <= glided.y && held.x >= glided.x
  {
    FallsLess(g, lift, dt);
    DragsLess(z, speed, dt);
    KeepsMore(v.x, Left(0.00042, z, speed, dt), Left(0.00016, z, speed, dt));
    SinksLess(
      v.y - Fallen(18.0, g, lift, dt), v.y - Fallen(96.0, g, 0.0, dt),
      Left(0.00042, z, speed, dt), Left(0.00016, z, speed, dt));
  }

  lemma KeepsMore(x: real, j: real, k: real)
    requires x >= 0.0 && j <= k
    ensures x * j <= x * k
  {
    Monotone(j, k, x);
  }

  lemma FallsLess(g: real, lift: real, dt: real)
    requires g >= 0.0 && dt >= 0.0 && 0.0 <= lift <= 1.0
    ensures 0.0 <= Fallen(18.0, g, lift, dt) <= Fallen(96.0, g, 0.0, dt)
  {
    NonNegative(g, dt);
    var p := g * dt;
    Between(p, 1.0 - lift);
    assert 18.0 * g * (1.0 - lift) * dt == 18.0 * (p * (1.0 - lift));
    assert 96.0 * g * (1.0 - 0.0) * dt == 96.0 * p;
  }

  lemma DragsLess(z: real, speed: real, dt: real)
    requires z >= 0.0 && speed >= 0.0 && dt >= 0.0
    ensures 0.0 <= Left(0.00042, z, speed, dt) <= Left(0.00016, z, speed, dt)
  {
    NonNegative(z, speed);
    NonNegative(z * speed, dt);
    var q := z * speed * dt;
    assert 0.00042 * z * speed * dt == 0.00042 * q && 0.00016 * z * speed * dt == 0.00016 * q;
  }

  lemma SinksLess(glided: real, held: real, j: real, k: real)
    requires held <= glided <= 0.0 && 0.0 <= j <= k
    ensures held * k <= glided * j
  {
    Monotone(held, glided, k);
    Monotone(j, k, -glided);
    assert j * -glided == -(glided * j) && k * -glided == -(glided * k);
  }

  /* --------------------------------------------------------------------- touchdown */

  /** A kiss along the slope is perfect and a slam straight into it is nothing; in between the speed's share decides. */
  lemma AlignmentLaw(w: World, x: real, v: Velocity)
    requires Measures(w) && Speed(w, v) >= 0.001
    ensures Alignment(w, x, v) == Max(0.0, 1.0 - Abs(Normal(w, x, v)) / Speed(w, v))
    ensures Alignment(w, x, v) == 1.0 <==> Normal(w, x, v) == 0.0
  {
    var n, s := Abs(Normal(w, x, v)), Speed(w, v);
    var q := n / s;
    assert q * s == n;
    if n > 0.0 {
      assert q > 0.0;
    } else {
      assert q == 0.0;
    }
  }

  /** What each grade of touchdown keeps of the speed along the ground. */
  lemma KeepLaw(align: real, feather: bool, holding: bool)
    requires 0.0 <= align <= 1.0
    ensures align >= 0.985 ==> Keep(align, feather, holding) == 1.03
    ensures 0.94 <= align < 0.985 ==> Keep(align, feather, holding) == 1.0
    ensures align < 0.94 ==>
              var floor := if feather then 0.88 else if holding then 0.86 else 0.55;
              Keep(align, feather, holding) == floor + (1.0 - floor) * (align / 0.94)
  {
  }

  /**
   * Landed: on the surface, along it, with the kept part of its speed along the ground and 6 at least,
   * the clock at zero, and a report of how hard and how well.
   */
  predicate Landed(w: World, b: Bird, r: Bird, align: real, keep: real)
    requires Measures(w)
  {
    && r.at == Place(b.at.x, w.height(b.at.x) + 0.9) && r.grounded
    && Component(w, b.at.x, r.v) == Max(6.0, Component(w, b.at.x, b.v) * keep)
    && Normal(w, b.at.x, r.v) == 0.0
    && r.air == Air(0.0, b.air.apexY)
    && r.report.justLanded && r.report.landingQuality == align && r.report.landingKeep == keep
    && r.report.impact == Max(0.0, -Normal(w, b.at.x, b.v))
  }

  lemma LandIs(w: World, b: Bird, align: real, keep: real)
    requires Measures(w)
    ensures Landed(w, b, Land(w, b, align, keep), align, keep)
  {
    var s := LandingSpeed(w, b.at.x, b.v, keep);
    LandingSpeedIs(w, b.at.x, b.v, keep);
    AlongIsTangent(w, b.at.x, s);
    assert Land(w, b, align, keep).v == Along(w, b.at.x, s);
  }

  lemma LandingSpeedIs(w: World, x: real, v: Velocity, keep: real)
    requires Measures(w)
    ensures LandingSpeed(w, x, v, keep) == Max(6.0, Component(w, x, v) * keep)
  {
  }

  /** A bird lands exactly at or under the surface, with what its angle keeps. */
  lemma TouchdownLaw(w: World, b: Bird, o: Opts)
    requires Measures(w)
    ensures b.at.y > w.height(b.at.x) + 0.9 ==> TouchDown(w, b, o) == b
    ensures b.at.y <= w.height(b.at.x) + 0.9 ==>
              var align := Alignment(w, b.at.x, b.v);
              Landed(w, b, TouchDown(w, b, o), align, Keep(align, o.feather, o.diving && !b.asleep))
  {
    if b.at.y <= w.height(b.at.x) + 0.9 {
      var align := Alignment(w, b.at.x, b.v);
      LandIs(w, b, align, Keep(align, o.feather, o.diving && !b.asleep));
    }
  }

  /* ------------------------------------------------------------ the stages of a step */

  /** A grounded bird rolls, any other flies and may touch down, with the step's report begun afresh. */
  lemma MoveLaw(w: World, b: Bird, o: Opts, dt: real)
    requires Measures(w) && Sane(o)
    ensures var begun := b.(report := b.report.(
        wasGrounded := b.grounded, justLaunched := false, justLanded := false, impact := 0.0));
      Move(w, Begin(b), o, dt) ==
      if b.grounded then Carve(w, begun, o, dt) else TouchDown(w, Fly(w, begun, o, dt), o)
  {
  }

  /** A step ends in water exactly over the ocean and under a metre: pushed up and slowed, never under its floor. */
  lemma WaterLaw(w: World, b: Bird, o: Opts, dt: real)
    requires Measures(w) && Sane(o) && !Bounces(w, b, o, dt)
    ensures var m := Move(w, Begin(b), o, dt);
      var r := Step(w, b, o, dt);
      var awake := if b.asleep then if r.grounded then 0.72 else 0.9 else 1.0;
      (r.inWater <==> w.ocean(m.at.x) && m.at.y < 1.0) && r.grounded == m.grounded && r.air == m.air &&
      (!r.inWater ==> r.at == m.at && r.v == Velocity(m.v.x * awake, m.v.y)) &&
      (r.inWater ==>
         r.at == Place(m.at.x, Max(-16.0, m.at.y)) && r.v.x == Max(m.v.x * 0.9, 7.0) * awake &&
         var up := m.v.y * 0.55 + 38.0 * dt;
         r.v.y == if r.at.y > 0.2 && up > 0.0 then up * 0.4 else up)
  {
  }

  /** A bloom throws a bird exactly when it ends dry on the ground within reach, with the cooldown over. */
  lemma BouncesExactly(w: World, b: Bird, o: Opts, dt: real)
    requires Measures(w) && Sane(o)
    ensures var m := Move(w, Begin(b), o, dt);
      Bounces(w, b, o, dt) <==>
      m.grounded && !(w.ocean(m.at.x) && m.at.y < 1.0) && b.bounceCd <= dt && PadAt(w, m.at.x).Some?
  {
  }

  /** And then at 30 up and 30 forward at least, with 0.6 s before it can be thrown again. */
  lemma BounceLaw(w: World, b: Bird, o: Opts, dt: real)
    requires Measures(w) && Sane(o)
    ensures var m := Move(w, Begin(b), o, dt);
      var r := Step(w, b, o, dt);
      r.bounceCd == (if Bounces(w, b, o, dt) then 0.6 else Max(0.0, b.bounceCd - dt)) &&
      (r.bounced <==> b.bounced || Bounces(w, b, o, dt)) &&
      (Bounces(w, b, o, dt) ==>
         !r.grounded && r.v == Velocity(Max(m.v.x, 30.0) * (if b.asleep then 0.9 else 1.0), 30.0))
  {
  }

  /** The altitude is the height over the ground, and what the step does not touch stays. */
  lemma AltitudeLaw(w: World, b: Bird, o: Opts, dt: real)
    requires Measures(w) && Sane(o)
    ensures var r := Step(w, b, o, dt);
      r.altitude == Max(0.0, r.at.y - w.height(r.at.x) - 0.9) && r.asleep == b.asleep &&
      r.report == Move(w, Begin(b), o, dt).report && r.report.wasGrounded == b.grounded
  {
  }
}
