/** What every flight step, and every run of them, keeps (src/game/Bird.ts). */
module BirdRuns {
  import opened BirdStep
  import opened FlightPhysics
  import opened Terrain
  import opened Text

  /* ---------------------------------------------------------- one kind of step */

  lemma CarvingSpeedInRange(w: World, x: real, v: Velocity, diving: bool, cap: real, dt: real)
    requires Measures(w)
    ensures Min(MIN_KEEP_SPEED, cap) <= CarvingSpeed(w, x, v, diving, cap, dt) <= cap
  {
  }

  lemma AlongForward(w: World, x: real, s: real)
    requires Measures(w) && s >= 0.0
    ensures Along(w, x, s).x >= 0.0
    ensures Speed(w, Along(w, x, s)) == s
  {
    NonNegative(s, TangentX(w, x));
    var v := Along(w, x, s);
    SpeedAlong(w, x, s, v.x, v.y);
  }

  lemma RideSafe(w: World, b: Bird, s: real, leaves: bool, dt: real)
    requires Measures(w) && s >= 0.0 && dt >= 0.0
    ensures var r := Ride(w, b, s, leaves, dt);
      r.v.x >= 0.0 && r.at.x >= b.at.x && r.at.y == Surface(w, r.at.x) && Speed(w, r.v) == s
  {
    NonNegative(s, TangentX(w, b.at.x));
    NonNegative(s * TangentX(w, b.at.x), dt);
    AlongForward(w, RideTo(w, b.at.x, s, dt), s);
  }

  /** Carving moves forward, along the surface, between the recovery floor and the cap. */
  lemma CarveSafe(w: World, b: Bird, o: Opts, dt: real)
    requires Measures(w) && Sane(o) && dt >= 0.0
    ensures var r := Carve(w, b, o, dt);
      r.v.x >= 0.0 && r.at.x >= b.at.x && r.at.y == Surface(w, r.at.x) &&
      Min(MIN_KEEP_SPEED, Cap(o)) <= Speed(w, r.v) <= Cap(o)
  {
    CapIsNonNegative(o);
    var diving := o.diving && !b.asleep;
    var s := CarvingSpeed(w, b.at.x, b.v, diving, Cap(o), dt);
    CarvingSpeedInRange(w, b.at.x, b.v, diving, Cap(o), dt);
    RideSafe(w, b, s, Leaves(w, RideTo(w, b.at.x, s, dt), s, diving, Or(o.gravityMult, 1.0)), dt);
  }

  lemma LiftBelowOne(o: Opts, diving: bool, speed: real, airTime: real)
    ensures Lift(o, diving, speed, airTime) <= 0.85
  {
    LiftFades(airTime, airTime);
    var wing := Min(0.85, 0.55 * Clamp(speed / 62.0, 0.0, 1.0) * Or(o.liftMult, 1.0));
    var fade := GlideLiftScale(airTime);
    if wing >= 0.0 {
      Between(wing, fade);
    } else {
      NonNegative(-wing, fade);
    }
  }

  lemma LiftIsAShare(o: Opts, diving: bool, speed: real, airTime: real)
    requires Or(o.liftMult, 1.0) >= 0.0
    ensures 0.0 <= Lift(o, diving, speed, airTime) <= 0.85
  {
    LiftFades(airTime, airTime);
    LiftBelowOne(o, diving, speed, airTime);
    var strength := 0.55 * Clamp(speed / 62.0, 0.0, 1.0);
    NonNegative(strength, Or(o.liftMult, 1.0));
    NonNegative(Min(0.85, strength * Or(o.liftMult, 1.0)), GlideLiftScale(airTime));
  }

  /** Gravity outweighs lift, so a bird that does not climb does not start to. */
  lemma PulledSigns(o: Opts, v: Velocity, speed: real, diving: bool, airTime: real, dt: real)
    requires Sane(o) && dt >= 0.0
    ensures var r := Pulled(o, v, speed, diving, airTime, dt);
      (v.x >= 0.0 ==> r.x >= 0.0) && (v.y <= 0.0 ==> r.y <= 0.0)
  {
    var g := (if diving then 96.0 else 18.0) * Or(o.gravityMult, 1.0);
    NonNegative(if diving then 96.0 else 18.0, Or(o.gravityMult, 1.0));
    LiftBelowOne(o, diving, speed, airTime);
    var net := 1.0 - Lift(o, diving, speed, airTime);
    NonNegative(g, net);
    NonNegative(g * net, dt);
    DecaySigns(v, Sink(o, Lift(o, diving, speed, airTime), diving, dt), Decay(o, speed, diving, dt));
  }

  lemma DecaySigns(v: Velocity, fall: real, decay: real)
    requires fall >= 0.0 && decay >= 0.0
    ensures v.x >= 0.0 ==> v.x * decay >= 0.0
    ensures v.y <= 0.0 ==> (v.y - fall) * decay <= 0.0
  {
    if v.y <= 0.0 {
      NonNegative(fall - v.y, decay);
    }
  }

  lemma ScaledSafe(w: World, v: Velocity, k: real)
    requires Measures(w) && k >= 0.0
    ensures var r := Scaled(v, k);
      Speed(w, r) == Speed(w, v) * k && (v.x >= 0.0 ==> r.x >= 0.0) && (v.y <= 0.0 ==> r.y <= 0.0)
  {
    SpeedScales(w, k, v.x, v.y, Scaled(v, k).x, Scaled(v, k).y);
    DecaySigns(v, 0.0, k);
  }

  lemma CappedSafe(w: World, v: Velocity, cap: real)
    requires Measures(w) && cap >= 0.0
    ensures var r := Capped(w, v, cap);
      Speed(w, r) <= cap && (v.x >= 0.0 ==> r.x >= 0.0) && (v.y <= 0.0 ==> r.y <= 0.0)
  {
    var s := Speed(w, v);
    if s > cap {
      ScaledSafe(w, v, cap / s);
      assert s * (cap / s) == cap;
    }
  }

  lemma FlightVelocitySafe(w: World, b: Bird, o: Opts, dt: real)
    requires Measures(w) && Sane(o) && dt >= 0.0
    ensures var v := FlightVelocity(w, b, o, dt);
      Speed(w, v) <= Cap(o) && (b.v.x >= 0.0 ==> v.x >= 0.0) && (b.v.y <= 0.0 ==> v.y <= 0.0)
  {
    CapIsNonNegative(o);
    var pulled := Pulled(o, b.v, Max(0.001, Speed(w, b.v)), o.diving && !b.asleep, b.air.time, dt);
    PulledSigns(o, b.v, Max(0.001, Speed(w, b.v)), o.diving && !b.asleep, b.air.time, dt);
    var capped := Capped(w, pulled, Cap(o));
    CappedSafe(w, pulled, Cap(o));
    var altitude := b.at.y - w.height(b.at.x) - BIRD_RADIUS;
    CeilingOnlyBrakesClimbs(capped.y, altitude);
    SlowerSide(w, capped.x, capped.y, DampClimbAtCeiling(capped.y, altitude));
  }

  lemma FlySafe(w: World, b: Bird, o: Opts, dt: real)
    requires Measures(w) && Sane(o) && dt >= 0.0 && b.v.x >= 0.0
    ensures var r := Fly(w, b, o, dt);
      r.v.x >= 0.0 && r.at.x >= b.at.x && Speed(w, r.v) <= Cap(o)
  {
    var v := FlightVelocity(w, b, o, dt);
    FlightVelocitySafe(w, b, o, dt);
    DriftForward(b, v, dt);
  }

  lemma DriftForward(b: Bird, v: Velocity, dt: real)
    requires dt >= 0.0 && v.x >= 0.0
    ensures Drift(b, v, dt).at.x >= b.at.x
  {
    NonNegative(v.x, dt);
  }

  /** A touchdown keeps between the floor and the perfect gain, and more for a better angle. */
  lemma KeepGrowsWithAlignment(worse: real, better: real, feather: bool, diving: bool)
    requires 0.0 <= worse <= better <= 1.0
    ensures LAND_BAD_MIN_KEEP <= Keep(worse, feather, diving) <= Keep(better, feather, diving) <= LAND_PERFECT_GAIN
    ensures Keep(better, feather, diving) > 1.0 <==> better >= LAND_PERFECT
  {
    var least := if feather then LAND_FEATHER_FLOOR else LAND_BAD_MIN_KEEP;
    var floor := if diving then Max(least, 0.86) else least;
    if worse < LAND_GOOD {
      LerpToOne(floor, worse / LAND_GOOD, if better < LAND_GOOD then better / LAND_GOOD else 1.0);
    }
    if better < LAND_GOOD {
      LerpToOne(floor, better / LAND_GOOD, 1.0);
    }
  }

  lemma LerpToOne(floor: real, a: real, b: real)
    requires floor <= 1.0 && 0.0 <= a <= b <= 1.0
    ensures floor <= Lerp(floor, 1.0, a) <= Lerp(floor, 1.0, b) <= 1.0
  {
    Monotone(a, b, 1.0 - floor);
    NonNegative(a, 1.0 - floor);
    Monotone(b, 1.0, 1.0 - floor);
    assert (1.0 - floor) * a == a * (1.0 - floor) && (1.0 - floor) * b == b * (1.0 - floor);
  }

  lemma LandingSpeedInRange(w: World, x: real, v: Velocity, keep: real)
    requires Measures(w) && 0.0 <= keep <= LAND_PERFECT_GAIN
    ensures MIN_KEEP_SPEED <= LandingSpeed(w, x, v, keep) <= Max(Speed(w, v) * LAND_PERFECT_GAIN, MIN_KEEP_SPEED)
  {
    ComponentAtMost(w, x, v.x, v.y);
    KeptAtMost(Component(w, x, v), Speed(w, v), keep);
  }

  lemma KeptAtMost(along: real, speed: real, keep: real)
    requires along <= speed && speed >= 0.0 && 0.0 <= keep <= LAND_PERFECT_GAIN
    ensures along * keep <= speed * LAND_PERFECT_GAIN
  {
    Monotone(along, speed, keep);
    Monotone(keep, LAND_PERFECT_GAIN, speed);
    assert speed * keep == keep * speed;
  }

  /** A touchdown ends on the surface, moving forward, no slower than the floor. */
  lemma TouchDownSafe(w: World, b: Bird, o: Opts)
    requires Measures(w) && b.at.y <= Surface(w, b.at.x)
    ensures var r := TouchDown(w, b, o);
      r.v.x >= 0.0 && r.at == Place(b.at.x, Surface(w, b.at.x)) && r.grounded &&
      MIN_KEEP_SPEED <= Speed(w, r.v) <= Max(Speed(w, b.v) * LAND_PERFECT_GAIN, MIN_KEEP_SPEED)
  {
    var x := b.at.x;
    var align := Alignment(w, x, b.v);
    var keep := Keep(align, o.feather, o.diving && !b.asleep);
    KeepGrowsWithAlignment(align, align, o.feather, o.diving && !b.asleep);
    LandingSpeedInRange(w, x, b.v, keep);
    AlongForward(w, x, LandingSpeed(w, x, b.v, keep));
  }

  /* ------------------------------------------------------------ the whole step */

  /** Before water and blooms: forward, on or above the surface, and within the speed limits. */
  ghost predicate Moved(w: World, from: Bird, r: Bird, cap: real)
    requires Measures(w)
  {
    && r.v.x >= 0.0
    && r.at.x >= from.at.x
    && r.at.y >= Surface(w, r.at.x)
    && (r.grounded ==> r.at.y == Surface(w, r.at.x))
    && (r.grounded ==> Speed(w, r.v) >= Min(MIN_KEEP_SPEED, cap))
    && Speed(w, r.v) <= (if r.grounded then Max(cap * LAND_PERFECT_GAIN, MIN_KEEP_SPEED) else cap)
  }

  lemma MoveSafe(w: World, b: Bird, o: Opts, dt: real)
    requires Measures(w) && Sane(o) && dt >= 0.0 && b.v.x >= 0.0
    ensures Moved(w, b, Move(w, b, o, dt), Cap(o))
  {
    CapIsNonNegative(o);
    if b.grounded {
      CarveSafe(w, b, o, dt);
    } else {
      FlySafe(w, b, o, dt);
      var flown := Fly(w, b, o, dt);
      if flown.at.y <= Surface(w, flown.at.x) {
        TouchDownSafe(w, flown, o);
        Monotone(Speed(w, flown.v), Cap(o), LAND_PERFECT_GAIN);
      }
    }
  }

  lemma SplashSafe(w: World, from: Bird, b: Bird, cap: real, dt: real)
    requires Measures(w) && Moved(w, from, b, cap)
    ensures var r := Splash(w, b, dt);
      r.v.x >= 0.0 && r.at.x == b.at.x && r.at.y >= Surface(w, r.at.x) && (!r.inWater ==> r.at == b.at && r.v == b.v)
  {
  }

  /** Where the last stages leave a bird: the position is settled by the pad alone. */
  lemma FinishSafe(w: World, b: Bird, dt: real)
    requires b.v.x >= 0.0
    ensures var r := Measure(w, Doze(Spring(w, b, dt)));
      r.v.x >= 0.0 && r.at.x == b.at.x && r.inWater == b.inWater &&
      r.at.y == (if Springs(w, b, dt) then PadHeight(w, PadAt(w, b.at.x).value) + BIRD_RADIUS + HOP else b.at.y) &&
      r.grounded == (b.grounded && !Springs(w, b, dt)) &&
      (!b.asleep && !Springs(w, b, dt) ==> r.v == b.v)
  {
  }

  lemma WashSafe(w: World, b: Bird, o: Opts, dt: real)
    requires Measures(w) && Sane(o) && dt >= 0.0 && b.v.x >= 0.0
    ensures var r := Wash(w, b, o, dt);
      r.v.x >= 0.0 && r.at.x >= b.at.x && r.at.y >= Surface(w, r.at.x) &&
      r.asleep == b.asleep && (!r.inWater ==> Moved(w, b, r, Cap(o)))
  {
    MoveSafe(w, Begin(b), o, dt);
    SplashSafe(w, Begin(b), Move(w, Begin(b), o, dt), Cap(o), dt);
  }

  /** No step takes the bird back. */
  lemma StepGoesForward(w: World, b: Bird, o: Opts, dt: real)
    requires Measures(w) && Sane(o) && dt >= 0.0 && b.v.x >= 0.0
    ensures var r := Step(w, b, o, dt);
      r.v.x >= 0.0 && r.at.x >= b.at.x
  {
    WashSafe(w, b, o, dt);
    FinishSafe(w, Wash(w, b, o, dt), dt);
  }

  /** The ground at `x` is no higher than the hop off the bloom there. */
  predicate HopClears(w: World, x: real) {
    var p := PadAt(w, x);
    p.Some? ==> w.height(x) <= w.height(p.value) + 0.4
  }

  /** A step ends below the surface exactly when it bounces where the ground is higher than the hop off the bloom. */
  lemma BelowExactlyOffALowBloom(w: World, b: Bird, o: Opts, dt: real)
    requires Measures(w) && Sane(o) && dt >= 0.0 && b.v.x >= 0.0
    ensures var r := Step(w, b, o, dt);
      r.at.y >= Surface(w, r.at.x) <==> (Bounces(w, b, o, dt) ==> HopClears(w, r.at.x))
  {
    WashSafe(w, b, o, dt);
    FinishSafe(w, Wash(w, b, o, dt), dt);
  }

  /**
   * Dry, awake and not off a bloom: a grounded bird sits exactly on the surface at no less than the
   * recovery floor, and no bird is faster than the cap times the perfect landing's gain.
   */
  lemma DryStepWithinLimits(w: World, b: Bird, o: Opts, dt: real)
    requires Measures(w) && Sane(o) && dt >= 0.0 && b.v.x >= 0.0
    requires !b.asleep && !Bounces(w, b, o, dt) && !Step(w, b, o, dt).inWater
    ensures Moved(w, b, Step(w, b, o, dt), Cap(o))
  {
    WashSafe(w, b, o, dt);
    FinishSafe(w, Wash(w, b, o, dt), dt);
  }

  /** With any usual cap the floor is the full one and the landing's gain the only excess. */
  lemma UsualLimits(w: World, b: Bird, o: Opts, dt: real)
    requires Measures(w) && Sane(o) && dt >= 0.0 && b.v.x >= 0.0
    requires !b.asleep && !Bounces(w, b, o, dt) && !Step(w, b, o, dt).inWater
    requires Cap(o) >= MIN_KEEP_SPEED
    ensures var r := Step(w, b, o, dt);
      Speed(w, r.v) <= Cap(o) * 1.03 && (r.grounded ==> Speed(w, r.v) >= MIN_KEEP_SPEED)
  {
    DryStepWithinLimits(w, b, o, dt);
  }

  /* --------------------------------------------------------------------- runs */

  /** One frame: the game may set `asleep` and rewrite the velocity before it steps the bird. */
  datatype Frame = Frame(o: Opts, asleep: bool, push: Option<Velocity>, dt: real)

  /** A push never turns the bird around. */
  predicate Playable(f: Frame) {
    Sane(f.o) && f.dt >= 0.0 && (f.push.Some? ==> f.push.value.x >= 0.0)
  }

  predicate AllPlayable(fs: seq<Frame>) {
    forall i :: 0 <= i < |fs| ==> Playable(fs[i])
  }

  function Entering(b: Bird, f: Frame): (r: Bird) {
    b.(asleep := f.asleep, v := if f.push.Some? then f.push.value else b.v)
  }

  function Next(w: World, b: Bird, f: Frame): (r: Bird)
    requires Measures(w) && Playable(f)
  {
    Step(w, Entering(b, f), f.o, f.dt)
  }

  predicate HopsOff(w: World, b: Bird, f: Frame)
    requires Measures(w) && Playable(f)
  {
    Bounces(w, Entering(b, f), f.o, f.dt)
  }

  function Run(w: World, b: Bird, fs: seq<Frame>): (r: Bird)
    requires Measures(w) && AllPlayable(fs)
    decreases |fs|
  {
    if fs == [] then b else Run(w, Next(w, b, fs[0]), fs[1..])
  }

  /** Every step of the run ends at or above the surface. */
  predicate NeverBelow(w: World, b: Bird, fs: seq<Frame>)
    requires Measures(w) && AllPlayable(fs)
    decreases |fs|
  {
    fs != [] ==>
      var r := Next(w, b, fs[0]);
      r.at.y >= Surface(w, r.at.x) && NeverBelow(w, r, fs[1..])
  }

  /** Every bloom the run takes off from is no lower than the hop below the ground where it does so. */
  predicate EveryHopClears(w: World, b: Bird, fs: seq<Frame>)
    requires Measures(w) && AllPlayable(fs)
    decreases |fs|
  {
    fs != [] ==>
      var r := Next(w, b, fs[0]);
      (HopsOff(w, b, fs[0]) ==> HopClears(w, r.at.x)) && EveryHopClears(w, r, fs[1..])
  }

  lemma NextIsSafe(w: World, b: Bird, f: Frame)
    requires Measures(w) && Playable(f) && b.v.x >= 0.0
    ensures var r := Next(w, b, f);
      r.v.x >= 0.0 && r.at.x >= b.at.x &&
      (r.at.y >= Surface(w, r.at.x) <==> (HopsOff(w, b, f) ==> HopClears(w, r.at.x)))
  {
    StepGoesForward(w, Entering(b, f), f.o, f.dt);
    BelowExactlyOffALowBloom(w, Entering(b, f), f.o, f.dt);
  }

  /**
   * However a run is flown and pushed, x never falls; and the bird never ends a step below the surface
   * exactly when every hop clears the ground.
   */
  lemma {:induction false} RunIsSafe(w: World, b: Bird, fs: seq<Frame>)
    requires Measures(w) && AllPlayable(fs) && b.v.x >= 0.0
    ensures Run(w, b, fs).v.x >= 0.0 && Run(w, b, fs).at.x >= b.at.x
    ensures NeverBelow(w, b, fs) <==> EveryHopClears(w, b, fs)
    decreases |fs|
  {
    if fs != [] {
      NextIsSafe(w, b, fs[0]);
      RunIsSafe(w, Next(w, b, fs[0]), fs[1..]);
    }
  }

  /**
   * The flight clock only runs in the air: on the ground, and on the step that leaves it for a
   * bloom, it reads zero.
   */
  lemma ClockRestsOnTheGround(w: World, b: Bird, f: Frame)
    requires Measures(w) && Playable(f) && (b.grounded ==> b.air.time == 0.0)
    ensures var r := Next(w, b, f);
      (r.grounded || HopsOff(w, b, f)) ==> r.air.time == 0.0
  {
  }

  lemma {:induction false} RunClock(w: World, b: Bird, fs: seq<Frame>)
    requires Measures(w) && AllPlayable(fs) && (b.grounded ==> b.air.time == 0.0)
    ensures Run(w, b, fs).grounded ==> Run(w, b, fs).air.time == 0.0
    decreases |fs|
  {
    if fs != [] {
      ClockRestsOnTheGround(w, b, fs[0]);
      RunClock(w, Next(w, b, fs[0]), fs[1..]);
    }
  }

  /** Holding never lets go of a crest that gliding would hold: it grips and weighs more. */
  lemma DivingHoldsOn(w: World, x: real, s: real, gMult: real)
    requires Measures(w) && gMult >= 0.0
    ensures Leaves(w, x, s, true, gMult) ==> Leaves(w, x, s, false, gMult)
  {
    NonNegative(gMult, TangentX(w, x));
    Monotone(18.0, 96.0, gMult * TangentX(w, x));
    GripGrows(gMult, TangentX(w, x));
  }

  lemma GripGrows(gMult: real, t: real)
    requires gMult * t >= 0.0
    ensures 18.0 * gMult * t + 13.0 <= 96.0 * gMult * t + 190.0
  {
    assert 18.0 * gMult * t == 18.0 * (gMult * t) && 96.0 * gMult * t == 96.0 * (gMult * t);
  }
}
