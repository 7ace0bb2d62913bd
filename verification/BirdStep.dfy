/** The momentum flight model, one fixed physics step at a time (src/game/Bird.ts). */
module BirdStep {
  import opened FlightPhysics
  import opened Terrain
  import opened Text

  const MAX_SPEED := 108.0
  const MAX_SPEED_FEVER := 128.0
  const BOOST_EXTRA_SPEED := 42.0
  const MIN_KEEP_SPEED := 6.0
  const LAND_PERFECT := 0.985
  const LAND_GOOD := 0.94
  const LAND_PERFECT_GAIN := 1.03
  const LAND_GOOD_KEEP := 1.0
  const LAND_BAD_MIN_KEEP := 0.55
  const LAND_FEATHER_FLOOR := 0.88
  const OCEAN_FLOOR := -18.0
  const WATER_Y := 0.4
  const HOP := 0.4
  const SUNFLOWER_VX := 30.0
  const SUNFLOWER_VY := 30.0

  /** None stands for an option the caller leaves out. */
  datatype Opts = Opts(
    diving: bool, fever: bool, speedMult: real, boost: bool, feather: bool,
    liftMult: Option<real>, dragMult: Option<real>, gravityMult: Option<real>)

  datatype Velocity = Velocity(x: real, y: real)

  datatype Place = Place(x: real, y: real)

  /** The clock of the current flight and the height it has reached. */
  datatype Air = Air(time: real, apexY: real)

  /** What a step tells the game about itself. */
  datatype Report = Report(
    wasGrounded: bool, justLaunched: bool, justLanded: bool, impact: real,
    launchSlope: real, launchSpeed: real, landingQuality: real, landingKeep: real)

  datatype Bird = Bird(
    at: Place, v: Velocity, grounded: bool, air: Air,
    asleep: bool, inWater: bool, bounced: bool, bounceCd: real, altitude: real, report: Report)

  function Or(o: Option<real>, otherwise: real): (r: real) {
    if o.Some? then o.value else otherwise
  }

  function Cap(o: Opts): (c: real) {
    (if o.fever then MAX_SPEED_FEVER else MAX_SPEED) * o.speedMult + (if o.boost then BOOST_EXTRA_SPEED else 0.0)
  }

  /** The multipliers of a real caller: none turns gravity or the speed cap upside down. */
  predicate Sane(o: Opts) {
    o.speedMult >= 0.0 && Or(o.gravityMult, 1.0) >= 0.0
  }

  lemma CapIsNonNegative(o: Opts)
    requires Sane(o)
    ensures Cap(o) >= 0.0
  {
    NonNegative(if o.fever then MAX_SPEED_FEVER else MAX_SPEED, o.speedMult);
  }

  function Speed(w: World, v: Velocity): (s: real) {
    w.hyp(v.x, v.y)
  }

  /** The velocity of size `s` along the ground at `x`. */
  function Along(w: World, x: real, s: real): (v: Velocity)
    requires Measures(w)
  {
    Velocity(s * TangentX(w, x), s * TangentY(w, x))
  }

  /* ------------------------------------------------------ carving the surface */

  /** The part of a velocity along the ground. */
  function Component(w: World, x: real, v: Velocity): (s: real)
    requires Measures(w)
  {
    v.x * TangentX(w, x) + v.y * TangentY(w, x)
  }

  /** The part of a velocity away from the ground. */
  function Normal(w: World, x: real, v: Velocity): (s: real)
    requires Measures(w)
  {
    -v.x * TangentY(w, x) + v.y * TangentX(w, x)
  }

  function SlopePull(w: World, x: real, diving: bool, dt: real): (dv: real)
    requires Measures(w)
  {
    -(if diving then 88.0 else 30.0) * TangentY(w, x) * dt
  }

  function Rub(diving: bool, dt: real): (k: real) {
    1.0 - (if diving then 0.018 else 0.05) * dt
  }

  function Worn(along: real, pull: real, rub: real): (s: real) {
    (along + pull) * rub
  }

  /** Speed along the ground after gravity and friction, between the recovery floor and the cap. */
  function CarvingSpeed(w: World, x: real, v: Velocity, diving: bool, cap: real, dt: real): (s: real)
    requires Measures(w)
  {
    Min(Max(MIN_KEEP_SPEED, Worn(Component(w, x, v), SlopePull(w, x, diving, dt), Rub(diving, dt))), cap)
  }

  /** The crest falls away faster than gravity and grip can follow. */
  predicate Leaves(w: World, x: real, s: real, diving: bool, gMult: real)
    requires Measures(w)
  {
    var bend := CurvatureAt(w, x);
    bend > 0.0 &&
    s * s * bend >
      (if diving then 96.0 else 18.0) * gMult * TangentX(w, x) + (if diving then 190.0 else 13.0)
  }

  /** The bird carried along the ground at `s`, and off it when it leaves the crest. */
  function Ride(w: World, b: Bird, s: real, leaves: bool, dt: real): (r: Bird)
    requires Measures(w)
  {
    var x := RideTo(w, b.at.x, s, dt);
    var carried := b.(at := Place(x, Surface(w, x)), v := Along(w, x, s));
    if !leaves then carried
    else
      carried.(
        grounded := false,
        air := Air(0.0, Surface(w, x)),
        report := b.report.(justLaunched := true, launchSlope := SlopeAt(w, x), launchSpeed := Abs(s)))
  }

  function RideTo(w: World, x: real, s: real, dt: real): (to: real)
    requires Measures(w)
  {
    x + s * TangentX(w, x) * dt
  }

  function Carve(w: World, b: Bird, o: Opts, dt: real): (r: Bird)
    requires Measures(w)
  {
    var diving := o.diving && !b.asleep;
    var s := CarvingSpeed(w, b.at.x, b.v, diving, Cap(o), dt);
    Ride(w, b, s, Leaves(w, RideTo(w, b.at.x, s, dt), s, diving, Or(o.gravityMult, 1.0)), dt)
  }

  /* -------------------------------------------------------- ballistic flight */

  function Lift(o: Opts, diving: bool, speed: real, airTime: real): (k: real) {
    if diving then 0.0
    else Min(0.85, 0.55 * Clamp(speed / 62.0, 0.0, 1.0) * Or(o.liftMult, 1.0)) * GlideLiftScale(airTime)
  }

  function Sink(o: Opts, lift: real, diving: bool, dt: real): (dv: real) {
    (if diving then 96.0 else 18.0) * Or(o.gravityMult, 1.0) * (1.0 - lift) * dt
  }

  function Decay(o: Opts, speed: real, diving: bool, dt: real): (k: real)
    ensures k >= 0.0
  {
    Max(0.0, 1.0 - (if diving then 0.00016 else 0.00042) * Or(o.dragMult, 1.0) * speed * dt)
  }

  /** Gravity less lift, then drag. */
  function Pulled(o: Opts, v: Velocity, speed: real, diving: bool, airTime: real, dt: real): (r: Velocity) {
    Scaled(Velocity(v.x, v.y - Sink(o, Lift(o, diving, speed, airTime), diving, dt)), Decay(o, speed, diving, dt))
  }

  function Capped(w: World, v: Velocity, cap: real): (r: Velocity)
    requires cap >= 0.0
  {
    var s := Speed(w, v);
    if s > cap then Scaled(v, cap / s) else v
  }

  function Scaled(v: Velocity, k: real): (r: Velocity) {
    Velocity(v.x * k, v.y * k)
  }

  function FlightVelocity(w: World, b: Bird, o: Opts, dt: real): (v: Velocity)
    requires Sane(o)
  {
    CapIsNonNegative(o);
    var pulled := Pulled(o, b.v, Max(0.001, Speed(w, b.v)), o.diving && !b.asleep, b.air.time, dt);
    var capped := Capped(w, pulled, Cap(o));
    Velocity(capped.x, DampClimbAtCeiling(capped.y, b.at.y - w.height(b.at.x) - BIRD_RADIUS))
  }

  function Drift(b: Bird, v: Velocity, dt: real): (r: Bird) {
    var at := Place(b.at.x + v.x * dt, b.at.y + v.y * dt);
    b.(at := at, v := v, air := Air(b.air.time + dt, Max(b.air.apexY, at.y)))
  }

  lemma DriftTakesVelocity(b: Bird, v: Velocity, dt: real)
    ensures Drift(b.(v := v), v, dt) == Drift(b, v, dt)
  {
  }

  function Fly(w: World, b: Bird, o: Opts, dt: real): (r: Bird)
    requires Sane(o)
  {
    Drift(b, FlightVelocity(w, b, o, dt), dt)
  }

  /* -------------------------------------------------------------- touchdown */

  /** How tangential a touchdown is: 1 for a kiss, 0 for a slam. */
  function Alignment(w: World, x: real, v: Velocity): (a: real)
    requires Measures(w)
    ensures 0.0 <= a <= 1.0
  {
    Clamp(1.0 - Abs(Normal(w, x, v)) / Max(0.001, Speed(w, v)), 0.0, 1.0)
  }

  /** The share of the speed along the ground a touchdown keeps. */
  function Keep(align: real, feather: bool, diving: bool): (k: real) {
    var least := if feather then LAND_FEATHER_FLOOR else LAND_BAD_MIN_KEEP;
    if align >= LAND_PERFECT then LAND_PERFECT_GAIN
    else if align >= LAND_GOOD then LAND_GOOD_KEEP
    else Lerp(if diving then Max(least, 0.86) else least, LAND_GOOD_KEEP, Clamp(align / LAND_GOOD, 0.0, 1.0))
  }

  function LandingSpeed(w: World, x: real, v: Velocity, keep: real): (s: real)
    requires Measures(w)
  {
    Max(MIN_KEEP_SPEED, Component(w, x, v) * keep)
  }

  function Land(w: World, b: Bird, align: real, keep: real): (r: Bird)
    requires Measures(w)
  {
    var x := b.at.x;
    b.(
      at := Place(x, Surface(w, x)),
      v := Along(w, x, LandingSpeed(w, x, b.v, keep)),
      grounded := true,
      air := b.air.(time := 0.0),
      report := b.report.(
        justLanded := true, impact := Max(0.0, -Normal(w, x, b.v)), landingQuality := align, landingKeep := keep))
  }

  function TouchDown(w: World, b: Bird, o: Opts): (r: Bird)
    requires Measures(w)
  {
    if b.at.y > Surface(w, b.at.x) then b
    else
      var align := Alignment(w, b.at.x, b.v);
      Land(w, b, align, Keep(align, o.feather, o.diving && !b.asleep))
  }

  /* -------------------------------------------- water, blooms, sleep, altitude */

  function Splash(w: World, b: Bird, dt: real): (r: Bird) {
    var wet := w.ocean(b.at.x) && b.at.y < WATER_Y + 0.6;
    if !wet then b.(inWater := false)
    else
      var y := if b.at.y < OCEAN_FLOOR + 2.0 then OCEAN_FLOOR + 2.0 else b.at.y;
      var vy := b.v.y * 0.55 + 38.0 * dt;
      b.(
        inWater := true,
        at := b.at.(y := y),
        v := Velocity(Max(b.v.x * 0.9, 7.0), if y > WATER_Y - 0.2 && vy > 0.0 then vy * 0.4 else vy))
  }

  function Cooldown(b: Bird, dt: real): (c: real) {
    Max(0.0, b.bounceCd - dt)
  }

  /** A grounded dry bird on a bloom whose cooldown has run out. */
  predicate Springs(w: World, b: Bird, dt: real) {
    Cooldown(b, dt) <= 0.0 && b.grounded && !b.inWater && PadAt(w, b.at.x).Some?
  }

  function Spring(w: World, b: Bird, dt: real): (r: Bird) {
    if !Springs(w, b, dt) then b.(bounceCd := Cooldown(b, dt))
    else
      b.(
        bounceCd := 0.6, bounced := true, grounded := false,
        v := Velocity(Max(b.v.x, SUNFLOWER_VX), SUNFLOWER_VY),
        at := b.at.(y := PadHeight(w, PadAt(w, b.at.x).value) + BIRD_RADIUS + HOP))
  }

  function Doze(b: Bird): (r: Bird) {
    if !b.asleep then b
    else b.(v := b.v.(x := if b.grounded then b.v.x * 0.9 * 0.8 else b.v.x * 0.9))
  }

  function Measure(w: World, b: Bird): (r: Bird) {
    b.(altitude := Max(0.0, b.at.y - w.height(b.at.x) - BIRD_RADIUS))
  }

  /* --------------------------------------------------------------- the step */

  function Begin(b: Bird): (r: Bird) {
    b.(report := b.report.(wasGrounded := b.grounded, justLanded := false, justLaunched := false, impact := 0.0))
  }

  /** Where the bird is before water and blooms have their say. */
  function Move(w: World, b: Bird, o: Opts, dt: real): (r: Bird)
    requires Measures(w) && Sane(o)
  {
    if b.grounded then Carve(w, b, o, dt) else TouchDown(w, Fly(w, b, o, dt), o)
  }

  function Wash(w: World, b: Bird, o: Opts, dt: real): (r: Bird)
    requires Measures(w) && Sane(o)
  {
    Splash(w, Move(w, Begin(b), o, dt), dt)
  }

  function Step(w: World, b: Bird, o: Opts, dt: real): (r: Bird)
    requires Measures(w) && Sane(o)
  {
    Measure(w, Doze(Spring(w, Wash(w, b, o, dt), dt)))
  }

  /** This step takes off from a bloom. */
  predicate Bounces(w: World, b: Bird, o: Opts, dt: real)
    requires Measures(w) && Sane(o)
  {
    Springs(w, Wash(w, b, o, dt), dt)
  }
}
