/**
 * Hops off blooms, and where they end (src/game/Bird.ts): which ground keeps every hop above it, what a
 * hop under the ground comes to, and what hops do to the apex.
 */
module Blooms {
  import opened BirdRuns
  import opened BirdStep
  import opened Flights
  import opened FlightPhysics
  import opened Terrain
  import opened Text

  /* ------------------------------------------------- which ground keeps hops above it */

  /** A bird on the ground at `x` is not in water. */
  predicate Dry(w: World, x: real) {
    !(w.ocean(x) && Surface(w, x) < WATER_Y + 0.6)
  }

  /** Within every bloom's reach the dry ground is at most the hop's height above the bloom's centre. */
  ghost predicate LowRims(w: World) {
    forall x :: Dry(w, x) ==> HopClears(w, x)
  }

  lemma HopsAreDry(w: World, b: Bird, f: Frame)
    requires Measures(w) && Playable(f) && b.v.x >= 0.0 && HopsOff(w, b, f)
    ensures Dry(w, Next(w, b, f).at.x)
  {
    var a := Entering(b, f);
    MoveSafe(w, Begin(a), f.o, f.dt);
    WashSafe(w, a, f.o, f.dt);
    FinishSafe(w, Wash(w, a, f.o, f.dt), f.dt);
  }

  lemma {:induction false} LowRimsClear(w: World, b: Bird, fs: seq<Frame>)
    requires Measures(w) && LowRims(w) && AllPlayable(fs) && b.v.x >= 0.0
    ensures EveryHopClears(w, b, fs)
    decreases |fs|
  {
    if fs != [] {
      if HopsOff(w, b, fs[0]) {
        HopsAreDry(w, b, fs[0]);
      }
      NextIsSafe(w, b, fs[0]);
      LowRimsClear(w, Next(w, b, fs[0]), fs[1..]);
    }
  }

  /** A bird about to touch down at `x`, straight down. */
  function Dropped(w: World, x: real): (b: Bird) {
    Bird(
      Place(x, Surface(w, x)), Velocity(0.0, 0.0), false, Air(0.0, Surface(w, x)), false, false, false, 0.0, 0.0,
      Report(false, false, false, 0.0, 0.0, 0.0, 1.0, 1.0))
  }

  lemma FallsStraight(w: World, x: real, o: Opts, dt: real)
    requires Measures(w) && Sane(o) && dt >= 0.0
    ensures var at := Fly(w, Begin(Dropped(w, x)), o, dt).at;
      at.x == x && at.y <= Surface(w, x)
  {
    var b := Begin(Dropped(w, x));
    var v := FlightVelocity(w, b, o, dt);
    FlightVelocitySafe(w, b, o, dt);
    assert v.x == 0.0 by {
      var pulled := Pulled(o, b.v, Max(0.001, Speed(w, b.v)), o.diving && !b.asleep, b.air.time, dt);
      assert pulled.x == 0.0;
    }
    ClimbSign(v.y, dt);
  }

  /** The step brings the bird to the dry ground at `x`, rolling or touching down. */
  predicate Reaches(w: World, b: Bird, o: Opts, dt: real, x: real)
    requires Measures(w) && Sane(o)
  {
    var r := Wash(w, b, o, dt);
    r.grounded && !r.inWater && r.at.x == x
  }

  /** However a bird reaches a high rim, once its cooldown is over it is put under the ground. */
  lemma HighRimSinks(w: World, b: Bird, x: real, o: Opts, dt: real)
    requires Measures(w) && Sane(o) && dt >= 0.0 && b.v.x >= 0.0
    requires Reaches(w, b, o, dt, x) && b.bounceCd <= dt && !HopClears(w, x)
    ensures var r := Step(w, b, o, dt);
      Bounces(w, b, o, dt) && r.at.x == x && r.at.y < Surface(w, x)
  {
    BelowExactlyOffALowBloom(w, b, o, dt);
    WashSafe(w, b, o, dt);
    FinishSafe(w, Wash(w, b, o, dt), dt);
  }

  lemma DroppedReaches(w: World, x: real, o: Opts, dt: real)
    requires Measures(w) && Sane(o) && dt >= 0.0 && Dry(w, x)
    ensures Reaches(w, Dropped(w, x), o, dt, x)
  {
    FallsStraight(w, x, o, dt);
    var b := Begin(Dropped(w, x));
    var moved := Move(w, b, o, dt);
    assert moved.grounded && moved.at == Place(x, Surface(w, x));
  }

  ghost predicate NeverBelowInAnyRun(w: World)
    requires Measures(w)
  {
    forall b: Bird, fs :: b.v.x >= 0.0 && AllPlayable(fs) ==> NeverBelow(w, b, fs)
  }

  const PLAIN := Opts(false, false, 1.0, false, false, None, None, None)

  lemma {:induction false} BelowBreaksARun(w: World, b: Bird, fs: seq<Frame>)
    requires Measures(w) && AllPlayable(fs) && fs != []
    requires Next(w, b, fs[0]).at.y < Surface(w, Next(w, b, fs[0]).at.x)
    ensures !NeverBelow(w, b, fs)
  {
  }

  lemma UndisturbedNext(w: World, b: Bird, f: Frame)
    requires Measures(w) && Playable(f) && f.push.None? && f.asleep == b.asleep
    ensures Next(w, b, f) == Step(w, b, f.o, f.dt)
  {
    assert Entering(b, f) == b;
  }

  lemma {:induction false} HighRimBreaksARun(w: World, x: real, b: Bird, fs: seq<Frame>)
    requires Measures(w) && Dry(w, x) && !HopClears(w, x) && b == Dropped(w, x)
    requires AllPlayable(fs) && fs != [] && fs[0].push.None? && !fs[0].asleep
    ensures !NeverBelow(w, b, fs)
  {
    DroppedReaches(w, x, fs[0].o, fs[0].dt);
    HighRimSinks(w, b, x, fs[0].o, fs[0].dt);
    UndisturbedNext(w, b, fs[0]);
    BelowBreaksARun(w, b, fs);
  }

  lemma {:induction false} SomeRunBreaks(w: World, b: Bird, fs: seq<Frame>)
    requires Measures(w) && b.v.x >= 0.0 && AllPlayable(fs) && !NeverBelow(w, b, fs)
    ensures !NeverBelowInAnyRun(w)
  {
  }

  lemma LowRimsKeepAbove(w: World)
    requires Measures(w) && LowRims(w)
    ensures NeverBelowInAnyRun(w)
  {
    forall b: Bird, fs | b.v.x >= 0.0 && AllPlayable(fs) ensures NeverBelow(w, b, fs) {
      LowRimsClear(w, b, fs);
      RunIsSafe(w, b, fs);
    }
  }

  /** No run at all ends a step below the surface exactly when no bloom has a high rim. */
  lemma NeverBelowExactlyWithLowRims(w: World)
    requires Measures(w)
    ensures NeverBelowInAnyRun(w) <==> LowRims(w)
  {
    if LowRims(w) {
      LowRimsKeepAbove(w);
    } else {
      var x :| Dry(w, x) && !HopClears(w, x);
      var b, fs := Dropped(w, x), [Frame(PLAIN, false, None, 0.1)];
      HighRimBreaksARun(w, x, b, fs);
      SomeRunBreaks(w, b, fs);
    }
  }

  /** Ground that falls or rises no more than the hop over a bloom's radius is safe. */
  lemma GentleGroundHasLowRims(w: World)
    requires forall x, y :: w.height(x) - w.height(y) <= Abs(x - y) * (2.0 / 17.0)
    ensures LowRims(w)
  {
    forall x | Dry(w, x) ensures HopClears(w, x) {
      var p := PadAt(w, x);
      if p.Some? {
        assert w.height(x) - w.height(p.value) <= Abs(x - p.value) * (2.0 / 17.0);
      }
    }
  }

  /* ------------------------------------------------------------- a hop swallowed */

  /** A hop too low to clear the ground in its first step aloft is a landing again, and no second hop. */
  lemma SwallowedHop(w: World, b: Bird, f: Frame, g: Frame)
    requires Measures(w) && Playable(f) && Playable(g) && HopsOff(w, b, f) && g.dt < 0.6
    requires var flown := Fly(w, Begin(Entering(Next(w, b, f), g)), g.o, g.dt);
      flown.at.y <= Surface(w, flown.at.x)
    ensures var s := Next(w, Next(w, b, f), g);
      s.grounded && s.report.justLanded && !HopsOff(w, Next(w, b, f), g)
  {
  }

  /** Ground of one slope, falling for s > 0, with a bloom at 300. */
  function Straight(s: real, hyp: (real, real) -> real): (w: World) {
    World(x => 100.0 - s * x, x => false, island => if island == 0 then [300.0] else [], hyp)
  }

  lemma StraightSlope(s: real, hyp: (real, real) -> real, x: real)
    ensures SlopeAt(Straight(s, hyp), x) == -s
  {
    var up, down := s * (x + 0.45), s * (x - 0.45);
    assert up - down == 0.9 * s;
  }

  /** The generator plants it wherever the slope is under 0.42. */
  lemma StraightIsPlanted(s: real, hyp: (real, real) -> real)
    ensures Planted(Straight(s, hyp)) <==> Abs(s) < 0.42
  {
    var w := Straight(s, hyp);
    StraightSlope(s, hyp, 300.0);
    assert Plantable(w, 300.0) <==> Abs(s) < 0.42;
    assert w.blooms(0)[0] == 300.0;
  }

  lemma StraightBloom(s: real, hyp: (real, real) -> real, x: real)
    ensures var p := PadAt(Straight(s, hyp), x);
      p == if Abs(300.0 - x) <= PAD_RADIUS then Some(300.0) else None
  {
    var w := Straight(s, hyp);
    if Abs(300.0 - x) <= PAD_RADIUS {
      assert Island(x) == 0;
      assert w.blooms(0)[0] == 300.0;
    }
  }

  lemma StraightClears(s: real, hyp: (real, real) -> real, x: real)
    ensures HopClears(Straight(s, hyp), x) <==> (Abs(300.0 - x) <= PAD_RADIUS ==> s * (300.0 - x) <= 0.4)
  {
    StraightBloom(s, hyp, x);
    assert s * 300.0 - s * x == s * (300.0 - x);
  }

  /** Its rim is low only up to 2/17, so between there and 0.42 a planted bloom sinks birds. */
  lemma StraightHasLowRims(s: real, hyp: (real, real) -> real)
    ensures LowRims(Straight(s, hyp)) <==> Abs(s) <= 2.0 / 17.0
  {
    var w := Straight(s, hyp);
    if Abs(s) <= 2.0 / 17.0 {
      forall x ensures HopClears(w, x) {
        StraightClears(s, hyp, x);
        if Abs(300.0 - x) <= PAD_RADIUS {
          ProductAtMost(s, 300.0 - x, 2.0 / 17.0, PAD_RADIUS);
        }
      }
    } else {
      var x := if s > 0.0 then 300.0 - PAD_RADIUS else 300.0 + PAD_RADIUS;
      StraightClears(s, hyp, x);
      assert Dry(w, x);
    }
  }

  lemma ProductAtMost(a: real, b: real, p: real, q: real)
    requires Abs(a) <= p && Abs(b) <= q
    ensures a * b <= p * q
  {
    Monotone(Abs(a), p, Abs(b));
    Monotone(Abs(b), q, p);
    if a * b > 0.0 {
      assert a * b == Abs(a) * Abs(b);
    }
  }

  const STEEP := 5.0 / 12.0
  const TICK := 1.0 / 120.0

  lemma SteepShape(w: World, x: real)
    requires Measures(w) && w == Straight(STEEP, w.hyp)
    ensures TangentX(w, x) == 12.0 / 13.0 && TangentY(w, x) == -5.0 / 13.0 && CurvatureAt(w, x) == 0.0
  {
    StraightSlope(STEEP, w.hyp, x);
    var h := w.hyp(1.0, SlopeAt(w, x));
    assert IsLength(h, 1.0, -STEEP);
    SquareEqual(h, 13.0 / 12.0);
    assert w.height(x - 1.1) - 2.0 * w.height(x) + w.height(x + 1.1) == 0.0;
  }

  /** Rolling down at 26 m/s towards the bloom. */
  predicate Rolling(w: World, b: Bird) {
    b.at == Place(296.5, Surface(w, 296.5)) && b.v == Velocity(24.0, -10.0) &&
    b.grounded && !b.asleep && b.bounceCd == 0.0
  }

  predicate Plain(f: Frame) {
    f == Frame(PLAIN, false, None, TICK)
  }

  lemma SteepRoll(w: World, b: Bird, f: Frame)
    requires Measures(w) && w == Straight(STEEP, w.hyp) && Rolling(w, b) && Plain(f)
    ensures var r := Carve(w, b, f.o, f.dt);
      296.7 < r.at.x < 296.71 && r.at.y == Surface(w, r.at.x) && r.grounded && 0.0 <= r.v.x < 30.0
  {
    SteepShape(w, 296.5);
    var s := CarvingSpeed(w, 296.5, b.v, false, 108.0, TICK);
    assert Component(w, 296.5, b.v) == 26.0;
    assert SlopePull(w, 296.5, false, TICK) == 5.0 / 52.0;
    assert Rub(false, TICK) == 2399.0 / 2400.0;
    assert s == (26.0 + 5.0 / 52.0) * (2399.0 / 2400.0);
    SteepShape(w, RideTo(w, 296.5, s, TICK));
  }

  lemma SteepHop(w: World, b: Bird, f: Frame)
    requires Measures(w) && w == Straight(STEEP, w.hyp) && Rolling(w, b) && Plain(f)
    ensures var r := Next(w, b, f);
      HopsOff(w, b, f) && !r.grounded && !r.asleep && r.v == Velocity(30.0, 30.0) &&
      296.7 < r.at.x < 296.71 && r.at.y == Surface(w, 300.0) + HOP
  {
    SteepRoll(w, Begin(b), f);
    UndisturbedNext(w, b, f);
    StraightBloom(STEEP, w.hyp, Carve(w, Begin(b), f.o, f.dt).at.x);
  }

  lemma HopPulled(speed: real, airTime: real)
    requires 0.0 <= speed <= 43.0
    ensures var v := Pulled(PLAIN, Velocity(30.0, 30.0), speed, false, airTime, TICK);
      29.9 <= v.x <= 30.0 && 29.8 <= v.y <= 30.0
  {
    LiftIsAShare(PLAIN, false, speed, airTime);
    var sink := Sink(PLAIN, Lift(PLAIN, false, speed, airTime), false, TICK);
    assert 0.0 <= sink <= 0.15;
    var k := Decay(PLAIN, speed, false, TICK);
    assert 0.999 <= k <= 1.0;
    SlowedHop(sink, k);
  }

  lemma SlowedHop(sink: real, k: real)
    requires 0.0 <= sink <= 0.15 && 0.999 <= k <= 1.0
    ensures 29.97 <= 30.0 * k <= 30.0 && 29.8 <= (30.0 - sink) * k <= 30.0
  {
    Monotone(sink, 0.15, k);
    NonNegative(sink, k);
  }

  lemma SquareAtMost(a: real, b: real)
    requires 0.0 <= a <= b
    ensures a * a <= b * b
  {
    Monotone(a, b, a);
    Monotone(a, b, b);
  }

  lemma SlowEnough(w: World, v: Velocity, cap: real)
    requires Measures(w) && 0.0 <= v.x <= 30.0 && -30.0 <= v.y <= 30.0 && cap >= 43.0
    ensures Speed(w, v) <= 43.0 && Capped(w, v, cap) == v
  {
    var h := w.hyp(v.x, v.y);
    assert IsLength(h, v.x, v.y);
    SquareAtMost(v.x, 30.0);
    SquareAtMost(Abs(v.y), 30.0);
    SquareOrder(h, 43.0);
  }

  lemma HopFlight(w: World, b: Bird)
    requires Measures(w) && b.v == Velocity(30.0, 30.0) && !b.asleep
    requires b.at.y <= w.height(b.at.x) + 210.0
    ensures var v := FlightVelocity(w, b, PLAIN, TICK);
      29.9 <= v.x <= 30.0 && 29.8 <= v.y <= 30.0
  {
    var pulled := Pulled(PLAIN, b.v, Max(0.001, Speed(w, b.v)), false, b.air.time, TICK);
    SlowEnough(w, b.v, 108.0);
    assert Speed(w, b.v) >= 0.0 by {
      assert IsLength(w.hyp(b.v.x, b.v.y), b.v.x, b.v.y);
    }
    HopPulled(Max(0.001, Speed(w, b.v)), b.air.time);
    SlowEnough(w, pulled, 108.0);
    CeilingOnlyBrakesClimbs(pulled.y, b.at.y - w.height(b.at.x) - BIRD_RADIUS);
  }

  lemma SteepLanding(w: World, x: real, v: Velocity)
    requires Measures(w) && w == Straight(STEEP, w.hyp) && 29.9 <= v.x <= 30.0 && 29.8 <= v.y <= 30.0
    ensures Alignment(w, x, v) <= 0.1
  {
    SteepShape(w, x);
    SlowEnough(w, v, 108.0);
    var away, speed := Normal(w, x, v), Max(0.001, Speed(w, v));
    assert away >= 38.7;
    assert away / speed >= 0.9 by {
      assert speed * 0.9 <= away;
    }
  }

  lemma SteepFlight(w: World, b: Bird)
    requires Measures(w) && w == Straight(STEEP, w.hyp) && b.v == Velocity(30.0, 30.0) && !b.asleep
    requires 296.7 < b.at.x < 296.71 && b.at.y == Surface(w, 300.0) + HOP
    ensures var r := Fly(w, b, PLAIN, TICK);
      r.at.y <= Surface(w, r.at.x) && Alignment(w, r.at.x, r.v) <= 0.1
  {
    HopFlight(w, b);
    var v := FlightVelocity(w, b, PLAIN, TICK);
    SteepLanding(w, b.at.x + v.x * TICK, v);
  }

  /**
   * On a face of slope 5/12, where the generator plants, rolling onto a bloom puts the bird under the
   * ground, and the next step lands it again, hard: the hop is lost.
   */
  lemma SteepBloomSwallowsTheHop(w: World, b: Bird, f: Frame)
    requires Measures(w) && w == Straight(STEEP, w.hyp) && Rolling(w, b) && Plain(f)
    ensures Planted(w)
    ensures var r := Next(w, b, f);
      var s := Next(w, r, f);
      HopsOff(w, b, f) && r.at.y < Surface(w, r.at.x) &&
      s.grounded && s.report.justLanded && s.report.landingQuality <= 0.1 && !HopsOff(w, r, f)
  {
    StraightIsPlanted(STEEP, w.hyp);
    SteepHop(w, b, f);
    var r := Next(w, b, f);
    SteepFlight(w, Begin(r));
    assert Entering(r, f) == r;
    SwallowedHop(w, b, f, f);
  }

  /* ------------------------------------------------------------ the apex off a bloom */

  /** Nothing but gravity acts on the first step aloft, and not for so long that it ends the climb. */
  predicate LeftToClimb(f: Frame) {
    && f.push.None?
    && Or(f.o.liftMult, 1.0) >= 0.0
    && Or(f.o.dragMult, 1.0) >= 0.0
    && Or(f.o.gravityMult, 1.0) * f.dt <= 0.3125
  }

  lemma ProductWithin(a: real, b: real, z: real, c: real)
    requires 0.0 <= a <= b && 0.0 <= z <= c
    ensures 0.0 <= a * z <= b * c
  {
    NonNegative(a, z);
    Monotone(a, b, z);
    Monotone(z, c, b);
  }

  lemma SinkAtMost(g: real, gMult: real, share: real, dt: real)
    requires 0.0 <= g <= 96.0 && gMult >= 0.0 && dt >= 0.0 && 0.0 <= share <= 1.0 && gMult * dt <= 0.3125
    ensures 0.0 <= g * gMult * share * dt <= 30.0
  {
    NonNegative(gMult, dt);
    var pull := gMult * dt * share;
    Between(gMult * dt, share);
    ProductWithin(g, 96.0, pull, 0.3125);
    assert g * gMult * share * dt == g * pull;
  }

  lemma DecayIsAShare(o: Opts, speed: real, diving: bool, dt: real)
    requires Or(o.dragMult, 1.0) >= 0.0 && speed >= 0.0 && dt >= 0.0
    ensures 0.0 <= Decay(o, speed, diving, dt) <= 1.0
  {
    var k := (if diving then 0.00016 else 0.00042) * Or(o.dragMult, 1.0);
    NonNegative(if diving then 0.00016 else 0.00042, Or(o.dragMult, 1.0));
    NonNegative(k, speed);
    NonNegative(k * speed, dt);
  }

  lemma CappedIsAShare(w: World, v: Velocity, cap: real)
    requires Measures(w) && cap >= 0.0 && v.y >= 0.0
    ensures 0.0 <= Capped(w, v, cap).y <= v.y
  {
    var s := Speed(w, v);
    if s > cap {
      Between(v.y, cap / s);
    }
  }

  lemma SinkWithin(o: Opts, lift: real, diving: bool, dt: real)
    requires Sane(o) && dt >= 0.0 && 0.0 <= lift <= 1.0 && Or(o.gravityMult, 1.0) * dt <= 0.3125
    ensures 0.0 <= Sink(o, lift, diving, dt) <= 30.0
  {
    SinkAtMost(if diving then 96.0 else 18.0, Or(o.gravityMult, 1.0), 1.0 - lift, dt);
  }

  lemma SlowedClimb(vy: real, sink: real, k: real)
    requires vy == 30.0 && 0.0 <= sink <= 30.0 && 0.0 <= k <= 1.0
    ensures 0.0 <= (vy - sink) * k <= 30.0
  {
    Between(vy - sink, k);
  }

  lemma PulledClimb(o: Opts, v: Velocity, speed: real, diving: bool, airTime: real, dt: real)
    requires Sane(o) && dt >= 0.0 && v.y == 30.0 && speed >= 0.0
    requires Or(o.liftMult, 1.0) >= 0.0 && Or(o.dragMult, 1.0) >= 0.0 && Or(o.gravityMult, 1.0) * dt <= 0.3125
    ensures 0.0 <= Pulled(o, v, speed, diving, airTime, dt).y <= 30.0
  {
    var lift := Lift(o, diving, speed, airTime);
    LiftIsAShare(o, diving, speed, airTime);
    SinkWithin(o, lift, diving, dt);
    DecayIsAShare(o, speed, diving, dt);
    SlowedClimb(v.y, Sink(o, lift, diving, dt), Decay(o, speed, diving, dt));
  }

  lemma FirstClimb(w: World, b: Bird, o: Opts, dt: real)
    requires Measures(w) && Sane(o) && dt >= 0.0 && b.v.y == 30.0
    requires Or(o.liftMult, 1.0) >= 0.0 && Or(o.dragMult, 1.0) >= 0.0 && Or(o.gravityMult, 1.0) * dt <= 0.3125
    ensures 0.0 <= FlightVelocity(w, b, o, dt).y <= 30.0
  {
    CapIsNonNegative(o);
    var diving, speed := o.diving && !b.asleep, Max(0.001, Speed(w, b.v));
    PulledClimb(o, b.v, speed, diving, b.air.time, dt);
    var pulled := Pulled(o, b.v, speed, diving, b.air.time, dt);
    CappedIsAShare(w, pulled, Cap(o));
    CeilingOnlyBrakesClimbs(Capped(w, pulled, Cap(o)).y, b.at.y - w.height(b.at.x) - BIRD_RADIUS);
  }

  /** A hop starts from the bloom, at one climbing speed, with the clock at zero and the old apex. */
  lemma HopStart(w: World, b: Bird, f: Frame)
    requires Measures(w) && Playable(f) && b.v.x >= 0.0 && HopsOff(w, b, f)
    ensures var r := Next(w, b, f);
      PadAt(w, r.at.x).Some? && r.at.y == w.height(PadAt(w, r.at.x).value) + BIRD_RADIUS + HOP &&
      r.v.y == 30.0 && !r.grounded &&
      r.air.apexY >= b.air.apexY && (b.grounded ==> r.air.apexY == b.air.apexY)
  {
    var a := Entering(b, f);
    WashSafe(w, a, f.o, f.dt);
    FinishSafe(w, Wash(w, a, f.o, f.dt), f.dt);
  }

  lemma HopClimbs(w: World, r: Bird, g: Frame)
    requires Measures(w) && Playable(g) && Glides(w, r, g) && LeftToClimb(g) && r.v.y == 30.0
    ensures r.at.y <= Next(w, r, g).at.y <= r.at.y + 30.0 * g.dt
  {
    var a := Entering(r, g);
    FirstClimb(w, Begin(a), g.o, g.dt);
    GlideIsFlight(w, a, g.o, g.dt);
    var vy := FlightVelocity(w, Begin(a), g.o, g.dt).y;
    ProductWithin(vy, 30.0, g.dt, g.dt);
  }

  /** One step up from its start the apex is right at each moment exactly when it is right at the first. */
  lemma ApexAfterAStep(ms: seq<Moment>)
    requires |ms| > 1 && Path(ms) && ms[0].y <= ms[1].y
    ensures (forall k :: 1 <= k < |ms| ==> ApexIsHighest(ms, k)) <==> ms[0].apexY <= ms[1].y
  {
    PathApex(ms, 1);
    if ms[0].apexY <= ms[1].y {
      forall k | 1 <= k < |ms| ensures ApexIsHighest(ms, k) {
        PathApex(ms, k);
      }
    } else {
      assert !ApexIsHighest(ms, 1);
    }
  }

  /**
   * A bloom does not reset `apexY`: from the first step of the hop on it is the flight's own exactly
   * when the older apex is no higher than that step, which the bloom and the first climb settle.
   */
  lemma {:induction false} ApexOffABloom(w: World, b: Bird, f: Frame, fs: seq<Frame>)
    requires Measures(w) && Playable(f) && AllPlayable(fs) && b.v.x >= 0.0 && HopsOff(w, b, f)
    requires fs != [] && LeftToClimb(fs[0]) && Aloft(w, Next(w, b, f), fs)
    ensures var r := Next(w, b, f);
      var ms := Moments(w, r, fs);
      var pad := PadAt(w, r.at.x);
      pad.Some? && ms[0].y == w.height(pad.value) + BIRD_RADIUS + HOP &&
      ms[0].y <= ms[1].y <= ms[0].y + 30.0 * fs[0].dt &&
      ((forall k :: 1 <= k < |ms| ==> ApexIsHighest(ms, k)) <==> r.air.apexY <= ms[1].y)
  {
    var r := Next(w, b, f);
    HopStart(w, b, f);
    HopClimbs(w, r, fs[0]);
    AloftIsPath(w, r, fs);
    ApexAfterAStep(Moments(w, r, fs));
  }

  /* ---------------------------------------------- a run in which the apex is wrong */

  const GENTLE := 0.05

  /** A run's start: on the ground at 64, where the apex is too. */
  function Start(w: World): (b: Bird) {
    Bird(
      Place(64.0, Surface(w, 64.0)), Velocity(11.0, 0.0), false, Air(0.0, Surface(w, 64.0)),
      false, false, false, 0.0, 0.0, Report(false, false, false, 0.0, 0.0, 0.0, 1.0, 1.0))
  }

  const DIVE := Opts(true, false, 1.0, false, false, None, None, None)

  predicate Dives(f: Frame) {
    f == Frame(DIVE, false, None, TICK)
  }

  /** On the ground short of the bloom, its apex still the start's. */
  predicate Carrying(w: World, b: Bird) {
    && b.grounded && b.at.y == Surface(w, b.at.x) && b.at.x < 296.6
    && !b.asleep && b.bounceCd == 0.0 && b.air.apexY == Surface(w, 64.0)
  }

  lemma DivePulled(speed: real, airTime: real)
    requires 0.0 <= speed <= 43.0
    ensures var v := Pulled(DIVE, Velocity(11.0, 0.0), speed, true, airTime, TICK);
      10.9 <= v.x <= 11.0 && -0.8 <= v.y <= -0.79
  {
    var k := Decay(DIVE, speed, true, TICK);
    assert 0.999 <= k <= 1.0;
    assert Sink(DIVE, 0.0, true, TICK) == 0.8;
  }

  lemma StartFlight(w: World, b: Bird)
    requires Measures(w) && w == Straight(GENTLE, w.hyp) && b == Begin(Start(w))
    ensures var r := Fly(w, b, DIVE, TICK);
      64.0 <= r.at.x <= 65.0 && r.at.y <= Surface(w, r.at.x) && r.at.y <= Surface(w, 64.0)
  {
    SlowEnough(w, b.v, 108.0);
    assert Speed(w, b.v) >= 0.0 by {
      assert IsLength(w.hyp(b.v.x, b.v.y), b.v.x, b.v.y);
    }
    DivePulled(Max(0.001, Speed(w, b.v)), b.air.time);
    SlowEnough(w, Pulled(DIVE, b.v, Max(0.001, Speed(w, b.v)), true, b.air.time, TICK), 108.0);
    var v := FlightVelocity(w, b, DIVE, TICK);
    assert 10.9 <= v.x <= 11.0 && -0.8 <= v.y <= -0.79;
  }

  /** Diving at the start lands the bird at once. */
  lemma StartLands(w: World, b: Bird, f: Frame)
    requires Measures(w) && w == Straight(GENTLE, w.hyp) && b == Start(w) && Dives(f)
    ensures Carrying(w, Next(w, b, f)) && Next(w, b, f).v.x >= 0.0
  {
    UndisturbedNext(w, b, f);
    StartFlight(w, Begin(b));
    StepGoesForward(w, b, f.o, f.dt);
    StraightBloom(GENTLE, w.hyp, Fly(w, Begin(b), f.o, f.dt).at.x);
  }

  lemma GentleShape(w: World, x: real)
    requires Measures(w) && w == Straight(GENTLE, w.hyp)
    ensures TangentX(w, x) >= 0.9 && CurvatureAt(w, x) == 0.0
  {
    StraightSlope(GENTLE, w.hyp, x);
    var h := w.hyp(1.0, SlopeAt(w, x));
    assert IsLength(h, 1.0, -GENTLE);
    SquareOrder(h, 1.1);
    LengthAtLeastOne(h, -GENTLE);
    ProductWithin(TangentX(w, x), Max(TangentX(w, x), 0.9), h, 1.1);
    assert TangentX(w, x) * h == 1.0;
    assert w.height(x - 1.1) - 2.0 * w.height(x) + w.height(x + 1.1) == 0.0;
  }

  /** The ground does not curve, so the bird stays on it and gets on. */
  lemma GentleCarve(w: World, b: Bird, f: Frame)
    requires Measures(w) && w == Straight(GENTLE, w.hyp) && Plain(f) && Carrying(w, b)
    ensures var r := Carve(w, b, f.o, f.dt);
      r.grounded && b.at.x + 0.04 <= r.at.x <= b.at.x + 0.9 && r.at.y == Surface(w, r.at.x) &&
      r == b.(at := r.at, v := r.v)
  {
    var s := CarvingSpeed(w, b.at.x, b.v, false, 108.0, TICK);
    CarvingSpeedInRange(w, b.at.x, b.v, false, 108.0, TICK);
    GentleShape(w, b.at.x);
    ProductWithin(6.0, s, 0.9, TangentX(w, b.at.x));
    ProductWithin(s, 108.0, TangentX(w, b.at.x), 1.0);
    GentleShape(w, RideTo(w, b.at.x, s, TICK));
  }

  lemma GentleRoll(w: World, b: Bird, f: Frame)
    requires Measures(w) && w == Straight(GENTLE, w.hyp) && Plain(f) && Carrying(w, b)
    ensures var r := Next(w, b, f);
      r.at.x >= b.at.x + 0.04 && (HopsOff(w, b, f) || Carrying(w, r))
  {
    UndisturbedNext(w, b, f);
    GentleCarve(w, Begin(b), f);
    StraightBloom(GENTLE, w.hyp, Carve(w, Begin(b), f.o, f.dt).at.x);
  }

  /** The bird rolls on until a bloom throws it. */
  lemma {:induction false} RollsToTheBloom(w: World, b: Bird, f: Frame) returns (fs: seq<Frame>)
    requires Measures(w) && w == Straight(GENTLE, w.hyp) && Plain(f) && Carrying(w, b) && b.v.x >= 0.0
    ensures AllPlayable(fs) && forall i :: 0 <= i < |fs| ==> fs[i] == f
    ensures Carrying(w, Run(w, b, fs)) && HopsOff(w, Run(w, b, fs), f)
    decreases ((297.0 - b.at.x) * 25.0).Floor
  {
    if HopsOff(w, b, f) {
      fs := [];
    } else {
      GentleRoll(w, b, f);
      NextIsSafe(w, b, f);
      var rest := RollsToTheBloom(w, Next(w, b, f), f);
      fs := [f] + rest;
      RunAfter(w, b, f, rest);
    }
  }

  lemma GentleHop(w: World, e: Bird, f: Frame)
    requires Measures(w) && w == Straight(GENTLE, w.hyp) && Plain(f) && Carrying(w, e) && HopsOff(w, e, f)
    requires e.v.x >= 0.0
    ensures var r := Next(w, e, f);
      296.6 <= r.at.x && r.at.y == w.height(300.0) + BIRD_RADIUS + HOP && r.v.y == 30.0 && r.v.x >= 0.0 &&
      !r.grounded && !r.asleep && r.air.apexY == Surface(w, 64.0)
  {
    HopStart(w, e, f);
    NextIsSafe(w, e, f);
    StraightBloom(GENTLE, w.hyp, Next(w, e, f).at.x);
  }

  lemma GentleClimb(w: World, r: Bird, f: Frame)
    requires Measures(w) && w == Straight(GENTLE, w.hyp) && Plain(f) && !r.grounded && !r.asleep
    requires r.at.y == w.height(300.0) + BIRD_RADIUS + HOP && r.at.x >= 296.6 && r.v.y == 30.0 && r.v.x >= 0.0
    ensures Glides(w, r, f) && Next(w, r, f).air.apexY >= r.air.apexY
  {
    UndisturbedNext(w, r, f);
    FirstClimb(w, Begin(r), f.o, f.dt);
    FlySafe(w, Begin(r), f.o, f.dt);
    var flown := Fly(w, Begin(r), f.o, f.dt);
    assert flown.at.y > Surface(w, flown.at.x);
  }

  /** After the run `fs` the bird hops, and then its apex is ten metres above anything the hop has reached. */
  ghost predicate LeavesStaleApex(w: World, b: Bird, f: Frame, fs: seq<Frame>)
    requires Measures(w) && Playable(f) && AllPlayable(fs)
  {
    var e := Run(w, b, fs);
    var r := Next(w, e, f);
    HopsOff(w, e, f) && Glides(w, r, f) &&
    r.at.y <= Next(w, r, f).at.y < Next(w, r, f).air.apexY - 10.0 &&
    !ApexIsHighest(Moments(w, r, [f]), 1)
  }

  /** One dive at the start, and plain steps from there. */
  predicate DivesThenGlides(fs: seq<Frame>, f: Frame) {
    fs != [] && Dives(fs[0]) && forall i :: 1 <= i < |fs| ==> fs[i] == f
  }

  /**
   * A run in which the apex is wrong: it starts high, lands, rolls down a gentle hill and hops off a
   * bloom whose rim is low.
   */
  lemma StaleApex(w: World, b: Bird, f: Frame)
    requires Measures(w) && w == Straight(GENTLE, w.hyp) && b == Start(w) && Plain(f)
    ensures Planted(w) && LowRims(w)
    ensures exists fs :: DivesThenGlides(fs, f) && AllPlayable(fs) && LeavesStaleApex(w, b, f, fs)
  {
    StraightIsPlanted(GENTLE, w.hyp);
    StraightHasLowRims(GENTLE, w.hyp);
    var dive := Frame(DIVE, false, None, TICK);
    StartLands(w, b, dive);
    var landed := Next(w, b, dive);
    var rest := RollsToTheBloom(w, landed, f);
    StaleAfterRolling(w, landed, f, rest);
    StaleAfter(w, b, dive, f, rest);
    DiveFirst(dive, f, rest);
  }

  lemma DiveFirst(dive: Frame, f: Frame, rest: seq<Frame>)
    requires Dives(dive) && forall i :: 0 <= i < |rest| ==> rest[i] == f
    ensures DivesThenGlides([dive] + rest, f)
  {
  }

  lemma {:induction false} StaleAfterRolling(w: World, landed: Bird, f: Frame, rest: seq<Frame>)
    requires Measures(w) && w == Straight(GENTLE, w.hyp) && Plain(f) && AllPlayable(rest) && landed.v.x >= 0.0
    requires var e := Run(w, landed, rest);
      Carrying(w, e) && HopsOff(w, e, f)
    ensures LeavesStaleApex(w, landed, f, rest)
  {
    RunIsSafe(w, landed, rest);
    StaleAfterTheHop(w, Run(w, landed, rest), f);
  }

  lemma StaleAfter(w: World, b: Bird, first: Frame, f: Frame, rest: seq<Frame>)
    requires Measures(w) && Playable(first) && Playable(f) && AllPlayable(rest)
    requires LeavesStaleApex(w, Next(w, b, first), f, rest)
    ensures AllPlayable([first] + rest) && LeavesStaleApex(w, b, f, [first] + rest)
  {
    RunAfter(w, b, first, rest);
  }

  lemma {:induction false} RunAfter(w: World, b: Bird, f: Frame, fs: seq<Frame>)
    requires Measures(w) && Playable(f) && AllPlayable(fs)
    ensures AllPlayable([f] + fs) && Run(w, b, [f] + fs) == Run(w, Next(w, b, f), fs)
  {
    assert ([f] + fs)[1..] == fs;
  }

  lemma {:induction false} StaleAfterTheHop(w: World, e: Bird, f: Frame)
    requires Measures(w) && w == Straight(GENTLE, w.hyp) && Plain(f)
    requires Carrying(w, e) && e.v.x >= 0.0 && HopsOff(w, e, f)
    ensures var r := Next(w, e, f);
      Glides(w, r, f) &&
      r.at.y <= Next(w, r, f).at.y < Next(w, r, f).air.apexY - 10.0 &&
      !ApexIsHighest(Moments(w, r, [f]), 1)
  {
    var r := Next(w, e, f);
    GentleHop(w, e, f);
    GentleClimb(w, r, f);
    HopClimbs(w, r, f);
    ApexAfterHop(w, r, f, [f]);
  }

  lemma {:induction false} ApexAfterHop(w: World, r: Bird, f: Frame, fs: seq<Frame>)
    requires Measures(w) && Playable(f) && fs == [f] && Glides(w, r, f)
    requires r.at.y <= Next(w, r, f).at.y < Next(w, r, f).air.apexY
    ensures !ApexIsHighest(Moments(w, r, fs), 1)
  {
    var ms := Moments(w, r, fs);
    assert fs[1..] == [];
    assert ms[1] == MomentOf(Next(w, r, f));
  }
}
