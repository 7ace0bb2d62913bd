/** What a step does to the speed along the ground, and when it lets go (src/game/Bird.ts). */
module Carving {
  import opened BirdRuns
  import opened BirdStep
  import opened FlightPhysics
  import opened Terrain

  /** The speed along the ground before and after a step on it. */
  function Before(w: World, b: Bird): (s: real)
    requires Measures(w)
  {
    Component(w, b.at.x, b.v)
  }

  function Later(w: World, b: Bird, o: Opts, dt: real): (s: real)
    requires Measures(w)
  {
    var r := Carve(w, b, o, dt);
    Component(w, r.at.x, r.v)
  }

  /** How far the ground falls under a bird that moves one metre along it: the sine of the slope, downwards. */
  function Fall(w: World, b: Bird): (f: real)
    requires Measures(w)
  {
    -SlopeAt(w, b.at.x) * TangentX(w, b.at.x)
  }

  /** A velocity along the ground has its size as its part along the ground, and none away from it. */
  lemma AlongIsTangent(w: World, x: real, s: real)
    requires Measures(w)
    ensures Component(w, x, Along(w, x, s)) == s && Normal(w, x, Along(w, x, s)) == 0.0
  {
    UnitTangent(w, x);
    Tangential(s, TangentX(w, x), TangentY(w, x));
  }

  lemma Tangential(s: real, p: real, q: real)
    requires p * p + q * q == 1.0
    ensures s * p * p + s * q * q == s && -(s * p) * q + s * q * p == 0.0
  {
    assert s * p * p + s * q * q == s * (p * p + q * q);
  }

  lemma LaterIs(w: World, b: Bird, o: Opts, dt: real)
    requires Measures(w)
    ensures Later(w, b, o, dt) == CarvingSpeed(w, b.at.x, b.v, o.diving && !b.asleep, Cap(o), dt)
  {
    var s := CarvingSpeed(w, b.at.x, b.v, o.diving && !b.asleep, Cap(o), dt);
    AlongIsTangent(w, RideTo(w, b.at.x, s, dt), s);
  }

  /** The gravity and the friction of a bird that holds, and of one that glides. */
  function Gravity(holding: bool): (g: real) { if holding then 88.0 else 30.0 }

  function Friction(holding: bool): (f: real) { if holding then 0.018 else 0.05 }

  /** What a ground that falls by `fall` a metre makes of the speed `c` in a step. */
  function Rolled(c: real, fall: real, holding: bool, dt: real): (s: real) {
    (c + Gravity(holding) * (fall * dt)) * (1.0 - Friction(holding) * dt)
  }

  lemma WornIsRolled(c: real, g: real, slope: real, t: real, dt: real)
    ensures c + -g * (slope * t) * dt == c + g * (-slope * t * dt)
  {
    assert -g * (slope * t) * dt == -(g * (slope * t) * dt);
    assert -slope * t * dt == -(slope * t * dt);
    assert g * (slope * t) * dt == g * (slope * t * dt);
    assert g * -(slope * t * dt) == -(g * (slope * t * dt));
  }

  lemma PullIs(w: World, b: Bird, holding: bool, dt: real)
    requires Measures(w)
    ensures Worn(Before(w, b), SlopePull(w, b.at.x, holding, dt), Rub(holding, dt)) ==
            Rolled(Before(w, b), Fall(w, b), holding, dt)
  {
    WornIsRolled(Before(w, b), Gravity(holding), SlopeAt(w, b.at.x), TangentX(w, b.at.x), dt);
  }

  /**
   * A step adds gravity times the fall, 88 held and 30 gliding, and takes the friction's share, 1.8
   * percent a second held and 5 gliding, between the recovery floor and the cap.
   */
  lemma CarvingLaw(w: World, b: Bird, o: Opts, dt: real)
    requires Measures(w)
    ensures Later(w, b, o, dt) ==
            Min(Max(6.0, Rolled(Before(w, b), Fall(w, b), o.diving && !b.asleep, dt)), Cap(o))
  {
    LaterIs(w, b, o, dt);
    PullIs(w, b, o.diving && !b.asleep, dt);
  }

  /** Level ground costs exactly the friction. */
  lemma LevelCostsFriction(w: World, b: Bird, o: Opts, dt: real)
    requires Measures(w) && SlopeAt(w, b.at.x) == 0.0 && 6.0 < Later(w, b, o, dt) < Cap(o)
    ensures Before(w, b) - Later(w, b, o, dt) == Rubbed(Before(w, b), o.diving && !b.asleep, dt)
  {
    CarvingLaw(w, b, o, dt);
    assert Fall(w, b) == 0.0;
    RolledLevel(Before(w, b), Fall(w, b), o.diving && !b.asleep, dt);
  }

  /** What the ground takes from the speed `c`: 1.8 percent a second held, 5 gliding. */
  function Rubbed(c: real, holding: bool, dt: real): (s: real) {
    c * (if holding then 0.018 else 0.05) * dt
  }

  lemma RolledLevel(c: real, fall: real, holding: bool, dt: real)
    requires fall == 0.0
    ensures c - Rolled(c, fall, holding, dt) == Rubbed(c, holding, dt)
  {
    assert Gravity(holding) * (fall * dt) == 0.0;
    Costs(c, Friction(holding), dt);
  }

  lemma Costs(c: real, f: real, dt: real)
    ensures c - c * (1.0 - f * dt) == c * f * dt
  {
  }

  /* ---------------------------------------------------------- to hold or to glide */

  /** The same options, held or not. */
  function Held(o: Opts, holding: bool): (r: Opts) { o.(diving := holding) }

  lemma HeldCap(o: Opts, holding: bool)
    ensures Cap(Held(o, holding)) == Cap(o)
  {
  }

  /** Downhill, holding never ends a step slower than gliding. */
  lemma HoldingPaysDownhill(w: World, b: Bird, o: Opts, dt: real)
    requires Measures(w) && !b.asleep && 0.0 <= dt <= 1.0 && SlopeAt(w, b.at.x) <= 0.0
    ensures Later(w, b, Held(o, true), dt) >= Later(w, b, Held(o, false), dt)
  {
    CarvingLaw(w, b, Held(o, true), dt);
    CarvingLaw(w, b, Held(o, false), dt);
    HeldCap(o, true);
    HeldCap(o, false);
    FallsForward(w, b, dt);
    HeldAtLeast(Before(w, b), Fall(w, b), dt);
  }

  lemma FallsForward(w: World, b: Bird, dt: real)
    requires Measures(w) && dt >= 0.0 && SlopeAt(w, b.at.x) <= 0.0
    ensures Fall(w, b) * dt >= 0.0
  {
    NonNegative(-SlopeAt(w, b.at.x), TangentX(w, b.at.x));
    NonNegative(Fall(w, b), dt);
  }

  lemma HeldAtLeast(c: real, fall: real, dt: real)
    requires 0.0 <= dt <= 1.0 && fall * dt >= 0.0
    ensures Max(6.0, Rolled(c, fall, true, dt)) >= Max(6.0, Rolled(c, fall, false, dt))
  {
    MoreLess(c + 88.0 * (fall * dt), c + 30.0 * (fall * dt), 1.0 - 0.018 * dt, 1.0 - 0.05 * dt);
  }

  lemma MoreLess(more: real, less: real, k: real, j: real)
    requires less <= more && 0.0 <= j <= k
    ensures less * j <= more * k || less * j <= 0.0
  {
    if less >= 0.0 {
      Monotone(less, more, k);
      Monotone(j, k, less);
      assert j * less == less * j && k * less == less * k;
    } else {
      NonNegative(-less, j);
      assert -less * j == -(less * j);
    }
  }

  /** The speed that friction saves a holding bird is no more than what its weight costs it on this climb. */
  predicate WeightOutweighs(c: real, climb: real, dt: real) {
    (c - 88.0 * (climb * dt)) * (1.0 - 0.018 * dt) <= (c - 30.0 * (climb * dt)) * (1.0 - 0.05 * dt)
  }

  /** Between floor and cap, holding costs speed exactly where weight outweighs the friction it saves. */
  lemma HoldingCostsExactly(w: World, b: Bird, o: Opts, dt: real)
    requires Measures(w) && !b.asleep
    requires 6.0 < Later(w, b, Held(o, true), dt) < Cap(o) && 6.0 < Later(w, b, Held(o, false), dt) < Cap(o)
    ensures Later(w, b, Held(o, true), dt) <= Later(w, b, Held(o, false), dt) <==>
            WeightOutweighs(Before(w, b), -Fall(w, b), dt)
  {
    CarvingLaw(w, b, Held(o, true), dt);
    CarvingLaw(w, b, Held(o, false), dt);
    HeldCap(o, true);
    HeldCap(o, false);
    OutweighsIs(Before(w, b), Fall(w, b), dt);
  }

  lemma OutweighsIs(c: real, fall: real, dt: real)
    ensures WeightOutweighs(c, -fall, dt) <==> Rolled(c, fall, true, dt) <= Rolled(c, fall, false, dt)
  {
    assert -fall * dt == -(fall * dt);
  }

  /** On a climb of 0.1 or more, and up to 150 m/s, it does. */
  lemma ClimbsAreSteepEnough(c: real, climb: real, dt: real)
    requires 0.0 <= c <= 150.0 && 0.1 <= climb <= 1.0 && 0.0 <= dt <= 0.1
    ensures WeightOutweighs(c, climb, dt)
  {
    Steep(climb, dt, climb * dt);
    Monotone(c, 150.0, dt);
    Short(climb * dt, dt, dt * (climb * dt));
    Weighs(c, climb * dt, dt, c * dt, dt * (climb * dt));
  }

  lemma Steep(climb: real, dt: real, d: real)
    requires climb >= 0.1 && dt >= 0.0 && d == climb * dt
    ensures 10.0 * d >= dt
  {
    NonNegative(climb - 0.1, dt);
  }

  lemma Short(d: real, dt: real, f: real)
    requires 0.0 <= dt <= 0.1 && d >= 0.0 && f == dt * d
    ensures f <= 0.1 * d
  {
    Monotone(dt, 0.1, d);
  }

  lemma Weighs(c: real, d: real, dt: real, e: real, f: real)
    requires e == c * dt && f == dt * d && e <= 150.0 * dt && 10.0 * d >= dt >= 0.0 && f <= 0.1 * d
    ensures (c - 88.0 * d) * (1.0 - 0.018 * dt) <= (c - 30.0 * d) * (1.0 - 0.05 * dt)
  {
    Expand(c, d, dt, e, f, 88.0, 0.018);
    Expand(c, d, dt, e, f, 30.0, 0.05);
  }

  lemma Expand(c: real, d: real, dt: real, e: real, f: real, g: real, k: real)
    requires e == c * dt && f == dt * d
    ensures (c - g * d) * (1.0 - k * dt) == c - g * d - k * e + g * k * f
  {
  }
}
