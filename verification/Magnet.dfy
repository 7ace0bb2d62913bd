/** What moves in a frame, and the magnet (src/game/Collectibles.ts). */
module Magnet {
  import opened FlightPhysics
  import opened SlotPools
  import opened Collectibles
  import Terrain

  /** `hyp` is the length of the vector it is given. */
  ghost predicate Lengths(hyp: (real, real) -> real) {
    forall a: real, b: real :: Terrain.IsLength(hyp(a, b), a, b)
  }

  lemma LengthsMeasure(hyp: (real, real) -> real)
    requires Lengths(hyp)
    ensures Measures(hyp)
  {
    forall a: real, b: real ensures hyp(a, b) >= Abs(a) {
      assert Terrain.IsLength(hyp(a, b), a, b);
      Terrain.NonNegativeSquare(b);
      SquareOrder(Abs(a), hyp(a, b));
    }
  }

  /** How far a record is from the bird. */
  function Away(b: Flyer, e: Entry): (d: real) {
    b.hyp(b.x - e.x, b.y - e.y)
  }

  /** On the line from the bird through where the record was. */
  predicate InLine(b: Flyer, e: Entry, r: Entry) {
    (r.x - e.x) * (b.y - e.y) == (r.y - e.y) * (b.x - e.x)
  }

  /** What one frame makes of a coin, a ring, a balloon. */
  function CoinAfter(b: Flyer, e: Entry): (r: Entry) { After(RulesFor(b).coins, e) }

  function CoinFate(b: Flyer, e: Entry): (f: Fate) { FateOf(RulesFor(b).coins, e) }

  /* ------------------------------------------------------------------- one frame */

  lemma Quotients(a: real, d: real, p: real, s: real)
    requires d > 0.0 && s == p / d
    ensures a / d * p == s * a
  {
    var q := a / d;
    assert q * d == a && s * d == p;
    assert q * (s * d) == s * (q * d);
  }

  /** A share `s` of a vector of length `d`, taken off, leaves a vector along it of the remaining length. */
  lemma Shares(a: real, b: real, d: real, p: real, s: real)
    requires d * d == a * a + b * b && s * d == p
    ensures var u, v := a - s * a, b - s * b;
      u * u + v * v == (d - p) * (d - p) && s * a * b == s * b * a
  {
    var k := 1.0 - s;
    calc {
      (a - s * a) * (a - s * a) + (b - s * b) * (b - s * b);
      { Terrain.ScaledSquares(k, a, b); assert k * a == a - s * a && k * b == b - s * b; }
      (k * k) * (a * a + b * b);
      (k * d) * (k * d);
      { assert k * d == d - p; }
      (d - p) * (d - p);
    }
  }

  /** How far a coin is drawn from: 15 m by the magnet at its strength, else 1.7; and how fast: 52 m/s, else 18. */
  function Radius(b: Flyer): (r: real) { if b.magnet then 15.0 * b.scale else 1.7 }

  function Strength(b: Flyer): (v: real) { if b.magnet then 52.0 * b.scale else 18.0 }

  lemma DrawnPlace(b: Flyer, e: Entry, s: real)
    requires CoinFate(b, e) != Leaves && 0.01 < Away(b, e) < Radius(b) && s == Strength(b) * b.dt / Away(b, e)
    ensures var r := CoinAfter(b, e);
      r.x == e.x + s * (b.x - e.x) && r.y == e.y + s * (b.y - e.y)
  {
    var d, p := Away(b, e), Strength(b) * b.dt;
    Regrouped((b.x - e.x) / d, Strength(b), b.dt);
    Regrouped((b.y - e.y) / d, Strength(b), b.dt);
    Quotients(b.x - e.x, d, p, s);
    Quotients(b.y - e.y, d, p, s);
  }

  lemma AwayFrom(b: Flyer, r: Entry, u: real, v: real, t: real)
    requires Lengths(b.hyp) && b.x - r.x == u && b.y - r.y == v && u * u + v * v == t * t
    ensures Away(b, r) == Abs(t)
  {
    assert Terrain.IsLength(b.hyp(u, v), u, v);
    assert Abs(t) * Abs(t) == t * t;
    SquareEqual(Away(b, r), Abs(t));
  }

  /**
   * A coin in reach of the pull, taken or not, ends the frame on its line to the bird, nearer by the
   * pull's strength, until it would overshoot.
   */
  lemma PullDraws(b: Flyer, e: Entry)
    requires Lengths(b.hyp) && CoinFate(b, e) != Leaves && 0.01 < Away(b, e) < Radius(b)
    ensures var r := CoinAfter(b, e);
      InLine(b, e, r) && Away(b, r) == Abs(Away(b, e) - Strength(b) * b.dt)
  {
    var s := Strength(b) * b.dt / Away(b, e);
    DrawnPlace(b, e, s);
    MovedBy(b, e, CoinAfter(b, e), s, Strength(b) * b.dt);
  }

  /** The magnet draws every coin in its radius that stays. */
  lemma MagnetDraws(b: Flyer, e: Entry)
    requires Lengths(b.hyp) && b.magnet && CoinFate(b, e) == Stays && Away(b, e) < 15.0 * b.scale
    ensures var r := CoinAfter(b, e);
      !r.taken && InLine(b, e, r) && Away(b, r) == Abs(Away(b, e) - 52.0 * b.scale * b.dt)
  {
    NotNearer(b, e);
    PullDraws(b, e);
  }

  lemma MovedBy(b: Flyer, e: Entry, r: Entry, s: real, p: real)
    requires Lengths(b.hyp) && r.x == e.x + s * (b.x - e.x) && r.y == e.y + s * (b.y - e.y) && s * Away(b, e) == p
    ensures InLine(b, e, r) && Away(b, r) == Abs(Away(b, e) - p)
  {
    var a, c, d := b.x - e.x, b.y - e.y, Away(b, e);
    assert Terrain.IsLength(b.hyp(a, c), a, c);
    Shares(a, c, d, p, s);
    Moved(b, e, r, s * a, s * c, d - p);
  }

  lemma Moved(b: Flyer, e: Entry, r: Entry, dx: real, dy: real, t: real)
    requires Lengths(b.hyp) && r.x == e.x + dx && r.y == e.y + dy && dx * (b.y - e.y) == dy * (b.x - e.x)
    requires (b.x - e.x - dx) * (b.x - e.x - dx) + (b.y - e.y - dy) * (b.y - e.y - dy) == t * t
    ensures InLine(b, e, r) && Away(b, r) == Abs(t)
  {
    assert r.x - e.x == dx && r.y - e.y == dy;
    AwayFrom(b, r, b.x - e.x - dx, b.y - e.y - dy, t);
  }

  lemma Regrouped(q: real, pull: real, dt: real)
    ensures q * pull * dt == q * (pull * dt)
  {
  }

  /** Out of the pull's radius, or all but at the bird, a coin does not move. */
  lemma OthersStand(b: Flyer, e: Entry)
    requires CoinFate(b, e) != Leaves && (Away(b, e) <= 0.01 || Away(b, e) >= Radius(b))
    ensures CoinAfter(b, e) == e.(taken := CoinFate(b, e) == Hit)
  {
  }

  /** Coins are taken within 1.7 m, gems within 2.4; without a magnet none that stays moves. */
  lemma TakenWithin(b: Flyer, e: Entry)
    requires Lengths(b.hyp)
    ensures CoinFate(b, e) == Hit <==> !e.taken && Away(b, e) < if e.gem then 2.4 else 1.7
    ensures !b.magnet && CoinFate(b, e) == Stays ==> CoinAfter(b, e) == e
  {
    LengthsMeasure(b.hyp);
    CoinTakenExactlyInReach(b.x, b.y, b.dt, b.magnet, b.scale, b.hyp, e);
  }

  /** What a frame does not take or draw keeps its kind, slot and number, and a hit is taken. */
  lemma OnlyPlaceAndTaking(b: Flyer, e: Entry)
    ensures var r := CoinAfter(b, e);
      r == e.(x := r.x, y := r.y, taken := r.taken) && (r.taken <==> CoinFate(b, e) != Stays)
  {
  }

  /** A coin is left behind exactly when it was taken already or lies more than 30 m back. */
  lemma CoinLeftBehindExactly(b: Flyer, e: Entry)
    ensures CoinFate(b, e) == Leaves <==> e.taken || e.x < b.x - 30.0
  {
  }

  /** Rings stand still, are left behind after 40 m, and are threaded at their plane within 4 m of the centre. */
  lemma RingsStand(b: Flyer, e: Entry)
    ensures var r := After(RulesFor(b).rings, e);
      var f := FateOf(RulesFor(b).rings, e);
      r.x == e.x && r.y == e.y && (f == Leaves <==> e.taken || e.x < b.x - 40.0) &&
      (f == Hit <==> !e.taken && Abs(b.x - e.x) < 2.2 && Abs(b.y - e.y) < 4.0)
  {
  }

  /** A balloon that is not left behind drifts level, and is popped exactly within 4.4 m of where it drifted to. */
  lemma BalloonsDrift(b: Flyer, e: Entry)
    ensures var f := FateOf(RulesFor(b).balloons, e);
      var r := After(RulesFor(b).balloons, e);
      (f == Leaves <==> e.taken || e.x < b.x - 40.0) &&
      (f != Leaves ==> r.x == e.x + b.drift(e.stamp) * b.dt && r.y == e.y && (f == Hit <==> Away(b, r) < 4.4))
  {
  }

  /* ------------------------------------------------------------------- many frames */

  /** The coin after `n` frames with the bird still, as far as they go before it is taken. */
  function Drawn(b: Flyer, e: Entry, n: nat): (r: Entry)
    decreases n
  {
    if n == 0 || CoinFate(b, e) != Stays then e else Drawn(b, CoinAfter(b, e), n - 1)
  }

  /** The magnet takes the coin in one of the first `n` frames and a next one. */
  predicate Collected(b: Flyer, e: Entry, n: nat) {
    CoinFate(b, Drawn(b, e, n)) == Hit
  }

  lemma NearIsHit(b: Flyer, e: Entry)
    requires Lengths(b.hyp) && !e.taken && Away(b, e) < 1.7
    ensures CoinFate(b, e) == Hit
  {
    LengthsMeasure(b.hyp);
    CoinTakenExactlyInReach(b.x, b.y, b.dt, b.magnet, b.scale, b.hyp, e);
  }

  /** A coin that is not behind, in the magnet's radius and not yet taken. */
  predicate Caught(b: Flyer, e: Entry) {
    !e.taken && e.x >= b.x - 30.0 && Away(b, e) < 15.0 * b.scale
  }

  /** The magnet's step is positive and cannot carry a coin across the bird out of its reach. */
  predicate SmallSteps(b: Flyer) {
    0.0 < 52.0 * b.scale * b.dt < 3.4
  }

  /** One frame takes a caught coin, or brings it nearer and keeps it caught, or brings it within reach. */
  lemma CaughtStep(b: Flyer, e: Entry)
    requires Lengths(b.hyp) && b.magnet && Caught(b, e) && SmallSteps(b) && CoinFate(b, e) == Stays
    ensures var r := CoinAfter(b, e);
      !r.taken && (Away(b, r) < 1.7 || (Caught(b, r) && Away(b, r) == Away(b, e) - 52.0 * b.scale * b.dt))
  {
    var p := 52.0 * b.scale * b.dt;
    MagnetDraws(b, e);
    NotNearer(b, e);
    var r := CoinAfter(b, e);
    if p <= Away(b, e) {
      StaysAhead(b, e, p);
    }
  }

  /** What stays is out of reach. */
  lemma NotNearer(b: Flyer, e: Entry)
    requires CoinFate(b, e) == Stays
    ensures Away(b, e) >= 1.7
  {
  }

  lemma StaysAhead(b: Flyer, e: Entry, p: real)
    requires Lengths(b.hyp) && b.magnet && Caught(b, e) && CoinFate(b, e) == Stays
    requires p == 52.0 * b.scale * b.dt && 0.0 <= p <= Away(b, e)
    ensures CoinAfter(b, e).x >= b.x - 30.0
  {
    NotNearer(b, e);
    ShareOfOne(p / Away(b, e), p, Away(b, e));
    StaysAheadBy(b, e, p / Away(b, e));
  }

  lemma StaysAheadBy(b: Flyer, e: Entry, s: real)
    requires b.magnet && Caught(b, e) && CoinFate(b, e) == Stays && 0.01 < Away(b, e)
    requires s == 52.0 * b.scale * b.dt / Away(b, e) && 0.0 <= s <= 1.0
    ensures CoinAfter(b, e).x >= b.x - 30.0
  {
    DrawnPlace(b, e, s);
    AheadAfter(CoinAfter(b, e).x, b.x, e.x, s);
  }

  lemma AheadAfter(to: real, x: real, at: real, s: real)
    requires to == at + s * (x - at) && at >= x - 30.0 && 0.0 <= s <= 1.0
    ensures to >= x - 30.0
  {
    ShareWithin(s, x - at);
    StillAhead(to, x, at, s * (x - at));
  }

  lemma StillAhead(to: real, x: real, at: real, step: real)
    requires to == at + step && at >= x - 30.0
    requires x >= at ==> step >= 0.0
    requires x <= at ==> step >= x - at
    ensures to >= x - 30.0
  {
  }

  lemma ShareOfOne(s: real, p: real, d: real)
    requires d > 0.0 && s == p / d && 0.0 <= p <= d
    ensures 0.0 <= s <= 1.0 && s * d == p
  {
    if s > 1.0 {
      Positive(s - 1.0, d);
    } else if s < 0.0 {
      Positive(-s, d);
    }
  }

  lemma ShareWithin(s: real, a: real)
    requires 0.0 <= s <= 1.0
    ensures a >= 0.0 ==> s * a >= 0.0
    ensures a <= 0.0 ==> s * a >= a
  {
    if a >= 0.0 {
      NonNegative(s, a);
    } else {
      Between(-a, s);
      assert -a * s == -(s * a);
    }
  }

  /**
   * With the bird still and the magnet on, every coin in its radius is collected, after no more frames
   * than its distance takes at the magnet's pull and one.
   */
  lemma {:induction false} MagnetCollects(b: Flyer, e: Entry, n: nat)
    requires Lengths(b.hyp) && b.magnet && Caught(b, e) && SmallSteps(b)
    requires n as real * (52.0 * b.scale * b.dt) >= Away(b, e)
    ensures Collected(b, e, n + 1)
    decreases n
  {
    var p := 52.0 * b.scale * b.dt;
    if Away(b, e) < 1.7 {
      NearIsHit(b, e);
    } else if CoinFate(b, e) == Stays {
      assert n > 0;
      var r := CoinAfter(b, e);
      CaughtStep(b, e);
      if Away(b, r) < 1.7 {
        NearIsHit(b, r);
        HitStays(b, r, n);
      } else {
        OneLess(n, p);
        MagnetCollects(b, r, n - 1);
      }
    } else {
      CoinLeftBehindExactly(b, e);
    }
  }

  lemma OneLess(n: nat, p: real)
    requires n > 0
    ensures (n - 1) as real * p == n as real * p - p
  {
  }

  lemma {:induction false} HitStays(b: Flyer, e: Entry, n: nat)
    requires CoinFate(b, e) == Hit
    ensures Drawn(b, e, n) == e
  {
  }

  /* ----------------------------------------------------------------- in the pool */

  /** One frame of the coin pool, nothing new placed. */
  function Pass(c: Caps, b: Flyer, p: Pool): (r: Pool)
    requires Sound(c, p)
    ensures Sound(c, r) && p.collected <= r.collected
  {
    SweepKeeps(c, RulesFor(b).coins, p, |p.active|);
    SweepActive(RulesFor(b).coins, p, |p.active|);
    Sweep(RulesFor(b).coins, p, |p.active|)
  }

  function Passes(c: Caps, b: Flyer, p: Pool, n: nat): (r: Pool)
    requires Sound(c, p)
    ensures p.collected <= r.collected
    decreases n
  {
    if n == 0 then p else Passes(c, b, Pass(c, b, p), n - 1)
  }

  lemma {:induction false} StayingHolds(u: Rules, es: seq<Entry>, ks: seq<nat>, k: nat)
    requires (forall i :: 0 <= i < |ks| ==> ks[i] < |es|) && k in ks
    ensures FateOf(u, es[k]) == Stays ==> k in Staying(u, es, ks)
    ensures FateOf(u, es[k]) == Hit ==> es[k].stamp in HitStamps(u, es, ks)
  {
    if k != ks[|ks| - 1] {
      assert ks == ks[..|ks| - 1] + [ks[|ks| - 1]];
      StayingHolds(u, es, ks[..|ks| - 1], k);
    }
  }

  lemma PassOn(c: Caps, b: Flyer, p: Pool, k: nat)
    requires Sound(c, p) && k in p.active
    ensures var r := Pass(c, b, p);
      k < |r.entries| && r.entries[k] == CoinAfter(b, p.entries[k]) &&
      (CoinFate(b, p.entries[k]) == Stays ==> k in r.active) &&
      (CoinFate(b, p.entries[k]) == Hit ==> p.entries[k].stamp in r.collected)
  {
    var u := RulesFor(b).coins;
    assert p.active[..|p.active|] == p.active;
    SweepActive(u, p, |p.active|);
    SweepEntries(u, p, |p.active|, k);
    StayingHolds(u, p.entries, p.active, k);
  }

  /** In the pool, whatever else it holds: the placement caught by the magnet is among those collected in time. */
  lemma {:induction false} PoolCollects(c: Caps, b: Flyer, p: Pool, k: nat, n: nat)
    requires Lengths(b.hyp) && b.magnet && SmallSteps(b) && Sound(c, p)
    requires k in p.active && !p.entries[k].taken && Collected(b, p.entries[k], n)
    ensures p.entries[k].stamp in Passes(c, b, p, n + 1).collected
    decreases n
  {
    var e := p.entries[k];
    PassOn(c, b, p, k);
    if CoinFate(b, e) == Hit {
      assert e.stamp in Pass(c, b, p).collected;
    } else {
      assert CoinFate(b, e) == Stays && n > 0;
      OnlyPlaceAndTaking(b, e);
      PoolCollects(c, b, Pass(c, b, p), k, n - 1);
    }
  }

  /** The bound on the step is sharp: a coin at 1.7 m and a step of 3.4 m swing about the bird for good. */
  lemma {:induction false} LongStepsSwing(b: Flyer, e: Entry, n: nat)
    requires Lengths(b.hyp) && b.magnet && !e.taken && !e.gem && Away(b, e) == 1.7 && 15.0 * b.scale > 1.7
    requires 52.0 * b.scale * b.dt == 3.4
    ensures !Collected(b, e, n)
    decreases n
  {
    LengthsMeasure(b.hyp);
    assert Away(b, e) >= Abs(b.x - e.x);
    assert CoinFate(b, e) == Stays;
    if n > 0 {
      MagnetDraws(b, e);
      OnlyPlaceAndTaking(b, e);
      LongStepsSwing(b, CoinAfter(b, e), n - 1);
    }
  }
}
