/**
 * Rated take-offs and the chain they build (src/game/LaunchSystem.ts): what one launch earns, and
 * what every run keeps.
 */
module Launches {
  import opened BirdStep
  import opened FlightPhysics
  import opened Terrain
  import opened Text

  const COMBO_GRACE := 9.0
  const LAUNCH_BOOST_GOOD := 1.02
  const LAUNCH_BOOST_GREAT := 1.07
  const LAUNCH_BOOST_PERFECT := 1.145
  const LAUNCH_COMBO_MAX := 0.09
  const LAUNCH_COMBO_STEP := 0.012
  const LAUNCH_MIN_SPEED := 26.0
  const LAUNCH_RELEASE_WINDOW := 1.35
  const RATING_GOOD := 0.42
  const RATING_GREAT := 0.68
  const RATING_PERFECT := 0.84

  datatype Rating = Miss | Good | Great | Perfect

  /** Math.atan2 and the power 0.82: any functions. */
  datatype Curves = Curves(atan2: (real, real) -> real, taper: real -> real)

  datatype Counts = Counts(combo: nat, best: nat, perfects: nat, greats: nat, goods: nat)

  /** `releaseAt` is negative when no release waits for a launch. */
  datatype Launcher = Launcher(n: Counts, comboTimer: real, releaseAt: real, wasDiving: bool)

  const FRESH := Launcher(Counts(0, 0, 0, 0, 0), 0.0, -1.0, false)

  /** A take-off as the bird reports it. */
  datatype TakeOff = TakeOff(x: real, v: Velocity, launchSpeed: real)

  datatype Result = Result(rating: Rating, score: real, boost: real, combo: nat, speed: real, ramp: real)

  function Observe(l: Launcher, diving: bool, time: real): (r: Launcher) {
    l.(releaseAt := if l.wasDiving && !diving then time else l.releaseAt, wasDiving := diving)
  }

  function Tick(l: Launcher, dt: real): (r: Launcher) {
    if l.n.combo == 0 then l
    else
      var left := l.comboTimer - dt;
      l.(comboTimer := left, n := if left <= 0.0 then l.n.(combo := 0) else l.n)
  }

  function Break(l: Launcher): (r: Launcher) {
    l.(n := l.n.(combo := 0), comboTimer := 0.0)
  }

  function ComboBoost(combo: nat): (b: real) {
    Min(LAUNCH_COMBO_MAX, combo as real * LAUNCH_COMBO_STEP)
  }

  function Probe(x: real, k: nat): (p: real) { x - 4.0 * k as real }

  /** The steepest climb, or 0, over the first `k` probes behind the bird. */
  function Ramp(w: World, x: real, k: nat): (r: real) {
    if k == 0 then 0.0 else Max(Ramp(w, x, k - 1), SlopeAt(w, Probe(x, k)))
  }

  const PROBES: nat := 9

  function Smoothstep(lo: real, hi: real, v: real): (s: real)
    requires lo < hi
  {
    var t := Clamp((v - lo) / (hi - lo), 0.0, 1.0);
    t * t * (3.0 - 2.0 * t)
  }

  function Since(l: Launcher, time: real): (s: Option<real>) {
    if l.releaseAt >= 0.0 then Some(time - l.releaseAt) else None
  }

  function ReleaseShare(c: Curves, since: real): (s: real) {
    1.0 - c.taper(Clamp(since / LAUNCH_RELEASE_WINDOW, 0.0, 1.0)) * 0.9
  }

  function Score(c: Curves, speed: real, ramp: real, since: real, angle: real): (s: real) {
    var fSpeed := Smoothstep(LAUNCH_MIN_SPEED, MAX_SPEED * 0.62, speed);
    var fRamp := Clamp(ramp / 0.72, 0.0, 1.0);
    var fAngle := 1.0 - Clamp(Abs(angle - 0.62) / 0.58, 0.0, 1.0);
    Clamp(fSpeed * 0.28 + fRamp * 0.24 + ReleaseShare(c, since) * 0.3 + fAngle * 0.18, 0.0, 1.0)
  }

  function RatingOf(score: real): (r: Rating) {
    if score >= RATING_PERFECT then Perfect
    else if score >= RATING_GREAT then Great
    else if score >= RATING_GOOD then Good
    else Miss
  }

  function BoostOf(r: Rating, combo: nat): (b: real) {
    match r
    case Perfect => LAUNCH_BOOST_PERFECT + ComboBoost(combo)
    case Great => LAUNCH_BOOST_GREAT + ComboBoost(combo) * 0.5
    case Good => LAUNCH_BOOST_GOOD
    case Miss => 1.0
  }

  function Count(n: Counts, r: Rating): (m: Counts) {
    match r
    case Perfect => n.(combo := n.combo + 1, best := NatMax(n.best, n.combo + 1), perfects := n.perfects + 1)
    case Great => n.(combo := n.combo + 1, best := NatMax(n.best, n.combo + 1), greats := n.greats + 1)
    case Good => n.(goods := n.goods + 1)
    case Miss => n.(combo := 0)
  }

  function NatMax(a: nat, b: nat): (m: nat) { if a < b then b else a }

  function TimerAfter(t: real, r: Rating): (u: real) {
    match r
    case Good => t
    case Miss => 0.0
    case _ => COMBO_GRACE
  }

  function Boosted(v: Velocity, r: Rating, boost: real, combo: nat): (u: Velocity) {
    var bonus := if r == Perfect then 7.0 + combo as real * 1.4 else if r == Great then 3.0 else 0.0;
    if boost > 1.0 then Velocity(v.x * boost, v.y * boost + bonus) else v
  }

  function LaunchSpeed(w: World, t: TakeOff): (s: real) {
    if t.launchSpeed == 0.0 then Speed(w, t.v) else t.launchSpeed
  }

  function AngleOut(c: Curves, v: Velocity): (a: real) {
    c.atan2(v.y, Max(1.0, v.x))
  }

  /** Too slow, too flat, or no release within the window: no rating is given. */
  predicate Unrated(c: Curves, speed: real, v: Velocity, since: Option<real>) {
    speed < LAUNCH_MIN_SPEED || AngleOut(c, v) <= 0.04 || since.None? || since.value > LAUNCH_RELEASE_WINDOW
  }

  function RatingFor(w: World, c: Curves, l: Launcher, t: TakeOff, time: real): (r: Option<real>) {
    var speed := LaunchSpeed(w, t);
    var since := Since(l, time);
    if Unrated(c, speed, t.v, since) then None
    else Some(Score(c, speed, Ramp(w, t.x, PROBES), since.value, AngleOut(c, t.v)))
  }

  function Evaluate(w: World, c: Curves, l: Launcher, t: TakeOff, time: real): (r: (Launcher, Result, Velocity)) {
    var score := RatingFor(w, c, l, t, time);
    var speed, ramp := LaunchSpeed(w, t), Ramp(w, t.x, PROBES);
    if score.None? then (l.(releaseAt := -1.0), Result(Miss, 0.0, 1.0, l.n.combo, speed, ramp), t.v)
    else
      var rating := RatingOf(score.value);
      var boost := BoostOf(rating, l.n.combo);
      var n := Count(l.n, rating);
      (Launcher(n, TimerAfter(l.comboTimer, rating), -1.0, l.wasDiving),
       Result(rating, score.value, boost, n.combo, speed, ramp),
       Boosted(t.v, rating, boost, n.combo))
  }

  /* -------------------------------------------------------------- one launch */

  lemma {:induction false} RampIsSteepest(w: World, x: real, k: nat)
    ensures Ramp(w, x, k) >= 0.0
    ensures forall j: nat :: 1 <= j <= k ==> SlopeAt(w, Probe(x, j)) <= Ramp(w, x, k)
    ensures Ramp(w, x, k) == 0.0 || exists j: nat :: 1 <= j <= k && SlopeAt(w, Probe(x, j)) == Ramp(w, x, k)
    ensures forall j: nat :: Probe(x, j) == x - 4.0 * j as real
  {
    if k > 0 {
      RampIsSteepest(w, x, k - 1);
    }
  }

  /** A rating is only given for a release inside the window, and every launch uses the release up. */
  lemma RatedMeansReleased(w: World, c: Curves, l: Launcher, t: TakeOff, time: real)
    ensures var (after, res, v) := Evaluate(w, c, l, t, time);
      after.releaseAt < 0.0 &&
      (res.rating != Miss ==>
         l.releaseAt >= 0.0 && time <= l.releaseAt + LAUNCH_RELEASE_WINDOW &&
         res.speed >= LAUNCH_MIN_SPEED && res.score >= RATING_GOOD) &&
      (res.rating == Miss ==> v == t.v && res.boost == 1.0)
  {
  }

  /** A launch out of reach of a rating leaves the chain as it was; a rated failure ends it. */
  lemma OnlyAScoredMissBreaks(w: World, c: Curves, l: Launcher, t: TakeOff, time: real)
    ensures var (after, res, _) := Evaluate(w, c, l, t, time);
      after.n.combo < l.n.combo <==>
      l.n.combo > 0 && RatingFor(w, c, l, t, time).Some? && RatingFor(w, c, l, t, time).value < RATING_GOOD
  {
  }

  lemma ComboBoostInRange(combo: nat)
    ensures 0.0 <= ComboBoost(combo) <= LAUNCH_COMBO_MAX
  {
  }

  /** A better score never earns less power, and no launch gains more than 23.5 percent. */
  lemma BoostGrowsWithScore(worse: real, better: real, combo: nat)
    requires worse <= better
    ensures 1.0 <= BoostOf(RatingOf(worse), combo) <= BoostOf(RatingOf(better), combo) <= 1.235
  {
    ComboBoostInRange(combo);
  }

  /** Immediate release is strongest: with a growing taper a later release never scores higher. */
  lemma LaterReleaseScoresNoHigher(c: Curves, speed: real, ramp: real, sooner: real, later: real, angle: real)
    requires forall a: real, b: real :: 0.0 <= a <= b <= 1.0 ==> c.taper(a) <= c.taper(b)
    requires sooner <= later
    ensures Score(c, speed, ramp, later, angle) <= Score(c, speed, ramp, sooner, angle)
  {
    var a := Clamp(sooner / LAUNCH_RELEASE_WINDOW, 0.0, 1.0);
    var b := Clamp(later / LAUNCH_RELEASE_WINDOW, 0.0, 1.0);
    assert c.taper(a) <= c.taper(b);
    ClampMonotone(
      Smoothstep(LAUNCH_MIN_SPEED, MAX_SPEED * 0.62, speed) * 0.28 + Clamp(ramp / 0.72, 0.0, 1.0) * 0.24,
      ReleaseShare(c, later) * 0.3, ReleaseShare(c, sooner) * 0.3,
      (1.0 - Clamp(Abs(angle - 0.62) / 0.58, 0.0, 1.0)) * 0.18);
  }

  lemma ClampMonotone(before: real, lo: real, hi: real, more: real)
    requires lo <= hi
    ensures Clamp(before + lo + more, 0.0, 1.0) <= Clamp(before + hi + more, 0.0, 1.0)
  {
  }

  /* ------------------------------------------------------------ what a launch earns */

  /** A launch is graded by its score: 0.84 is perfect, 0.68 great, 0.42 good. */
  lemma GradeLaw(w: World, c: Curves, l: Launcher, t: TakeOff, time: real)
    ensures var score := RatingFor(w, c, l, t, time);
      var rating := Evaluate(w, c, l, t, time).1.rating;
      (rating == Perfect <==> score.Some? && score.value >= 0.84) &&
      (rating == Great <==> score.Some? && 0.68 <= score.value < 0.84) &&
      (rating == Good <==> score.Some? && 0.42 <= score.value < 0.68)
  {
  }

  /** The forward speed grows by the grade's boost, and by 1.2 percent more for each link of the chain, 9 at most. */
  function Power(r: Rating, combo: nat): (b: real) {
    var chain := Min(0.09, 0.012 * combo as real);
    match r
    case Perfect => 1.145 + chain
    case Great => 1.07 + 0.5 * chain
    case Good => 1.02
    case Miss => 1.0
  }

  /** And the climb besides gains 7 m/s and 1.4 a link when perfect, 3 when great. */
  function Kick(r: Rating, chain: nat): (dv: real) {
    match r
    case Perfect => 7.0 + 1.4 * chain as real
    case Great => 3.0
    case _ => 0.0
  }

  /** The velocity, the counts and the chain of a rated launch; an unrated one changes nothing but the release. */
  lemma {:induction false} PayoutLaw(w: World, c: Curves, l: Launcher, t: TakeOff, time: real)
    ensures var (after, res, v) := Evaluate(w, c, l, t, time);
      var chain := if res.rating == Perfect || res.rating == Great then l.n.combo + 1 else l.n.combo;
      v == Velocity(
        t.v.x * Power(res.rating, l.n.combo), t.v.y * Power(res.rating, l.n.combo) + Kick(res.rating, chain)) &&
      res.boost == Power(res.rating, l.n.combo) && res.combo == after.n.combo &&
      after.n.perfects == l.n.perfects + (if res.rating == Perfect then 1 else 0) &&
      after.n.greats == l.n.greats + (if res.rating == Great then 1 else 0) &&
      after.n.goods == l.n.goods + (if res.rating == Good then 1 else 0) &&
      (res.rating != Miss ==> after.n.combo == chain) &&
      (res.rating == Perfect || res.rating == Great ==> after.comboTimer == 9.0) &&
      (res.rating == Good ==> after.comboTimer == l.comboTimer) &&
      (res.rating == Miss ==>
         if RatingFor(w, c, l, t, time).Some? then after.n.combo == 0 && after.comboTimer == 0.0
         else after.n.combo == l.n.combo && after.comboTimer == l.comboTimer) &&
      after.n.best == (if chain > l.n.combo && chain > l.n.best then chain else l.n.best) &&
      after.wasDiving == l.wasDiving && after.releaseAt == -1.0 &&
      res.speed == (if t.launchSpeed == 0.0 then Speed(w, t.v) else t.launchSpeed) && res.ramp == Ramp(w, t.x, 9) &&
      res.score == if RatingFor(w, c, l, t, time).Some? then RatingFor(w, c, l, t, time).value else 0.0
  {
  }

  /** A rating needs 26 m/s, a rising path, and a release no more than 1.35 s old. */
  lemma RatedExactly(w: World, c: Curves, l: Launcher, t: TakeOff, time: real)
    ensures RatingFor(w, c, l, t, time).Some? <==>
            (if t.launchSpeed == 0.0 then Speed(w, t.v) else t.launchSpeed) >= 26.0 &&
            c.atan2(t.v.y, Max(1.0, t.v.x)) > 0.04 && l.releaseAt >= 0.0 && time - l.releaseAt <= 1.35
  {
  }

  /** Letting go of a dive notes the time; nothing else does, and the chain is left alone. */
  lemma ReleaseLaw(l: Launcher, diving: bool, time: real)
    ensures var r := Observe(l, diving, time);
      r.releaseAt == (if l.wasDiving && !diving then time else l.releaseAt) && r.wasDiving == diving &&
      r.n == l.n && r.comboTimer == l.comboTimer
  {
  }

  /** A broken chain is gone, and its time with it; no other count changes. */
  lemma BreakLaw(l: Launcher)
    ensures Break(l) == l.(n := l.n.(combo := 0), comboTimer := 0.0)
  {
  }

  /** Within its time a release loses nine tenths of its worth along the taper. */
  lemma ReleaseWorth(c: Curves, since: real)
    requires 0.0 <= since <= 1.35
    ensures ReleaseShare(c, since) == 1.0 - 0.9 * c.taper(since / 1.35)
  {
    assert 0.0 <= since / 1.35 <= 1.0;
  }

  /** A factor that is all or nothing. */
  function Full(part: real, full: bool): (p: real) { if full then part else 0.0 }

  /**
   * What each part of a launch is worth: speed 28 percent (none at 26 m/s, all from 66.96 on), ramp 24 (all
   * from 0.72), angle 18 (all at 0.62, none from 0.58 away), and the release 30 at once and 3 at the end of its time.
   */
  lemma ScoreCorners(
      c: Curves, fast: bool, steep: bool, prompt: bool, aimed: bool,
      speed: real, ramp: real, since: real, angle: real)
    requires c.taper(0.0) == 0.0 && c.taper(1.0) == 1.0
    requires if fast then speed >= 66.96 else speed <= 26.0
    requires if steep then ramp >= 0.72 else ramp <= 0.0
    requires if prompt then since <= 0.0 else since >= 1.35
    requires if aimed then angle == 0.62 else Abs(angle - 0.62) >= 0.58
    ensures Score(c, speed, ramp, since, angle) ==
            Full(0.28, fast) + Full(0.24, steep) + Full(0.18, aimed) + 0.03 + Full(0.27, prompt)
  {
    assert MAX_SPEED * 0.62 == 66.96;
    SmoothEnds(26.0, 66.96, speed);
    assert Clamp(ramp / 0.72, 0.0, 1.0) == if steep then 1.0 else 0.0;
    assert Clamp(since / 1.35, 0.0, 1.0) == if prompt then 0.0 else 1.0;
    assert Clamp(Abs(angle - 0.62) / 0.58, 0.0, 1.0) == if aimed then 0.0 else 1.0;
  }

  lemma SmoothEnds(lo: real, hi: real, v: real)
    requires lo < hi
    ensures v <= lo ==> Smoothstep(lo, hi, v) == 0.0
    ensures v >= hi ==> Smoothstep(lo, hi, v) == 1.0
    ensures v == (lo + hi) / 2.0 ==> Smoothstep(lo, hi, v) == 0.5
  {
    SmoothShare(v - lo, hi - lo);
  }

  lemma SmoothShare(a: real, d: real)
    requires d > 0.0
    ensures a <= 0.0 ==> a / d <= 0.0
    ensures a >= d ==> a / d >= 1.0
    ensures a == d / 2.0 ==> a / d == 0.5
  {
    if a <= 0.0 {
      QuotientOrder(a, 0.0, d);
    } else if a >= d {
      QuotientOrder(d, a, d);
    } else if a == d / 2.0 {
      HalfShare(d);
    }
  }

  lemma QuotientOrder(a: real, b: real, d: real)
    requires a <= b && d > 0.0
    ensures a / d <= b / d
  {
  }

  lemma HalfShare(d: real)
    requires d > 0.0
    ensures d / 2.0 / d == 0.5
  {
    var t := d / 2.0 / d;
    assert t * d == d / 2.0;
    assert (t - 0.5) * d == 0.0;
  }

  /** A faster, steeper or better aimed launch never scores lower. */
  lemma BetterScoresNoLower(
      c: Curves, since: real, slow: real, fast: real, low: real, high: real, far: real, near: real)
    requires slow <= fast && low <= high && Abs(near - 0.62) <= Abs(far - 0.62)
    ensures Score(c, slow, low, since, far) <= Score(c, fast, high, since, near)
  {
    assert MAX_SPEED * 0.62 == 66.96;
    SmoothGrows(slow, fast);
    PartsGrow(low, high, Abs(far - 0.62), Abs(near - 0.62));
  }

  lemma PartsGrow(low: real, high: real, far: real, near: real)
    requires low <= high && near <= far
    ensures Clamp(low / 0.72, 0.0, 1.0) <= Clamp(high / 0.72, 0.0, 1.0)
    ensures Clamp(near / 0.58, 0.0, 1.0) <= Clamp(far / 0.58, 0.0, 1.0)
  {
  }

  lemma SmoothGrows(slow: real, fast: real)
    requires slow <= fast
    ensures Smoothstep(LAUNCH_MIN_SPEED, MAX_SPEED * 0.62, slow) <= Smoothstep(LAUNCH_MIN_SPEED, MAX_SPEED * 0.62, fast)
  {
    var lo, hi := LAUNCH_MIN_SPEED, MAX_SPEED * 0.62;
    CubicGrows(Clamp((slow - lo) / (hi - lo), 0.0, 1.0), Clamp((fast - lo) / (hi - lo), 0.0, 1.0));
  }

  lemma CubicGrows(a: real, b: real)
    requires 0.0 <= a <= b <= 1.0
    ensures a * a * (3.0 - 2.0 * a) <= b * b * (3.0 - 2.0 * b)
  {
    var s := a + b;
    NonNegative(a, 1.0 - a);
    NonNegative(b, 1.0 - b);
    NonNegative(a, 1.0 - b);
    NonNegative(b, 1.0 - a);
    var rest := 3.0 * s - 2.0 * (a * a + a * b + b * b);
    assert rest >= 0.0 by {
      assert a * (1.0 - a) == a - a * a && b * (1.0 - b) == b - b * b;
      assert a * (1.0 - b) == a - a * b && b * (1.0 - a) == b - b * a;
    }
    NonNegative(b - a, rest);
    Difference(a, b, rest);
  }

  lemma Difference(a: real, b: real, rest: real)
    requires rest == 3.0 * (a + b) - 2.0 * (a * a + a * b + b * b)
    ensures b * b * (3.0 - 2.0 * b) - a * a * (3.0 - 2.0 * a) == (b - a) * rest
  {
  }

  /* -------------------------------------------------------------------- runs */

  datatype Event =
    | Input(diving: bool, time: real)
    | Ticked(dt: real)
    | Broken
    | Launched(t: TakeOff, at: real)

  function Step(w: World, c: Curves, l: Launcher, e: Event): (r: Launcher) {
    match e
    case Input(diving, time) => Observe(l, diving, time)
    case Ticked(dt) => Tick(l, dt)
    case Broken => Break(l)
    case Launched(t, at) => Evaluate(w, c, l, t, at).0
  }

  function Run(w: World, c: Curves, l: Launcher, es: seq<Event>): (r: Launcher)
    decreases |es|
  {
    if es == [] then l else Run(w, c, Step(w, c, l, es[0]), es[1..])
  }

  function Rated(n: Counts): (k: nat) {
    n.perfects + n.greats + n.goods
  }

  function Pending(l: Launcher): (k: nat) {
    if l.releaseAt >= 0.0 then 1 else 0
  }

  /** How often a held dive is let go. */
  function Releases(wasDiving: bool, es: seq<Event>): (k: nat)
    decreases |es|
  {
    if es == [] then 0
    else if es[0].Input? then (if wasDiving && !es[0].diving then 1 else 0) + Releases(es[0].diving, es[1..])
    else Releases(wasDiving, es[1..])
  }

  /** The chain never outgrows its record, nor the record the launches that built it; a live chain has time left. */
  predicate Sound(l: Launcher) {
    && l.n.combo <= l.n.best <= l.n.perfects + l.n.greats
    && (l.n.combo > 0 ==> l.comboTimer > 0.0)
    && l.comboTimer <= COMBO_GRACE
  }

  predicate ForwardTicks(es: seq<Event>) {
    forall i :: 0 <= i < |es| && es[i].Ticked? ==> es[i].dt >= 0.0
  }

  lemma StepKeepsSound(w: World, c: Curves, l: Launcher, e: Event)
    requires Sound(l) && (e.Ticked? ==> e.dt >= 0.0)
    ensures Sound(Step(w, c, l, e))
  {
  }

  lemma StepSpendsReleases(w: World, c: Curves, l: Launcher, e: Event)
    ensures var r := Step(w, c, l, e);
      var edge := if e.Input? && l.wasDiving && !e.diving then 1 else 0;
      Rated(r.n) + Pending(r) <= Rated(l.n) + Pending(l) + edge && Rated(r.n) >= Rated(l.n) &&
      r.wasDiving == (if e.Input? then e.diving else l.wasDiving)
  {
  }

  /** What one take-off keeps, whatever the state it finds. */
  lemma StepKeeps(w: World, c: Curves, l: Launcher, t: TakeOff, time: real)
    ensures var r := Evaluate(w, c, l, t, time).0;
      Rated(r.n) <= Rated(l.n) + Pending(l) && (Sound(l) ==> Sound(r))
  {
    StepSpendsReleases(w, c, l, Launched(t, time));
    if Sound(l) {
      StepKeepsSound(w, c, l, Launched(t, time));
    }
  }

  /** In every run the chain stays sound. */
  lemma {:induction false} ChainIsSound(w: World, c: Curves, l: Launcher, es: seq<Event>)
    requires Sound(l) && ForwardTicks(es)
    ensures Sound(Run(w, c, l, es))
    decreases |es|
  {
    if es != [] {
      StepKeepsSound(w, c, l, es[0]);
      ChainIsSound(w, c, Step(w, c, l, es[0]), es[1..]);
    }
  }

  /**
   * Over any stretch of a run, rated launches are no more than releases, with one that may already
   * wait at its start.
   */
  lemma {:induction false} EachRatingSpendsARelease(w: World, c: Curves, l: Launcher, es: seq<Event>)
    ensures var r := Run(w, c, l, es);
      Rated(r.n) + Pending(r) <= Rated(l.n) + Pending(l) + Releases(l.wasDiving, es)
    decreases |es|
  {
    if es != [] {
      StepSpendsReleases(w, c, l, es[0]);
      EachRatingSpendsARelease(w, c, Step(w, c, l, es[0]), es[1..]);
    }
  }

  /** From a fresh start: no more rated launches than releases. */
  lemma {:induction false} FreshRunBound(w: World, c: Curves, es: seq<Event>)
    requires ForwardTicks(es)
    ensures var r := Run(w, c, FRESH, es);
      Sound(r) && Rated(r.n) <= Releases(false, es)
  {
    ChainIsSound(w, c, FRESH, es);
    EachRatingSpendsARelease(w, c, FRESH, es);
  }

  function Elapsed(es: seq<Event>): (t: real)
    decreases |es|
  {
    if es == [] then 0.0 else (if es[0].Ticked? then es[0].dt else 0.0) + Elapsed(es[1..])
  }

  predicate Quiet(es: seq<Event>) {
    forall i :: 0 <= i < |es| ==> es[i].Input? || (es[i].Ticked? && es[i].dt >= 0.0)
  }

  /** With no launch and no break, a chain lives exactly until its time has run out. */
  lemma {:induction false} ChainExpires(w: World, c: Curves, l: Launcher, es: seq<Event>)
    requires Quiet(es) && l.n.combo > 0 && l.comboTimer > 0.0
    ensures Run(w, c, l, es).n.combo == if Elapsed(es) < l.comboTimer then l.n.combo else 0
    decreases |es|
  {
    if es != [] {
      var r := Step(w, c, l, es[0]);
      ElapsedForward(es[1..]);
      if r.n.combo > 0 {
        ChainExpires(w, c, r, es[1..]);
      } else {
        NoChainStays(w, c, r, es[1..]);
      }
    }
  }

  lemma {:induction false} NoChainStays(w: World, c: Curves, l: Launcher, es: seq<Event>)
    requires Quiet(es) && l.n.combo == 0
    ensures Run(w, c, l, es).n.combo == 0
    decreases |es|
  {
    if es != [] {
      NoChainStays(w, c, Step(w, c, l, es[0]), es[1..]);
    }
  }

  lemma {:induction false} ElapsedForward(es: seq<Event>)
    requires Quiet(es)
    ensures Elapsed(es) >= 0.0
    decreases |es|
  {
    if es != [] {
      ElapsedForward(es[1..]);
    }
  }
}
