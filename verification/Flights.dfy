/** Flights: runs that stay in the air, what `apexY` and `airTime` say of them (src/game/Bird.ts). */
module Flights {
  import opened BirdRuns
  import opened BirdStep
  import opened FlightPhysics
  import opened Terrain

  /** The step neither touches down nor meets water. */
  predicate Glides(w: World, b: Bird, f: Frame)
    requires Measures(w) && Playable(f)
  {
    var r := Next(w, b, f);
    !b.grounded && !r.report.justLanded && !r.inWater
  }

  /** The run stays in the air. */
  predicate Aloft(w: World, b: Bird, fs: seq<Frame>)
    requires Measures(w) && AllPlayable(fs)
    decreases |fs|
  {
    fs == [] || (Glides(w, b, fs[0]) && Aloft(w, Next(w, b, fs[0]), fs[1..]))
  }

  /** The game leaves the velocity alone, save before the first step. */
  predicate Unaided(fs: seq<Frame>) {
    forall i :: 1 <= i < |fs| ==> fs[i].push.None?
  }

  /* -------------------------------------------------------------- one step aloft */

  /** What a flight is judged by at one moment. */
  datatype Moment = Moment(y: real, vy: real, apexY: real)

  function MomentOf(b: Bird): (m: Moment) {
    Moment(b.at.y, b.v.y, b.air.apexY)
  }

  /** A climb rises, anything else sinks, and `apexY` follows the height. */
  predicate Follows(p: Moment, q: Moment) {
    && (q.vy >= 0.0 ==> q.y >= p.y)
    && (q.vy <= 0.0 ==> q.y <= p.y)
    && q.apexY == Max(p.apexY, q.y)
  }

  /** What does not climb does not start to. */
  predicate StaysDown(p: Moment, q: Moment) {
    p.vy <= 0.0 ==> q.vy <= 0.0
  }

  lemma GlideIsFlight(w: World, b: Bird, o: Opts, dt: real)
    requires Measures(w) && Sane(o) && !b.grounded
    requires !Step(w, b, o, dt).report.justLanded && !Step(w, b, o, dt).inWater
    ensures var r := Step(w, b, o, dt);
      var flown := Fly(w, Begin(b), o, dt);
      r.at == flown.at && r.v.y == flown.v.y && r.air == flown.air && !r.grounded
  {
    var flown := Fly(w, Begin(b), o, dt);
    var landed := TouchDown(w, flown, o);
    assert landed == flown;
  }

  lemma FlyFollows(w: World, b: Bird, o: Opts, dt: real)
    requires Measures(w) && Sane(o) && dt >= 0.0
    ensures Follows(MomentOf(b), MomentOf(Fly(w, b, o, dt)))
    ensures StaysDown(MomentOf(b), MomentOf(Fly(w, b, o, dt)))
  {
    FlightVelocitySafe(w, b, o, dt);
    ClimbSign(FlightVelocity(w, b, o, dt).y, dt);
  }

  lemma ClimbSign(vy: real, dt: real)
    requires dt >= 0.0
    ensures vy >= 0.0 ==> vy * dt >= 0.0
    ensures vy <= 0.0 ==> vy * dt <= 0.0
  {
    if vy <= 0.0 {
      NonNegative(-vy, dt);
    }
  }

  lemma GlideStep(w: World, b: Bird, f: Frame)
    requires Measures(w) && Playable(f) && Glides(w, b, f)
    ensures Follows(MomentOf(b), MomentOf(Next(w, b, f)))
    ensures f.push.None? ==> StaysDown(MomentOf(b), MomentOf(Next(w, b, f)))
    ensures Next(w, b, f).air.time == b.air.time + f.dt
  {
    var a := Entering(b, f);
    GlideIsFlight(w, a, f.o, f.dt);
    FlyFollows(w, Begin(a), f.o, f.dt);
  }

  /* -------------------------------------------------------------- whole flights */

  /** The moments of a run, its start included. */
  function Moments(w: World, b: Bird, fs: seq<Frame>): (ms: seq<Moment>)
    requires Measures(w) && AllPlayable(fs)
    ensures |ms| == |fs| + 1 && ms[0] == MomentOf(b)
    decreases |fs|
  {
    if fs == [] then [MomentOf(b)] else [MomentOf(b)] + Moments(w, Next(w, b, fs[0]), fs[1..])
  }

  predicate Path(ms: seq<Moment>) {
    forall i :: 0 < i < |ms| ==> Follows(ms[i - 1], ms[i])
  }

  /** From the first step on, what does not climb does not start to. */
  predicate Falling(ms: seq<Moment>) {
    forall i :: 1 < i < |ms| ==> StaysDown(ms[i - 1], ms[i])
  }

  lemma {:induction false} AloftIsPath(w: World, b: Bird, fs: seq<Frame>)
    requires Measures(w) && AllPlayable(fs) && Aloft(w, b, fs)
    ensures Path(Moments(w, b, fs))
    ensures Moments(w, b, fs)[|fs|] == MomentOf(Run(w, b, fs))
    decreases |fs|
  {
    if fs != [] {
      GlideStep(w, b, fs[0]);
      AloftIsPath(w, Next(w, b, fs[0]), fs[1..]);
      PathLonger(MomentOf(b), Moments(w, Next(w, b, fs[0]), fs[1..]));
    }
  }

  lemma PathLonger(m: Moment, ms: seq<Moment>)
    requires ms != [] && Follows(m, ms[0]) && Path(ms)
    ensures Path([m] + ms)
  {
    var all := [m] + ms;
    forall i | 0 < i < |all| ensures Follows(all[i - 1], all[i]) {
      if i > 1 {
        assert all[i - 1] == ms[i - 2] && all[i] == ms[i - 1];
      }
    }
  }

  lemma {:induction false} UnaidedFalls(w: World, b: Bird, fs: seq<Frame>)
    requires Measures(w) && AllPlayable(fs) && Aloft(w, b, fs) && Unaided(fs)
    ensures Falling(Moments(w, b, fs))
    decreases |fs|
  {
    if |fs| > 1 {
      var r := Next(w, b, fs[0]);
      assert fs[1..][0] == fs[1];
      GlideStep(w, r, fs[1]);
      UnaidedFalls(w, r, fs[1..]);
      FallingLonger(MomentOf(b), Moments(w, r, fs[1..]));
    }
  }

  lemma FallingLonger(m: Moment, ms: seq<Moment>)
    requires |ms| > 1 && StaysDown(ms[0], ms[1]) && Falling(ms)
    ensures Falling([m] + ms)
  {
    var all := [m] + ms;
    forall i | 1 < i < |all| ensures StaysDown(all[i - 1], all[i]) {
      assert all[i - 1] == ms[i - 2] && all[i] == ms[i - 1];
    }
  }

  /* ------------------------------------------------------------------ the apex */

  /** At moment `k` the apex is the greatest of the apex at the start and every height since. */
  predicate ApexCovers(ms: seq<Moment>, k: nat)
    requires k < |ms|
  {
    && ms[k].apexY >= ms[0].apexY
    && (forall i :: 0 < i <= k ==> ms[i].y <= ms[k].apexY)
    && (ms[k].apexY == ms[0].apexY || exists i :: 0 < i <= k && ms[i].y == ms[k].apexY)
  }

  lemma {:induction false} PathApex(ms: seq<Moment>, k: nat)
    requires Path(ms) && k < |ms|
    ensures ApexCovers(ms, k)
  {
    if k > 0 {
      PathApex(ms, k - 1);
      assert Follows(ms[k - 1], ms[k]);
    }
  }

  /** At moment `k` the apex is the greatest height of the flight so far. */
  predicate ApexIsHighest(ms: seq<Moment>, k: nat)
    requires k < |ms|
  {
    && (forall i :: 0 <= i <= k ==> ms[i].y <= ms[k].apexY)
    && (exists i :: 0 <= i <= k && ms[i].y == ms[k].apexY)
  }

  /** A flight that starts at its apex, pushed or not, has it right at every moment. */
  lemma ApexStaysExact(ms: seq<Moment>)
    requires Path(ms) && ms != [] && ms[0].apexY == ms[0].y
    ensures forall k :: 0 <= k < |ms| ==> ApexIsHighest(ms, k)
  {
    forall k | 0 <= k < |ms| ensures ApexIsHighest(ms, k) {
      PathApex(ms, k);
    }
  }

  /** Off a crest a flight starts its clock and its apex afresh. */
  lemma TakeOff(w: World, b: Bird, f: Frame)
    requires Measures(w) && Playable(f)
    requires Next(w, b, f).report.justLaunched && !Next(w, b, f).inWater
    ensures var r := Next(w, b, f);
      b.grounded && !r.grounded && r.air == Air(0.0, r.at.y)
  {
  }

  /**
   * From a crest on, at every moment of the flight and however the game pushes the bird, `apexY` is
   * the greatest height reached and `airTime` the time aloft.
   */
  lemma {:induction false} ApexIsExact(w: World, b: Bird, f: Frame, fs: seq<Frame>)
    requires Measures(w) && Playable(f) && AllPlayable(fs)
    requires Next(w, b, f).report.justLaunched && !Next(w, b, f).inWater && Aloft(w, Next(w, b, f), fs)
    ensures var r := Next(w, b, f);
      var ms := Moments(w, r, fs);
      (forall k :: 0 <= k < |ms| ==> ApexIsHighest(ms, k)) &&
      ms[|fs|] == MomentOf(Run(w, r, fs)) && Run(w, r, fs).air.time == Duration(fs)
  {
    var r := Next(w, b, f);
    TakeOff(w, b, f);
    AloftIsPath(w, r, fs);
    ApexStaysExact(Moments(w, r, fs));
    FlightClock(w, r, fs);
  }

  function Duration(fs: seq<Frame>): (t: real)
    decreases |fs|
  {
    if fs == [] then 0.0 else fs[0].dt + Duration(fs[1..])
  }

  lemma {:induction false} FlightClock(w: World, b: Bird, fs: seq<Frame>)
    requires Measures(w) && AllPlayable(fs) && Aloft(w, b, fs)
    ensures Run(w, b, fs).air.time == b.air.time + Duration(fs)
    decreases |fs|
  {
    if fs != [] {
      GlideStep(w, b, fs[0]);
      FlightClock(w, Next(w, b, fs[0]), fs[1..]);
    }
  }

  /* ------------------------------------------------------- one peak a free flight */

  /** The moment after the last climb. */
  function Peak(ms: seq<Moment>): (p: nat)
    requires ms != []
    ensures p < |ms|
    decreases |ms|
  {
    if |ms| == 1 || ms[1].vy <= 0.0 then 0 else 1 + Peak(ms[1..])
  }

  predicate RisesTo(ms: seq<Moment>, p: nat)
    requires p < |ms|
  {
    forall i, j :: 0 <= i <= j <= p ==> ms[i].y <= ms[j].y
  }

  predicate FallsFrom(ms: seq<Moment>, p: nat) {
    forall i, j :: p <= i <= j < |ms| ==> ms[i].y >= ms[j].y
  }

  /** Once a flight has stopped climbing it never climbs again. */
  lemma {:induction false} OnlySinks(ms: seq<Moment>, k: nat)
    requires Path(ms) && Falling(ms) && 0 < k < |ms| && ms[k].vy <= 0.0
    ensures forall i :: k <= i < |ms| ==> ms[i].vy <= 0.0 && ms[i].y <= ms[k].y
    ensures FallsFrom(ms, k)
    decreases |ms| - k
  {
    if k + 1 < |ms| {
      assert Follows(ms[k], ms[k + 1]);
      assert StaysDown(ms[k], ms[k + 1]);
      OnlySinks(ms, k + 1);
    }
  }

  lemma {:induction false} PeakEndsTheClimb(ms: seq<Moment>)
    requires ms != []
    ensures forall i :: 0 < i <= Peak(ms) ==> ms[i].vy > 0.0
    ensures Peak(ms) + 1 < |ms| ==> ms[Peak(ms) + 1].vy <= 0.0
    decreases |ms|
  {
    if |ms| > 1 && ms[1].vy > 0.0 {
      var rest := ms[1..];
      PeakEndsTheClimb(rest);
      forall i | 0 < i <= Peak(ms) ensures ms[i].vy > 0.0 {
        if i > 1 {
          assert ms[i] == rest[i - 1];
        }
      }
    }
  }

  lemma {:induction false} RisesWhileClimbing(ms: seq<Moment>, p: nat)
    requires Path(ms) && p < |ms| && forall i :: 0 < i <= p ==> ms[i].vy > 0.0
    ensures RisesTo(ms, p)
  {
    if p > 0 {
      RisesWhileClimbing(ms, p - 1);
      assert Follows(ms[p - 1], ms[p]);
    }
  }

  lemma FallsAfter(ms: seq<Moment>, p: nat)
    requires Path(ms) && Falling(ms) && p < |ms| && (p + 1 < |ms| ==> ms[p + 1].vy <= 0.0)
    ensures FallsFrom(ms, p)
  {
    if p + 1 < |ms| {
      OnlySinks(ms, p + 1);
      assert Follows(ms[p], ms[p + 1]);
      forall i, j | p <= i <= j < |ms| ensures ms[i].y >= ms[j].y {
        if i > p {
          assert FallsFrom(ms, p + 1);
        }
      }
    }
  }

  lemma {:induction false} PathHasOnePeak(ms: seq<Moment>)
    requires ms != [] && Path(ms) && Falling(ms)
    ensures RisesTo(ms, Peak(ms)) && FallsFrom(ms, Peak(ms))
  {
    PeakEndsTheClimb(ms);
    RisesWhileClimbing(ms, Peak(ms));
    FallsAfter(ms, Peak(ms));
  }

  /** The peak is the one moment the apex has to cover. */
  lemma ApexCoversPeak(ms: seq<Moment>, p: nat, k: nat)
    requires p <= k < |ms| && RisesTo(ms, p) && FallsFrom(ms, p) && ApexCovers(ms, k)
    requires p > 0 || ms[0].apexY >= ms[0].y
    ensures ms[k].apexY == Max(ms[0].apexY, ms[p].y)
  {
    forall i | 0 < i <= k ensures ms[i].y <= ms[p].y {
    }
  }

  /**
   * Each flight left alone after its first step rises to one peak and then falls, and the recorded
   * apex covers the peak.
   */
  lemma {:induction false} OneApex(w: World, b: Bird, fs: seq<Frame>)
    requires Measures(w) && AllPlayable(fs) && Aloft(w, b, fs) && Unaided(fs)
    ensures var ms := Moments(w, b, fs);
      var p := Peak(ms);
      RisesTo(ms, p) && FallsFrom(ms, p) &&
      (p > 0 || b.air.apexY >= b.at.y ==> Run(w, b, fs).air.apexY == Max(b.air.apexY, ms[p].y))
  {
    var ms := Moments(w, b, fs);
    AloftIsPath(w, b, fs);
    UnaidedFalls(w, b, fs);
    PathHasOnePeak(ms);
    PathApex(ms, |fs|);
    if Peak(ms) > 0 || ms[0].apexY >= ms[0].y {
      ApexCoversPeak(ms, Peak(ms), |fs|);
    }
  }
}
