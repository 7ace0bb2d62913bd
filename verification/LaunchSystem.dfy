/** The object that rates take-offs and boosts the bird (src/game/LaunchSystem.ts). */
module LaunchObject {
  import opened FlightPhysics
  import opened Terrain
  import B = BirdObject
  import Spec = Launches

  class LaunchSystem {
    var combo: nat
    var best: nat
    var perfects: nat
    var greats: nat
    var goods: nat
    var comboTimer: real
    var releaseAt: real
    var wasDiving: bool

    function Counts(): (n: Spec.Counts)
      reads this
    {
      Spec.Counts(combo, best, perfects, greats, goods)
    }

    function Now(): (l: Spec.Launcher)
      reads this
    {
      Spec.Launcher(Counts(), comboTimer, releaseAt, wasDiving)
    }

    constructor ()
      ensures Now() == Spec.FRESH
    {
      combo, best, perfects, greats, goods := 0, 0, 0, 0, 0;
      comboTimer, releaseAt, wasDiving := 0.0, -1.0, false;
    }

    method Reset()
      modifies this
      ensures Now() == Spec.FRESH
    {
      combo, best, perfects, greats, goods := 0, 0, 0, 0, 0;
      comboTimer, releaseAt, wasDiving := 0.0, -1.0, false;
    }

    method ObserveInput(diving: bool, time: real)
      modifies `releaseAt, `wasDiving
      ensures Now() == Spec.Observe(old(Now()), diving, time)
      ensures old(Spec.Sound(Now())) ==> Spec.Sound(Now())
      ensures Spec.Pending(Now()) <= old(Spec.Pending(Now())) + if old(wasDiving) && !diving then 1 else 0
    {
      if wasDiving && !diving {
        releaseAt := time;
      }
      wasDiving := diving;
    }

    method Tick(dt: real)
      modifies `combo, `comboTimer
      ensures Now() == Spec.Tick(old(Now()), dt)
      ensures old(Spec.Sound(Now())) && dt >= 0.0 ==> Spec.Sound(Now())
    {
      if combo > 0 {
        comboTimer := comboTimer - dt;
        if comboTimer <= 0.0 {
          combo := 0;
        }
      }
    }

    method BreakCombo()
      modifies `combo, `comboTimer
      ensures Now() == Spec.Break(old(Now()))
      ensures old(Spec.Sound(Now())) ==> Spec.Sound(Now())
    {
      combo := 0;
      comboTimer := 0.0;
    }

    method Ramp(w: World, x: real) returns (ramp: real)
      ensures ramp == Spec.Ramp(w, x, Spec.PROBES)
    {
      ramp := 0.0;
      var k: nat := 0;
      while k < Spec.PROBES
        invariant k <= Spec.PROBES
        invariant ramp == Spec.Ramp(w, x, k)
      {
        k := k + 1;
        ramp := Max(ramp, SlopeAt(w, Spec.Probe(x, k)));
      }
    }

    /**
     * Rates the take-off of `bird`, counts it, and gives the bird its boost. A rating needs a release
     * that waits, and every take-off uses it up; the chain stays sound.
     */
    method Evaluate(bird: B.Bird, w: World, c: Spec.Curves, time: real) returns (res: Spec.Result)
      modifies this, bird`v
      ensures var (after, r, v) :=
                Spec.Evaluate(
                  w, c, old(Now()), Spec.TakeOff(bird.at.x, old(bird.v), bird.report.launchSpeed), time);
        Now() == after && res == r && bird.v == v
      ensures releaseAt < 0.0 && (res.rating != Spec.Miss ==> old(releaseAt) >= 0.0)
      ensures Spec.Rated(Counts()) <= old(Spec.Rated(Counts()) + Spec.Pending(Now()))
      ensures old(Spec.Sound(Now())) ==> Spec.Sound(Now())
    {
      Spec.StepKeeps(w, c, Now(), Spec.TakeOff(bird.at.x, bird.v, bird.report.launchSpeed), time);
      var t := Spec.TakeOff(bird.at.x, bird.v, bird.report.launchSpeed);
      var speed := Spec.LaunchSpeed(w, t);
      var ramp := Ramp(w, t.x);
      var since := Spec.Since(Now(), time);
      if Spec.Unrated(c, speed, t.v, since) {
        res := Spec.Result(Spec.Miss, 0.0, 1.0, combo, speed, ramp);
        releaseAt := -1.0;
        return;
      }
      var score := Spec.Score(c, speed, ramp, since.value, Spec.AngleOut(c, t.v));
      var rating := Spec.RatingOf(score);
      var boost := Spec.BoostOf(rating, combo);
      CountRating(rating);
      bird.v := Spec.Boosted(bird.v, rating, boost, combo);
      releaseAt := -1.0;
      res := Spec.Result(rating, score, boost, combo, speed, ramp);
    }

    method CountRating(rating: Spec.Rating)
      modifies `combo, `best, `comboTimer, `perfects, `greats, `goods
      ensures Counts() == Spec.Count(old(Counts()), rating)
      ensures comboTimer == Spec.TimerAfter(old(comboTimer), rating)
    {
      if rating == Spec.Perfect || rating == Spec.Great {
        combo := combo + 1;
        comboTimer := Spec.COMBO_GRACE;
        best := Spec.NatMax(best, combo);
      } else if rating == Spec.Miss {
        BreakCombo();
      }
      if rating == Spec.Perfect {
        perfects := perfects + 1;
      } else if rating == Spec.Great {
        greats := greats + 1;
      } else if rating == Spec.Good {
        goods := goods + 1;
      }
    }
  }
}
