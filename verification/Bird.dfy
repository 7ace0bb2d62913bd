/** The bird the game steps (src/game/Bird.ts); rotation and meshes are left out. */
module BirdObject {
  import opened FlightPhysics
  import opened Terrain
  import Spec = BirdStep
  import Runs = BirdRuns

  class Bird {
    var at: Spec.Place
    var v: Spec.Velocity
    var grounded: bool
    var air: Spec.Air
    var asleep: bool
    var inWater: bool
    var bounced: bool
    var bounceCd: real
    var altitude: real
    var report: Spec.Report

    function Now(): (b: Spec.Bird)
      reads this
    {
      Spec.Bird(at, v, grounded, air, asleep, inWater, bounced, bounceCd, altitude, report)
    }

    constructor ()
      ensures Now().v.x >= 0.0
    {
      at, v := Spec.Place(50.0, 30.0), Spec.Velocity(10.0, 0.0);
      grounded, asleep, inWater, bounced := false, false, false, false;
      air, bounceCd, altitude := Spec.Air(0.0, 0.0), 0.0, 0.0;
      report := Spec.Report(false, false, false, 0.0, 0.0, 0.0, 1.0, 1.0);
    }

    /** A fresh run: moving forward, in the air, with the apex at the start; the last landing is not forgotten. */
    method Reset(x: real, y: real)
      modifies this
      ensures Now() ==
              Spec.Bird(
                Spec.Place(x, y), Spec.Velocity(11.0, 0.0), false, Spec.Air(0.0, y), false, false, false, 0.0, 0.0,
                Spec.Report(
                  false, false, false, 0.0, 0.0, 0.0,
                  old(report.landingQuality), old(report.landingKeep)))
    {
      at := Spec.Place(x, y);
      v := Spec.Velocity(11.0, 0.0);
      grounded, asleep, inWater, bounced := false, false, false, false;
      altitude, bounceCd := 0.0, 0.0;
      air := Spec.Air(0.0, y);
      report := report.(
        wasGrounded := false, justLaunched := false, justLanded := false, impact := 0.0,
        launchSpeed := 0.0, launchSlope := 0.0);
    }

    /** A bird that goes forward goes on forward, and stays above ground unless a bloom lies too low. */
    method Step(w: World, o: Spec.Opts, dt: real)
      requires Measures(w) && Spec.Sane(o)
      modifies this
      ensures Now() == Spec.Step(w, old(Now()), o, dt)
      ensures dt >= 0.0 && old(v.x) >= 0.0 ==> v.x >= 0.0 && at.x >= old(at.x)
      ensures dt >= 0.0 && old(v.x) >= 0.0 ==>
                (at.y >= Surface(w, at.x) <==> (old(Spec.Bounces(w, Now(), o, dt)) ==> Runs.HopClears(w, at.x)))
    {
      ghost var forward := dt >= 0.0 && v.x >= 0.0;
      if forward {
        Runs.StepGoesForward(w, Now(), o, dt);
        Runs.BelowExactlyOffALowBloom(w, Now(), o, dt);
      }
      BeginStep();
      if grounded {
        CarveSurface(w, o, dt);
      } else {
        FlyBallistic(w, o, dt);
        MaybeTouchDown(w, o);
      }
      MeetWater(w, dt);
      MaybeBounce(w, dt);
      FallAsleep();
      MeasureAltitude(w);
    }

    method BeginStep()
      modifies `report
      ensures Now() == Spec.Begin(old(Now()))
    {
      report := report.(justLanded := false, justLaunched := false, impact := 0.0);
      report := report.(wasGrounded := grounded);
    }

    method CarveSurface(w: World, o: Spec.Opts, dt: real)
      requires Measures(w)
      modifies this
      ensures Now() == Spec.Carve(w, old(Now()), o, dt)
    {
      var diving := o.diving && !asleep;
      var vt := CarvingSpeed(w, diving, Spec.Cap(o), dt);
      var x := Spec.RideTo(w, at.x, vt, dt);
      var launched := Spec.Leaves(w, x, vt, diving, Spec.Or(o.gravityMult, 1.0));
      FollowSurface(w, x, vt, launched, dt);
    }

    method FollowSurface(w: World, x: real, vt: real, launched: bool, dt: real)
      requires Measures(w) && x == Spec.RideTo(w, at.x, vt, dt)
      modifies this
      ensures Now() == Spec.Ride(w, old(Now()), vt, launched, dt)
    {
      at := Spec.Place(x, Surface(w, x));
      v := Spec.Along(w, x, vt);
      if launched {
        grounded := false;
        report := report.(justLaunched := true, launchSlope := SlopeAt(w, x), launchSpeed := Abs(vt));
        air := Spec.Air(0.0, at.y);
      }
    }

    method CarvingSpeed(w: World, diving: bool, cap: real, dt: real) returns (vt: real)
      requires Measures(w)
      ensures vt == Spec.CarvingSpeed(w, at.x, v, diving, cap, dt)
    {
      vt := Spec.Worn(Spec.Component(w, at.x, v), Spec.SlopePull(w, at.x, diving, dt), Spec.Rub(diving, dt));
      vt := Max(Spec.MIN_KEEP_SPEED, vt);
      if vt > cap {
        vt := cap;
      }
    }

    method FlyBallistic(w: World, o: Spec.Opts, dt: real)
      requires Measures(w) && Spec.Sane(o)
      modifies this
      ensures Now() == Spec.Fly(w, old(Now()), o, dt)
    {
      ghost var before := Now();
      Accelerate(w, o, dt);
      Spec.DriftTakesVelocity(before, v, dt);
      Travel(dt);
    }

    method Travel(dt: real)
      modifies `at, `air
      ensures Now() == Spec.Drift(old(Now()), v, dt)
    {
      at := Spec.Place(at.x + v.x * dt, at.y + v.y * dt);
      air := air.(time := air.time + dt);
      if at.y > air.apexY {
        air := air.(apexY := at.y);
      }
    }

    method Accelerate(w: World, o: Spec.Opts, dt: real)
      requires Measures(w) && Spec.Sane(o)
      modifies `v
      ensures v == Spec.FlightVelocity(w, old(Now()), o, dt)
    {
      Spec.CapIsNonNegative(o);
      Pull(w, o, o.diving && !asleep, dt);
      LimitSpeed(w, Spec.Cap(o));
      v := v.(y := DampClimbAtCeiling(v.y, at.y - w.height(at.x) - BIRD_RADIUS));
    }

    method Pull(w: World, o: Spec.Opts, diving: bool, dt: real)
      modifies `v
      ensures v == Spec.Pulled(o, old(v), Max(0.001, Spec.Speed(w, old(v))), diving, air.time, dt)
    {
      var sp := Max(0.001, Spec.Speed(w, v));
      var lift := Spec.Lift(o, diving, sp, air.time);
      v := v.(y := v.y - Spec.Sink(o, lift, diving, dt));
      v := Spec.Scaled(v, Spec.Decay(o, sp, diving, dt));
    }

    method LimitSpeed(w: World, cap: real)
      requires cap >= 0.0
      modifies `v
      ensures v == Spec.Capped(w, old(v), cap)
    {
      var s2 := Spec.Speed(w, v);
      if s2 > cap {
        v := Spec.Scaled(v, cap / s2);
      }
    }

    method MaybeTouchDown(w: World, o: Spec.Opts)
      requires Measures(w)
      modifies this
      ensures Now() == Spec.TouchDown(w, old(Now()), o)
    {
      if at.y <= Surface(w, at.x) {
        var align := Spec.Alignment(w, at.x, v);
        var keep := LandingKeep(align, o.feather, o.diving && !asleep);
        TouchGround(w, align, keep);
      }
    }

    method TouchGround(w: World, align: real, keep: real)
      requires Measures(w)
      modifies this
      ensures Now() == Spec.Land(w, old(Now()), align, keep)
    {
      report := report.(
        landingQuality := align, landingKeep := keep, impact := Max(0.0, -Spec.Normal(w, at.x, v)));
      var vt := Spec.LandingSpeed(w, at.x, v, keep);
      at := at.(y := Surface(w, at.x));
      grounded := true;
      report := report.(justLanded := true);
      air := air.(time := 0.0);
      v := Spec.Along(w, at.x, vt);
    }

    static method LandingKeep(align: real, feather: bool, diving: bool) returns (keep: real)
      ensures keep == Spec.Keep(align, feather, diving)
    {
      var floor := if feather then Spec.LAND_FEATHER_FLOOR else Spec.LAND_BAD_MIN_KEEP;
      if diving {
        floor := Max(floor, 0.86);
      }
      if align >= Spec.LAND_PERFECT {
        keep := Spec.LAND_PERFECT_GAIN;
      } else if align >= Spec.LAND_GOOD {
        keep := Spec.LAND_GOOD_KEEP;
      } else {
        keep := Lerp(floor, Spec.LAND_GOOD_KEEP, Clamp(align / Spec.LAND_GOOD, 0.0, 1.0));
      }
    }

    method MeetWater(w: World, dt: real)
      modifies `inWater, `at, `v
      ensures Now() == Spec.Splash(w, old(Now()), dt)
    {
      inWater := w.ocean(at.x) && at.y < Spec.WATER_Y + 0.6;
      if inWater {
        if at.y < Spec.OCEAN_FLOOR + 2.0 {
          at := at.(y := Spec.OCEAN_FLOOR + 2.0);
        }
        v := Spec.Velocity(Max(v.x * 0.9, 7.0), v.y * 0.55 + 38.0 * dt);
        if at.y > Spec.WATER_Y - 0.2 && v.y > 0.0 {
          v := v.(y := v.y * 0.4);
        }
      }
    }

    method MaybeBounce(w: World, dt: real)
      modifies `bounceCd, `bounced, `grounded, `v, `at
      ensures Now() == Spec.Spring(w, old(Now()), dt)
    {
      bounceCd := Max(0.0, bounceCd - dt);
      if bounceCd <= 0.0 && grounded && !inWater {
        var pad := BouncePadAt(w, at.x);
        if pad.Some? {
          bounceCd := 0.6;
          bounced := true;
          grounded := false;
          v := Spec.Velocity(Max(v.x, Spec.SUNFLOWER_VX), Spec.SUNFLOWER_VY);
          at := at.(y := PadHeight(w, pad.value) + BIRD_RADIUS + Spec.HOP);
        }
      }
    }

    method FallAsleep()
      modifies `v
      ensures Now() == Spec.Doze(old(Now()))
    {
      if asleep {
        v := v.(x := v.x * 0.9);
        if grounded {
          v := v.(x := v.x * 0.8);
        }
      }
    }

    method MeasureAltitude(w: World)
      modifies `altitude
      ensures Now() == Spec.Measure(w, old(Now()))
    {
      altitude := Max(0.0, at.y - w.height(at.x) - BIRD_RADIUS);
    }
  }
}
