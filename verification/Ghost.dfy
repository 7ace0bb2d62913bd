/** The recorder and the player of ghost flights (src/game/Ghost.ts). */
module GhostObjects {
  import opened FlightPhysics
  import opened Text
  import Spec = Ghosts

  class GhostRecorder {
    var samples: seq<Spec.Sample>
    var acc: real

    function Now(): (r: Spec.Recording)
      reads this
    {
      Spec.Recording(samples, acc)
    }

    constructor ()
      ensures Now() == Spec.Recording([], 0.0)
    {
      samples, acc := [], 0.0;
    }

    method Reset()
      modifies this
      ensures Now() == Spec.Recording([], 0.0)
    {
      samples, acc := [], 0.0;
    }

    method Sample(dt: real, t: real, x: real, y: real, rotation: real)
      modifies this
      ensures Now() == Spec.Record(old(Now()), dt, t, x, y, rotation)
    {
      acc := acc + dt;
      if acc < Spec.GHOST_SAMPLE_DT {
        return;
      }
      acc := 0.0;
      if |samples| >= Spec.GHOST_MAX_SAMPLES {
        return;
      }
      samples := samples + [Spec.Rounded(t, x, y, rotation)];
    }
  }

  class GhostPlayer {
    var record: Option<seq<Spec.Sample>>
    var cursor: nat
    var active: bool
    var mesh: Option<Spec.Sample>

    /** An active player has a record of at least five samples, with the cursor on one that is not the last. */
    predicate Valid()
      reads this
    {
      active ==> record.Some? && |record.value| > 4 && cursor + 1 < |record.value|
    }

    constructor ()
      ensures Valid() && !active
    {
      record, cursor, active, mesh := None, 0, false, None;
    }

    method LoadRecord(samples: Option<seq<Spec.Sample>>) returns (ok: bool)
      modifies this
      ensures Valid() && record == samples && cursor == 0 && ok == active && mesh == None
      ensures active <==> samples.Some? && |samples.value| > 4
    {
      record := samples;
      cursor := 0;
      active := record.Some? && |record.value| > 4;
      mesh := None;
      ok := active;
    }

    /** Moves the ghost to its place at time `t`; an active ghost always has one. */
    method Update(t: real) returns (x: Option<real>)
      requires Valid()
      modifies `cursor, `mesh
      ensures Valid()
      ensures !active ==> x == None && cursor == old(cursor) && mesh == old(mesh)
      ensures active ==> cursor == Spec.Seek(record.value, old(cursor), t)
      ensures active ==> mesh == Some(Spec.At(record.value, cursor, t)) && x == Some(mesh.value.x)
    {
      if !active {
        return None;
      }
      var s := record.value;
      while cursor + 2 < |s| && s[cursor + 1].t < t
        invariant cursor + 1 < |s|
        invariant Spec.Seek(s, cursor, t) == Spec.Seek(s, old(cursor), t)
        decreases |s| - cursor
      {
        cursor := cursor + 1;
      }
      var a, b := s[cursor], s[cursor + 1];
      var span := Max(0.0001, b.t - a.t);
      var u := Max(0.0, Min(1.0, (t - a.t) / span));
      mesh := Some(
        Spec.Sample(t, Spec.Blend(a.x, b.x, u), Spec.Blend(a.y, b.y, u), Spec.Blend(a.rotation, b.rotation, u)));
      x := Some(mesh.value.x);
    }

    method Reset()
      requires Valid()
      modifies `cursor, `mesh
      ensures Valid() && cursor == 0 && mesh == None
    {
      cursor := 0;
      mesh := None;
    }
  }
}
