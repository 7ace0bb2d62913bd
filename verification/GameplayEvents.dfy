/** The sink every gameplay start and stop goes through (src/game/GameplayEvents.ts). */
module GameplayEvents {
  import opened Text

  datatype Phase = Start | Stop

  /**
   * The last phase recorded, whether the portal adapter is there to hear it, and everything the
   * portal has heard.
   */
  datatype Sink = Sink(last: Option<Phase>, landed: bool, heard: seq<Phase>)

  const SILENT := Sink(None, false, [])

  /** A repeat is dropped; a change is recorded even when no adapter hears it. */
  function Send(s: Sink, p: Phase): (r: Sink) {
    if s.last == Some(p) then s
    else s.(last := Some(p), heard := if s.landed then s.heard + [p] else s.heard)
  }

  function Land(s: Sink): (r: Sink) {
    s.(landed := true)
  }

  /** No phase follows itself. */
  predicate Alternates(ps: seq<Phase>) {
    forall i :: 0 < i < |ps| ==> ps[i] != ps[i - 1]
  }

  predicate Valid(s: Sink) {
    && Alternates(s.heard)
    && (s.heard != [] ==> s.last == Some(s.heard[|s.heard| - 1]))
    && (!s.landed ==> s.heard == [])
  }

  lemma SendKeepsValid(s: Sink, p: Phase)
    requires Valid(s)
    ensures Valid(Send(s, p))
  {
  }

  function SendAll(s: Sink, ps: seq<Phase>): (r: Sink)
    decreases |ps|
  {
    if ps == [] then s else SendAll(Send(s, ps[0]), ps[1..])
  }

  /** However the phases are sent, the portal never hears one twice in a row. */
  lemma {:induction false} PortalHearsAlternation(s: Sink, ps: seq<Phase>)
    requires Valid(s)
    ensures Valid(SendAll(s, ps))
    ensures ps != [] ==> SendAll(s, ps).last == Some(ps[|ps| - 1])
    decreases |ps|
  {
    if ps != [] {
      SendKeepsValid(s, ps[0]);
      PortalHearsAlternation(Send(s, ps[0]), ps[1..]);
    }
  }

  /** The object the game holds. `Emit` reaches the adapter only once it has landed. */
  class GameplayEventSink {
    var last: Option<Phase>
    var landed: bool
    var heard: seq<Phase>

    ghost function State(): Sink
      reads this
    {
      Sink(last, landed, heard)
    }

    constructor ()
      ensures State() == SILENT
    {
      last, landed, heard := None, false, [];
    }

    method SendPhase(phase: Phase)
      modifies this
      ensures State() == Send(old(State()), phase)
    {
      if last == Some(phase) {
        return;
      }
      last := Some(phase);
      Emit(phase);
    }

    method Emit(phase: Phase)
      modifies `heard
      ensures heard == if landed then old(heard) + [phase] else old(heard)
    {
      if landed {
        heard := heard + [phase];
      }
    }

    method AdapterLanded()
      modifies `landed
      ensures State() == Land(old(State()))
    {
      landed := true;
    }
  }
}
