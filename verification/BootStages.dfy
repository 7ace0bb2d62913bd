/**
 * Boot stages and the weighted progress they add up to (src/game/BootProgress.ts): a bar that keeps
 * its promises whatever order the stages come in.
 */
module BootStages {

  datatype Stage = Shell | Chunk | Engine | World | Hud | Flight | Ready

  /** The stage plan, in order. */
  const PLAN: seq<Stage> := [Shell, Chunk, Engine, World, Hud, Flight, Ready]

  const TOTAL_WEIGHT: nat := 22

  function Weight(s: Stage): (w: nat)
    ensures w > 0
  {
    match s
    case Shell => 2
    case Chunk => 6
    case Engine => 3
    case World => 5
    case Hud => 2
    case Flight => 3
    case Ready => 1
  }

  /** Marks in the order they were made, with the set of them and the terminal flag. */
  datatype Marks = Marks(order: seq<Stage>, completed: set<Stage>, ready: bool)

  const UNMARKED := Marks([], {}, false)

  function Mark(m: Marks, s: Stage): (r: Marks) {
    if s in m.completed then m else m.(order := m.order + [s], completed := m.completed + {s})
  }

  function MarkAll(m: Marks, stages: seq<Stage>): (r: Marks)
    decreases |stages|
  {
    if stages == [] then m else MarkAll(Mark(m, stages[0]), stages[1..])
  }

  /** Ready is terminal: it marks every stage the boot skipped. */
  function BootStage(m: Marks, s: Stage): (r: Marks) {
    if s == Ready then MarkAll(m, PLAN).(ready := true) else Mark(m, s)
  }

  /** The weight of the marked stages among the first `k` of the plan. */
  function WeightDone(completed: set<Stage>, k: nat): (w: nat)
    requires k <= |PLAN|
  {
    if k == 0 then 0
    else WeightDone(completed, k - 1) + if PLAN[k - 1] in completed then Weight(PLAN[k - 1]) else 0
  }

  function Progress(completed: set<Stage>): (p: real) {
    var share := WeightDone(completed, |PLAN|) as real / TOTAL_WEIGHT as real;
    if share < 0.0 then 0.0 else if 1.0 < share then 1.0 else share
  }

  /** The furthest marked stage of the plan names what the player reads; the first does before any mark. */
  function LabelAt(completed: set<Stage>, k: nat): (s: Stage)
    requires k <= |PLAN|
  {
    if k == 0 then PLAN[0] else if PLAN[k - 1] in completed then PLAN[k - 1] else LabelAt(completed, k - 1)
  }

  function Label(completed: set<Stage>): (s: Stage) {
    LabelAt(completed, |PLAN|)
  }

  predicate NoRepeats(s: seq<Stage>) {
    forall i, j :: 0 <= i < j < |s| ==> s[i] != s[j]
  }

  /**
   * The order lists exactly the marked stages, once each; the ready flag is the ready mark, and
   * comes after all others.
   */
  ghost predicate Consistent(m: Marks) {
    && (forall s :: s in m.completed <==> s in m.order)
    && NoRepeats(m.order)
    && (m.ready <==> Ready in m.completed)
    && (m.ready ==> forall s: Stage :: s in m.completed)
  }

  lemma MarkKeepsOrder(m: Marks, s: Stage)
    requires (forall t :: t in m.completed <==> t in m.order) && NoRepeats(m.order)
    ensures var r := Mark(m, s);
      (forall t :: t in r.completed <==> t in r.order) && NoRepeats(r.order) &&
      s in r.completed && m.completed <= r.completed && r.ready == m.ready && m.order <= r.order
  {
  }

  lemma {:induction false} MarkAllKeepsOrder(m: Marks, stages: seq<Stage>)
    requires (forall t :: t in m.completed <==> t in m.order) && NoRepeats(m.order)
    ensures var r := MarkAll(m, stages);
      (forall t :: t in r.completed <==> t in r.order) && NoRepeats(r.order) &&
      (forall t :: t in stages ==> t in r.completed) && m.completed <= r.completed &&
      r.ready == m.ready && m.order <= r.order
    decreases |stages|
  {
    if stages != [] {
      MarkKeepsOrder(m, stages[0]);
      MarkAllKeepsOrder(Mark(m, stages[0]), stages[1..]);
    }
  }

  lemma PlanHasEveryStage(s: Stage)
    ensures s in PLAN
  {
    match s
    case Shell => assert PLAN[0] == s;
    case Chunk => assert PLAN[1] == s;
    case Engine => assert PLAN[2] == s;
    case World => assert PLAN[3] == s;
    case Hud => assert PLAN[4] == s;
    case Flight => assert PLAN[5] == s;
    case Ready => assert PLAN[6] == s;
  }

  /** Marking keeps the books straight, forgets no mark, and adds at most the stage named unless that is the last. */
  lemma BootStageKeeps(m: Marks, s: Stage)
    requires Consistent(m)
    ensures var r := BootStage(m, s);
      Consistent(r) && s in r.completed && m.completed <= r.completed && m.order <= r.order &&
      (s != Ready ==> r.completed == m.completed + {s})
  {
    if s == Ready {
      MarkAllKeepsOrder(m, PLAN);
      forall t: Stage ensures t in MarkAll(m, PLAN).completed {
        PlanHasEveryStage(t);
      }
    } else {
      MarkKeepsOrder(m, s);
    }
  }

  lemma {:induction false} AllMarkedAlready(m: Marks, stages: seq<Stage>)
    requires forall t :: t in stages ==> t in m.completed
    ensures MarkAll(m, stages) == m
    decreases |stages|
  {
    if stages != [] {
      AllMarkedAlready(m, stages[1..]);
    }
  }

  /** A stage reached twice reports once. */
  lemma BootStageTwice(m: Marks, s: Stage)
    requires Consistent(m)
    ensures BootStage(BootStage(m, s), s) == BootStage(m, s)
  {
    BootStageKeeps(m, s);
    if s == Ready {
      AllMarkedAlready(BootStage(m, s), PLAN);
    }
  }

  lemma {:induction false} WeightGrows(a: set<Stage>, b: set<Stage>, k: nat)
    requires a <= b && k <= |PLAN|
    ensures WeightDone(a, k) <= WeightDone(b, k)
  {
    if k > 0 {
      WeightGrows(a, b, k - 1);
    }
  }

  const ALL: set<Stage> := {Shell, Chunk, Engine, World, Hud, Flight, Ready}

  lemma AllIsAll(s: Stage)
    ensures s in ALL
  {
  }

  lemma {:induction false} MissingWeight(a: set<Stage>, k: nat, missing: nat)
    requires missing < k <= |PLAN| && PLAN[missing] !in a
    ensures WeightDone(a, k) < WeightDone(ALL, k)
  {
    AllIsAll(PLAN[k - 1]);
    if missing < k - 1 {
      MissingWeight(a, k - 1, missing);
    } else {
      forall s | s in a ensures s in ALL { AllIsAll(s); }
      WeightGrows(a, ALL, k - 1);
    }
  }

  lemma WholePlanWeight()
    ensures WeightDone(ALL, |PLAN|) == TOTAL_WEIGHT
  {
    assert WeightDone(ALL, 2) == 8 by { assert WeightDone(ALL, 1) == 2; }
    assert WeightDone(ALL, 4) == 16 by { assert WeightDone(ALL, 3) == 11; }
    assert WeightDone(ALL, 6) == 21 by { assert WeightDone(ALL, 5) == 18; }
  }

  /** The parts of 22 that each stage is worth. */
  function Worth(s: Stage): (w: nat) {
    match s
    case Shell => 2
    case Chunk => 6
    case Engine => 3
    case World => 5
    case Hud => 2
    case Flight => 3
    case Ready => 1
  }

  /** The place of a stage in the plan. */
  function Turn(s: Stage): (k: nat)
    ensures k < |PLAN| && PLAN[k] == s && forall j :: 0 <= j < |PLAN| && j != k ==> PLAN[j] != s
  {
    match s
    case Shell => 0
    case Chunk => 1
    case Engine => 2
    case World => 3
    case Hud => 4
    case Flight => 5
    case Ready => 6
  }

  lemma {:induction false} WeightAdds(a: set<Stage>, s: Stage, k: nat)
    requires s !in a && k <= |PLAN|
    ensures WeightDone(a + {s}, k) == WeightDone(a, k) + if Turn(s) < k then Worth(s) else 0
  {
    if k > 0 {
      WeightAdds(a, s, k - 1);
    }
  }

  /** A new mark moves the bar by exactly its stage's share. */
  lemma StageMovesBar(a: set<Stage>, s: Stage)
    requires s !in a
    ensures Progress(a + {s}) == Progress(a) + Worth(s) as real / 22.0
  {
    WeightAdds(a, s, |PLAN|);
    ProgressIsHonest(a, a + {s});
    AtMostWhole(a);
    AtMostWhole(a + {s});
  }

  lemma {:induction false} AtMostWhole(a: set<Stage>)
    ensures Progress(a) == WeightDone(a, |PLAN|) as real / 22.0
  {
    forall s | s in a ensures s in ALL { AllIsAll(s); }
    WeightGrows(a, ALL, |PLAN|);
    WholePlanWeight();
  }

  /** The bar stays in range, never moves back as stages are added, and is full exactly when nothing is missing. */
  lemma ProgressIsHonest(a: set<Stage>, b: set<Stage>)
    requires a <= b
    ensures 0.0 <= Progress(a) <= Progress(b) <= 1.0
    ensures Progress(b) == 1.0 <==> forall s: Stage :: s in b
  {
    WeightGrows(a, b, |PLAN|);
    WholePlanWeight();
    if i :| 0 <= i < |PLAN| && PLAN[i] !in b {
      MissingWeight(b, |PLAN|, i);
    } else {
      forall s: Stage ensures s in b && s in ALL {
        PlanHasEveryStage(s);
        AllIsAll(s);
      }
      assert b == ALL;
    }
  }

  /** The label belongs to the furthest stage marked. */
  lemma {:induction false} LabelIsFurthest(completed: set<Stage>, k: nat)
    requires k <= |PLAN|
    ensures
      || LabelAt(completed, k) in completed
      || (LabelAt(completed, k) == Shell && forall j :: 0 <= j < k ==> PLAN[j] !in completed)
    ensures forall j :: 0 <= j < k && PLAN[j] in completed ==>
              exists i :: j <= i < k && PLAN[i] == LabelAt(completed, k)
  {
    if k > 0 {
      LabelIsFurthest(completed, k - 1);
    }
  }

  function BootAll(m: Marks, stages: seq<Stage>): (r: Marks)
    decreases |stages|
  {
    if stages == [] then m else BootAll(BootStage(m, stages[0]), stages[1..])
  }

  /** Through any sequence of marks the bar never moves back, and reads full exactly from the ready mark on. */
  lemma {:induction false} BarNeverLies(m: Marks, stages: seq<Stage>)
    requires Consistent(m)
    ensures var r := BootAll(m, stages);
      Consistent(r) && m.order <= r.order && Progress(m.completed) <= Progress(r.completed) &&
      (Progress(r.completed) == 1.0 <==> r.ready) && (r.ready <==> m.ready || Ready in stages)
    decreases |stages|
  {
    if stages == [] {
      ProgressIsHonest(m.completed, m.completed);
    } else {
      BootStageKeeps(m, stages[0]);
      BarNeverLies(BootStage(m, stages[0]), stages[1..]);
      ProgressIsHonest(m.completed, BootStage(m, stages[0]).completed);
    }
  }
}
