/** The boot module's variables and the functions that change them (src/game/BootProgress.ts). */
module BootProgress {
  import opened Text
  import Stages = BootStages
  import Work = DeferredWork

  datatype State = State(
    completed: seq<Stages.Stage>, progress: real, current: Option<Stages.Stage>, ready: bool, shown: Stages.Stage)

  class Boot {
    var completed: set<Stages.Stage>
    var order: seq<Stages.Stage>
    var ready: bool

    var pending: seq<nat>
    var flushing: bool
    var submitted: nat

    /** The platform's side: what it owes and what it has run. */
    const idle: bool
    var runs: seq<nat>
    var flushes: nat
    var executed: seq<nat>

    function Marks(): (m: Stages.Marks)
      reads this
    {
      Stages.Marks(order, completed, ready)
    }

    function Queue(): (q: Work.Queue)
      reads this
    {
      Work.Queue(pending, flushing, runs, flushes, executed, submitted, idle)
    }

    constructor (canSchedule: bool)
      ensures Marks() == Stages.UNMARKED && Queue() == Work.Fresh(canSchedule)
    {
      completed, order, ready := {}, [], false;
      pending, flushing, submitted := [], false, 0;
      idle, runs, flushes, executed := canSchedule, [], 0, [];
    }

    /* ------------------------------------------------------------ boot stages */

    method ComputedProgress() returns (p: real)
      ensures p == Stages.Progress(completed)
    {
      var done: nat := 0;
      for i := 0 to |Stages.PLAN|
        invariant done == Stages.WeightDone(completed, i)
      {
        var stage := Stages.PLAN[i];
        if stage in completed {
          done := done + Stages.Weight(stage);
        }
      }
      var share := done as real / Stages.TOTAL_WEIGHT as real;
      p := if share < 0.0 then 0.0 else if 1.0 < share then 1.0 else share;
    }

    method LabelFor() returns (s: Stages.Stage)
      ensures s == Stages.Label(completed)
    {
      var i: nat := |Stages.PLAN|;
      while i > 0
        invariant i <= |Stages.PLAN|
        invariant Stages.LabelAt(completed, i) == Stages.Label(completed)
      {
        i := i - 1;
        if Stages.PLAN[i] in completed {
          return Stages.PLAN[i];
        }
      }
      s := Stages.PLAN[0];
    }

    method BootState() returns (s: State)
      ensures s.completed == order && s.progress == Stages.Progress(completed) && s.ready == ready
      ensures s.current == (if order == [] then None else Some(order[|order| - 1]))
      ensures s.shown == Stages.Label(completed)
    {
      var progress := ComputedProgress();
      var shown := LabelFor();
      s := State(order, progress, if order == [] then None else Some(order[|order| - 1]), ready, shown);
    }

    method BootStage(id: Stages.Stage) returns (s: State)
      modifies `completed, `order, `ready
      ensures Marks() == Stages.BootStage(old(Marks()), id)
      ensures s.completed == order && s.progress == Stages.Progress(completed) && s.ready == ready
      ensures old(Stages.Consistent(Marks())) ==>
                Stages.Consistent(Marks()) && id in completed && old(order) <= order &&
                old(Stages.Progress(completed)) <= s.progress
    {
      ghost var consistent := Stages.Consistent(Marks());
      if consistent {
        Stages.BootStageKeeps(Marks(), id);
        Stages.ProgressIsHonest(completed, Stages.BootStage(Marks(), id).completed);
      }
      if id == Stages.Ready {
        MarkThrough();
        ready := true;
      } else if id !in completed {
        completed := completed + {id};
        order := order + [id];
      }
      s := BootState();
    }

    method MarkThrough()
      modifies `completed, `order
      ensures Marks() == Stages.MarkAll(old(Marks()), Stages.PLAN)
    {
      var i := 0;
      assert Stages.PLAN[0..] == Stages.PLAN;
      while i < |Stages.PLAN|
        invariant i <= |Stages.PLAN|
        invariant Stages.MarkAll(Marks(), Stages.PLAN[i..]) == Stages.MarkAll(old(Marks()), Stages.PLAN)
        invariant ready == old(ready)
      {
        var stage := Stages.PLAN[i];
        assert Stages.PLAN[i..][1..] == Stages.PLAN[i + 1..];
        assert Stages.PLAN[i..][0] == stage;
        if stage !in completed {
          completed := completed + {stage};
          order := order + [stage];
        }
        i := i + 1;
      }
    }

    method ResetBootProgress()
      modifies this
      ensures Marks() == Stages.UNMARKED && Queue() == Work.Reset(old(Queue()))
    {
      completed, order, ready := {}, [], false;
      pending := [];
    }

    /* ----------------------------------------------------------- deferred work */

    method ScheduleRun(task: nat)
      modifies `runs
      ensures runs == if idle then old(runs) + [task] else old(runs)
    {
      if idle {
        runs := runs + [task];
      }
    }

    method ScheduleFlush()
      modifies `flushes
      ensures flushes == if idle then old(flushes) + 1 else old(flushes)
    {
      if idle {
        flushes := flushes + 1;
      }
    }

    method Flush()
      modifies `flushing, `pending, `runs
      ensures Queue() == Work.Flush(old(Queue()))
      ensures old(Work.InOrder(Queue())) ==> Work.InOrder(Queue())
    {
      ghost var inOrder := Work.InOrder(Queue());
      if inOrder {
        Work.FlushKeeps(Queue());
      }
      if flushing {
        return;
      }
      flushing := true;
      if pending == [] {
        flushing := false;
        return;
      }
      var task := pending[0];
      pending := pending[1..];
      ScheduleRun(task);
    }

    method Defer()
      modifies `flushing, `pending, `runs, `submitted
      ensures Queue() == Work.Defer(old(Queue()))
      ensures old(Work.InOrder(Queue())) ==>
                Work.InOrder(Queue()) &&
                (idle ==> Work.Awake(Queue()) && Work.Line(Queue()) == old(Work.Line(Queue()) + [submitted]))
    {
      ghost var inOrder := Work.InOrder(Queue());
      if inOrder {
        Work.DeferKeeps(Queue());
      }
      pending := pending + [submitted];
      submitted := submitted + 1;
      Flush();
    }

    /** The platform calls the `k`th owed run; the task's work defers `more` tasks. */
    method RunTask(k: nat, more: nat)
      requires k < |runs|
      modifies `flushing, `pending, `runs, `submitted, `executed, `flushes
      ensures Queue() == Work.CallRun(old(Queue()), k, more)
      ensures old(Work.InOrder(Queue())) ==>
                Work.InOrder(Queue()) && Work.Awake(Queue()) && executed == old(executed + [runs[0]])
    {
      ghost var inOrder := Work.InOrder(Queue());
      if inOrder {
        Work.RunKeeps(Queue(), k, more);
        Work.RunIsOneTask(Queue(), k, more);
      }
      executed := executed + [runs[k]];
      runs := runs[..k] + runs[k + 1..];
      DoWork(more);
      flushing := false;
      if pending != [] {
        ScheduleFlush();
      }
    }

    method DoWork(more: nat)
      modifies `flushing, `pending, `runs, `submitted
      ensures Queue() == Work.DeferAll(old(Queue()), more)
    {
      var left := more;
      while left > 0
        invariant Work.DeferAll(Queue(), left) == Work.DeferAll(old(Queue()), more)
        invariant executed == old(executed) && flushes == old(flushes)
      {
        Defer();
        left := left - 1;
      }
    }

    method FlushCalled()
      requires flushes > 0
      modifies `flushing, `pending, `runs, `flushes
      ensures Queue() == Work.CallFlush(old(Queue()))
    {
      flushes := flushes - 1;
      Flush();
    }
  }
}
