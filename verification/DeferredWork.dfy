/** The idle-time work queue of the boot sequence (src/game/BootProgress.ts), as a protocol. */
module DeferredWork {
  /**
   * Tasks are numbered in the order they are submitted. `runs` and `flushes` are the callbacks the
   * platform still owes: runs of a task already taken from the queue, and calls of `flush`, which
   * are all alike. `idle` says whether the platform has any way to schedule.
   */
  datatype Queue = Queue(
    pending: seq<nat>, flushing: bool, runs: seq<nat>, flushes: nat, executed: seq<nat>, submitted: nat, idle: bool)

  function Fresh(idle: bool): (q: Queue) {
    Queue([], false, [], 0, [], 0, idle)
  }

  function Flush(q: Queue): (r: Queue) {
    if q.flushing || q.pending == [] then q
    else
      q.(flushing := true, pending := q.pending[1..], runs := if q.idle then q.runs + [q.pending[0]] else q.runs)
  }

  function Push(q: Queue): (r: Queue) {
    q.(pending := q.pending + [q.submitted], submitted := q.submitted + 1)
  }

  function Defer(q: Queue): (r: Queue) {
    Flush(Push(q))
  }

  function DeferAll(q: Queue, n: nat): (r: Queue)
    decreases n
  {
    if n == 0 then q else DeferAll(Defer(q), n - 1)
  }

  /** The platform calls the `k`th owed run; the task's own work defers `n` more. */
  function Work(q: Queue, k: nat, n: nat): (r: Queue)
    requires k < |q.runs|
  {
    DeferAll(q.(runs := q.runs[..k] + q.runs[k + 1..], executed := q.executed + [q.runs[k]]), n)
  }

  function Finish(q: Queue): (r: Queue) {
    q.(flushing := false, flushes := if q.pending != [] && q.idle then q.flushes + 1 else q.flushes)
  }

  function CallRun(q: Queue, k: nat, n: nat): (r: Queue)
    requires k < |q.runs|
  {
    Finish(Work(q, k, n))
  }

  function CallFlush(q: Queue): (r: Queue)
    requires q.flushes > 0
  {
    Flush(q.(flushes := q.flushes - 1))
  }

  function Reset(q: Queue): (r: Queue) {
    q.(pending := [])
  }

  /* ---------------------------------------------------------------- invariant */

  function Line(q: Queue): (all: seq<nat>) {
    q.executed + q.runs + q.pending
  }

  predicate Ascending(s: seq<nat>) {
    forall i, j :: 0 <= i < j < |s| ==> s[i] < s[j]
  }

  predicate Below(s: seq<nat>, n: nat) {
    forall i :: 0 <= i < |s| ==> s[i] < n
  }

  /**
   * Everything executed, in flight and waiting stands in submission order; a run is owed exactly
   * while the busy flag is up.
   */
  predicate InOrder(q: Queue) {
    && Ascending(Line(q))
    && Below(Line(q), q.submitted)
    && (q.idle ==> |q.runs| == if q.flushing then 1 else 0)
    && (!q.idle ==> q.runs == [] && q.flushes == 0)
  }

  /** Whenever tasks wait, some callback is owed. */
  predicate Awake(q: Queue) {
    q.pending != [] ==> q.runs != [] || q.flushes > 0
  }

  lemma FlushKeeps(q: Queue)
    requires InOrder(q)
    ensures InOrder(Flush(q)) && Flush(q).executed == q.executed
    ensures q.idle ==> Awake(Flush(q)) && Line(Flush(q)) == Line(q)
  {
    if !q.flushing && q.pending != [] {
      if q.idle {
        Shift(q.executed + q.runs, q.pending);
        assert q.executed + (q.runs + [q.pending[0]]) == q.executed + q.runs + [q.pending[0]];
      } else {
        Skip(q.executed + q.runs, q.pending, q.submitted);
      }
    }
  }

  lemma Shift(a: seq<nat>, b: seq<nat>)
    requires b != []
    ensures a + [b[0]] + b[1..] == a + b
  {
  }

  lemma Skip(a: seq<nat>, b: seq<nat>, n: nat)
    requires b != [] && Ascending(a + b) && Below(a + b, n)
    ensures Ascending(a + b[1..]) && Below(a + b[1..], n)
  {
    var s, t := a + b, a + b[1..];
    forall i, j | 0 <= i < j < |t| ensures t[i] < t[j] {
      var i', j' := if i < |a| then i else i + 1, if j < |a| then j else j + 1;
      assert t[i] == s[i'] && t[j] == s[j'];
    }
    forall i | 0 <= i < |t| ensures t[i] < n {
      assert t[i] == s[if i < |a| then i else i + 1];
    }
  }

  lemma PushKeeps(q: Queue)
    requires InOrder(q)
    ensures InOrder(Push(q)) && Line(Push(q)) == Line(q) + [q.submitted]
  {
    assert q.executed + q.runs + (q.pending + [q.submitted]) == Line(q) + [q.submitted];
  }

  lemma DeferKeeps(q: Queue)
    requires InOrder(q)
    ensures InOrder(Defer(q)) && Defer(q).executed == q.executed
    ensures q.idle ==> Awake(Defer(q)) && Line(Defer(q)) == Line(q) + [q.submitted]
  {
    PushKeeps(q);
    FlushKeeps(Push(q));
  }

  lemma DeferFields(q: Queue)
    ensures var r := Defer(q);
      r.submitted == q.submitted + 1 && r.idle == q.idle && r.flushes == q.flushes &&
      (q.flushing ==> r == Push(q))
  {
  }

  /** While the busy flag is up, deferring only appends to the queue. */
  lemma {:induction false} BusyDefers(q: Queue, n: nat)
    requires q.flushing
    ensures var r := DeferAll(q, n);
      r == q.(pending := q.pending + Numbers(q.submitted, n), submitted := q.submitted + n)
    decreases n
  {
    if n > 0 {
      DeferFields(q);
      BusyDefers(Defer(q), n - 1);
      assert q.pending + [q.submitted] + Numbers(q.submitted + 1, n - 1) == q.pending + Numbers(q.submitted, n);
    } else {
      assert q.pending + [] == q.pending;
    }
  }

  function Numbers(from: nat, n: nat): (s: seq<nat>)
    ensures |s| == n && forall i :: 0 <= i < n ==> s[i] == from + i
    decreases n
  {
    if n == 0 then [] else [from] + Numbers(from + 1, n - 1)
  }

  /** A run executes its own task, clears the flag, and owes a flush when anything waits. */
  lemma {:induction false} RunIsOneTask(q: Queue, k: nat, n: nat)
    requires InOrder(q) && k < |q.runs|
    ensures k == 0 && q.flushing && q.idle && |q.runs| == 1
    ensures var r := CallRun(q, k, n);
      r.executed == q.executed + [q.runs[0]] && r.runs == [] && !r.flushing &&
      r.pending == q.pending + Numbers(q.submitted, n) && r.submitted == q.submitted + n && r.idle == q.idle &&
      r.flushes == q.flushes + if r.pending == [] then 0 else 1
  {
    var taken := q.(runs := q.runs[..k] + q.runs[k + 1..], executed := q.executed + [q.runs[k]]);
    assert taken.runs == [];
    BusyDefers(taken, n);
  }

  lemma {:induction false} RunKeeps(q: Queue, k: nat, n: nat)
    requires InOrder(q) && k < |q.runs|
    ensures var r := CallRun(q, k, n);
      InOrder(r) && Awake(r) && Line(r) == Line(q) + Numbers(q.submitted, n)
  {
    RunIsOneTask(q, k, n);
    var r := CallRun(q, k, n);
    LineAfterRun(q.executed, q.runs, q.pending, Numbers(q.submitted, n));
    AppendNumbers(Line(q), q.submitted, n);
  }

  lemma LineAfterRun(e: seq<nat>, runs: seq<nat>, p: seq<nat>, more: seq<nat>)
    requires |runs| == 1
    ensures e + [runs[0]] + [] + (p + more) == e + runs + p + more
  {
  }

  lemma {:induction false} AppendNumbers(s: seq<nat>, from: nat, n: nat)
    requires Ascending(s) && Below(s, from)
    ensures Ascending(s + Numbers(from, n)) && Below(s + Numbers(from, n), from + n)
  {
    var t := s + Numbers(from, n);
    forall i, j | 0 <= i < j < |t| ensures t[i] < t[j] {
      if j < |s| {
      } else if i < |s| {
        assert t[i] == s[i] && t[j] == from + (j - |s|);
      } else {
        assert t[i] == from + (i - |s|) && t[j] == from + (j - |s|);
      }
    }
  }

  lemma ResetKeeps(q: Queue)
    requires InOrder(q)
    ensures InOrder(Reset(q)) && Awake(Reset(q)) && Reset(q).executed == q.executed
  {
    assert Line(Reset(q)) == (q.executed + q.runs + q.pending)[..|q.executed + q.runs|];
  }

  /* --------------------------------------------------------------------- runs */

  /** Work arrives from outside, the platform calls back in any order, a test resets. */
  datatype Event =
    | Deferred
    | RunCalled(k: nat, more: nat)
    | FlushCalled
    | WasReset

  predicate Enabled(q: Queue, e: Event) {
    match e
    case RunCalled(k, _) => k < |q.runs|
    case FlushCalled => q.flushes > 0
    case _ => true
  }

  function Step(q: Queue, e: Event): (r: Queue)
    requires Enabled(q, e)
  {
    match e
    case Deferred => Defer(q)
    case RunCalled(k, more) => CallRun(q, k, more)
    case FlushCalled => CallFlush(q)
    case WasReset => Reset(q)
  }

  predicate Possible(q: Queue, es: seq<Event>)
    decreases |es|
  {
    es == [] || (Enabled(q, es[0]) && Possible(Step(q, es[0]), es[1..]))
  }

  function Run(q: Queue, es: seq<Event>): (r: Queue)
    requires Possible(q, es)
    decreases |es|
  {
    if es == [] then q else Run(Step(q, es[0]), es[1..])
  }

  lemma StepKeeps(q: Queue, e: Event)
    requires InOrder(q) && Awake(q) && q.idle && Enabled(q, e)
    ensures InOrder(Step(q, e)) && Awake(Step(q, e)) && Step(q, e).idle
  {
    match e
    case Deferred =>
      DeferKeeps(q);
      DeferFields(q);
    case RunCalled(k, more) =>
      RunKeeps(q, k, more);
      RunIsOneTask(q, k, more);
    case FlushCalled =>
      var less := q.(flushes := q.flushes - 1);
      assert Line(less) == Line(q);
      FlushKeeps(less);
    case WasReset => ResetKeeps(q);
  }

  /** One callback executes one task at most, nothing else executes any, and none is ever taken back. */
  lemma StepExecutesAtMostOne(q: Queue, e: Event)
    requires InOrder(q) && Enabled(q, e)
    ensures Step(q, e).executed == (if e.RunCalled? then q.executed + [q.runs[0]] else q.executed)
  {
    match e
    case Deferred => DeferKeeps(q);
    case RunCalled(k, more) => RunIsOneTask(q, k, more);
    case FlushCalled =>
    case WasReset =>
  }

  /**
   * In every run, for any firing order, tasks execute in submission order, each at most once, and
   * no wake-up is lost.
   */
  lemma {:induction false} EveryRun(q: Queue, es: seq<Event>)
    requires InOrder(q) && Awake(q) && q.idle && Possible(q, es)
    ensures var r := Run(q, es);
      InOrder(r) && Awake(r) && r.idle
    decreases |es|
  {
    if es != [] {
      StepKeeps(q, es[0]);
      EveryRun(Step(q, es[0]), es[1..]);
    }
  }

  /* ----------------------------------------------- nothing is lost without a reset */

  /** Every task submitted is executed, in flight or waiting. */
  predicate Complete(q: Queue) {
    Line(q) == Numbers(0, q.submitted)
  }

  predicate NoReset(es: seq<Event>) {
    forall i :: 0 <= i < |es| ==> !es[i].WasReset?
  }

  lemma NumbersGrow(n: nat, m: nat)
    ensures Numbers(0, n) + Numbers(n, m) == Numbers(0, n + m)
  {
  }

  lemma StepKeepsComplete(q: Queue, e: Event)
    requires InOrder(q) && q.idle && Enabled(q, e) && Complete(q) && !e.WasReset?
    ensures Complete(Step(q, e))
  {
    match e
    case Deferred =>
      DeferKeeps(q);
      DeferFields(q);
      NumbersGrow(q.submitted, 1);
      assert Numbers(q.submitted, 1) == [q.submitted];
    case RunCalled(k, more) =>
      RunKeeps(q, k, more);
      RunIsOneTask(q, k, more);
      NumbersGrow(q.submitted, more);
    case FlushCalled =>
      var less := q.(flushes := q.flushes - 1);
      assert Line(less) == Line(q);
      FlushKeeps(less);
  }

  /** The platform owes nothing more. */
  predicate Quiet(q: Queue) {
    q.runs == [] && q.flushes == 0
  }

  lemma {:induction false} CompleteRun(q: Queue, es: seq<Event>)
    requires InOrder(q) && Awake(q) && q.idle && Complete(q) && Possible(q, es) && NoReset(es)
    ensures Complete(Run(q, es))
    decreases |es|
  {
    if es != [] {
      StepKeeps(q, es[0]);
      StepKeepsComplete(q, es[0]);
      CompleteRun(Step(q, es[0]), es[1..]);
    }
  }

  /** Once the platform has called everything it owes, every task has run, in the order submitted. */
  lemma {:induction false} QuietMeansAllDone(es: seq<Event>)
    requires Possible(Fresh(true), es) && NoReset(es) && Quiet(Run(Fresh(true), es))
    ensures var r := Run(Fresh(true), es);
      r.executed == Numbers(0, r.submitted)
  {
    var q := Fresh(true);
    assert Line(q) == [];
    EveryRun(q, es);
    CompleteRun(q, es);
    var r := Run(q, es);
    assert r.executed + [] + [] == r.executed;
  }

  /* --------------------------------------------------------------- it settles */

  /** A bound on the callbacks still to come. */
  function Debt(q: Queue): (d: nat) {
    3 * |q.pending| + 2 * |q.runs| + q.flushes
  }

  function Calls(es: seq<Event>): (n: nat)
    decreases |es|
  {
    if es == [] then 0 else (if es[0].RunCalled? || es[0].FlushCalled? then 1 else 0) + Calls(es[1..])
  }

  function Deferrals(es: seq<Event>): (n: nat)
    decreases |es|
  {
    if es == [] then 0
    else (if es[0].Deferred? then 1 else if es[0].RunCalled? then es[0].more else 0) + Deferrals(es[1..])
  }

  lemma StepPaysDebt(q: Queue, e: Event)
    requires InOrder(q) && q.idle && Enabled(q, e)
    ensures Debt(Step(q, e)) + Calls([e]) <= Debt(q) + 3 * Deferrals([e])
  {
    assert [e][1..] == [];
    match e
    case RunCalled(k, more) => RunIsOneTask(q, k, more);
    case _ =>
  }

  /** The platform is called back at most three times for each task, whatever the order. */
  lemma {:induction false} CallsAreBounded(q: Queue, es: seq<Event>)
    requires InOrder(q) && Awake(q) && q.idle && Possible(q, es)
    ensures Debt(Run(q, es)) + Calls(es) <= Debt(q) + 3 * Deferrals(es)
    decreases |es|
  {
    if es != [] {
      StepPaysDebt(q, es[0]);
      StepKeeps(q, es[0]);
      CallsAreBounded(Step(q, es[0]), es[1..]);
      SplitCounts(es[0], es[1..]);
      assert es == [es[0]] + es[1..];
    }
  }

  lemma {:induction false} SplitCounts(e: Event, es: seq<Event>)
    ensures Calls([e] + es) == Calls([e]) + Calls(es) && Deferrals([e] + es) == Deferrals([e]) + Deferrals(es)
  {
    assert [e][1..] == [] && ([e] + es)[1..] == es;
  }

  /* ------------------------------------------------------ without any scheduler */

  /** Without a way to schedule, nothing ever runs. */
  lemma {:induction false} NoSchedulerNoWork(q: Queue, es: seq<Event>)
    requires InOrder(q) && !q.idle && q.executed == [] && Possible(q, es)
    ensures Run(q, es).executed == [] && Quiet(Run(q, es))
    decreases |es|
  {
    if es != [] {
      if es[0] == Deferred {
        DeferKeeps(q);
        DeferFields(q);
      } else {
        ResetKeeps(q);
      }
      NoSchedulerNoWork(Step(q, es[0]), es[1..]);
    }
  }

  /** However the callbacks fire, waiting tasks have one coming. */
  ghost predicate LosesNoWakeUp(idle: bool) {
    forall es :: Possible(Fresh(idle), es) ==> Awake(Run(Fresh(idle), es))
  }

  /** Waiting tasks always have a wake-up coming exactly when the platform can schedule at all. */
  lemma AwakeExactlyWithAScheduler(idle: bool)
    ensures LosesNoWakeUp(idle) <==> idle
  {
    assert Line(Fresh(idle)) == [];
    if idle {
      forall es | Possible(Fresh(idle), es) ensures Awake(Run(Fresh(idle), es)) {
        EveryRun(Fresh(idle), es);
      }
    } else {
      TwoTasksStrand();
    }
  }

  /** With no scheduler the first task is taken and never run, and the second waits for good. */
  lemma TwoTasksStrand()
    ensures var es := [Deferred, Deferred];
      Possible(Fresh(false), es) && !Awake(Run(Fresh(false), es))
  {
    var q := Fresh(false);
    var one := Defer(q);
    var two := Defer(one);
    var es := [Deferred, Deferred];
    assert es[1..] == [Deferred] && [Deferred][1..] == [];
    assert Possible(one, [Deferred]) && Run(one, [Deferred]) == two;
    assert Possible(q, es) && Run(q, es) == two;
  }
}
