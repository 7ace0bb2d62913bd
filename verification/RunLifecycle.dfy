/**
 * One run and its sponsored breaks, as a state machine (src/game/Game.ts, src/game/adGate.ts): what a
 * player does, what a frame does, and what a promise does when it settles.
 */
module RunLifecycle {
  import opened Text
  import opened Traces
  import opened GameplayEvents

  datatype State = Menu | Playing | Paused | Continue | Ad | Gameover
  datatype Reason = ForContinue | Interstitial

  /** An ad promise the game is waiting for. */
  datatype Promise = ResumeBreak | ContinueReward | BonusReward

  /** What does not change during a run: the build, and the player's tier. */
  datatype Config = Config(portalBuild: bool, gold: bool, vip: bool)

  const AD_SAFETY_SECONDS := 60.0
  const AD_DURATION := 4.0
  const CONTINUE_TIMEOUT := 15.0

  /**
   * The fields of the game that the lifecycle reads and writes. `pending` holds the promises not
   * yet settled. `recordings`, `bonuses`, `paid` and `landedPlaying` are history: how often this
   * run was recorded, how often and how much its bonus was paid, and whether the adapter landed
   * in mid-flight.
   */
  datatype Life = Life(
    state: State,
    preAd: Option<State>,
    clock: real,
    adTimer: real,
    reason: Reason,
    continuesUsed: nat,
    continueTimer: real,
    recorded: bool,
    claimed: bool,
    skipOnce: bool,
    coins: nat,
    pending: seq<Promise>,
    sink: Sink,
    past: History)

  datatype History = History(recordings: nat, bonuses: nat, paid: nat, landedPlaying: bool)

  const BOOT := Life(
    Menu, None, 0.0, 0.0, Interstitial, 0, 0.0, false, false, false, 0, [], SILENT, History(0, 0, 0, false))

  datatype Event =
    | StartRun
    | GoToMenu
    | Pause
    | Resume(probe: bool)
    | Collect(n: nat)
    | DaylightOut(canCoins: bool, probe: bool, due: bool)
    | Finish(due: bool)
    | Frame(raw: real, due: bool)
    | ContinueCoins(spent: bool)
    | ContinueAd(probe: bool)
    | ContinueGold
    | ContinueSleep(due: bool)
    | AdSkip
    | AdGold(due: bool)
    | Multiply(probe: bool)
    | Settle(i: nat, earned: bool)
    | AdapterLands

  function MaxContinues(cfg: Config): (n: nat) {
    if cfg.gold then 99 else if cfg.vip then 2 else 1
  }

  /** `adsLive()`: a portal build, an adapter, and a probe that finds an ad surface. */
  predicate AdsLive(cfg: Config, s: Life, probe: bool) {
    cfg.portalBuild && s.sink.landed && probe
  }

  /** `adBreakCanEnd`: a portal break never ends by a button, a placeholder only after its countdown. */
  predicate BreakCanEnd(cfg: Config, s: Life) {
    !cfg.portalBuild && s.adTimer <= 0.0
  }

  function SetState(s: Life, t: State): (r: Life) {
    s.(state := t,
       preAd := if t == Ad then Some(s.state) else if s.state == Ad then None else s.preAd,
       clock := if t == Ad || s.state == Ad then 0.0 else s.clock,
       sink := if s.state == Playing && t != Playing then Send(s.sink, Stop)
               else if s.state != Playing && t == Playing then Send(s.sink, Start)
               else s.sink)
  }

  function ResetRun(s: Life): (r: Life) {
    s.(continuesUsed := 0, continueTimer := 0.0, recorded := false, claimed := false, coins := 0,
       past := s.past.(recordings := 0, bonuses := 0, paid := 0))
  }

  function FinishRun(cfg: Config, s: Life, due: bool): (r: Life) {
    if s.recorded then s
    else
      var t := s.(recorded := true, past := s.past.(recordings := s.past.recordings + 1));
      if due && !cfg.portalBuild && !cfg.gold && !s.skipOnce then
        SetState(t.(reason := Interstitial, adTimer := AD_DURATION), Ad).(skipOnce := false)
      else SetState(t, Gameover).(skipOnce := false)
  }

  function DoContinue(s: Life): (r: Life) {
    SetState(s.(continuesUsed := s.continuesUsed + 1), Playing)
  }

  function EndAd(s: Life): (r: Life) {
    if s.reason == ForContinue then DoContinue(s) else SetState(s, Gameover)
  }

  function PayBonus(s: Life): (r: Life) {
    s.(claimed := true, past := s.past.(bonuses := s.past.bonuses + 1, paid := s.past.paid + 2 * s.coins))
  }

  function OnDaylightOut(cfg: Config, s: Life, canCoins: bool, probe: bool, due: bool): (r: Life) {
    var canAd := if cfg.portalBuild then AdsLive(cfg, s, probe) else !cfg.gold && probe;
    if s.continuesUsed < MaxContinues(cfg) && (cfg.gold || canCoins || canAd) then
      SetState(s.(continueTimer := CONTINUE_TIMEOUT), Continue)
    else FinishRun(cfg, s, due)
  }

  /** The safety valve is about to fire: the break has held the game for too long. */
  predicate ValveFires(s: Life, e: Event) {
    e.Frame? && s.state == Ad && s.clock + e.raw > AD_SAFETY_SECONDS
  }

  function AbandonBreak(s: Life): (r: Life) {
    SetState(s, if s.preAd.None? || s.preAd == Some(Ad) then Gameover else s.preAd.value)
  }

  function OnFrame(cfg: Config, s: Life, raw: real, due: bool): (r: Life) {
    if s.state == Continue then
      var t := s.(continueTimer := s.continueTimer - raw);
      if t.continueTimer <= 0.0 then FinishRun(cfg, t, due) else t
    else if s.state == Ad then
      var t := s.(adTimer := s.adTimer - raw, clock := s.clock + raw);
      if t.clock > AD_SAFETY_SECONDS then AbandonBreak(t) else t
    else s
  }

  function OnSettle(s: Life, i: nat, earned: bool): (r: Life)
    requires i < |s.pending|
  {
    var t := s.(pending := s.pending[..i] + s.pending[i + 1..]);
    match s.pending[i]
    case ResumeBreak => if t.state == Paused || t.state == Ad then SetState(t, Playing) else t
    case ContinueReward => if earned then DoContinue(t) else SetState(t, Continue)
    case BonusReward =>
      var u := if earned then PayBonus(t) else t;
      if u.state == Ad then SetState(u, Gameover) else u
  }

  /** A break asked of the portal: the ad state, and a promise if there is anything to wait for. */
  function AskPortal(s: Life, p: Promise, live: bool): (r: Life) {
    var t := SetState(s, Ad);
    if live then t.(pending := t.pending + [p]) else t
  }

  function Step(cfg: Config, s: Life, e: Event): (r: Life) {
    match e
    case StartRun => if s.state == Ad || s.state == Continue then s else SetState(ResetRun(s), Playing)
    case GoToMenu => if s.state == Ad then s else SetState(ResetRun(s), Menu)
    case Pause => if s.state == Playing then SetState(s, Paused) else s
    case Resume(probe) =>
      if s.state != Paused then s
      else if AdsLive(cfg, s, probe) then AskPortal(s, ResumeBreak, true)
      else SetState(s, Playing)
    case Collect(n) => if s.state == Playing then s.(coins := s.coins + n) else s
    case DaylightOut(canCoins, probe, due) =>
      if s.state == Playing then OnDaylightOut(cfg, s, canCoins, probe, due) else s
    case Finish(due) => if s.state == Playing then FinishRun(cfg, s, due) else s
    case Frame(raw, due) => OnFrame(cfg, s, raw, due)
    case ContinueCoins(spent) => if s.state == Continue && spent then DoContinue(s) else s
    case ContinueAd(probe) =>
      if s.state != Continue || (cfg.portalBuild && !AdsLive(cfg, s, probe)) then s
      else if cfg.portalBuild then AskPortal(s, ContinueReward, true)
      else SetState(s.(reason := ForContinue, adTimer := AD_DURATION), Ad)
    case ContinueGold => if s.state == Continue && cfg.gold then DoContinue(s) else s
    case ContinueSleep(due) => if s.state == Continue then FinishRun(cfg, s, due) else s
    case AdSkip => if s.state == Ad && BreakCanEnd(cfg, s) then EndAd(s) else s
    case AdGold(due) =>
      if s.state != Ad || !BreakCanEnd(cfg, s) then s
      else if s.reason == ForContinue then FinishRun(cfg, s.(skipOnce := true), due)
      else SetState(s, Gameover)
    case Multiply(probe) =>
      if s.state != Gameover || s.claimed || s.coins == 0 then s
      else if cfg.portalBuild && s.sink.landed then AskPortal(s, BonusReward, AdsLive(cfg, s, probe))
      else PayBonus(s)
    case Settle(i, earned) => if i < |s.pending| then OnSettle(s, i, earned) else s
    case AdapterLands =>
      if s.sink.landed then s
      else
        var t := s.(sink := Land(s.sink), past := s.past.(landedPlaying := s.state == Playing));
        if t.state == Playing then t.(sink := Send(t.sink, Start)) else t
  }

  const FRAME_CAP := 0.25

  /** A frame delta is capped. It may be negative: a change of state sets the clock it is taken from. */
  predicate Possible(e: Event) {
    e.Frame? ==> e.raw <= FRAME_CAP
  }

  function Machine(cfg: Config): (step: (Life, Event) -> Life) {
    (s: Life, e: Event) => Step(cfg, s, e)
  }

  function Run(cfg: Config, s: Life, es: seq<Event>): (r: Life) {
    Fold(Machine(cfg), s, es)
  }

  lemma RunLast(cfg: Config, s: Life, es: seq<Event>, e: Event)
    ensures Run(cfg, s, es + [e]) == Step(cfg, Run(cfg, s, es), e)
  {
    FoldLast(Machine(cfg), s, es, e);
  }

  predicate AllPossible(es: seq<Event>) {
    forall i :: 0 <= i < |es| ==> Possible(es[i])
  }

  /* ----------------------------------------------- what every run keeps, valve or not */

  /**
   * The ad state is exactly when a state to go back to is stored, the wall clock never passes the
   * limit, and a run is recorded at most once.
   */
  predicate Basic(s: Life) {
    && (s.state == Ad <==> s.preAd.Some?)
    && s.preAd != Some(Ad)
    && s.clock <= AD_SAFETY_SECONDS
    && (s.state != Ad ==> s.clock == 0.0)
    && s.past.recordings == (if s.recorded then 1 else 0)
  }

  lemma FrameKeepsBasic(cfg: Config, s: Life, raw: real, due: bool)
    requires Basic(s)
    ensures Basic(OnFrame(cfg, s, raw, due))
  {
  }

  lemma SettleKeepsBasic(s: Life, i: nat, earned: bool)
    requires Basic(s) && i < |s.pending|
    ensures Basic(OnSettle(s, i, earned))
  {
    match s.pending[i] {
      case ResumeBreak =>
      case ContinueReward =>
      case BonusReward =>
    }
  }

  lemma StepKeepsBasic(cfg: Config, s: Life, e: Event)
    requires Basic(s) && Possible(e)
    ensures Basic(Step(cfg, s, e))
  {
    match e {
      case Frame(raw, due) => FrameKeepsBasic(cfg, s, raw, due);
      case Settle(i, earned) => if i < |s.pending| { SettleKeepsBasic(s, i, earned); }
      case DaylightOut(canCoins, probe, due) =>
        if s.state == Playing { DaylightKeepsBasic(cfg, s, canCoins, probe, due); }
      case _ =>
        if FlightAction(e) {
          FlightKeepsBasic(cfg, s, e);
        } else {
          BreakKeepsBasic(cfg, s, e);
        }
    }
  }

  /** The steps of a live run: no break is open or asked for. */
  predicate FlightAction(e: Event) {
    e.StartRun? || e.GoToMenu? || e.Pause? || e.Collect? || e.Finish? ||
    e.ContinueCoins? || e.ContinueGold? || e.ContinueSleep?
  }

  predicate BreakAction(e: Event) {
    e.Resume? || e.ContinueAd? || e.AdSkip? || e.AdGold? || e.Multiply? || e.AdapterLands?
  }

  lemma FlightKeepsBasic(cfg: Config, s: Life, e: Event)
    requires Basic(s) && FlightAction(e)
    ensures Basic(Step(cfg, s, e))
  {
    if e.StartRun? || e.GoToMenu? || e.Pause? || e.Collect? {
    } else {
    }
  }

  lemma BreakKeepsBasic(cfg: Config, s: Life, e: Event)
    requires Basic(s) && BreakAction(e)
    ensures Basic(Step(cfg, s, e))
  {
    if e.Resume? || e.ContinueAd? || e.Multiply? {
    } else {
    }
  }

  lemma DaylightKeepsBasic(cfg: Config, s: Life, canCoins: bool, probe: bool, due: bool)
    requires Basic(s) && s.state == Playing
    ensures Basic(OnDaylightOut(cfg, s, canCoins, probe, due))
  {
  }

  /**
   * The sink's last phase says whether the bird flies, and the portal first hears "stop" exactly
   * when the adapter landed in mid-flight.
   */
  predicate InStep(s: Life) {
    && Valid(s.sink)
    && (s.state == Playing <==> s.sink.last == Some(Start))
    && (s.sink.landed ==>
          if s.sink.heard == [] then s.state == Playing <==> s.past.landedPlaying
          else s.sink.heard[0] == Stop <==> s.past.landedPlaying)
  }

  /** Every change of state keeps the sink in step, because it is a change of these fields alone. */
  lemma SetStateKeepsInStep(s: Life, t: State)
    requires InStep(s)
    ensures InStep(SetState(s, t))
  {
    SendKeepsValid(s.sink, Start);
    SendKeepsValid(s.sink, Stop);
  }

  /** The start re-sent when the adapter lands is always swallowed: a flying bird already sent it. */
  lemma LateResendIsSwallowed(cfg: Config, s: Life)
    requires InStep(s) && !s.sink.landed
    ensures Step(cfg, s, AdapterLands).sink == Land(s.sink)
  {
  }

  /** `t` agrees with `s` on all that `InStep` looks at. */
  predicate SameFlight(s: Life, t: Life) {
    t.state == s.state && t.sink == s.sink && t.past.landedPlaying == s.past.landedPlaying
  }

  /** One step changes state at most twice, and otherwise leaves the sink alone. */
  predicate Moves(s: Life, t: Life) {
    || SameFlight(s, t)
    || SameFlight(SetState(s, t.state), t)
  }

  lemma StepMoves(cfg: Config, s: Life, e: Event)
    requires !e.AdapterLands?
    ensures Moves(s, Step(cfg, s, e))
  {
    match e {
      case Settle(i, earned) => if i < |s.pending| { SettleMoves(s, i, earned); }
      case DaylightOut(canCoins, probe, due) => DaylightMoves(cfg, s, canCoins, probe, due);
      case Frame(raw, due) => FrameMoves(cfg, s, raw, due);
      case AdGold(due) => FinishMoves(cfg, s.(skipOnce := true), due);
      case Finish(due) => FinishMoves(cfg, s, due);
      case ContinueSleep(due) => FinishMoves(cfg, s, due);
      case _ => ActionMoves(cfg, s, e);
    }
  }

  lemma ActionMoves(cfg: Config, s: Life, e: Event)
    requires !e.Frame? && !e.Settle? && !e.DaylightOut? && !e.AdGold?
    requires !e.Finish? && !e.ContinueSleep? && !e.AdapterLands?
    ensures Moves(s, Step(cfg, s, e))
  {
    if e.StartRun? || e.GoToMenu? || e.Pause? || e.Resume? || e.Collect? {
    } else if e.ContinueCoins? || e.ContinueAd? || e.ContinueGold? {
    } else {
    }
  }

  lemma FinishMoves(cfg: Config, s: Life, due: bool)
    ensures Moves(s, FinishRun(cfg, s, due))
  {
  }

  lemma FrameMoves(cfg: Config, s: Life, raw: real, due: bool)
    ensures Moves(s, OnFrame(cfg, s, raw, due))
  {
  }

  lemma DaylightMoves(cfg: Config, s: Life, canCoins: bool, probe: bool, due: bool)
    ensures Moves(s, OnDaylightOut(cfg, s, canCoins, probe, due))
  {
  }

  lemma SettleMoves(s: Life, i: nat, earned: bool)
    requires i < |s.pending|
    ensures Moves(s, OnSettle(s, i, earned))
  {
    match s.pending[i] {
      case ResumeBreak =>
      case ContinueReward =>
      case BonusReward =>
    }
  }

  lemma StepKeepsInStep(cfg: Config, s: Life, e: Event)
    requires InStep(s)
    ensures InStep(Step(cfg, s, e))
  {
    if !e.AdapterLands? {
      StepMoves(cfg, s, e);
      SetStateKeepsInStep(s, Step(cfg, s, e).state);
    }
  }

  lemma {:induction false} RunKeepsBasic(cfg: Config, s: Life, es: seq<Event>)
    requires Basic(s) && InStep(s) && AllPossible(es)
    ensures Basic(Run(cfg, s, es)) && InStep(Run(cfg, s, es))
    decreases |es|
  {
    if es != [] {
      StepKeepsBasic(cfg, s, es[0]);
      StepKeepsInStep(cfg, s, es[0]);
      RunKeepsBasic(cfg, Step(cfg, s, es[0]), es[1..]);
    }
  }

  /**
   * Recorded at most once, in the ad state exactly when there is a state to go back to, and strict
   * alternation at the portal, with a first "stop" exactly when the adapter landed in mid-flight.
   */
  predicate Orderly(s: Life) {
    && s.past.recordings <= 1
    && (s.state == Ad <==> s.preAd.Some?)
    && Alternates(s.sink.heard)
    && (s.sink.heard != [] ==> (s.sink.heard[0] == Stop <==> s.past.landedPlaying))
  }

  /** From boot, over every sequence of events. */
  lemma EveryRun(cfg: Config, es: seq<Event>)
    requires AllPossible(es)
    ensures Orderly(Run(cfg, BOOT, es))
  {
    RunKeepsBasic(cfg, BOOT, es);
  }

  /* ----------------------------------------------------- runs whose breaks end in time */

  /** The run can still be flown: it must not have been recorded, and no promise may be open. */
  predicate Live(s: Life) {
    s.state == Playing || s.state == Paused || s.state == Continue
  }

  /** The interstitial `FinishRun` opened: a placeholder with nothing to grant. */
  predicate InFinishBreak(cfg: Config, s: Life) {
    s.state == Ad && s.pending == [] && !cfg.portalBuild && s.reason == Interstitial
  }

  /** An open promise belongs to the break on screen. */
  predicate PendingFits(cfg: Config, s: Life) {
    s.pending != [] ==>
      && |s.pending| == 1 && cfg.portalBuild && s.sink.landed && s.state == Ad
      && match s.pending[0]
         case ResumeBreak => s.preAd == Some(Paused) && !s.recorded
         case ContinueReward => s.preAd == Some(Continue) && !s.recorded && s.continuesUsed < MaxContinues(cfg)
         case BonusReward => s.preAd == Some(Gameover) && !s.claimed && s.coins > 0
  }

  /** A break nobody promised to end is a placeholder, or a bonus break without an ad surface. */
  predicate PlaceholderFits(cfg: Config, s: Life) {
    s.state == Ad && s.pending == [] ==>
      if cfg.portalBuild then s.preAd == Some(Gameover)
      else if s.reason == ForContinue then
        s.preAd == Some(Continue) && !s.recorded && s.continuesUsed < MaxContinues(cfg)
      else s.recorded && (s.preAd == Some(Playing) || s.preAd == Some(Continue))
  }

  predicate Safe(cfg: Config, s: Life) {
    && Basic(s)
    && (Live(s) ==> !s.recorded)
    && PendingFits(cfg, s)
    && PlaceholderFits(cfg, s)
    && s.continuesUsed <= MaxContinues(cfg)
    && (s.state == Continue ==> s.continuesUsed < MaxContinues(cfg))
    && s.past.bonuses == (if s.claimed then 1 else 0)
    && s.past.paid == (if s.claimed then 2 * s.coins else 0)
    && (s.claimed ==> s.state == Gameover)
  }

  /** Nothing is lost by abandoning this break: no promise is open, and the run was not just recorded. */
  predicate BenignToAbandon(cfg: Config, s: Life) {
    s.pending == [] && !InFinishBreak(cfg, s)
  }

  lemma FinishKeepsSafe(cfg: Config, s: Life, due: bool)
    requires Basic(s) && (s.state == Playing || s.state == Continue || (s.state == Ad && s.skipOnce))
    requires s.pending == [] && !s.recorded && !s.claimed
    requires s.continuesUsed <= MaxContinues(cfg) && s.past.bonuses == 0 && s.past.paid == 0
    ensures Safe(cfg, FinishRun(cfg, s, due))
  {
  }

  lemma ContinueKeepsSafe(cfg: Config, s: Life)
    requires Basic(s) && s.pending == [] && !s.recorded && !s.claimed
    requires s.continuesUsed < MaxContinues(cfg) && s.past.bonuses == 0 && s.past.paid == 0
    ensures Safe(cfg, DoContinue(s))
  {
  }

  lemma FlightKeepsSafe(cfg: Config, s: Life, e: Event)
    requires Safe(cfg, s) && FlightAction(e)
    ensures Safe(cfg, Step(cfg, s, e))
  {
    match e {
      case Finish(due) => if s.state == Playing { FinishKeepsSafe(cfg, s, due); }
      case ContinueSleep(due) => if s.state == Continue { FinishKeepsSafe(cfg, s, due); }
      case ContinueCoins(_) => if s.state == Continue { ContinueKeepsSafe(cfg, s); }
      case ContinueGold => if s.state == Continue { ContinueKeepsSafe(cfg, s); }
      case _ => NavigationKeepsSafe(cfg, s, e);
    }
  }

  lemma NavigationKeepsSafe(cfg: Config, s: Life, e: Event)
    requires Safe(cfg, s) && (e.StartRun? || e.GoToMenu? || e.Pause? || e.Collect?)
    ensures Safe(cfg, Step(cfg, s, e))
  {
  }

  lemma DaylightKeepsSafe(cfg: Config, s: Life, canCoins: bool, probe: bool, due: bool)
    requires Safe(cfg, s) && s.state == Playing
    ensures Safe(cfg, OnDaylightOut(cfg, s, canCoins, probe, due))
  {
    FinishKeepsSafe(cfg, s, due);
  }

  lemma BreakStartKeepsSafe(cfg: Config, s: Life, e: Event)
    requires Safe(cfg, s) && (e.Resume? || e.ContinueAd? || e.Multiply? || e.AdapterLands?)
    ensures Safe(cfg, Step(cfg, s, e))
  {
    match e {
      case Resume(_) =>
      case ContinueAd(_) =>
      case Multiply(_) =>
      case AdapterLands =>
    }
  }

  lemma BreakEndKeepsSafe(cfg: Config, s: Life, e: Event)
    requires Safe(cfg, s) && (e.AdSkip? || e.AdGold?)
    ensures Safe(cfg, Step(cfg, s, e))
  {
    if s.state == Ad && BreakCanEnd(cfg, s) && s.reason == ForContinue {
      if e.AdSkip? {
        ContinueKeepsSafe(cfg, s);
      } else {
        FinishKeepsSafe(cfg, s.(skipOnce := true), e.due);
      }
    }
  }

  lemma SettleKeepsSafe(cfg: Config, s: Life, i: nat, earned: bool)
    requires Safe(cfg, s) && i < |s.pending|
    ensures Safe(cfg, OnSettle(s, i, earned))
  {
    var t := s.(pending := s.pending[..i] + s.pending[i + 1..]);
    assert t.pending == [];
    match s.pending[i] {
      case ResumeBreak =>
      case ContinueReward => if earned { ContinueKeepsSafe(cfg, t); }
      case BonusReward =>
    }
  }

  lemma FrameKeepsSafe(cfg: Config, s: Life, raw: real, due: bool)
    requires Safe(cfg, s) && !ValveFires(s, Frame(raw, due))
    ensures Safe(cfg, OnFrame(cfg, s, raw, due))
  {
    if s.state == Continue {
      FinishKeepsSafe(cfg, s.(continueTimer := s.continueTimer - raw), due);
    }
  }

  lemma StepKeepsSafe(cfg: Config, s: Life, e: Event)
    requires Safe(cfg, s) && Possible(e)
    requires ValveFires(s, e) ==> BenignToAbandon(cfg, s)
    ensures Safe(cfg, Step(cfg, s, e))
  {
    match e {
      case Frame(raw, due) =>
        if ValveFires(s, e) {
          BenignValveKeepsSafe(cfg, s, raw, due);
        } else {
          FrameKeepsSafe(cfg, s, raw, due);
        }
      case Settle(i, earned) => if i < |s.pending| { SettleKeepsSafe(cfg, s, i, earned); }
      case DaylightOut(canCoins, probe, due) =>
        if s.state == Playing { DaylightKeepsSafe(cfg, s, canCoins, probe, due); }
      case AdSkip => BreakEndKeepsSafe(cfg, s, e);
      case AdGold(_) => BreakEndKeepsSafe(cfg, s, e);
      case _ =>
        if FlightAction(e) {
          FlightKeepsSafe(cfg, s, e);
        } else {
          BreakStartKeepsSafe(cfg, s, e);
        }
    }
  }

  lemma BenignValveKeepsSafe(cfg: Config, s: Life, raw: real, due: bool)
    requires Safe(cfg, s) && ValveFires(s, Frame(raw, due)) && BenignToAbandon(cfg, s)
    ensures Safe(cfg, OnFrame(cfg, s, raw, due))
  {
    FrameKeepsBasic(cfg, s, raw, due);
  }

  /** No break is abandoned while something hangs on it. */
  predicate BreaksEndInTime(cfg: Config, s: Life, es: seq<Event>)
    decreases |es|
  {
    es == [] ||
    ((ValveFires(s, es[0]) ==> BenignToAbandon(cfg, s)) && BreaksEndInTime(cfg, Step(cfg, s, es[0]), es[1..]))
  }

  lemma {:induction false} RunKeepsSafe(cfg: Config, s: Life, es: seq<Event>)
    requires Safe(cfg, s) && AllPossible(es) && BreaksEndInTime(cfg, s, es)
    ensures Safe(cfg, Run(cfg, s, es))
    decreases |es|
  {
    if es != [] {
      StepKeepsSafe(cfg, s, es[0]);
      RunKeepsSafe(cfg, Step(cfg, s, es[0]), es[1..]);
    }
  }

  /**
   * The once-per-run limits: a run is recorded at most once and then never live, no tier gets more
   * continues than it has, and the bonus is paid at most once, at most twice the coins of the run.
   */
  predicate WithinLimits(cfg: Config, s: Life) {
    && s.past.recordings <= 1
    && (s.recorded ==> !Live(s))
    && s.continuesUsed <= MaxContinues(cfg)
    && s.past.bonuses <= 1
    && s.past.paid <= 2 * s.coins
  }

  /** The limits hold in every interleaving of actions, frames and settlements in which breaks end in time. */
  lemma {:induction false} OncePerRun(cfg: Config, es: seq<Event>)
    requires AllPossible(es) && BreaksEndInTime(cfg, BOOT, es)
    ensures WithinLimits(cfg, Run(cfg, BOOT, es))
  {
    RunKeepsSafe(cfg, BOOT, es);
  }

  predicate NewRun(e: Event) {
    e.StartRun? || e.GoToMenu?
  }

  /** Once recorded, a run stays recorded and is never flown again, whatever happens until the next one. */
  lemma {:induction false} RecordedStaysOver(cfg: Config, s: Life, es: seq<Event>)
    requires Safe(cfg, s) && s.recorded && AllPossible(es) && BreaksEndInTime(cfg, s, es)
    requires forall i :: 0 <= i < |es| ==> !NewRun(es[i])
    ensures var t := Run(cfg, s, es); t.recorded && !Live(t)
    decreases |es|
  {
    if es != [] {
      StepKeepsSafe(cfg, s, es[0]);
      RecordedIsKept(cfg, s, es[0]);
      RecordedStaysOver(cfg, Step(cfg, s, es[0]), es[1..]);
    }
  }

  lemma RecordedIsKept(cfg: Config, s: Life, e: Event)
    requires s.recorded && !NewRun(e)
    ensures Step(cfg, s, e).recorded
  {
    match e {
      case Settle(i, earned) =>
      case Frame(raw, due) =>
      case DaylightOut(canCoins, probe, due) =>
      case _ =>
    }
  }

  /* ------------------------------------------------------------------- the ad state */

  /** During a break every action is swallowed whole, unless a placeholder's countdown is over. */
  lemma BreakSwallowsActions(cfg: Config, s: Life, e: Event)
    requires s.state == Ad && !BreakCanEnd(cfg, s)
    requires !e.Frame? && !e.Settle? && !e.AdapterLands?
    ensures Step(cfg, s, e) == s
  {
  }

  /** Only a settled promise, the safety valve, or a finished placeholder countdown ends a break. */
  lemma BreakExits(cfg: Config, s: Life, e: Event)
    requires s.state == Ad && Step(cfg, s, e).state != Ad
    ensures e.Settle? || ValveFires(s, e) || ((e.AdSkip? || e.AdGold?) && BreakCanEnd(cfg, s))
  {
    match e {
      case Settle(_, _) =>
      case AdSkip =>
      case AdGold(_) =>
      case AdapterLands =>
      case Frame(_, _) =>
      case _ => BreakIgnores(cfg, s, e);
    }
  }

  function FrameTime(es: seq<Event>): (t: real)
    decreases |es|
  {
    if es == [] then 0.0 else (if es[0].Frame? then es[0].raw else 0.0) + FrameTime(es[1..])
  }

  predicate StaysInAd(cfg: Config, s: Life, es: seq<Event>)
    decreases |es|
  {
    s.state == Ad && (es == [] || StaysInAd(cfg, Step(cfg, s, es[0]), es[1..]))
  }

  /**
   * While the game stays in the ad state, the wall clock has counted exactly the frames processed;
   * so the game has left the ad state by the time their sum passes the safety limit.
   */
  lemma {:induction false} BreakCannotTrap(cfg: Config, s: Life, es: seq<Event>)
    requires Basic(s) && AllPossible(es) && StaysInAd(cfg, s, es)
    ensures Run(cfg, s, es).clock == s.clock + FrameTime(es)
    ensures s.clock + FrameTime(es) <= AD_SAFETY_SECONDS
    decreases |es|
  {
    if es != [] {
      StepKeepsBasic(cfg, s, es[0]);
      ClockCountsFrames(cfg, s, es[0]);
      BreakCannotTrap(cfg, Step(cfg, s, es[0]), es[1..]);
    }
  }

  /** Actions that are not about the break do nothing to it. */
  lemma BreakIgnores(cfg: Config, s: Life, e: Event)
    requires s.state == Ad && !e.Frame? && !e.Settle? && !e.AdapterLands? && !e.AdSkip? && !e.AdGold?
    ensures Step(cfg, s, e) == s
  {
  }

  lemma ClockCountsFrames(cfg: Config, s: Life, e: Event)
    requires Basic(s) && Possible(e) && s.state == Ad && Step(cfg, s, e).state == Ad
    ensures Step(cfg, s, e).clock == s.clock + if e.Frame? then e.raw else 0.0
  {
    match e {
      case Settle(i, earned) => if i < |s.pending| { SettleLeavesAd(s, i, earned); }
      case AdSkip =>
      case AdGold(due) =>
      case AdapterLands =>
      case Frame(_, _) =>
      case _ => BreakIgnores(cfg, s, e);
    }
  }

  /** Whatever promise settles during a break, the break is over. */
  lemma SettleLeavesAd(s: Life, i: nat, earned: bool)
    requires s.state == Ad && i < |s.pending|
    ensures OnSettle(s, i, earned).state != Ad
  {
  }
}
