/** What each event does to a run, and that every return to flight is paid for (src/game/Game.ts). */
module RunOutcomes {
  import opened Text
  import opened Traces
  import opened GameplayEvents
  import opened RunLifecycle
  import opened AbandonedBreaks

  /** Nothing counted has changed: continues, coins, claims, recordings. */
  predicate SameCounts(s: Life, t: Life) {
    && t.continuesUsed == s.continuesUsed && t.coins == s.coins
    && t.recorded == s.recorded && t.claimed == s.claimed
    && t.past.recordings == s.past.recordings && t.past.bonuses == s.past.bonuses && t.past.paid == s.past.paid
  }

  /** The counts change by one continue and nothing else. */
  predicate OneContinueMore(s: Life, t: Life) {
    t.continuesUsed == s.continuesUsed + 1 && SameCounts(s, t.(continuesUsed := s.continuesUsed))
  }

  /** The bonus is claimed now and paid as twice the coins, and nothing else changes. */
  predicate BonusPaid(s: Life, t: Life) {
    && t.claimed && t.past.bonuses == s.past.bonuses + 1 && t.past.paid == s.past.paid + 2 * s.coins
    && t.continuesUsed == s.continuesUsed && t.coins == s.coins && t.recorded == s.recorded
    && t.past.recordings == s.past.recordings
  }

  /** A break begins: the ad state, with the way back stored and the clock at zero. */
  predicate BreakBegins(s: Life, t: Life) {
    t.state == Ad && t.preAd == Some(s.state) && t.clock == 0.0 && SameCounts(s, t)
  }

  /** The break is over: no way back is stored. */
  predicate BreakIsOver(t: Life) {
    t.state != Ad && t.preAd.None? && t.clock == 0.0
  }

  predicate PromiseGone(s: Life, t: Life, i: nat)
    requires i < |s.pending|
  {
    t.pending == s.pending[..i] + s.pending[i + 1..]
  }

  /* ------------------------------------------------------------------ settlements */

  /** A refused continue reward leads back to the offer; nothing is granted and nothing spent. */
  lemma RefusedContinue(cfg: Config, s: Life, i: nat)
    requires i < |s.pending| && s.pending[i] == ContinueReward
    ensures var t := Step(cfg, s, Settle(i, false));
      t.state == Continue && SameCounts(s, t) && PromiseGone(s, t, i) && (s.state == Ad ==> BreakIsOver(t))
  {
  }

  /** An earned one flies the run, for one continue. */
  lemma EarnedContinue(cfg: Config, s: Life, i: nat)
    requires i < |s.pending| && s.pending[i] == ContinueReward
    ensures var t := Step(cfg, s, Settle(i, true));
      t.state == Playing && OneContinueMore(s, t) && PromiseGone(s, t, i) && (s.state == Ad ==> BreakIsOver(t))
  {
  }

  /** A refused bonus leads back to the results, unclaimed. */
  lemma RefusedBonus(cfg: Config, s: Life, i: nat)
    requires i < |s.pending| && s.pending[i] == BonusReward
    ensures var t := Step(cfg, s, Settle(i, false));
      t.state == (if s.state == Ad then Gameover else s.state) && SameCounts(s, t) && PromiseGone(s, t, i) &&
      (s.state == Ad ==> BreakIsOver(t))
  {
  }

  /** An earned bonus pays twice the coins. */
  lemma EarnedBonus(cfg: Config, s: Life, i: nat)
    requires i < |s.pending| && s.pending[i] == BonusReward
    ensures var t := Step(cfg, s, Settle(i, true));
      t.state == (if s.state == Ad then Gameover else s.state) && BonusPaid(s, t) && PromiseGone(s, t, i) &&
      (s.state == Ad ==> BreakIsOver(t))
  {
  }

  /** A break before resuming ends in flight if the player still waits for it, whatever its result. */
  lemma ResumeSettles(cfg: Config, s: Life, i: nat, earned: bool)
    requires i < |s.pending| && s.pending[i] == ResumeBreak
    ensures var t := Step(cfg, s, Settle(i, earned));
      t.state == (if s.state == Paused || s.state == Ad then Playing else s.state) && SameCounts(s, t) &&
      PromiseGone(s, t, i) && (s.state == Ad ==> BreakIsOver(t))
  {
  }

  /* ---------------------------------------------------------------------- buttons */

  /** Coins or gold buy a continue on offer, and only there. */
  lemma BoughtContinue(cfg: Config, s: Life, spent: bool)
    ensures var t := Step(cfg, s, ContinueCoins(spent));
      if s.state == Continue && spent then t.state == Playing && OneContinueMore(s, t) else t == s
    ensures var t := Step(cfg, s, ContinueGold);
      if s.state == Continue && cfg.gold then t.state == Playing && OneContinueMore(s, t) else t == s
  {
  }

  /** An ad for a continue opens a break: the portal's with a promise, or the build's own for 4 seconds. */
  lemma AskedContinue(cfg: Config, s: Life, probe: bool)
    ensures var t := Step(cfg, s, ContinueAd(probe));
      if s.state != Continue || (cfg.portalBuild && !(s.sink.landed && probe)) then t == s
      else
        BreakBegins(s, t) &&
        if cfg.portalBuild then t.pending == s.pending + [ContinueReward]
        else t.pending == s.pending && t.reason == ForContinue && t.adTimer == 4.0
  {
  }

  /** An own break whose countdown is over continues the run it was for, or shows the results. */
  lemma OwnBreakEnds(cfg: Config, s: Life)
    ensures var t := Step(cfg, s, AdSkip);
      if s.state != Ad || cfg.portalBuild || s.adTimer > 0.0 then t == s
      else
        BreakIsOver(t) &&
        if s.reason == ForContinue then t.state == Playing && OneContinueMore(s, t)
        else t.state == Gameover && SameCounts(s, t)
  {
  }

  /** The run's first finish: it is recorded and leads to an interstitial or to the results. */
  predicate Finished(cfg: Config, s: Life, t: Life, due: bool, spared: bool) {
    && t.recorded && t.past.recordings == s.past.recordings + 1 && !t.skipOnce
    && SameCounts(s, t.(recorded := s.recorded, past := t.past.(recordings := s.past.recordings)))
    && t.pending == s.pending
    && if due && !cfg.portalBuild && !cfg.gold && !spared then
         t.state == Ad && t.preAd == Some(s.state) && t.reason == Interstitial && t.adTimer == 4.0
       else t.state == Gameover
  }

  /** Buying the ads away finishes a run that was to be continued, without a second break. */
  lemma AdsBoughtAway(cfg: Config, s: Life, due: bool)
    ensures var t := Step(cfg, s, AdGold(due));
      if s.state != Ad || cfg.portalBuild || s.adTimer > 0.0 then t == s
      else if s.reason != ForContinue then BreakIsOver(t) && t.state == Gameover && SameCounts(s, t)
      else if s.recorded then t == s.(skipOnce := true)
      else Finished(cfg, s, t, due, true) && BreakIsOver(t)
  {
  }

  /** A landed run and an offer slept through finish the run; so does one that was recorded only once. */
  lemma RunFinishes(cfg: Config, s: Life, due: bool)
    ensures var t := Step(cfg, s, Finish(due));
      if s.state != Playing || s.recorded then t == s else Finished(cfg, s, t, due, s.skipOnce)
    ensures var t := Step(cfg, s, ContinueSleep(due));
      if s.state != Continue || s.recorded then t == s else Finished(cfg, s, t, due, s.skipOnce)
  {
  }

  /** At sunset a continue is offered for 15 seconds while the tier has one left and there is a way to pay for it. */
  lemma SunsetOffers(cfg: Config, s: Life, canCoins: bool, probe: bool, due: bool)
    requires s.state == Playing && !s.recorded
    ensures var t := Step(cfg, s, DaylightOut(canCoins, probe, due));
      var tier := if cfg.gold then 99 else if cfg.vip then 2 else 1;
      var ad := if cfg.portalBuild then s.sink.landed && probe else !cfg.gold && probe;
      if s.continuesUsed < tier && (cfg.gold || canCoins || ad) then
        t.state == Continue && t.continueTimer == 15.0 && SameCounts(s, t) && t.pending == s.pending
      else Finished(cfg, s, t, due, s.skipOnce)
  {
  }

  /** The bonus is asked of a landed portal, with a promise where it has an ad, or paid on the spot. */
  lemma BonusAsked(cfg: Config, s: Life, probe: bool)
    ensures var t := Step(cfg, s, Multiply(probe));
      if s.state != Gameover || s.claimed || s.coins == 0 then t == s
      else if cfg.portalBuild && s.sink.landed then
        BreakBegins(s, t) && t.pending == s.pending + if probe then [BonusReward] else []
      else BonusPaid(s, t) && t.state == s.state && t.pending == s.pending
  {
  }

  /** Pausing and resuming count nothing; resuming asks a landed portal with an ad for a break first. */
  lemma PauseAndResume(cfg: Config, s: Life, probe: bool)
    ensures var t := Step(cfg, s, Pause);
      if s.state == Playing then t.state == Paused && SameCounts(s, t) else t == s
    ensures var t := Step(cfg, s, Resume(probe));
      if s.state != Paused then t == s
      else if cfg.portalBuild && s.sink.landed && probe then
        BreakBegins(s, t) && t.pending == s.pending + [ResumeBreak]
      else t.state == Playing && SameCounts(s, t) && t.pending == s.pending
  {
  }

  /** A new run counts from zero; one cannot be begun in a break or at an offer, nor left in a break. */
  lemma RunBegins(cfg: Config, s: Life)
    ensures var t := Step(cfg, s, StartRun);
      if s.state == Ad || s.state == Continue then t == s else t.state == Playing && CountsNothing(t)
    ensures var t := Step(cfg, s, GoToMenu);
      if s.state == Ad then t == s else t.state == Menu && CountsNothing(t)
  {
  }

  predicate CountsNothing(t: Life) {
    && t.continuesUsed == 0 && t.coins == 0 && !t.recorded && !t.claimed && t.continueTimer == 0.0
    && t.past.recordings == 0 && t.past.bonuses == 0 && t.past.paid == 0
  }

  /** Coins are picked up in flight and nowhere else. */
  lemma CoinsCollected(cfg: Config, s: Life, n: nat)
    ensures var t := Step(cfg, s, Collect(n));
      if s.state == Playing then t == s.(coins := s.coins + n) else t == s
  {
  }

  /** A frame counts an offer down to the run's finish, a break down and up to the valve, and nothing else. */
  lemma FramePasses(cfg: Config, s: Life, raw: real, due: bool)
    requires !s.recorded || s.state != Continue
    ensures var t := Step(cfg, s, Frame(raw, due));
      match s.state
      case Continue =>
        if s.continueTimer <= raw then Finished(cfg, s, t, due, s.skipOnce)
        else t == s.(continueTimer := s.continueTimer - raw)
      case Ad =>
        if s.clock + raw <= 60.0 then t == s.(adTimer := s.adTimer - raw, clock := s.clock + raw)
        else
          SameCounts(s, t) && BreakIsOver(t) && t.pending == s.pending &&
          t.state == if s.preAd.None? || s.preAd == Some(Ad) then Gameover else s.preAd.value
      case _ => t == s
  {
  }

  /* --------------------------------------------- every return to flight is counted */

  /** The run is at an offer, or in a break that was opened from one. */
  predicate AtOffer(s: Life) {
    s.state == Continue || (s.state == Ad && s.preAd == Some(Continue))
  }

  /** This step flies a run that was at an offer. */
  predicate Returns(cfg: Config, s: Life, e: Event) {
    AtOffer(s) && Step(cfg, s, e).state == Playing
  }

  /** A break before resuming, settled late, during an offer's break. */
  predicate SettlesResume(s: Life, e: Event) {
    e.Settle? && e.i < |s.pending| && s.pending[e.i] == ResumeBreak && s.state == Ad
  }

  /**
   * From any state whatever, a return from the offer or its break is counted as one continue, and
   * goes uncounted exactly when it is a late resume break that settles. The valve never returns one.
   */
  lemma ReturnCountsExactly(cfg: Config, s: Life, e: Event)
    requires Returns(cfg, s, e)
    ensures var t := Step(cfg, s, e);
      if SettlesResume(s, e) then t.continuesUsed == s.continuesUsed else t.continuesUsed == s.continuesUsed + 1
    ensures !ValveFires(s, e)
  {
    match e {
      case Settle(i, earned) =>
        assert i < |s.pending|;
        match s.pending[i] {
          case ResumeBreak => ResumeSettles(cfg, s, i, earned);
          case ContinueReward => if earned { EarnedContinue(cfg, s, i); } else { RefusedContinue(cfg, s, i); }
          case BonusReward => if earned { EarnedBonus(cfg, s, i); } else { RefusedBonus(cfg, s, i); }
        }
      case Frame(_, _) =>
      case _ => ActionReturns(cfg, s, e);
    }
  }

  lemma ActionReturns(cfg: Config, s: Life, e: Event)
    requires Returns(cfg, s, e) && !e.Settle? && !e.Frame?
    ensures Step(cfg, s, e).continuesUsed == s.continuesUsed + 1
  {
    match e {
      case ContinueCoins(_) =>
      case ContinueGold =>
      case AdSkip =>
      case AdGold(_) =>
      case _ =>
    }
  }

  /** While breaks end in time no such settlement is possible at an offer, so every return is counted. */
  lemma SafeReturnCounts(cfg: Config, s: Life, e: Event)
    requires Safe(cfg, s) && Returns(cfg, s, e)
    ensures Step(cfg, s, e).continuesUsed == s.continuesUsed + 1
  {
    ReturnCountsExactly(cfg, s, e);
  }

  /** A step begins a new run: from then on counts start from zero. */
  predicate Begins(s: Life, e: Event) {
    (e.StartRun? && s.state != Ad && s.state != Continue) || (e.GoToMenu? && s.state != Ad)
  }

  /** What a run should have counted, told from what was seen of it: returns to flight, and coins in flight. */
  datatype Ledger = Ledger(flown: nat, coins: nat)

  function Entered(cfg: Config, s: Life, e: Event, l: Ledger): (r: Ledger) {
    if Begins(s, e) then Ledger(0, 0)
    else
      Ledger(
        l.flown + (if Returns(cfg, s, e) then 1 else 0),
        l.coins + (if e.Collect? && s.state == Playing then e.n else 0))
  }

  function Kept(cfg: Config, s: Life, l: Ledger, es: seq<Event>): (r: Ledger)
    decreases |es|
  {
    if es == [] then l else Kept(cfg, Step(cfg, s, es[0]), Entered(cfg, s, es[0], l), es[1..])
  }

  predicate Balanced(s: Life, l: Ledger) {
    s.continuesUsed == l.flown && s.coins == l.coins
  }

  lemma StepBalances(cfg: Config, s: Life, e: Event, l: Ledger)
    requires Safe(cfg, s) && Balanced(s, l)
    ensures Balanced(Step(cfg, s, e), Entered(cfg, s, e, l))
  {
    match e {
      case Settle(i, earned) => SettleBalances(cfg, s, i, earned, l);
      case Frame(raw, due) => FramePasses(cfg, s, raw, due);
      case DaylightOut(canCoins, probe, due) =>
        if s.state == Playing { SunsetOffers(cfg, s, canCoins, probe, due); }
      case Finish(due) => RunFinishes(cfg, s, due);
      case ContinueSleep(due) => RunFinishes(cfg, s, due);
      case AdGold(due) => AdsBoughtAway(cfg, s, due);
      case AdapterLands =>
      case _ => ActionBalances(cfg, s, e, l);
    }
  }

  lemma SettleBalances(cfg: Config, s: Life, i: nat, earned: bool, l: Ledger)
    requires Safe(cfg, s) && Balanced(s, l)
    ensures Balanced(Step(cfg, s, Settle(i, earned)), Entered(cfg, s, Settle(i, earned), l))
  {
    if i < |s.pending| {
      match s.pending[i] {
        case ResumeBreak => ResumeSettles(cfg, s, i, earned);
        case ContinueReward => if earned { EarnedContinue(cfg, s, i); } else { RefusedContinue(cfg, s, i); }
        case BonusReward => if earned { EarnedBonus(cfg, s, i); } else { RefusedBonus(cfg, s, i); }
      }
    }
  }

  lemma ActionBalances(cfg: Config, s: Life, e: Event, l: Ledger)
    requires Safe(cfg, s) && Balanced(s, l)
    requires e.StartRun? || e.GoToMenu? || e.Pause? || e.Resume? || e.Collect? || e.ContinueCoins? || e.ContinueGold? ||
             e.ContinueAd? || e.AdSkip? || e.Multiply?
    ensures Balanced(Step(cfg, s, e), Entered(cfg, s, e, l))
  {
    match e {
      case StartRun => RunBegins(cfg, s);
      case GoToMenu => RunBegins(cfg, s);
      case Pause => PauseAndResume(cfg, s, false);
      case Resume(probe) => PauseAndResume(cfg, s, probe);
      case Collect(n) => CoinsCollected(cfg, s, n);
      case ContinueCoins(spent) => BoughtContinue(cfg, s, spent);
      case ContinueGold => BoughtContinue(cfg, s, false);
      case ContinueAd(probe) => AskedContinue(cfg, s, probe);
      case AdSkip => OwnBreakEnds(cfg, s);
      case Multiply(probe) => BonusAsked(cfg, s, probe);
    }
  }

  lemma {:induction false} KeptBalances(cfg: Config, s: Life, l: Ledger, es: seq<Event>)
    requires Safe(cfg, s) && Balanced(s, l) && AllPossible(es) && BreaksEndInTime(cfg, s, es)
    ensures Balanced(Run(cfg, s, es), Kept(cfg, s, l, es))
    decreases |es|
  {
    if es != [] {
      StepBalances(cfg, s, es[0], l);
      StepKeepsSafe(cfg, s, es[0]);
      KeptBalances(cfg, Step(cfg, s, es[0]), Entered(cfg, s, es[0], l), es[1..]);
    }
  }

  /**
   * From boot, over every sequence of events in which breaks end in time: the continues used are exactly
   * the returns from an offer or its break to flight since the run began, and the coins exactly those
   * collected in flight.
   */
  lemma {:induction false} EveryReturnIsCounted(cfg: Config, es: seq<Event>)
    requires AllPossible(es) && BreaksEndInTime(cfg, BOOT, es)
    ensures Balanced(Run(cfg, BOOT, es), Kept(cfg, BOOT, Ledger(0, 0), es))
  {
    KeptBalances(cfg, BOOT, Ledger(0, 0), es);
  }

  /** And a step that returns raises the count by one. */
  lemma {:induction false} EveryReturnCountsOne(cfg: Config, es: seq<Event>, e: Event)
    requires AllPossible(es) && BreaksEndInTime(cfg, BOOT, es) && Returns(cfg, Run(cfg, BOOT, es), e)
    ensures Run(cfg, BOOT, es + [e]).continuesUsed == Run(cfg, BOOT, es).continuesUsed + 1
  {
    RunKeepsSafe(cfg, BOOT, es);
    SafeReturnCounts(cfg, Run(cfg, BOOT, es), e);
    RunLast(cfg, BOOT, es, e);
  }

  /** Without that: a resume break outwaited while paused settles in the break of a later offer and flies for free. */
  lemma LateResumeFliesFree(cfg: Config, s: Life, probe: bool)
    requires cfg.portalBuild && s.sink.landed && s.state == Continue && s.pending == [ResumeBreak]
    ensures var t := Run(cfg, s, [ContinueAd(true), Settle(0, probe)]);
      t.state == Playing && t.continuesUsed == s.continuesUsed
  {
    RunTwo(cfg, s, ContinueAd(true), Settle(0, probe));
  }

  /** A break before resuming, outwaited: the player is back at the pause, and the promise stays open. */
  lemma OutwaitedResume(s: Life, minute: nat)
    requires IsMinute(minute) && s.state == Paused && s.sink.landed && s.pending == [] && s.preAd.None?
    ensures var t := Run(PORTAL, s, [Resume(true)] + Outwait(minute));
      t.state == Paused && t.pending == [ResumeBreak] && t.sink.landed && t.continuesUsed == s.continuesUsed &&
      t.recorded == s.recorded
  {
    RunFirst(PORTAL, s, Resume(true), Outwait(minute));
    WaitingOut(PORTAL, Step(PORTAL, s, Resume(true)), minute);
  }

  lemma PausedFromBoot() returns (s: Life)
    ensures s == Run(PORTAL, BOOT, TAKE_OFF + [Pause])
    ensures s.state == Paused && s.sink.landed && s.pending == [] && s.preAd.None?
    ensures s.continuesUsed == 0 && !s.recorded
  {
    TakeOffFromBoot(PORTAL);
    RunLast(PORTAL, BOOT, TAKE_OFF, Pause);
    s := Run(PORTAL, BOOT, TAKE_OFF + [Pause]);
  }

  /** From boot to a return to flight that no continue was counted for. */
  lemma FreeReturnFromBoot(minute: nat)
    requires IsMinute(minute)
    ensures var offer :=
              (TAKE_OFF + [Pause]) +
              (([Resume(true)] + Outwait(minute)) + [Resume(false), DaylightOut(true, true, false)]);
      var t := Run(PORTAL, BOOT, offer + [ContinueAd(true), Settle(0, true)]);
      Run(PORTAL, BOOT, offer).state == Continue && t.state == Playing && t.continuesUsed == 0
  {
    var s := PausedFromBoot();
    var ask := [Resume(true)] + Outwait(minute);
    var on := [Resume(false), DaylightOut(true, true, false)];
    FoldConcat(Machine(PORTAL), BOOT, TAKE_OFF + [Pause], ask + on);
    FoldConcat(Machine(PORTAL), s, ask, on);
    OutwaitedResume(s, minute);
    RunTwo(PORTAL, Run(PORTAL, s, ask), Resume(false), DaylightOut(true, true, false));
    var offer := (TAKE_OFF + [Pause]) + (ask + on);
    FoldConcat(Machine(PORTAL), BOOT, offer, [ContinueAd(true), Settle(0, true)]);
    LateResumeFliesFree(PORTAL, Run(PORTAL, BOOT, offer), true);
  }
}
