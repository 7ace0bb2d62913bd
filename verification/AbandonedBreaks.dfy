/** What an abandoned break can do to a run, and when it can (src/game/Game.ts). */
module AbandonedBreaks {
  import opened Text
  import opened Traces
  import opened RunLifecycle

  /* --------------------------------------------------- which breaks are safe to abandon */

  /** No break at all is abandoned. */
  predicate NoneAbandoned(cfg: Config, s: Life, es: seq<Event>)
    decreases |es|
  {
    es == [] || (!ValveFires(s, es[0]) && NoneAbandoned(cfg, Step(cfg, s, es[0]), es[1..]))
  }

  predicate Frameless(es: seq<Event>) {
    forall i :: 0 <= i < |es| ==> !es[i].Frame?
  }

  lemma {:induction false} FramelessAbandonsNothing(cfg: Config, s: Life, es: seq<Event>)
    requires Frameless(es)
    ensures AllPossible(es) && NoneAbandoned(cfg, s, es)
    decreases |es|
  {
    if es != [] {
      FramelessAbandonsNothing(cfg, Step(cfg, s, es[0]), es[1..]);
    }
  }

  lemma {:induction false} NoneAbandonedEndsInTime(cfg: Config, s: Life, es: seq<Event>)
    requires NoneAbandoned(cfg, s, es)
    ensures BreaksEndInTime(cfg, s, es)
    decreases |es|
  {
    if es != [] {
      NoneAbandonedEndsInTime(cfg, Step(cfg, s, es[0]), es[1..]);
    }
  }

  /** From `s` on the limits can be passed without abandoning another break. */
  ghost predicate CanPassLimits(cfg: Config, s: Life) {
    exists es :: AllPossible(es) && NoneAbandoned(cfg, s, es) && !WithinLimits(cfg, Run(cfg, s, es))
  }

  lemma PassesLimits(cfg: Config, s: Life, es: seq<Event>)
    requires Frameless(es) && !WithinLimits(cfg, Run(cfg, s, es))
    ensures CanPassLimits(cfg, s)
  {
    FramelessAbandonsNothing(cfg, s, es);
  }

  lemma RunFirst(cfg: Config, s: Life, e: Event, es: seq<Event>)
    ensures Run(cfg, s, [e] + es) == Run(cfg, Step(cfg, s, e), es)
  {
    FoldConcat(Machine(cfg), s, [e], es);
    FoldOne(Machine(cfg), s, e);
  }

  lemma RunTwo(cfg: Config, s: Life, e: Event, f: Event)
    ensures Run(cfg, s, [e, f]) == Step(cfg, Step(cfg, s, e), f)
  {
    assert [e] + [f] == [e, f];
    RunLast(cfg, s, [e], f);
    FoldOne(Machine(cfg), s, e);
  }

  lemma RunThree(cfg: Config, s: Life, e: Event, f: Event, g: Event)
    ensures Run(cfg, s, [e, f, g]) == Step(cfg, Step(cfg, Step(cfg, s, e), f), g)
  {
    assert [e, f] + [g] == [e, f, g];
    RunLast(cfg, s, [e, f], g);
    RunTwo(cfg, s, e, f);
  }

  /** The offer is slept through, then the abandoned break's reward comes and flies a recorded run. */
  const SLEEP_THEN_REWARD: seq<Event> := [ContinueSleep(false), Settle(0, true)]

  lemma LateRewardFlies(cfg: Config, s: Life)
    requires s.state == Continue && !s.recorded && s.pending == [ContinueReward]
    ensures var t := Run(cfg, s, SLEEP_THEN_REWARD); t.recorded && t.state == Playing
  {
    RunTwo(cfg, s, ContinueSleep(false), Settle(0, true));
  }

  /** The bonus is asked for again, and both promises pay. */
  const ASK_AGAIN: seq<Event> := [Multiply(true), Settle(0, true), Settle(0, true)]

  lemma LateRewardPaysTwice(cfg: Config, s: Life)
    requires cfg.portalBuild && s.sink.landed && s.state == Gameover && !s.claimed && s.coins > 0
    requires s.past.bonuses == 0 && s.pending == [BonusReward]
    ensures Run(cfg, s, ASK_AGAIN).past.bonuses == 2
  {
    RunThree(cfg, s, Multiply(true), Settle(0, true), Settle(0, true));
    assert Step(cfg, Step(cfg, s, Multiply(true)), Settle(0, true)).pending == [BonusReward];
  }

  /** The bonus is asked for, and the late resume ends that break in flight. */
  const ASK_THEN_RESUME: seq<Event> := [Multiply(true), Settle(0, true)]

  lemma LateResumeEndsBonusBreak(cfg: Config, s: Life)
    requires cfg.portalBuild && s.sink.landed && s.state == Gameover && s.recorded && !s.claimed && s.coins > 0
    requires s.pending == [ResumeBreak]
    ensures var t := Run(cfg, s, ASK_THEN_RESUME); t.recorded && t.state == Playing
  {
    RunTwo(cfg, s, Multiply(true), Settle(0, true));
  }

  /** The player flies on after all and finishes with a coin. */
  const FLY_ON: seq<Event> := [Resume(false), Collect(1), Finish(false)] + ASK_THEN_RESUME

  lemma LateResumeFlies(cfg: Config, s: Life)
    requires cfg.portalBuild && s.sink.landed && s.state == Paused && !s.recorded && !s.claimed
    requires s.pending == [ResumeBreak]
    ensures var t := Run(cfg, s, FLY_ON); t.recorded && t.state == Playing
  {
    FoldConcat(Machine(cfg), s, [Resume(false), Collect(1), Finish(false)], ASK_THEN_RESUME);
    RunThree(cfg, s, Resume(false), Collect(1), Finish(false));
    LateResumeEndsBonusBreak(cfg, Step(cfg, Step(cfg, Step(cfg, s, Resume(false)), Collect(1)), Finish(false)));
  }

  lemma AbandonedPromiseBreaks(cfg: Config, s: Life, raw: real, due: bool)
    requires Safe(cfg, s) && ValveFires(s, Frame(raw, due)) && s.pending != []
    ensures CanPassLimits(cfg, OnFrame(cfg, s, raw, due))
  {
    var t := OnFrame(cfg, s, raw, due);
    assert s.pending == [s.pending[0]];
    match s.pending[0] {
      case ResumeBreak =>
        LateResumeFlies(cfg, t);
        PassesLimits(cfg, t, FLY_ON);
      case ContinueReward =>
        LateRewardFlies(cfg, t);
        PassesLimits(cfg, t, SLEEP_THEN_REWARD);
      case BonusReward =>
        LateRewardPaysTwice(cfg, t);
        PassesLimits(cfg, t, ASK_AGAIN);
    }
  }

  lemma AbandonedInterstitialBreaks(cfg: Config, s: Life, raw: real, due: bool)
    requires Safe(cfg, s) && ValveFires(s, Frame(raw, due)) && InFinishBreak(cfg, s)
    ensures CanPassLimits(cfg, OnFrame(cfg, s, raw, due))
  {
    PassesLimits(cfg, OnFrame(cfg, s, raw, due), []);
  }

  lemma AbandonedBenignHolds(cfg: Config, s: Life, raw: real, due: bool)
    requires Safe(cfg, s) && ValveFires(s, Frame(raw, due)) && BenignToAbandon(cfg, s)
    ensures !CanPassLimits(cfg, OnFrame(cfg, s, raw, due))
  {
    var t := OnFrame(cfg, s, raw, due);
    BenignValveKeepsSafe(cfg, s, raw, due);
    forall es | AllPossible(es) && NoneAbandoned(cfg, t, es) ensures WithinLimits(cfg, Run(cfg, t, es)) {
      NoneAbandonedEndsInTime(cfg, t, es);
      RunKeepsSafe(cfg, t, es);
    }
  }

  /**
   * When the safety valve abandons a break, the once-per-run limits can be passed afterwards, with no
   * other break abandoned, exactly when a promise is open or the break is the interstitial that
   * followed the recording of this very run.
   */
  lemma ValveIsSafeExactlyWhenBenign(cfg: Config, s: Life, raw: real, due: bool)
    requires Safe(cfg, s) && ValveFires(s, Frame(raw, due))
    ensures !CanPassLimits(cfg, OnFrame(cfg, s, raw, due)) <==> BenignToAbandon(cfg, s)
  {
    if BenignToAbandon(cfg, s) {
      AbandonedBenignHolds(cfg, s, raw, due);
    } else if s.pending != [] {
      AbandonedPromiseBreaks(cfg, s, raw, due);
    } else {
      AbandonedInterstitialBreaks(cfg, s, raw, due);
    }
  }

  /* --------------------------------------------- what an abandoned break can do to a run */

  /** `n` full-length frames. */
  function Wait(n: nat): (es: seq<Event>)
    ensures AllPossible(es)
  {
    if n == 0 then [] else [Frame(FRAME_CAP, false)] + Wait(n - 1)
  }

  lemma {:induction false} WaitingInAd(cfg: Config, s: Life, n: nat)
    requires s.state == Ad && s.clock + n as real * FRAME_CAP <= AD_SAFETY_SECONDS
    ensures Run(cfg, s, Wait(n))
         == s.(clock := s.clock + n as real * FRAME_CAP, adTimer := s.adTimer - n as real * FRAME_CAP)
    decreases n
  {
    if n > 0 {
      assert Wait(n)[1..] == Wait(n - 1);
      WaitingInAd(cfg, Step(cfg, s, Frame(FRAME_CAP, false)), n - 1);
    }
  }

  lemma ValveStep(cfg: Config, s: Life)
    requires s.state == Ad && s.clock == AD_SAFETY_SECONDS && s.preAd.Some? && s.preAd != Some(Ad)
    ensures Step(cfg, s, Frame(FRAME_CAP, false)) == SetState(s, s.preAd.value).(adTimer := s.adTimer - FRAME_CAP)
  {
  }

  /** `minute` full frames make up the safety limit. */
  predicate IsMinute(minute: nat) {
    minute as real * FRAME_CAP == AD_SAFETY_SECONDS
  }

  /** Frames enough to outwait a break that has just begun: one more than a minute. */
  function Outwait(minute: nat): (es: seq<Event>)
    ensures AllPossible(es)
  {
    Wait(minute) + [Frame(FRAME_CAP, false)]
  }

  /** One frame past a minute, the break is abandoned and the earlier state is back; nothing is granted. */
  lemma WaitingOut(cfg: Config, s: Life, minute: nat)
    requires IsMinute(minute)
    requires s.state == Ad && s.clock == 0.0 && s.preAd.Some? && s.preAd != Some(Ad)
    ensures Run(cfg, s, Outwait(minute)) == SetState(s, s.preAd.value).(adTimer := s.adTimer - 60.25)
  {
    WaitingInAd(cfg, s, minute);
    var t := s.(clock := AD_SAFETY_SECONDS, adTimer := s.adTimer - 60.0);
    FoldLast(Machine(cfg), s, Wait(minute), Frame(FRAME_CAP, false));
    ValveStep(cfg, t);
  }

  /** The valve returns a recorded run to flight when the break is the interstitial that ended it. */
  lemma AbandonedInterstitialRevivesRun(cfg: Config, s: Life, minute: nat)
    requires IsMinute(minute)
    requires cfg == Config(false, false, false)
    requires Safe(cfg, s) && s.state == Playing && !s.skipOnce
    ensures var t := Run(cfg, s, [Finish(true)] + Outwait(minute));
      t.recorded && t.state == Playing
  {
    FoldConcat(Machine(cfg), s, [Finish(true)], Outwait(minute));
    FoldOne(Machine(cfg), s, Finish(true));
    WaitingOut(cfg, Step(cfg, s, Finish(true)), minute);
  }

  /** Outwaiting a break leaves everything as it was, except that its promise stays open. */
  function Outwaited(s: Life, p: Promise): (r: Life) {
    s.(pending := s.pending + [p], adTimer := s.adTimer - 60.25)
  }

  /** `e` asks the portal for the reward `p`. */
  predicate Asks(s: Life, e: Event, p: Promise) {
    || (e == ContinueAd(true) && s.state == Continue && p == ContinueReward)
    || (e == Multiply(true) && s.state == Gameover && !s.claimed && s.coins > 0 && p == BonusReward)
  }

  lemma AskAndOutwait(cfg: Config, s: Life, e: Event, p: Promise, minute: nat)
    requires IsMinute(minute)
    requires s.clock == 0.0 && s.preAd == None && cfg.portalBuild && s.sink.landed && Asks(s, e, p)
    ensures Run(cfg, s, [e] + Outwait(minute)) == Outwaited(s, p)
  {
    FoldConcat(Machine(cfg), s, [e], Outwait(minute));
    FoldOne(Machine(cfg), s, e);
    WaitingOut(cfg, Step(cfg, s, e), minute);
  }

  /** Ask, outwait, ask again, outwait again: two promises for one reward. */
  lemma AskTwice(cfg: Config, s: Life, e: Event, p: Promise, minute: nat, rest: seq<Event>)
    requires IsMinute(minute)
    requires s.clock == 0.0 && s.preAd == None && cfg.portalBuild && s.sink.landed && Asks(s, e, p)
    ensures Run(cfg, s, ([e] + Outwait(minute)) + (([e] + Outwait(minute)) + rest))
         == Run(cfg, Outwaited(Outwaited(s, p), p), rest)
  {
    var ask := [e] + Outwait(minute);
    FoldConcat(Machine(cfg), s, ask, ask + rest);
    AskAndOutwait(cfg, s, e, p, minute);
    FoldConcat(Machine(cfg), Outwaited(s, p), ask, rest);
    AskAndOutwait(cfg, Outwaited(s, p), e, p, minute);
  }

  lemma BothSettle(cfg: Config, s: Life, p: Promise)
    requires s.pending == [p, p]
    ensures OnSettle(s, 0, true).pending == [p]
    ensures Run(cfg, s, [Settle(0, true), Settle(0, true)]) == OnSettle(OnSettle(s, 0, true), 0, true)
  {
    var one := [Settle(0, true)];
    assert one + one == [Settle(0, true), Settle(0, true)];
    assert s.pending[..0] + s.pending[1..] == [p];
    FoldLast(Machine(cfg), s, one, Settle(0, true));
    FoldOne(Machine(cfg), s, Settle(0, true));
  }

  /** Two late rewards give a free player two continues. */
  lemma LateRewardsExceedTier(cfg: Config, s: Life, minute: nat)
    requires IsMinute(minute)
    requires cfg == Config(true, false, false)
    requires Safe(cfg, s) && s.state == Continue && s.sink.landed
    ensures var ask := [ContinueAd(true)] + Outwait(minute);
      var t := Run(cfg, s, ask + (ask + [Settle(0, true), Settle(0, true)]));
      t.continuesUsed > MaxContinues(cfg)
  {
    AskTwice(cfg, s, ContinueAd(true), ContinueReward, minute, [Settle(0, true), Settle(0, true)]);
    var u := Outwaited(Outwaited(s, ContinueReward), ContinueReward);
    assert u.pending == [ContinueReward, ContinueReward];
    BothSettle(cfg, u, ContinueReward);
  }

  /** Two late rewards pay the bonus twice. */
  lemma LateRewardsPayTwice(cfg: Config, s: Life, minute: nat)
    requires IsMinute(minute)
    requires cfg == Config(true, false, false)
    requires Safe(cfg, s) && s.state == Gameover && s.sink.landed && !s.claimed && s.coins > 0
    ensures var ask := [Multiply(true)] + Outwait(minute);
      var t := Run(cfg, s, ask + (ask + [Settle(0, true), Settle(0, true)]));
      t.past.bonuses == 2 && t.past.paid == 4 * t.coins
  {
    AskTwice(cfg, s, Multiply(true), BonusReward, minute, [Settle(0, true), Settle(0, true)]);
    var u := Outwaited(Outwaited(s, BonusReward), BonusReward);
    assert u.pending == [BonusReward, BonusReward];
    BothSettle(cfg, u, BonusReward);
  }

  /** One late reward is enough: the break is outwaited, the offer slept through, and the reward flies. */
  lemma LateRewardFliesRecordedRun(cfg: Config, s: Life, minute: nat)
    requires IsMinute(minute)
    requires cfg.portalBuild && Safe(cfg, s) && s.state == Continue && s.sink.landed
    ensures var t := Run(cfg, s, ([ContinueAd(true)] + Outwait(minute)) + SLEEP_THEN_REWARD);
      t.recorded && t.state == Playing
  {
    FoldConcat(Machine(cfg), s, [ContinueAd(true)] + Outwait(minute), SLEEP_THEN_REWARD);
    AskAndOutwait(cfg, s, ContinueAd(true), ContinueReward, minute);
    LateRewardFlies(cfg, Outwaited(s, ContinueReward));
  }

  /* ----------------------------------------------------------- the same runs from boot */

  const WEB := Config(false, false, false)
  const PORTAL := Config(true, false, false)

  lemma Started(cfg: Config, s: Life)
    requires Safe(cfg, s) && s.state == Menu
    ensures var t := Step(cfg, s, StartRun);
      Safe(cfg, t) && t.state == Playing && t.sink.landed == s.sink.landed && t.skipOnce == s.skipOnce && !t.claimed
  {
    StepKeepsSafe(cfg, s, StartRun);
  }

  lemma Landed(cfg: Config, s: Life)
    requires Safe(cfg, s) && s.state == Menu
    ensures var t := Step(cfg, s, AdapterLands);
      Safe(cfg, t) && t.state == Menu && t.sink.landed
  {
    StepKeepsSafe(cfg, s, AdapterLands);
  }

  lemma Offered(cfg: Config, s: Life)
    requires cfg == PORTAL && Safe(cfg, s) && s.state == Playing && s.continuesUsed == 0 && s.sink.landed
    ensures var t := Step(cfg, s, DaylightOut(true, true, false));
      Safe(cfg, t) && t.state == Continue && t.sink.landed
  {
    StepKeepsSafe(cfg, s, DaylightOut(true, true, false));
  }

  lemma Ended(cfg: Config, s: Life)
    requires cfg == PORTAL && Safe(cfg, s) && s.state == Playing && s.sink.landed
    ensures var t := Step(cfg, Step(cfg, s, Collect(7)), Finish(false));
      Safe(cfg, t) && t.state == Gameover && t.sink.landed && !t.claimed && t.coins >= 7
  {
    StepKeepsSafe(cfg, s, Collect(7));
    var u := Step(cfg, s, Collect(7));
    StepKeepsSafe(cfg, u, Finish(false));
  }

  /** The adapter lands and a run starts. */
  const TAKE_OFF: seq<Event> := [AdapterLands, StartRun]

  lemma TakeOffFromBoot(cfg: Config)
    ensures var s := Run(cfg, BOOT, TAKE_OFF);
      Safe(cfg, s) && s.state == Playing && s.sink.landed && s.continuesUsed == 0
  {
    RunTwo(cfg, BOOT, AdapterLands, StartRun);
    Landed(cfg, BOOT);
    Started(cfg, Step(cfg, BOOT, AdapterLands));
  }

  /** From boot to a run that is recorded and flies again: a finish whose interstitial is outwaited. */
  lemma RevivedFromBoot(minute: nat)
    requires IsMinute(minute)
    ensures var t := Run(WEB, BOOT, [StartRun] + ([Finish(true)] + Outwait(minute)));
      t.recorded && t.state == Playing
  {
    RunFirst(WEB, BOOT, StartRun, [Finish(true)] + Outwait(minute));
    Started(WEB, BOOT);
    AbandonedInterstitialRevivesRun(WEB, Step(WEB, BOOT, StartRun), minute);
  }

  /** The run up to an offer, and on. */
  function FromOffer(rest: seq<Event>): (es: seq<Event>) {
    TAKE_OFF + ([DaylightOut(true, true, false)] + rest)
  }

  lemma OfferFromBoot(rest: seq<Event>) returns (s: Life)
    ensures Safe(PORTAL, s) && s.state == Continue && s.sink.landed
    ensures Run(PORTAL, BOOT, FromOffer(rest)) == Run(PORTAL, s, rest)
  {
    TakeOffFromBoot(PORTAL);
    var u := Run(PORTAL, BOOT, TAKE_OFF);
    FoldConcat(Machine(PORTAL), BOOT, TAKE_OFF, [DaylightOut(true, true, false)] + rest);
    RunFirst(PORTAL, u, DaylightOut(true, true, false), rest);
    Offered(PORTAL, u);
    s := Step(PORTAL, u, DaylightOut(true, true, false));
  }

  /** From boot to a recorded run in flight, by one reward that came late. */
  lemma FlownFromBoot(minute: nat)
    requires IsMinute(minute)
    ensures var t := Run(PORTAL, BOOT, FromOffer(([ContinueAd(true)] + Outwait(minute)) + SLEEP_THEN_REWARD));
      t.recorded && t.state == Playing
  {
    var s := OfferFromBoot(([ContinueAd(true)] + Outwait(minute)) + SLEEP_THEN_REWARD);
    LateRewardFliesRecordedRun(PORTAL, s, minute);
  }

  /** From boot to two continues of a free player. */
  lemma TierPassedFromBoot(minute: nat)
    requires IsMinute(minute)
    ensures var ask := [ContinueAd(true)] + Outwait(minute);
      var t := Run(PORTAL, BOOT, FromOffer(ask + (ask + [Settle(0, true), Settle(0, true)])));
      t.continuesUsed > MaxContinues(PORTAL)
  {
    var ask := [ContinueAd(true)] + Outwait(minute);
    var s := OfferFromBoot(ask + (ask + [Settle(0, true), Settle(0, true)]));
    LateRewardsExceedTier(PORTAL, s, minute);
  }

  /** The run up to its end with coins, and on. */
  function FromEnd(rest: seq<Event>): (es: seq<Event>) {
    TAKE_OFF + ([Collect(7), Finish(false)] + rest)
  }

  lemma EndFromBoot(rest: seq<Event>) returns (s: Life)
    ensures Safe(PORTAL, s) && s.state == Gameover && s.sink.landed && !s.claimed && s.coins > 0
    ensures Run(PORTAL, BOOT, FromEnd(rest)) == Run(PORTAL, s, rest)
  {
    TakeOffFromBoot(PORTAL);
    var u := Run(PORTAL, BOOT, TAKE_OFF);
    FoldConcat(Machine(PORTAL), BOOT, TAKE_OFF, [Collect(7), Finish(false)] + rest);
    FoldConcat(Machine(PORTAL), u, [Collect(7), Finish(false)], rest);
    RunTwo(PORTAL, u, Collect(7), Finish(false));
    Ended(PORTAL, u);
    s := Step(PORTAL, Step(PORTAL, u, Collect(7)), Finish(false));
  }

  /** From boot to a bonus paid twice. */
  lemma PaidTwiceFromBoot(minute: nat)
    requires IsMinute(minute)
    ensures var ask := [Multiply(true)] + Outwait(minute);
      var t := Run(PORTAL, BOOT, FromEnd(ask + (ask + [Settle(0, true), Settle(0, true)])));
      t.past.bonuses == 2 && t.past.paid == 4 * t.coins
  {
    var ask := [Multiply(true)] + Outwait(minute);
    var s := EndFromBoot(ask + (ask + [Settle(0, true), Settle(0, true)]));
    LateRewardsPayTwice(PORTAL, s, minute);
  }
}
