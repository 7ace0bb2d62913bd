/** The game object's lifecycle fields and the methods that change them (src/game/Game.ts). */
module RunGame {
  import opened Text
  import opened GameplayEvents
  import opened RunLifecycle

  class Game {
    const cfg: Config
    const sink: GameplayEventSink
    var state: State
    var preAdState: Option<State>
    var adWallClock: real
    var adTimer: real
    var adReason: Reason
    var continuesUsed: nat
    var continueTimer: real
    var runRecorded: bool
    var multiplierClaimed: bool
    var skipInterstitialOnce: bool
    var runCoins: nat
    var pending: seq<Promise>
    ghost var past: History

    ghost function Now(): Life
      reads this, sink
    {
      Life(state, preAdState, adWallClock, adTimer, adReason, continuesUsed, continueTimer, runRecorded,
           multiplierClaimed, skipInterstitialOnce, runCoins, pending, sink.State(), past)
    }

    constructor (cfg: Config)
      ensures this.cfg == cfg && Now() == BOOT && fresh(sink)
    {
      this.cfg := cfg;
      sink := new GameplayEventSink();
      state, preAdState, adWallClock, adTimer, adReason := Menu, None, 0.0, 0.0, Interstitial;
      continuesUsed, continueTimer, runRecorded, multiplierClaimed := 0, 0.0, false, false;
      skipInterstitialOnce, runCoins, pending := false, 0, [];
      past := History(0, 0, 0, false);
    }

    method ChangeState(s: State)
      modifies this, sink
      ensures Now() == SetState(old(Now()), s)
    {
      var previous := state;
      state := s;
      if s == Ad {
        preAdState := Some(previous);
        adWallClock := 0.0;
      } else if previous == Ad {
        preAdState := None;
        adWallClock := 0.0;
      }
      if previous == Playing && s != Playing {
        sink.SendPhase(Stop);
      }
      if previous != Playing && s == Playing {
        sink.SendPhase(Start);
      }
    }

    method Reset()
      modifies this
      ensures Now() == ResetRun(old(Now()))
    {
      continuesUsed, continueTimer, runRecorded, multiplierClaimed, runCoins := 0, 0.0, false, false, 0;
      past := past.(recordings := 0, bonuses := 0, paid := 0);
    }

    /** A placeholder break with its own countdown. */
    method ShowAd(reason: Reason)
      modifies this, sink
      ensures Now() == SetState(old(Now()).(reason := reason, adTimer := AD_DURATION), Ad)
    {
      adReason := reason;
      adTimer := AD_DURATION;
      ChangeState(Ad);
    }

    method Record(due: bool)
      modifies this, sink
      ensures Now() == FinishRun(cfg, old(Now()), due)
    {
      if runRecorded {
        return;
      }
      runRecorded := true;
      past := past.(recordings := past.recordings + 1);
      var dueAd := due && !cfg.portalBuild && !cfg.gold;
      if dueAd && !skipInterstitialOnce {
        ShowAd(Interstitial);
      } else {
        ChangeState(Gameover);
      }
      skipInterstitialOnce := false;
    }

    method SecondWind()
      modifies this, sink
      ensures Now() == DoContinue(old(Now()))
    {
      continuesUsed := continuesUsed + 1;
      ChangeState(Playing);
    }

    method CloseAd()
      modifies this, sink
      ensures Now() == EndAd(old(Now()))
    {
      if adReason == ForContinue {
        SecondWind();
      } else {
        ChangeState(Gameover);
      }
    }

    method GrantBonus()
      modifies this
      ensures Now() == PayBonus(old(Now()))
    {
      multiplierClaimed := true;
      past := past.(bonuses := past.bonuses + 1, paid := past.paid + 2 * runCoins);
    }

    method SunOut(canCoins: bool, probe: bool, due: bool)
      modifies this, sink
      ensures Now() == OnDaylightOut(cfg, old(Now()), canCoins, probe, due)
    {
      var canAd := if cfg.portalBuild then cfg.portalBuild && sink.landed && probe else !cfg.gold && probe;
      var maxContinues := MaxContinues(cfg);
      if continuesUsed < maxContinues && (cfg.gold || canCoins || canAd) {
        continueTimer := CONTINUE_TIMEOUT;
        ChangeState(Continue);
      } else {
        Record(due);
      }
    }

    method NextFrame(raw: real, due: bool)
      modifies this, sink
      ensures Now() == OnFrame(cfg, old(Now()), raw, due)
    {
      match state {
        case Continue =>
          OfferFrame(raw, due);
        case Ad =>
          AdFrame(raw);
        case _ =>
      }
    }

    method OfferFrame(raw: real, due: bool)
      requires state == Continue
      modifies this, sink
      ensures Now() == OnFrame(cfg, old(Now()), raw, due)
    {
      continueTimer := continueTimer - raw;
      if continueTimer <= 0.0 {
        Record(due);
      }
    }

    method AdFrame(raw: real)
      requires state == Ad
      modifies this, sink
      ensures Now() == OnFrame(cfg, old(Now()), raw, false)
    {
      adTimer := adTimer - raw;
      adWallClock := adWallClock + raw;
      if adWallClock > AD_SAFETY_SECONDS {
        var restore := if preAdState.None? then Gameover else preAdState.value;
        ChangeState(if restore == Ad then Gameover else restore);
      }
    }

    /** The continuation of a promise, after the `await`. */
    method Settled(i: nat, earned: bool)
      requires i < |pending|
      modifies this, sink
      ensures Now() == OnSettle(old(Now()), i, earned)
    {
      var p := pending[i];
      pending := pending[..i] + pending[i + 1..];
      match p {
        case ResumeBreak =>
          if state == Paused || state == Ad {
            ChangeState(Playing);
          }
        case ContinueReward =>
          if earned {
            SecondWind();
          } else {
            ChangeState(Continue);
          }
        case BonusReward =>
          if earned {
            GrantBonus();
          }
          if state == Ad {
            ChangeState(Gameover);
          }
      }
    }

    method ResumeFromPause(probe: bool)
      modifies this, sink
      ensures Now() == Step(cfg, old(Now()), Resume(probe))
    {
      if state != Paused {
        return;
      }
      if cfg.portalBuild && sink.landed && probe {
        ChangeState(Ad);
        pending := pending + [ResumeBreak];
      } else {
        ChangeState(Playing);
      }
    }

    method MultiplyRunCoins(probe: bool)
      modifies this, sink
      ensures Now() == Step(cfg, old(Now()), Multiply(probe))
    {
      if state == Gameover && !multiplierClaimed && runCoins > 0 {
        if cfg.portalBuild && sink.landed {
          ChangeState(Ad);
          if probe {
            pending := pending + [BonusReward];
          }
        } else {
          GrantBonus();
        }
      }
    }

    method ContinueWithAd(probe: bool)
      modifies this, sink
      ensures Now() == Step(cfg, old(Now()), ContinueAd(probe))
    {
      if state != Continue {
        return;
      }
      var live := cfg.portalBuild && sink.landed && probe;
      if cfg.portalBuild && !live {
        return;
      }
      if cfg.portalBuild {
        ChangeState(Ad);
        pending := pending + [ContinueReward];
      } else {
        ShowAd(ForContinue);
      }
    }

    method RemoveAds(due: bool)
      modifies this, sink
      ensures Now() == Step(cfg, old(Now()), AdGold(due))
    {
      if state == Ad && !cfg.portalBuild && adTimer <= 0.0 {
        if adReason == ForContinue {
          skipInterstitialOnce := true;
          Record(due);
        } else {
          ChangeState(Gameover);
        }
      }
    }

    method LandAdapter()
      modifies this, sink
      ensures Now() == Step(cfg, old(Now()), AdapterLands)
    {
      if sink.landed {
        return;
      }
      past := past.(landedPlaying := state == Playing);
      sink.AdapterLanded();
      if state == Playing {
        sink.SendPhase(Start);
      }
    }

    /** One event, as the game's handlers dispatch it. */
    method Handle(e: Event)
      modifies this, sink
      ensures Now() == Step(cfg, old(Now()), e)
    {
      match e {
        case StartRun => if state != Ad && state != Continue { Reset(); ChangeState(Playing); }
        case GoToMenu => if state != Ad { Reset(); ChangeState(Menu); }
        case Pause => if state == Playing { ChangeState(Paused); }
        case Resume(probe) => ResumeFromPause(probe);
        case Collect(n) => if state == Playing { runCoins := runCoins + n; }
        case DaylightOut(canCoins, probe, due) => if state == Playing { SunOut(canCoins, probe, due); }
        case Finish(due) => if state == Playing { Record(due); }
        case Frame(raw, due) => NextFrame(raw, due);
        case ContinueCoins(spent) => if state == Continue && spent { SecondWind(); }
        case ContinueAd(probe) => ContinueWithAd(probe);
        case ContinueGold => if state == Continue && cfg.gold { SecondWind(); }
        case ContinueSleep(due) => if state == Continue { Record(due); }
        case AdSkip => if state == Ad && !cfg.portalBuild && adTimer <= 0.0 { CloseAd(); }
        case AdGold(due) => RemoveAds(due);
        case Multiply(probe) => MultiplyRunCoins(probe);
        case Settle(i, earned) => if i < |pending| { Settled(i, earned); }
        case AdapterLands => LandAdapter();
      }
    }

    /** A whole session of events, in the order they arrive, and what it keeps from boot on. */
    method Play(es: seq<Event>)
      modifies this, sink
      ensures Now() == Run(cfg, old(Now()), es)
      ensures old(Now()) == BOOT && AllPossible(es) ==> Orderly(Now())
      ensures old(Now()) == BOOT && AllPossible(es) && BreaksEndInTime(cfg, BOOT, es) ==> WithinLimits(cfg, Now())
    {
      ghost var start := Now();
      var i := 0;
      assert es[..0] == [];
      while i < |es|
        invariant 0 <= i <= |es|
        invariant Now() == Run(cfg, start, es[..i])
      {
        RunLast(cfg, start, es[..i], es[i]);
        assert es[..i] + [es[i]] == es[..i + 1];
        Handle(es[i]);
        i := i + 1;
      }
      assert es[..|es|] == es;
      FromBoot(cfg, start, es);
    }

    static lemma {:induction false} FromBoot(cfg: Config, start: Life, es: seq<Event>)
      ensures start == BOOT && AllPossible(es) ==> Orderly(Run(cfg, start, es))
      ensures start == BOOT && AllPossible(es) && BreaksEndInTime(cfg, start, es) ==>
                WithinLimits(cfg, Run(cfg, start, es))
    {
      if start == BOOT && AllPossible(es) {
        EveryRun(cfg, es);
        if BreaksEndInTime(cfg, start, es) {
          OncePerRun(cfg, es);
        }
      }
    }
  }
}
