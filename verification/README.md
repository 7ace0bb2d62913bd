# Sunbird: a verified model

Sunbird is a browser game about a bird that carves hills and flies off their crests. This project
models the parts of it that are hardest to get right, and proves what they promise:

- **A run and its sponsored breaks** (`RunLifecycle.dfy`, `RunOutcomes.dfy`,
  `AbandonedBreaks.dfy`, `RunGame.dfy`, `GameplayEvents.dfy`): a state machine driven by player actions, frames and ad promises that settle
  later.
- **The flight step** (`FlightPhysics.dfy`, `Terrain.dfy`, `BirdStep.dfy`, `BirdRuns.dfy`,
  `Carving.dfy`, `FlightLaws.dfy`, `Flights.dfy`, `Blooms.dfy`, `Bird.dfy`) and the **rating of launches** (`Launches.dfy`, `LaunchSystem.dfy`).
- **Challenge links and tokens** (`Text.dfy`, `Unicode.dfy`, `Uri.dfy`, `Form.dfy`,
  `Challenge.dfy`, `ChallengeUrl.dfy`, `Carried.dfy`): two printers and two parsers of one value, through
  UTF-16, UTF-8, percent-encoding and form decoding.
- **The leaderboard** (`Calendar.dfy`, `DayText.dfy`, `RateLimit.dfy`, `Leaderboard.dfy`,
  `Submissions.dfy`, `Board.dfy`): the day a score is filed under, the windowed limiter, keep-best storage written
  twice, and the page a client reads.
- **Boot stages and deferred work** (`BootStages.dfy`, `DeferredWork.dfy`, `BootProgress.dfy`): a
  queue, a busy flag, and callbacks that fire in any order.
- **Collectibles** (`SlotPools.dfy`, `SpawnCells.dfy`, `Collectibles.dfy`, `Magnet.dfy`): recycled records, lists
  spliced while they are walked backwards, world cells that are filled once, and rings flown through.
- **Beat lines** (`BeatLines.dfy`), **ghosts** (`Ghosts.dfy`, `Ghost.dfy`, `GhostNet.dfy`) and
  **feature flags** (`Flags.dfy`).

Code that changes things in place is a class or a method with loops, proved equal to a function of
the old state; what the source promises is then proved about that function, over every run where it
is a promise about runs. `Traces.dfy` holds runs of a deterministic machine, `Numbers.dfy` JavaScript
numbers.

## Assumptions

- Numbers are ideal: JavaScript doubles are reals or integers, so rounding error is not modelled.
  NaN and the infinities are kept where the code handles them (`None` in `BeatLines` and
  `Leaderboard`). Constants are those of `src/game/constants.ts`.
- `RunLifecycle`: the tier and the build do not change during a run, and frame deltas are at
  most the game's own cap of a quarter of a second; they may be negative. `OncePerRun`,
  `RecordedStaysOver` and `EveryReturnIsCounted` assume `BreaksEndInTime`: the 60-second safety valve
  does not abandon a break on which something still hangs. `AbandonedBreaks.ValveIsSafeExactlyWhenBenign` shows that the condition is exact for every
  break: once the valve has abandoned one on which something hangs, the limits of `OncePerRun` can be
  passed with no other break abandoned, and otherwise they cannot. Four runs from boot do pass them: in
  two a recorded run flies again, in one a free player gets two continues, in one the bonus is paid twice.
  `EveryRun` and `BreakCannotTrap` need no such assumption.
- `Terrain`: heights, oceans and the places of the blooms are arbitrary; a bloom's height is the
  ground's at its centre. `hyp` stands for `Math.hypot`. Slopes, tangents and curvature are computed as
  the source does. The multipliers of a step are not negative, and neither is the step. Before each
  step the game may set `asleep` and rewrite the velocity, as the boost of a rated launch does
  (`src/game/Game.ts:2194`), never to a backward one.
- `Challenge`: the engine's letter and number classes and its general number parser are parameters
  restricted as ECMA-262 requires (`IsUnicode`). Distances print as plain digits, which
  JavaScript does below 10 to the power 21 (`ChallengeUrl.PrintsDigits`); above that neither the digits nor
  the exponent can be read back as the distance that was sent.
- `ChallengeUrl`: the page address holds no number sign, and an address keeps the link's text as it is.
  `LinkReads` leaves out seeds with a dot, an ampersand, a plus or percent sign, control or non-ASCII
  characters, which the reader would take apart or decode; `LinkGivesItsValuesExactly` covers every seed.
- `Leaderboard`: one handler at a time, since the route awaits between its read and its write; the
  request has already been parsed, and signatures and rate limits are left to the other modules.
  The server's day is a real calendar day from 1970 on, with a four-digit year.
- `DeferredWork`: callbacks are asynchronous, as `requestIdleCallback` and `setTimeout` are.
- `BeatLines`: no code calls the module yet outside its tests; runs follow its own comments: each
  frame compares the targets of the frame before with the new distance.

## Where the code differs from what it says

- `src/game/Bird.ts:444-457` lifts a bird off a bloom to 0.4 above the bloom's centre, but a bloom
  answers within 3.4 m of it and is planted on slopes up to 0.42 (`src/game/TerrainSystem.ts:239-246`,
  `493-507`). On an even slope past 2/17 the ground at the rim is higher than that, and the bird ends the
  step below the surface (`BirdRuns.BelowExactlyOffALowBloom`, `Blooms.NeverBelowExactlyWithLowRims`,
  `Blooms.StraightHasLowRims`). If the first step of the hop is still under the ground it counts as a
  landing and the hop is lost (`Blooms.SwallowedHop`, `Blooms.SteepBloomSwallowsTheHop`).
- The same take-off does not reset `apexY`: if the older apex is higher than the first step of the hop,
  it stands for this flight's (`Blooms.ApexOffABloom`, with a run from the start in `Blooms.StaleApex`).
- `src/game/Game.ts:6439` flies whenever a break before resuming settles in the ad state, whichever break is
  on screen: outwaited while paused and settled in the break of a later offer it returns the run to flight
  without a continue (`RunOutcomes.ReturnCountsExactly`, from boot in `RunOutcomes.FreeReturnFromBoot`).
- `src/game/Challenge.ts:40` decodes a name the URL parser has already decoded, so a name with a
  percent sign can make its own link unreadable (`ChallengeUrl.PercentNameIsUnreadable`). Portal handles
  become pilot names cut to 14 units and nothing else (`src/game/Game.ts:5828`), so such names are real,
  and so are names cut inside a surrogate pair, for which building the link throws
  (`ChallengeUrl.HandleLinkThrowsExactly`, with thirteen letters and U+1D400 in `OddHandleThrows`).
- `src/game/Game.ts:2904-2908` flies a race on the day's seed, a colon and the course, and the results
  offer a challenge link to it (`src/game/Game.ts:4803-4805`); the reader refuses the colon
  (`src/game/Challenge.ts:38`), so no link from a race can be read (`ChallengeUrl.RaceLinkIsUnreadable`).
- `src/game/Challenge.ts:43` strips underscores from the mode, which the id of every pvp mode has, so a link
  never gives such a mode back (`ChallengeUrl.PvpModeIsLost`).
- `src/game/GhostNet.ts:84-91` promises first and last samples; cut to one sample it yields undefined
  instead (`GhostNet.HoleExactlyAtOne`). Its one caller asks for 1500.
- `src/game/Ghost.ts:218` speaks of null once the ghost has finished; an active ghost always has a
  place, and holds its last sample (`Ghosts.EndsAtTheLastSample`).
- `src/game/Collectibles.ts:210-217` fills every cell from 20 m behind to 420 m ahead exactly while
  the bird is past x = -6; before that the window takes in a cell before the origin, where nothing
  is ever placed (`SpawnCells.WindowIsFilled`, `SpawnCells.NothingMissed`).
- `src/game/Flags.ts:51-59` caches an empty override map when the storage cannot be read, so a later
  reload may disagree with the session until a write succeeds (`Flags.ReloadAgreesExactlyWhen`).
- `src/game/BootProgress.ts:186-197`: where nothing can schedule, the first deferred task is taken
  and never run and the rest wait for good (`DeferredWork.AwakeExactlyWithAScheduler`).

## Model

| member | source | states |
|---|---|---|
| `GameplayEvents.PortalHearsAlternation` | src/game/GameplayEvents.ts:20-30 | however phases are sent, the portal never hears the same one twice in a row |
| `GameplayEvents.GameplayEventSink.SendPhase` | src/game/GameplayEvents.ts:26-30 | a repeat is dropped, a change is recorded, and emitted once the adapter is there |
| `GameplayEvents.GameplayEventSink.AdapterLanded` | src/game/Game.ts:1035-1038 | from the landing on phases reach the portal; what was recorded before is not replayed |
| `RunLifecycle.EveryRun` | src/game/Game.ts:6516-6551 | over every event sequence: recorded at most once, ad state exactly when a state to return to is stored, strict alternation, and a first "stop" exactly when the adapter landed mid-flight |
| `RunLifecycle.LateResendIsSwallowed` | src/game/Game.ts:1035-1038 | the start re-sent when the adapter lands never reaches the portal |
| `RunLifecycle.OncePerRun` | src/game/Game.ts:3126-3145 | if breaks end in time: recorded at most once and then never live, continues within the tier, bonus paid at most once |
| `RunLifecycle.RecordedStaysOver` | src/game/Game.ts:3143-3145 | a recorded run stays recorded and is never flown again until a new run starts |
| `RunOutcomes.EveryReturnIsCounted` | src/game/Game.ts:3126-3145 | if breaks end in time, over every event sequence from boot: the continues used are exactly the returns from an offer or its break to flight since the run began, the coins exactly those collected in flight |
| `RunOutcomes.EveryReturnCountsOne` | src/game/Game.ts:3126-3145 | each such return raises the count by exactly one |
| `RunOutcomes.ReturnCountsExactly` | src/game/Game.ts:6427-6514 | from any state at all a return goes uncounted if and only if it is a late resume break that settles in the break of an offer; the valve returns none |
| `RunOutcomes.FreeReturnFromBoot` | src/game/Game.ts:6427-6440 | events from boot to such an uncounted return |
| `RunOutcomes.RefusedContinue` | src/game/Game.ts:6509-6513 | a refused continue reward leads back to the offer with everything counted as it was |
| `RunOutcomes.EarnedContinue` | src/game/Game.ts:6509-6510 | an earned one flies the run for one continue |
| `RunOutcomes.RefusedBonus` | src/game/Game.ts:6463-6466 | a refused bonus leads back to the results, unclaimed |
| `RunOutcomes.EarnedBonus` | src/game/Game.ts:6455-6466 | an earned one pays twice the coins and claims the bonus |
| `RunOutcomes.ResumeSettles` | src/game/Game.ts:6432-6439 | a break before resuming ends in flight for a player who still waits, and counts nothing |
| `RunOutcomes.BoughtContinue` | src/game/Game.ts:4853-4881 | coins spent or gold buy one continue, at an offer only |
| `RunOutcomes.AskedContinue` | src/game/Game.ts:4856-4875 | an ad for a continue opens a break that knows the way back, with a promise or a countdown of 4 s |
| `RunOutcomes.OwnBreakEnds` | src/game/Game.ts:4882-4889 | an own break that is over continues the run it was for or shows the results |
| `RunOutcomes.AdsBoughtAway` | src/game/Game.ts:4890-4908 | buying the ads away finishes the run without a second break |
| `RunOutcomes.RunFinishes` | src/game/Game.ts:3428-3440 | only the first finish records, and leads to an interstitial that is due or to the results |
| `RunOutcomes.SunsetOffers` | src/game/Game.ts:3069-3124 | a continue is offered for 15 s while the tier has one left and there is a way to pay |
| `RunOutcomes.BonusAsked` | src/game/Game.ts:3702-3723 | the bonus is asked of a landed portal or paid at once, never when claimed or worth nothing |
| `RunOutcomes.FramePasses` | src/game/Game.ts:1288-1312 | a frame counts an offer or a break down, finishes or abandons it when its time is up, and does nothing else |
| `AbandonedBreaks.ValveIsSafeExactlyWhenBenign` | src/game/Game.ts:1297-1312 | after the valve abandons a break the once-per-run limits can still be passed, with no other break abandoned, if and only if a promise is open or it is the interstitial of the run just recorded |
| `RunLifecycle.BreakSwallowsActions` | src/game/Game.ts:4882-4908 | during a break that cannot end yet every player action changes nothing |
| `RunLifecycle.BreakExits` | src/game/Game.ts:1297-1312 | only a settled promise, the valve, or a finished placeholder leaves the ad state |
| `RunLifecycle.BreakCannotTrap` | src/game/Game.ts:1297-1312 | while in the ad state the clock is the sum of the frames, so the state is left once that passes 60 s |
| `AbandonedBreaks.WaitingOut` | src/game/Game.ts:1299-1311 | a break outwaited by one frame past a minute restores the earlier state and grants nothing |
| `AbandonedBreaks.AbandonedInterstitialRevivesRun` | src/game/Game.ts:3428-3437 | the valve returns a recorded run to flight from the interstitial that followed it |
| `AbandonedBreaks.LateRewardFliesRecordedRun` | src/game/Game.ts:6500-6514 | one late continue reward, after the offer was slept through, flies a recorded run |
| `AbandonedBreaks.LateRewardsExceedTier` | src/game/Game.ts:6500-6514 | two late rewards give a free player two continues |
| `AbandonedBreaks.LateRewardsPayTwice` | src/game/Game.ts:6449-6467 | two late rewards pay the coin bonus twice |
| `AbandonedBreaks.RevivedFromBoot` | src/game/Game.ts:3428-3437 | events from boot to a recorded run in flight, by an outwaited interstitial |
| `AbandonedBreaks.FlownFromBoot` | src/game/Game.ts:6500-6514 | events from boot to a recorded run in flight, by one late reward |
| `AbandonedBreaks.TierPassedFromBoot` | src/game/Game.ts:3069-3124 | events from boot to more continues than the tier has |
| `AbandonedBreaks.PaidTwiceFromBoot` | src/game/Game.ts:6449-6467 | events from boot to a bonus paid twice |
| `RunGame.Game.Play` | src/game/Game.ts:4853-4908 | the object carries out every event sequence as the state machine does; from boot it keeps the promises of `EveryRun`, and those of `OncePerRun` where breaks end in time |
| `FlightPhysics.LiftFades` | src/game/FlightPhysics.ts:9-15 | lift never grows with time in the air and never falls below six percent |
| `FlightPhysics.CeilingOnlyBrakesClimbs` | src/game/FlightPhysics.ts:17-30 | the ceiling takes from climbs only, gives nothing, and leaves no climb at the top |
| `Terrain.UnitTangent` | src/game/TerrainSystem.ts:206-214 | the tangent is a unit vector |
| `Terrain.TangentX` | src/game/TerrainSystem.ts:206-214 | the tangent points forward |
| `Terrain.BouncePadAt` | src/game/TerrainSystem.ts:239-247 | the scan finds the first bloom of the island whose radius reaches the place, or none exactly when none does |
| `Terrain.IslandLaw` | src/game/TerrainSystem.ts:249-251 | islands are 1100 m long, and everything before the origin belongs to the first |
| `Terrain.ComponentAtMost` | src/game/Bird.ts:398-404 | no velocity is slower than its part along the ground |
| `BirdRuns.CarveSafe` | src/game/Bird.ts:319-364 | carving moves forward on the surface between the recovery floor and the cap |
| `Carving.CarvingLaw` | src/game/Bird.ts:320-337 | between floor and cap the speed along the ground gains the fall times 88 held or 30 gliding, and loses 1.8 or 5 percent a second |
| `Carving.LevelCostsFriction` | src/game/Bird.ts:328-329 | level ground costs exactly the friction |
| `Carving.HoldingPaysDownhill` | src/game/Bird.ts:324-329 | downhill, holding never ends a step slower than gliding |
| `Carving.HoldingCostsExactly` | src/game/Bird.ts:324-329 | between floor and cap holding costs speed if and only if its weight outweighs the friction it saves |
| `Carving.ClimbsAreSteepEnough` | src/game/Bird.ts:324-329 | which it does on any climb of a tenth or more at up to 150 m/s |
| `FlightLaws.CurvatureOfParabola` | src/game/TerrainSystem.ts:216-229 | on a parabola slope and curvature are the true ones, positive exactly on a crest |
| `FlightLaws.LetsGoExactly` | src/game/Bird.ts:340-358 | a bird leaves the ground if and only if the crest asks for more than gravity and grip, 96 and 190 held, 18 and 13 gliding |
| `FlightLaws.FasterLetsGo` | src/game/Bird.ts:345-349 | a faster bird leaves every crest a slower one leaves |
| `BirdRuns.DivingHoldsOn` | src/game/Bird.ts:345-349 | holding never lets go of a crest that gliding would follow |
| `BirdRuns.FlySafe` | src/game/Bird.ts:366-394 | flight goes forward within the cap |
| `FlightLaws.FlightLaw` | src/game/Bird.ts:366-395 | below cap and ceiling a flight step is gravity less lift, then drag, and moves by the new velocity |
| `FlightLaws.CapLaw` | src/game/Bird.ts:378-382 | over the cap a velocity is shortened to it and keeps its direction |
| `FlightLaws.CapIs` | src/game/Bird.ts:315-317 | the cap is 108 m/s, 128 in a fever, times the multiplier, and 42 more under a boost |
| `FlightLaws.HoldingFallsFaster` | src/game/Bird.ts:367-377 | from level flight on holding falls faster than gliding with any lift, and keeps more forward speed |
| `FlightLaws.FadeLaw` | src/game/FlightPhysics.ts:9-15 | the fade of lift, piece by piece |
| `BirdRuns.KeepGrowsWithAlignment` | src/game/Bird.ts:405-415 | a better landing angle never keeps less; only a perfect one gains, and never above 3 percent |
| `BirdRuns.TouchDownSafe` | src/game/Bird.ts:397-427 | a touchdown ends on the surface, forward, between the floor and the gain on the speed it had |
| `FlightLaws.AlignmentLaw` | src/game/Bird.ts:403-406 | a touchdown is perfect if and only if the velocity is along the slope |
| `FlightLaws.KeepLaw` | src/game/Bird.ts:407-415 | what each grade keeps: a gain of 3 percent, all, or from 55, 86 or 88 percent up |
| `FlightLaws.TouchdownLaw` | src/game/Bird.ts:397-427 | at or under the surface, and only there, the bird lands along it with the kept part of its speed, 6 at least |
| `BirdRuns.StepGoesForward` | src/game/Bird.ts:307-464 | no step takes the bird back |
| `BirdRuns.BelowExactlyOffALowBloom` | src/game/Bird.ts:444-457 | a step ends below the surface if and only if it bounces where the ground is more than 0.4 above the ground at the bloom's centre |
| `BirdRuns.DryStepWithinLimits` | src/game/Bird.ts:319-427 | dry, awake, off no bloom: grounded exactly on the surface at no less than the floor, never above the cap times the gain |
| `BirdRuns.UsualLimits` | src/game/Bird.ts:312-337 | with a cap of at least the floor, that floor is the full 6 and the excess at most 3 percent |
| `FlightLaws.WaterLaw` | src/game/Bird.ts:430-442 | in water exactly over the ocean and under a metre, slowed, pushed up, never under its floor |
| `FlightLaws.BouncesExactly` | src/game/Bird.ts:444-448 | a bloom throws a bird if and only if it ends dry on the ground within reach with the cooldown over |
| `BirdRuns.RunIsSafe` | src/game/Bird.ts:307-464 | over every run, pushed or not, x never falls, and no step ends below the surface if and only if every hop taken clears the ground |
| `Blooms.NeverBelowExactlyWithLowRims` | src/game/TerrainSystem.ts:239-247 | no run at all ends a step below the surface if and only if no dry ground within a bloom's reach is more than 0.4 above its centre |
| `Blooms.HighRimSinks` | src/game/Bird.ts:444-457 | any step that brings a bird to a high rim on dry ground, rolling or touching down, puts it under the ground once its cooldown is over |
| `Blooms.GentleGroundHasLowRims` | src/game/TerrainSystem.ts:239-247 | ground nowhere steeper than 2/17 is safe |
| `Blooms.StraightIsPlanted` | src/game/TerrainSystem.ts:493-507 | on an even slope the generator plants if and only if it is under 0.42 |
| `Blooms.StraightHasLowRims` | src/game/TerrainSystem.ts:239-247 | and the bloom there is safe if and only if the slope is at most 2/17 |
| `Blooms.SwallowedHop` | src/game/Bird.ts:366-424 | a hop still at or below the surface after its first step is a landing, with no second hop |
| `Blooms.SteepBloomSwallowsTheHop` | src/game/Bird.ts:444-457 | on a planted slope of 5/12 a bird rolling at 26 m/s is put under the ground and at once lands badly |
| `BirdRuns.RunClock` | src/game/Bird.ts:352-424 | over every run the flight clock reads zero on the ground |
| `BirdRuns.ClockRestsOnTheGround` | src/game/Bird.ts:352-457 | a step that ends grounded or off a bloom leaves the clock at zero |
| `BirdRuns.LiftBelowOne` | src/game/Bird.ts:367-371 | lift never cancels gravity |
| `Flights.OnlySinks` | src/game/Bird.ts:366-395 | once an unpushed flight has stopped climbing it never climbs again |
| `Flights.AloftIsPath` | src/game/Bird.ts:366-395 | every step of a flight, pushed or not, rises or sinks as its climb says, and `apexY` follows the height |
| `Flights.PathApex` | src/game/Bird.ts:395 | at every moment of a flight `apexY` is the greatest of the apex it began with and every height since |
| `Flights.OneApex` | src/game/Bird.ts:366-395 | each flight left alone after its first step rises to one peak, then falls, and the recorded apex covers the peak |
| `Flights.ApexIsExact` | src/game/Bird.ts:350-395 | from a crest on, at every moment and however the bird is pushed, `apexY` is exactly the greatest height and `airTime` the time aloft |
| `Blooms.ApexOffABloom` | src/game/Bird.ts:444-457 | off a bloom `apexY` is the flight's own from its first step on if and only if the older apex is at most that step's height, which lies between bloom + 1.3 and 30 m/s above that |
| `Blooms.StaleApex` | src/game/Bird.ts:252-457 | a run from the start, down a gentle hill and off a bloom, in which `apexY` is ten metres above anything the hop has reached |
| `BirdObject.Bird.Reset` | src/game/Bird.ts:252-279 | the whole state of a fresh run; the last landing's grade survives |
| `BirdObject.Bird.Step` | src/game/Bird.ts:307-464 | the object's step is the step the theorems are about: never backward, and below ground only off a low bloom |
| `Launches.RampIsSteepest` | src/game/LaunchSystem.ts:94-95 | the ramp is the steepest probe, or zero |
| `Launches.RatedMeansReleased` | src/game/LaunchSystem.ts:97-107 | a rating needs a release inside the window and enough speed; every launch uses the release up |
| `Launches.OnlyAScoredMissBreaks` | src/game/LaunchSystem.ts:102-137 | a launch shortens the chain if and only if it is scored and falls short |
| `Launches.BoostGrowsWithScore` | src/game/LaunchSystem.ts:118-129 | a better score never earns less, and at most 23.5 percent |
| `Launches.GradeLaw` | src/game/LaunchSystem.ts:118-130 | the grades are exactly the score's: 0.84, 0.68, 0.42 |
| `Launches.PayoutLaw` | src/game/LaunchSystem.ts:118-155 | velocity, counts, chain and time after every launch, rated or not |
| `Launches.RatedExactly` | src/game/LaunchSystem.ts:97-107 | a launch is rated if and only if it has 26 m/s, rises, and follows a release by 1.35 s at most |
| `Launches.ScoreCorners` | src/game/LaunchSystem.ts:109-117 | what speed, ramp, angle and release are worth, all or nothing |
| `Launches.BetterScoresNoLower` | src/game/LaunchSystem.ts:109-117 | a faster, steeper or better aimed launch never scores lower |
| `Launches.LaterReleaseScoresNoHigher` | src/game/LaunchSystem.ts:109-116 | an immediate release scores best |
| `Launches.ChainIsSound` | src/game/LaunchSystem.ts:52-156 | in every run combo is within best, best within perfects plus greats, and a live combo has time left |
| `Launches.EachRatingSpendsARelease` | src/game/LaunchSystem.ts:65-156 | over any stretch, rated launches are at most the releases, with one that may wait at the start |
| `Launches.FreshRunBound` | src/game/LaunchSystem.ts:52-156 | from a reset, rated launches never outnumber dive releases |
| `Launches.ChainExpires` | src/game/LaunchSystem.ts:70-75 | left alone, a chain lives exactly until its grace has run out |
| `LaunchObject.LaunchSystem.Ramp` | src/game/LaunchSystem.ts:94-95 | the probe loop computes the steepest ramp |
| `LaunchObject.LaunchSystem.Evaluate` | src/game/LaunchSystem.ts:88-155 | rating, counters, chain and boost of one launch: a rating spends the waiting release, and the chain stays sound |
| `Uri.DecodeEncoded` | src/game/Challenge.ts:86-106 | decoding an encoded well-formed text gives it back |
| `Uri.EscapeLaw` | src/game/Challenge.ts:62 | letters, digits and nine marks are sent as they are, the bytes of anything else escaped |
| `Form.RoundTrip` | src/game/Challenge.ts:45-48 | what the form serializer prints, the form parser reads back pair by pair |
| `Challenge.PackThrowsExactlyOnSplitPair` | src/game/Challenge.ts:68-92 | packing throws if and only if the 14-unit cut of the cleaned name splits a surrogate pair |
| `Challenge.CleanNameTwice` | src/game/Challenge.ts:68-70 | cleaning a cleaned name changes nothing |
| `Challenge.TokenHasNoSpace` | src/game/Challenge.ts:86-96 | a packed token holds no white space, so inserted space is invisible |
| `Challenge.UnpackOfPack` | src/game/Challenge.ts:86-106 | any spacing of a packed token unpacks to the cleaned challenge, exactly when seed and distance are in range |
| `Challenge.TokenRoundTrip` | src/game/Challenge.ts:81-106 | for a valid challenge the token is an exact copy of its cleaned form |
| `Challenge.RespacedStrips` | src/game/Challenge.ts:96 | white space put in anywhere, any number of times, is stripped again |
| `Challenge.SpacedTokenRoundTrip` | src/game/Challenge.ts:81-106 | a token broken up by white space anywhere still unpacks to the cleaned challenge |
| `Carried.TokenCarriesExactly` | src/game/Challenge.ts:68-106 | a token carries a challenge unchanged if and only if the seed is 1 to 40 letters, digits and minus signs, the distance whole and from 1 to a million, the name well-formed and 1 to 14 units of letters, numbers, spaces, underscores, dots and minus signs, and the mode absent or 1 to 20 small letters, digits and minus signs |
| `Carried.TokenText` | src/game/Challenge.ts:83-92 | a token's text, field by field |
| `Carried.DistanceSent` | src/game/Challenge.ts:84-87 | a distance under a metre is sent as one, a broken one rounded down |
| `Carried.NoToken` | src/game/Challenge.ts:95-98 | a text without the prefix, or with other than four or five fields, is no token |
| `Carried.LongNameIsCut` | src/game/Challenge.ts:68-70 | a longer name of such characters is cut to 14 units, or throws when that splits a character |
| `Carried.EmptyNameIsARival` | src/game/Challenge.ts:68-70 | a name with none of them becomes "A rival" |
| `Carried.BadCharIsDropped` | src/game/Challenge.ts:68-70 | any other character is left out wherever it stands |
| `ChallengeUrl.LinkReads` | src/game/Challenge.ts:29-64 | for a plain seed, any distance that prints as digits and any name and mode, a built link reads as the second decoding of the name allows if seed and distance are in range, and as nothing otherwise |
| `ChallengeUrl.LinkIsReadableExactly` | src/game/Challenge.ts:29-64 | it is readable if and only if the seed is valid, the distance is from 1 to a million, and the name decodes once more |
| `ChallengeUrl.LinkGivesItsValuesExactly` | src/game/Challenge.ts:29-64 | for any seed, distance, name and mode, a link gives back those very values if and only if seed and distance are valid, the name decoded once more cleans to itself, and the mode is clean |
| `Carried.LinkCarriesExactly` | src/game/Challenge.ts:29-64 | a link carries seed, distance, name and mode unchanged if and only if they are of those same characters and sizes |
| `Carried.LinkIs` | src/game/Challenge.ts:59-64 | a link's text, field by field |
| `Carried.NamelessLink` | src/game/Challenge.ts:36-40 | a value without a dot is no challenge, one without a name is that of "A rival" |
| `ChallengeUrl.HashLaw` | src/game/Challenge.ts:32 | the hash is all from the first number sign on, and none when nothing follows it |
| `ChallengeUrl.RaceLinkIsUnreadable` | src/game/Challenge.ts:38 | no link to a race's seed, two plain texts around a colon, can be read |
| `ChallengeUrl.ModeIsKeptExactly` | src/game/Challenge.ts:43 | a mode survives if and only if it is absent, or 1 to 20 small letters, digits and minus signs |
| `ChallengeUrl.PvpModeIsLost` | src/game/Challenge.ts:43 | a mode with an underscore never comes back from a link |
| `ChallengeUrl.LinkRoundTrip` | src/game/Challenge.ts:29-64 | a link of clean values read in a fresh session gives those values, dots in the name included |
| `ChallengeUrl.BuildThrowsExactly` | src/game/Challenge.ts:59-64 | building a link throws if and only if the name, or a mode that is not empty, is not well-formed |
| `ChallengeUrl.HandleLinkThrowsExactly` | src/game/Game.ts:5828 | a well-formed portal handle yields a link that throws if and only if the 14-unit cut splits a surrogate pair |
| `ChallengeUrl.OddHandleThrows` | src/game/Game.ts:5828 | a well-formed handle of thirteen letters or digits and one character outside the basic plane throws |
| `Challenge.OddNameThrows` | src/game/Challenge.ts:86-92 | such a name cannot be packed where that character is a letter |
| `ChallengeUrl.PercentNameIsUnreadable` | src/game/Challenge.ts:40 | a pilot named `5%` builds a link nobody can read |
| `ChallengeUrl.RefreshReadsNothing` | src/game/Challenge.ts:44-48 | once read, the address holds no challenge |
| `ChallengeUrl.Reader.Read` | src/game/Challenge.ts:29-54 | the first challenge is kept for the session and the address rewritten |
| `Calendar.ReadsBackExactly` | api/score.ts:52-57 | a date reads back as itself if and only if it is a calendar date |
| `Calendar.TomorrowIsTheNextDay` | api/score.ts:63-67 | day numbers count the days of the civil calendar |
| `Calendar.EpochLaw` | api/score.ts:53-56 | days are counted from the first of January 1970 |
| `Calendar.ReadsExactly` | api/score.ts:52-57 | with Date.UTC's two-digit years, exactly the real dates from the year 100 on pass the check |
| `Calendar.EarlierExactly` | api/score.ts:58-60 | an earlier date is a smaller day number |
| `DayText.ParseRange` | api/score.ts:50-52 | the pattern reads a date that prints back as written |
| `DayText.TextOrderIsDayOrder` | api/board.ts:71-75 | comparing written days as strings compares their day numbers |
| `DayText.ResolvesExactly` | api/score.ts:47-61 | the client's day is taken exactly when it is a real date within two days of today, else today |
| `DayText.ResolvedIsNear` | api/score.ts:39-46 | every row is filed under a real day at most two days from today |
| `DayText.WeekStart` | api/board.ts:73-74 | the window's first day is the calendar day six days before today |
| `DayText.WeekIsSevenDays` | api/board.ts:70-76 | the week scope holds exactly the seven days that end today |
| `RateLimit.AtMostTwice` | api/score.ts:21-31 | under a forward clock no 60-second interval, ends included, lets through more than twice the maximum |
| `RateLimit.TwiceIsReached` | api/score.ts:21-31 | and from any moment on some requests get exactly twice the maximum through |
| `RateLimit.AtMostMaxPerWindow` | api/score.ts:21-31 | within a window at most the maximum gets through |
| `RateLimit.RefusedOnlyWhenSpent` | api/score.ts:28 | a refusal means the maximum got through in the last minute |
| `RateLimit.KeysAreIndependent` | api/board.ts:34-44 | a key is treated as if the other keys did not exist |
| `RateLimit.EveryKeyEveryMinute` | api/board.ts:34-44 | the bound for every key, every minute and every trace |
| `RateLimit.Limiter.Allowed` | api/score.ts:21-31 | one request against the table of keys |
| `Leaderboard.NumbersAgree` | backend/src/leaderboard.ts:35-39 | bounding then rounding equals rounding then bounding, and stays within the cap |
| `Leaderboard.RowsAgree` | backend/src/leaderboard.ts:283-298 | both backends make the same row of a submission, day and skin aside, and give the same reply |
| `Leaderboard.UpsertIsKeep` | backend/src/leaderboard.ts:300-313 | the table's upsert is the edge route's read-then-write |
| `Leaderboard.StoresTheBest` | api/score.ts:126-128 | each device's row is its earliest accepted submission of greatest distance |
| `Leaderboard.BackendsAgree` | backend/src/leaderboard.ts:281-323 | after the same submissions both backends hold the same devices, names and numbers |
| `Leaderboard.EveryRowIsPlausible` | api/score.ts:110-113 | every stored row passed the gates, and every device has one row |
| `Leaderboard.StoredDaysAreReal` | api/score.ts:102 | every stored row's day is a real day near the day it came |
| `Leaderboard.LookupOfPut` | api/_lib/store.ts:67-80 | a put is seen by its own device and no other |
| `Leaderboard.MemoryStore.PutRow` | api/_lib/store.ts:74-80 | a put is seen by its own device alone; a known device keeps its place, a new one goes last, and devices stay distinct |
| `Leaderboard.MemoryStore.Submit` | api/score.ts:93-131 | gates and keep-best of one POST |
| `Submissions.KeptExactly` | api/_lib/http.ts:34-38 | a text is kept as it is if and only if it has none of the five unsafe characters and fits its limit |
| `Submissions.NumberIsNearest` | api/_lib/http.ts:40-44 | a number becomes the nearest whole one between 0 and its cap, and 0 when it is none |
| `Submissions.OrdinaryRow` | api/score.ts:93-103 | an ordinary submission makes the row of its own values, field by field |
| `Submissions.OrdinaryIsKept` | backend/src/leaderboard.ts:281-323 | both backends accept it when plausible, and its device's row then holds those values if they beat the old distance; no other row changes |
| `Submissions.RefusedExactly` | api/score.ts:105-113 | every other submission is refused for its first fault and changes nothing |
| `Submissions.LongTexts` | api/score.ts:94-96 | clean texts past their limits are cut: 64, 14 and 24 units |
| `Submissions.MissingTexts` | backend/src/leaderboard.ts:291-292 | without a name "Pilot", without a skin none or "sunbird" |
| `Board.SortSorts` | api/board.ts:78 | the list is in descending order and loses or invents no row |
| `Board.SortIsStable` | api/board.ts:78 | rows of equal value keep their order |
| `Board.WeekBoard` | api/board.ts:66-77 | the week board lists exactly the rows of the last seven days |
| `Board.OtherBoards` | api/board.ts:66-77 | the day's board lists exactly the rows of the day, the whole board every row |
| `Board.MetricIsItsField` | api/board.ts:78 | each metric reads its own field and no other |
| `Board.PageIsTheTop` | api/board.ts:82-86 | at most fifty entries, in order, with nothing better left out |
| `Board.RankIsFair` | api/board.ts:80 | the rank is 0 exactly when the device is not listed, else after all better and within all as good |
| `Board.StoreIsDated` | api/board.ts:64-77 | whatever the score route stores can be listed |
| `Board.SortInPlace` | api/board.ts:78 | an insertion sort of the array in place equals the stable sort |
| `Board.ReadBoard` | api/board.ts:57-87 | the page is in order, fifty at most, counts everyone in scope and gives a fair rank |
| `BootStages.BootStageKeeps` | src/game/BootProgress.ts:132-154 | a mark forgets none, repeats none, and "ready" marks every stage |
| `BootStages.BootStageTwice` | src/game/BootProgress.ts:132-136 | a stage reached twice reports once |
| `BootStages.ProgressIsHonest` | src/game/BootProgress.ts:76-80 | progress stays within 0 and 1, grows with the marks, and is full exactly when none is missing |
| `BootStages.StageMovesBar` | src/game/BootProgress.ts:76-80 | each stage moves the bar by exactly its own share of 22 |
| `BootStages.LabelIsFurthest` | src/game/BootProgress.ts:82-88 | the label belongs to the furthest stage marked |
| `BootStages.BarNeverLies` | src/game/BootProgress.ts:132-172 | through any marks the bar never moves back, and is full exactly from "ready" on |
| `DeferredWork.RunIsOneTask` | src/game/BootProgress.ts:207-216 | a run executes its one task, and owes a flush when anything waits |
| `DeferredWork.StepExecutesAtMostOne` | src/game/BootProgress.ts:199-229 | one callback executes one task at most; nothing else executes any |
| `DeferredWork.EveryRun` | src/game/BootProgress.ts:199-229 | for any firing order tasks run in submission order, each at most once, and no wake-up is lost |
| `DeferredWork.QuietMeansAllDone` | src/game/BootProgress.ts:220-229 | when no callback is owed, every task has run, in order |
| `DeferredWork.CallsAreBounded` | src/game/BootProgress.ts:199-218 | at most three callbacks for each task |
| `DeferredWork.NoSchedulerNoWork` | src/game/BootProgress.ts:186-197 | without a scheduler nothing ever runs |
| `DeferredWork.AwakeExactlyWithAScheduler` | src/game/BootProgress.ts:186-197 | waiting tasks always have a wake-up coming if and only if the platform can schedule |
| `BootProgress.Boot.ComputedProgress` | src/game/BootProgress.ts:76-80 | the loop sums the weights of the marked stages |
| `BootProgress.Boot.LabelFor` | src/game/BootProgress.ts:82-88 | the backwards loop finds the furthest marked stage |
| `BootProgress.Boot.BootStage` | src/game/BootProgress.ts:137-172 | marks, flag and reported state of one stage; nothing marked is forgotten and the bar never moves back |
| `BootProgress.Boot.Defer` | src/game/BootProgress.ts:226-229 | queues last and flushes; the line stays in order and loses no wake-up |
| `BootProgress.Boot.RunTask` | src/game/BootProgress.ts:207-216 | one owed run executes its one task, its work deferring more, and owes a wake-up while any wait |
| `SlotPools.PlaceKeeps` | src/game/Collectibles.ts:515-603 | placing keeps the pool sound |
| `SlotPools.DroppedOnlyWhenFull` | src/game/Collectibles.ts:554-568 | a placement is dropped if and only if every slot of its kind is in use, else it is the last active record |
| `SlotPools.SweepActive` | src/game/Collectibles.ts:221-244 | the backwards splicing leaves exactly the records that stay, in order, and reports each hit once |
| `SlotPools.SweepEntries` | src/game/Collectibles.ts:221-244 | each swept record becomes what its fate says; no other is touched |
| `SlotPools.SweepKeeps` | src/game/Collectibles.ts:221-307 | a frame's pass keeps the pool sound |
| `SlotPools.ResetKeeps` | src/game/Collectibles.ts:178-208 | a reset leaves nothing active and everything idle |
| `SlotPools.DrawnFits` | src/game/Collectibles.ts:242-243 | a mesh never draws more instances than its capacity |
| `SlotPools.EveryRun` | src/game/Collectibles.ts:178-307 | after any spawns, frames and resets: distinct records and slots, taken exactly when idle, each placement collected at most once, no mesh overflows |
| `Collectibles.PlaceCappedKeeps` | src/game/Collectibles.ts:615-648 | the cap on active balloons bounds the pool too |
| `Collectibles.SlotPool.Alloc` | src/game/Collectibles.ts:554-568 | an idle record, a fresh one, or none |
| `Collectibles.SlotPool.PlaceAt` | src/game/Collectibles.ts:515-524 | a placement activates the record it was given |
| `Collectibles.SlotPool.Frame` | src/game/Collectibles.ts:219-246 | one backwards pass, with instance counts that are right and fit |
| `Collectibles.SlotPool.Clear` | src/game/Collectibles.ts:181-207 | every active record becomes idle |
| `Collectibles.FrameKeeps` | src/game/Collectibles.ts:210-329 | spawning and sweeping keep every pool sound |
| `Collectibles.Collectibles.Update` | src/game/Collectibles.ts:210-329 | new cells first, then each pool's pass |
| `Collectibles.Collectibles.SpawnRange` | src/game/Collectibles.ts:364-483 | each cell of the range is filled in turn, with the opening line before anything else has been |
| `Collectibles.Collectibles.Restart` | src/game/Collectibles.ts:178-208 | a new run fills every cell again |
| `Collectibles.CoinTakenExactlyInReach` | src/game/Collectibles.ts:221-241 | a coin in reach is taken in that very frame, and no other is |
| `Magnet.TakenWithin` | src/game/Collectibles.ts:237 | coins are taken within 1.7 m and gems within 2.4; without a magnet none that stays moves |
| `Magnet.PullDraws` | src/game/Collectibles.ts:228-236 | a coin in reach of the pull ends the frame on its line to the bird, nearer by the pull, until it would overshoot |
| `Magnet.OthersStand` | src/game/Collectibles.ts:232 | a coin out of reach does not move |
| `Magnet.MagnetCollects` | src/game/Collectibles.ts:219-241 | with the bird still and a step under 3.4 m every coin in the magnet's radius is collected, in the frames its distance takes and one more |
| `Magnet.PoolCollects` | src/game/Collectibles.ts:219-241 | so it is in the pool, whatever else that holds |
| `Magnet.LongStepsSwing` | src/game/Collectibles.ts:228-236 | the bound is sharp: with a step of 3.4 m a coin can swing about the bird for good |
| `Magnet.RingsStand` | src/game/Collectibles.ts:292-304 | rings do not move, and are threaded at their plane within 4 m |
| `Magnet.BalloonsDrift` | src/game/Collectibles.ts:307-328 | balloons drift level and are popped exactly within 4.4 m of where they drifted to |
| `Collectibles.SpawnsWhatIsVisited` | src/game/Collectibles.ts:210-217 | a frame places the contents of exactly the cells its walk adds, and the opening line when it lays it |
| `Collectibles.RingIsNeverSkipped` | src/game/Collectibles.ts:292-304 | a ring flown through in steps shorter than 4.4 m is threaded, and dropped by no earlier frame |
| `Collectibles.RingStepIsSharp` | src/game/Collectibles.ts:292-304 | every longer step can pass through a ring between two frames |
| `SpawnCells.FilledAtMostOnce` | src/game/Collectibles.ts:210-217 | for any path each cell is filled at most once between resets, and the opening line laid once |
| `SpawnCells.WindowIsFilled` | src/game/Collectibles.ts:210-217 | on a forward path the whole window is filled after each update if and only if the bird is past x = -6 |
| `SpawnCells.NothingMissed` | src/game/Collectibles.ts:364-368 | no cell that may hold anything is ever missed |
| `BeatLines.TargetsShape` | src/game/BeatLines.ts:80-127 | targets are ahead, in order, 60 m or more apart, three at most |
| `BeatLines.CandidatesExactly` | src/game/BeatLines.ts:87-110 | a kind has a flag if and only if it has words, a mark of 1 m at least, and it is still ahead; the flag has its mark, words and format |
| `BeatLines.MarkIsItsField` | src/game/BeatLines.ts:105-109 | each kind's mark is the nearest whole metre of its own field |
| `BeatLines.NoMarkIsZero` | src/game/BeatLines.ts:105-109 | a field that is null or no number gives no mark |
| `BeatLines.LabelLaw` | src/game/BeatLines.ts:90-93 | a label is the given words without the white space around them, and none when nothing is left |
| `BeatLines.EveryMarkIsRepresented` | src/game/BeatLines.ts:114-125 | a collapsed mark is stood for by a kept one that outranks it, less than 60 m away for each rank |
| `BeatLines.RivalIsKept` | src/game/BeatLines.ts:53-61 | the rival is never collapsed away |
| `BeatLines.SortSorts` | src/game/BeatLines.ts:111-112 | candidates in order of distance and priority, none lost |
| `BeatLines.CrossedExactly` | src/game/BeatLines.ts:145-156 | exactly the targets passed |
| `BeatLines.FiresAtMostOnce` | src/game/BeatLines.ts:145-156 | in a forward run each mark fires at most once, and only if passed |
| `BeatLines.RivalFiresExactlyOnce` | src/game/BeatLines.ts:80-156 | with steps of at most 180 m the rival's mark fires exactly once when passed |
| `BeatLines.StepLimitIsSharp` | src/game/BeatLines.ts:126 | every longer step can pass a rival without firing it |
| `BeatLines.BeatTargets` | src/game/BeatLines.ts:87-127 | the loops compute the line |
| `BeatLines.Collapse` | src/game/BeatLines.ts:114-125 | the collapse loop, replacing in place |
| `BeatLines.NearestBeatLine` | src/game/BeatLines.ts:133-143 | the first of the nearest targets in the window, or none exactly when it is empty |
| `BeatLines.WindowLaw` | src/game/BeatLines.ts:133-138 | the window is 400 m unless another is given, its far end included and the bird's own place not |
| `BeatLines.NearestIsFirst` | src/game/BeatLines.ts:129-143 | for a line of targets the nearest is the first |
| `Ghosts.CachedIsFresh` | src/game/Ghost.ts:222 | under a forward clock the cached cursor is the one a search from zero finds |
| `Ghosts.BetweenSamples` | src/game/Ghost.ts:227-233 | the ghost is always between its two bracketing samples |
| `Ghosts.ProportionalToTime` | src/game/Ghost.ts:227-233 | between two samples place and rotation are proportional to the time |
| `Ghosts.BracketHoldsQuery` | src/game/Ghost.ts:222-228 | with ascending times the bracket holds the query or lies at an end |
| `Ghosts.PlaysForward` | src/game/Ghost.ts:219-242 | a flight that went forward is played forward |
| `Ghosts.PassesThroughSamples` | src/game/Ghost.ts:227-232 | at each sample's time the ghost has its place and rotation, if the sample before leaves a tenth of a millisecond |
| `Ghosts.HoldsTheLastSample` | src/game/Ghost.ts:229-231 | past the sample before it the ghost has the last sample's place and rotation if and only if that pair's span is over or the pair does not move |
| `Ghosts.EndsAtTheLastSample` | src/game/Ghost.ts:218-231 | from the last sample's time on the ghost has its place and rotation |
| `Ghosts.PlaybackIsFresh` | src/game/Ghost.ts:219-242 | a whole playback equals fresh searches and never moves back |
| `Ghosts.RecordsForward` | src/game/Ghost.ts:21-27 | recorded samples are nine hundredths of a second apart at least, forward, and within the cap |
| `Ghosts.RecordLaw` | src/game/Ghost.ts:21-27 | a sample exactly once a tenth of a second has gone by, 6000 at most |
| `Ghosts.RecordedNear` | src/game/Ghost.ts:25-26 | each sample is the bird's to the nearest hundredth of time and rotation and tenth of a metre |
| `Ghosts.RecordThenPlay` | src/game/Ghost.ts:21-242 | a run recorded and then played never moves back and ends with its last sample's place and rotation |
| `GhostObjects.GhostRecorder.Sample` | src/game/Ghost.ts:21-27 | one sample at most per tenth of a second, up to the cap |
| `GhostObjects.GhostPlayer.LoadRecord` | src/game/Ghost.ts:199-206 | active exactly with five samples or more |
| `GhostObjects.GhostPlayer.Update` | src/game/Ghost.ts:219-242 | the cursor loop and the blend; an active ghost always has a place |
| `GhostNet.ThinIsEven` | src/game/GhostNet.ts:84-91 | exactly the smaller count for every maximum; above a cut to one, first and last kept, strictly ascending, gaps the floor or ceiling of the stride |
| `GhostNet.HoleExactlyAtOne` | src/game/GhostNet.ts:85-91 | an undefined sample appears if and only if two or more are cut to one |
| `GhostNet.PickGap` | src/game/GhostNet.ts:88-89 | neighbouring picks are the floor or the ceiling of the stride apart |
| `GhostNet.PickIsNearest` | src/game/GhostNet.ts:89 | no pick is more than half a sample off |
| `GhostNet.Thin` | src/game/GhostNet.ts:85-91 | the counted loop for every maximum, never out of range |
| `Flags.ParseEncode` | src/game/Flags.ts:40-84 | parsing what a write stores gives back the same map, order included |
| `Flags.ParseIsValid` | src/game/Flags.ts:40-49 | whatever the text, parsing yields well-named keys once each |
| `Flags.ReadPartLaw` | src/game/Flags.ts:40-49 | a flag is off exactly when "off", "0" or "false" follows its colon |
| `Flags.NameLaw` | src/game/Flags.ts:40-49 | a key is a letter followed by letters and digits |
| `Flags.WriteSyncs` | src/game/Flags.ts:74-84 | a write that succeeds puts cache and storage in step |
| `Flags.ReloadAgreesExactlyWhen` | src/game/Flags.ts:51-84 | after any reads and writes a reload agrees with the session, unless the first look at stored overrides failed and nothing was written since |
| `Flags.SyncedResolvesAlike` | src/game/Flags.ts:62-71 | in step, every flag reads the same after a reload |
| `Flags.WriteTakesEffect` | src/game/Flags.ts:62-84 | a write sets its own flag, unless the URL rules it, and no other |
| `Flags.FlagStore.ParseText` | src/game/Flags.ts:40-49 | the parse loop |
| `Flags.FlagStore.Flag` | src/game/Flags.ts:62-71 | URL first, then storage, then the default |
| `Flags.FlagStore.StoreFlag` | src/game/Flags.ts:74-84 | cache and storage change together or not at all |

## Left out

- Rendering, camera, HUD, audio, particles, haptics, toasts and telemetry: no meaning to check beyond calls into libraries.
- Networks, Redis, the SQL engine and signatures: storage is a list of rows by device, and ad promises are events that settle at any time.
- Matchmaking, rooms, races, weather, terrain generation beyond where blooms may stand, save data and the social server: the modules they rest on are not part of this model.
- Split-screen and portal-invite paths into the run lifecycle, and an adapter named "none": the modelled build has one player and a real adapter or none.
- The bird's rotation, squash and shadow, and what else the game writes into the bird between steps: a run of steps takes `asleep` and velocities from outside, not the places and grounded flags a second wind, a balloon or a hazard sets.
- The contents of a spawn cell, clouds and pickups: what a cell holds is a parameter, and their pools work like the balloons'.
- Object identity in the pools: a record is its position in the pool, and the throwaway record of a full pool is no record.
- Ghost persistence and eviction, and publishing ghosts: the player is given its samples.
- The worker's own board query, entitlements and telemetry tables: they would add easy members.
- The parsing of a request into text and numbers, and of the metric and scope names: a body's fields arrive as text and numbers, metric and scope as values.
- Exponential damping, economy tables, achievements and other content lookups: true but easy.
