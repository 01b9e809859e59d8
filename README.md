# Match striking, modelled in Dafny

A player drags a match across a striking surface, fast enough and with the
mouse button held, until enough strike progress builds up to light it. A lit
match burns for a fixed time and then burns out; it can be struck again, or
reset with a key. While lit, it heats whatever light zone it overlaps, and
the zone passes that heat on to its candle, which lights once it has gathered
enough.

The model covers the three components of `Assets/MatchStriking/`:

- `candles.dfy`, module `Candles`: `CandleTarget`, the one-way heat
  accumulator. The class keeps `heat`, `lit` and the flame visibility as
  fields. Its methods are specified by the pure step functions `AddHeatStep`,
  `IgniteStep` and `ResetStep` on the value `CandleState`. The invariant
  `Consistent` says the latch is only set at or above `secondsToIgnite` and
  the flame shows exactly while lit. Lemmas over `AddHeatAll`, a run of
  AddHeat calls, give monotonicity, freezing once lit, and the exact point at
  which the candle lights.
- `light_zones.dfy`, module `LightZones`: `LightZone`. The constructor plays
  `Awake`: it binds an explicitly wired candle, or otherwise the one found in
  the parent chain, or none. `AddHeat` forwards `dt` verbatim to the bound
  candle.
- `matches.dfy`, module `Matches`: `MatchController`, the
  `Unlit | Lit | BurnedOut` state machine. Its fields are the state, strike
  progress, burn timer, last measured speed and flame visibility. `Update`
  and `OnTriggerStay` are specified by `UpdateStep` (built on `BurnStep` and
  `ResetUnlitStep`) and `StrikeStep` (built on `IgniteStep`). The conversion
  factor 0.2 is the constant `ProgressPerStrikeDistance`. Heating a zone is
  gated by `HeatApplies`, judged after the striking part of the same stay,
  so the stay that lights the match already heats the zone. The invariant
  `Consistent` is kept by every event (`RunKeepsConsistent`). The tick
  lemmas pin down when ignition and burnout happen.
- `scenarios.dfy`, module `Scenarios`: the worked examples of the mechanic.
  They are stated as lemmas on the step functions and as client methods
  that drive the classes.

Engine inputs are method parameters:

- `dt` is the frame time.
- `speed` is the speed measured this frame, passed to `Update`.
- `resetPressed` is the reset key's press edge.
- `isStrikeArea` says whether the overlapped region is a striking surface.
- `held` is the mouse button state.
- `zone` is the light zone the overlapped region resolves to, or null when
  there is none.

The `MatchController` methods require `dt >= 0` and `speed >= 0`. The engine
guarantees both: a frame time is never negative, and a speed is a vector
magnitude.

## Model

| member | source | states |
|---|---|---|
| `Candles.IgniteStep` | Assets/MatchStriking/CandleTarget.cs:51-57 | the candle ends lit with its heat unchanged; an already lit candle is returned unchanged (idempotent); an unlit one gets its flame shown |
| `Candles.AddHeatStep` | Assets/MatchStriking/CandleTarget.cs:39-49 | a lit candle is unchanged; an unlit one gains exactly dt of heat and is lit iff the new heat is at least secondsToIgnite; the invariant is preserved |
| `Candles.ResetStep` | Assets/MatchStriking/CandleTarget.cs:31-37 | from any state: heat 0, unlit, flame hidden, and consistent for every threshold |
| `Candles.LitCandleIsFrozen` | Assets/MatchStriking/CandleTarget.cs:41 | once lit, no sequence of AddHeat calls changes heat, lit or flame |
| `Candles.HeatNonDecreasing` | Assets/MatchStriking/CandleTarget.cs:41-48 | for non-negative contributions heat never decreases and a lit candle stays lit |
| `Candles.LitIffThresholdReached` | Assets/MatchStriking/CandleTarget.cs:43-48 | from unlit below the threshold, non-negative contributions light the candle iff start heat plus their sum reaches the threshold; while unlit the heat is exactly that sum |
| `Candles.CandleTarget.constructor` | Assets/MatchStriking/CandleTarget.cs:15-16 | a new candle has no heat, is unlit, with the flame hidden, and is consistent |
| `Candles.CandleTarget.Heat` | Assets/MatchStriking/CandleTarget.cs:18 | the heat getter; on a consistent lit candle it is at least the threshold |
| `Candles.CandleTarget.IsLit` | Assets/MatchStriking/CandleTarget.cs:19 | the lit getter; on a consistent candle it is true iff the flame shows |
| `Candles.CandleTarget.ResetCandle` | Assets/MatchStriking/CandleTarget.cs:31-37 | the new state is ResetStep of the old one, so heat 0, unlit, flame hidden, whatever came before |
| `Candles.CandleTarget.AddHeat` | Assets/MatchStriking/CandleTarget.cs:39-49 | the new state is AddHeatStep of the old one, and the invariant is kept |
| `Candles.CandleTarget.Ignite` | Assets/MatchStriking/CandleTarget.cs:51-57 | called only at or above the threshold (as AddHeat does); the new state is IgniteStep of the old one, a no-op when already lit, and the invariant is kept |
| `LightZones.Bind` | Assets/MatchStriking/LightZone.cs:12-17 | an explicitly wired candle is kept; otherwise the one found in the parents is taken; the result is unbound iff both are absent |
| `LightZones.LightZone.constructor` | Assets/MatchStriking/LightZone.cs:12-17 | the zone's binding is the one Bind resolves |
| `LightZones.LightZone.AddHeat` | Assets/MatchStriking/LightZone.cs:19-22 | the bound candle changes exactly as its own AddHeat(dt) would; with no candle nothing changes; the binding is a constant set when the zone wakes |
| `LightZones.LightZone.OnTriggerEnter` | Assets/MatchStriking/LightZone.cs:29 | the enter notification leaves the bound candle unchanged |
| `LightZones.LightZone.OnTriggerExit` | Assets/MatchStriking/LightZone.cs:30 | the exit notification leaves the bound candle unchanged |
| `Matches.StrikeGain` | Assets/MatchStriking/MatchController.cs:146 | the progress one stay adds, lastSpeed times dt times 0.2, is non-negative for non-negative speed and dt |
| `Matches.ResetUnlitStep` | Assets/MatchStriking/MatchController.cs:81-87 | from any state: Unlit, progress 0, burn timer 0, flame hidden; the measured speed is kept; the result is consistent |
| `Matches.IgniteStep` | Assets/MatchStriking/MatchController.cs:185-191 | Lit, flame shown, burn timer 0; strike progress and speed are kept, not reset |
| `Matches.BurnStep` | Assets/MatchStriking/MatchController.cs:104-114 | only a Lit match with burnSeconds > 0 changes: its timer grows by exactly dt and it is BurnedOut iff the timer reaches burnSeconds; only Lit to BurnedOut is possible; the invariant is preserved |
| `Matches.UpdateStep` | Assets/MatchStriking/MatchController.cs:89-122 | records the speed; a reset press ends in Unlit with progress 0, timer 0 and flame hidden; without a reset press progress is unchanged and the state only stays or burns out from Lit; with burnSeconds <= 0 it never newly reaches BurnedOut; the invariant is preserved |
| `Matches.StrikeStep` | Assets/MatchStriking/MatchController.cs:129-157 | unless the match is Unlit or BurnedOut, on a strike area, with the input gate open and at least minStrikeSpeed, the match is unchanged; otherwise progress grows by exactly lastSpeed*dt*0.2 and the match is Lit (timer 0, flame shown) iff progress reaches strikeProgressNeeded; the invariant is preserved |
| `Matches.EveryEventIsAllowed` | Assets/MatchStriking/MatchController.cs:81-191 | every Update, stay or reset moves along an allowed transition (strike into Lit, timer from Lit to BurnedOut, any state to Unlit); BurnedOut is entered only from Lit and only by a Tick, Unlit only by a Reset or a Tick with the reset key pressed, Lit only by a Stay |
| `Matches.RunKeepsConsistent` | Assets/MatchStriking/MatchController.cs:81-191 | any run of well-formed events keeps the invariant: non-negative quantities, enough progress once struck, time left while lit, and the flame shown iff Lit |
| `Matches.RelightAfterBurnout` | Assets/MatchStriking/MatchController.cs:133-150 | since ignition keeps the strike progress, one qualifying stay on a strike area relights a burned out match |
| `Matches.BurnedOutStaysBurnedOut` | Assets/MatchStriking/MatchController.cs:105 | with no reset, Update ticks keep a burned out match burned out |
| `Matches.BurnoutExactlyWhenTimerReaches` | Assets/MatchStriking/MatchController.cs:105-114 | with burnout enabled, a Lit match is BurnedOut after n ticks iff its timer plus n times dt reaches burnSeconds; until then it is Lit with exactly that timer |
| `Matches.NoBurnoutWhenDisabled` | Assets/MatchStriking/MatchController.cs:105 | with burnSeconds <= 0, Update ticks without reset never change the state |
| `Matches.BlockedStrikesChangeNothing` | Assets/MatchStriking/MatchController.cs:133-156 | with the strike gate closed (not a strike area, input required but not held, or too slow), any number of stays leaves the match unchanged |
| `Matches.LitIgnoresStrikes` | Assets/MatchStriking/MatchController.cs:133 | a Lit match is unchanged by any number of stays |
| `Matches.IgnitesWhenProgressReaches` | Assets/MatchStriking/MatchController.cs:143-150 | qualifying stays light an Unlit match after n stays iff its progress plus n gains reaches strikeProgressNeeded; until then it is Unlit with exactly that progress |
| `Matches.AccumulatedIsLinear` | Assets/MatchStriking/MatchController.cs:107 | n equal additions to a timer or to progress amount to adding n times the amount |
| `Matches.MatchController.IsLit` | Assets/MatchStriking/MatchController.cs:37 | the IsLit getter; on a consistent match it is true iff the flame shows |
| `Matches.MatchController.constructor` | Assets/MatchStriking/MatchController.cs:68-73 | activation leaves the match reset: Unlit, progress 0, timer 0, flame hidden, and consistent |
| `Matches.MatchController.ResetUnlit` | Assets/MatchStriking/MatchController.cs:81-87 | the new state is ResetUnlitStep of the old one, and the invariant is kept |
| `Matches.MatchController.Update` | Assets/MatchStriking/MatchController.cs:89-122 | the new state is UpdateStep of the old one, and the invariant is kept |
| `Matches.MatchController.OnTriggerStay` | Assets/MatchStriking/MatchController.cs:129-178 | the match moves by StrikeStep; the zone's candle receives AddHeat(dt) iff the struck match is Lit and the heat gate is open; otherwise the candle is unchanged |
| `Matches.MatchController.Ignite` | Assets/MatchStriking/MatchController.cs:185-191 | called only on an unlit or burned out match whose progress has reached the threshold (as the strike does); the new state is IgniteStep of the old one, and the invariant is kept |
| `Scenarios.CandleLightsOnThirdContribution` | Assets/MatchStriking/CandleTarget.cs:43-48 | with threshold 1.0, three contributions of 0.4: unlit at 0.8 after two, lit at 1.2 after three |
| `Scenarios.StrikeIgnitesOnFourthStay` | Assets/MatchStriking/MatchController.cs:143-150 | at speed 5.0 with dt 0.1 and threshold 0.35: Unlit with progress 0.3 after three stays, Lit after the fourth |
| `Scenarios.BurnsOutAtSixthTick` | Assets/MatchStriking/MatchController.cs:105-114 | with burnSeconds 6 and dt 1 a fresh Lit match is still Lit after five ticks and BurnedOut at the sixth |
| `Scenarios.UnheldInputBlocksStriking` | Assets/MatchStriking/MatchController.cs:135-139 | with the strike input required but not held, ten stays at speed 10 leave the progress at 0 |
| `Scenarios.CandleScenario` | Assets/MatchStriking/CandleTarget.cs:39-57 | the candle example, run against the CandleTarget class |
| `Scenarios.StrikeScenario` | Assets/MatchStriking/MatchController.cs:129-157 | the striking example, run against the MatchController class |
| `Scenarios.LitMatchLightsCandle` | Assets/MatchStriking/MatchController.cs:166-177 | a Lit match heating a zone bound to a candle for three 0.4 frames lights the candle at heat 1.2 and is still Lit |

## Left out

- Mouse following (MatchController.cs:92-96): it projects the pointer through the camera, which is an engine call. The measured speed arrives as the `speed` parameter of `Update` instead.
- Speed measurement (MatchController.cs:99-100): it takes a vector magnitude (a float square root) and guards dt with 0.0001. The previous position is therefore not modelled.
- Engine set-up in `Awake`, `OnEnable` and `OnDisable` (MatchController.cs:48-79), except the reset in `OnEnable`, which the constructor establishes. This covers the camera lookup, the Rigidbody and collider fix-ups and the process-wide cursor visibility.
- Hierarchy lookups: `GetComponent`, `GetComponentInParent` and `GetComponentInChildren`. They become the `isStrikeArea` and `zone` parameters and the `foundInParents` argument of the `LightZone` constructor.
- Logging (all `Log`/`Debug.Log` calls and the debug flags), `CandleTarget.Start` and `OnDrawGizmosSelected`: these are side channels and rendering only. The match's own `OnTriggerEnter2D`/`OnTriggerExit2D` (MatchController.cs:124-127, 180-183) only log, so they are left out too.
- Flame visuals: the code skips `SetActive` when no visual is assigned. The model's `flameShown` records the visibility the code asks for.
- The candle's flame at start-up is whatever the scene sets, because the code does not hide it until the first reset. The model starts the candle with the flame hidden.
- C# `float` rounding: every quantity is a `real`. In the model, 0.1 + 0.1 + 0.1 + 0.1 is exactly 0.4.
- Frame order: the engine sequences `Update` and one `OnTriggerStay2D` per overlapping region within a frame. The model leaves that order to the caller.
- Strike progress on ignition: `Ignite` (MatchController.cs:185-191) keeps it, so a burned-out match relights on its next qualifying stay (`RelightAfterBurnout`).
- Candle binding: a zone may end up with no candle (LightZone.cs:14-16) and is then a no-op sink (LightZone.cs:21).
