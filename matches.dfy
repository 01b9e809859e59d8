/** The match state machine: struck on a striking surface until its progress
    reaches the threshold, lit until its burn timer runs out, and able to heat
    whatever light zone it overlaps while lit
    (Assets/MatchStriking/MatchController.cs). */
module Matches {
  import Candles
  import LightZones

  datatype MatchState = Unlit | Lit | BurnedOut

  /** Strike progress gained per world unit travelled across a striking
      surface (speed times elapsed time). */
  const ProgressPerStrikeDistance: real := 0.2

  /** The tunable settings of one match. */
  datatype MatchConfig = MatchConfig(
    minStrikeSpeed: real,
    strikeProgressNeeded: real,
    requireInputForStrike: bool,
    requireInputToHeat: bool,
    burnSeconds: real)  // zero or less disables burnout

  /** What a match holds between ticks. */
  datatype Match = Match(
    state: MatchState,
    strikeProgress: real,
    burnTimer: real,
    lastSpeed: real,
    flameShown: bool)

  /** The invariant every reachable match keeps: the quantities are not
      negative, the flame shows exactly while lit, a match that has ever been
      lit since the last reset has enough strike progress, and a lit match
      whose burnout is enabled has time left. */
  ghost predicate Consistent(m: Match, cfg: MatchConfig) {
    m.strikeProgress >= 0.0 && m.burnTimer >= 0.0 && m.lastSpeed >= 0.0 &&
    m.flameShown == (m.state == Lit) &&
    (m.state != Unlit ==> m.strikeProgress >= cfg.strikeProgressNeeded) &&
    (m.state == Lit && cfg.burnSeconds > 0.0 ==> m.burnTimer < cfg.burnSeconds)
  }

  /** The state changes the match admits: striking lights an unlit or burned
      out match, the timer burns a lit match out, and a reset returns any
      match to unlit. */
  predicate AllowedTransition(from: MatchState, to: MatchState) {
    from == to ||
    (from != Lit && to == Lit) ||
    (from == Lit && to == BurnedOut) ||
    to == Unlit
  }

  /** Progress one stay adds when striking applies. */
  function StrikeGain(speed: real, dt: real): (g: real)
    ensures speed >= 0.0 && dt >= 0.0 ==> g >= 0.0
  {
    speed * dt * ProgressPerStrikeDistance
  }

  /** ResetUnlit: back to unlit with no progress, no burn time and the flame
      hidden, whatever the match was doing. */
  function ResetUnlitStep(m: Match): (r: Match)
    ensures r.state == Unlit && r.strikeProgress == 0.0 && r.burnTimer == 0.0 && !r.flameShown
    ensures r.lastSpeed == m.lastSpeed
    ensures forall cfg: MatchConfig :: m.lastSpeed >= 0.0 ==> Consistent(r, cfg)
  {
    Match(Unlit, 0.0, 0.0, m.lastSpeed, false)
  }

  /** Ignite: lit, flame shown, burn timer restarted; strike progress is kept. */
  function IgniteStep(m: Match): (r: Match)
    ensures r.state == Lit && r.flameShown && r.burnTimer == 0.0
    ensures r.strikeProgress == m.strikeProgress && r.lastSpeed == m.lastSpeed
  {
    m.(state := Lit, flameShown := true, burnTimer := 0.0)
  }

  /** The burnout part of Update: only a lit match with burnout enabled runs
      its timer, and it burns out exactly when the timer reaches burnSeconds. */
  function BurnStep(m: Match, cfg: MatchConfig, dt: real): (r: Match)
    ensures !(m.state == Lit && cfg.burnSeconds > 0.0) ==> r == m
    ensures m.state == Lit && cfg.burnSeconds > 0.0 ==>
      r.burnTimer == m.burnTimer + dt &&
      (r.state == BurnedOut <==> r.burnTimer >= cfg.burnSeconds) &&
      (r.state != BurnedOut ==> r.state == Lit)
    ensures r.state == m.state || (m.state == Lit && r.state == BurnedOut)
    ensures r.strikeProgress == m.strikeProgress && r.lastSpeed == m.lastSpeed
    ensures Consistent(m, cfg) && dt >= 0.0 ==> Consistent(r, cfg)
  {
    if m.state == Lit && cfg.burnSeconds > 0.0 then
      var timed := m.(burnTimer := m.burnTimer + dt);
      if timed.burnTimer >= cfg.burnSeconds then timed.(state := BurnedOut, flameShown := false)
      else timed
    else m
  }

  /** One Update tick: record the measured speed, run the burnout timer, then
      honour a reset key press. */
  function UpdateStep(m: Match, cfg: MatchConfig, dt: real, speed: real, resetPressed: bool): (r: Match)
    ensures r.lastSpeed == speed
    ensures resetPressed ==> r.state == Unlit && r.strikeProgress == 0.0 && r.burnTimer == 0.0 && !r.flameShown
    ensures !resetPressed ==> r.strikeProgress == m.strikeProgress
    ensures r.state == m.state || (m.state == Lit && r.state == BurnedOut) || r.state == Unlit
    ensures !resetPressed ==> r.state == m.state || (m.state == Lit && r.state == BurnedOut)
    ensures cfg.burnSeconds <= 0.0 && r.state == BurnedOut ==> m.state == BurnedOut
    ensures Consistent(m, cfg) && dt >= 0.0 && speed >= 0.0 ==> Consistent(r, cfg)
  {
    var burnt := BurnStep(m.(lastSpeed := speed), cfg, dt);
    if resetPressed then ResetUnlitStep(burnt) else burnt
  }

  /** The four conditions under which a stay adds strike progress: the match
      is unlit or burned out, the region is a striking surface, the input gate
      is open (or disabled), and the match moves fast enough. */
  predicate StrikeApplies(m: Match, cfg: MatchConfig, isStrikeArea: bool, held: bool) {
    (m.state == Unlit || m.state == BurnedOut) && isStrikeArea &&
    (!cfg.requireInputForStrike || held) &&
    m.lastSpeed >= cfg.minStrikeSpeed
  }

  /** Heat goes to an overlapped zone only while lit and with the heating gate
      open (or disabled); it is judged after the striking part of the stay. */
  predicate HeatApplies(m: Match, cfg: MatchConfig, held: bool) {
    m.state == Lit && (!cfg.requireInputToHeat || held)
  }

  /** The striking part of a stay: progress grows by exactly
      lastSpeed * dt * 0.2 when striking applies and is otherwise unchanged;
      the match lights once progress reaches the threshold. */
  function StrikeStep(m: Match, cfg: MatchConfig, dt: real, isStrikeArea: bool, held: bool): (r: Match)
    ensures !StrikeApplies(m, cfg, isStrikeArea, held) ==> r == m
    ensures StrikeApplies(m, cfg, isStrikeArea, held) ==>
      r.strikeProgress == m.strikeProgress + m.lastSpeed * dt * ProgressPerStrikeDistance &&
      (r.state == Lit <==> r.strikeProgress >= cfg.strikeProgressNeeded) &&
      (r.state != Lit ==> r.state == m.state && r.burnTimer == m.burnTimer) &&
      (r.state == Lit ==> r.burnTimer == 0.0 && r.flameShown)
    ensures r.state == m.state || (m.state != Lit && r.state == Lit)
    ensures r.lastSpeed == m.lastSpeed
    ensures Consistent(m, cfg) && dt >= 0.0 ==> Consistent(r, cfg)
  {
    if StrikeApplies(m, cfg, isStrikeArea, held) then
      var struck := m.(strikeProgress := m.strikeProgress + StrikeGain(m.lastSpeed, dt));
      if struck.strikeProgress >= cfg.strikeProgressNeeded then IgniteStep(struck) else struck
    else m
  }

  /** The events that drive a match, in the order the engine delivers them. */
  datatype Event =
    | Tick(dt: real, speed: real, resetPressed: bool)   // Update
    | Stay(dt: real, isStrikeArea: bool, held: bool)   // OnTriggerStay2D
    | Reset                                             // ResetUnlit called from outside

  function Apply(m: Match, cfg: MatchConfig, e: Event): Match {
    match e
    case Tick(dt, speed, resetPressed) => UpdateStep(m, cfg, dt, speed, resetPressed)
    case Stay(dt, isStrikeArea, held) => StrikeStep(m, cfg, dt, isStrikeArea, held)
    case Reset => ResetUnlitStep(m)
  }

  predicate WellFormed(e: Event) {
    match e
    case Tick(dt, speed, _) => dt >= 0.0 && speed >= 0.0
    case Stay(dt, _, _) => dt >= 0.0
    case Reset => true
  }

  function Run(m: Match, cfg: MatchConfig, events: seq<Event>): Match
    decreases |events|
  {
    if events == [] then m else Run(Apply(m, cfg, events[0]), cfg, events[1..])
  }

  /** Every single event moves the match along an allowed transition, and
      each kind of change has one cause: only a Tick burns out, only a reset
      (a Reset call or a Tick with the reset key pressed) enters Unlit, and
      only a Stay lights the match. */
  lemma EveryEventIsAllowed(m: Match, cfg: MatchConfig, e: Event)
    ensures AllowedTransition(m.state, Apply(m, cfg, e).state)
    ensures Apply(m, cfg, e).state == BurnedOut && m.state != BurnedOut ==> m.state == Lit && e.Tick?
    ensures Apply(m, cfg, e).state == Unlit && m.state != Unlit ==> e.Reset? || (e.Tick? && e.resetPressed)
    ensures Apply(m, cfg, e).state == Lit && m.state != Lit ==> e.Stay?
  {
  }

  /** A run of well-formed events keeps the match consistent; in particular the
      flame shows exactly while the match is lit. */
  lemma {:induction false} RunKeepsConsistent(m: Match, cfg: MatchConfig, events: seq<Event>)
    requires Consistent(m, cfg)
    requires forall i :: 0 <= i < |events| ==> WellFormed(events[i])
    ensures Consistent(Run(m, cfg, events), cfg)
    ensures Run(m, cfg, events).flameShown <==> Run(m, cfg, events).state == Lit
    decreases |events|
  {
    if events != [] {
      var next := Apply(m, cfg, events[0]);
      assert WellFormed(events[0]);
      assert Consistent(next, cfg) by {
        match events[0]
        case Tick(dt, speed, resetPressed) =>
        case Stay(dt, isStrikeArea, held) =>
        case Reset =>
      }
      RunKeepsConsistent(next, cfg, events[1..]);
    }
  }

  /** After burnout the strike progress is still at the threshold, so one
      qualifying stay on a striking surface relights the match. */
  lemma RelightAfterBurnout(m: Match, cfg: MatchConfig, dt: real, held: bool)
    requires Consistent(m, cfg) && m.state == BurnedOut && dt >= 0.0
    requires StrikeApplies(m, cfg, true, held)
    ensures StrikeStep(m, cfg, dt, true, held).state == Lit
  {
  }

  /** n Update ticks with the same elapsed time and speed and no reset. */
  function UpdateTicks(m: Match, cfg: MatchConfig, dt: real, speed: real, n: nat): Match
    decreases n
  {
    if n == 0 then m else UpdateTicks(UpdateStep(m, cfg, dt, speed, false), cfg, dt, speed, n - 1)
  }

  /** n stays on the same region with the same elapsed time and input. */
  function StrikeTicks(m: Match, cfg: MatchConfig, dt: real, isStrikeArea: bool, held: bool, n: nat): Match
    decreases n
  {
    if n == 0 then m else StrikeTicks(StrikeStep(m, cfg, dt, isStrikeArea, held), cfg, dt, isStrikeArea, held, n - 1)
  }

  /** Without a reset, Update ticks never take a burned out match anywhere else. */
  lemma {:induction false} BurnedOutStaysBurnedOut(m: Match, cfg: MatchConfig, dt: real, speed: real, n: nat)
    requires m.state == BurnedOut
    ensures UpdateTicks(m, cfg, dt, speed, n).state == BurnedOut
    decreases n
  {
    if n > 0 {
      BurnedOutStaysBurnedOut(UpdateStep(m, cfg, dt, speed, false), cfg, dt, speed, n - 1);
    }
  }

  /** With burnout enabled, a lit match burns out after n ticks exactly when
      its timer plus n * dt reaches burnSeconds, and until then its timer is
      exactly that sum. */
  lemma {:induction false} BurnoutExactlyWhenTimerReaches(m: Match, cfg: MatchConfig, dt: real, speed: real, n: nat)
    requires m.state == Lit && cfg.burnSeconds > 0.0 && m.burnTimer < cfg.burnSeconds && dt >= 0.0
    ensures UpdateTicks(m, cfg, dt, speed, n).state == BurnedOut <==> Accumulated(m.burnTimer, dt, n) >= cfg.burnSeconds
    ensures UpdateTicks(m, cfg, dt, speed, n).state != BurnedOut ==>
      UpdateTicks(m, cfg, dt, speed, n).state == Lit &&
      UpdateTicks(m, cfg, dt, speed, n).burnTimer == Accumulated(m.burnTimer, dt, n)
    decreases n
  {
    if n > 0 {
      var next := UpdateStep(m, cfg, dt, speed, false);
      if next.state == Lit {
        BurnoutExactlyWhenTimerReaches(next, cfg, dt, speed, n - 1);
      } else {
        BurnedOutStaysBurnedOut(next, cfg, dt, speed, n - 1);
        AccumulatedGrows(next.burnTimer, dt, n - 1);
      }
    }
  }

  /** With burnout disabled, Update ticks never change the match's state. */
  lemma {:induction false} NoBurnoutWhenDisabled(m: Match, cfg: MatchConfig, dt: real, speed: real, n: nat)
    requires cfg.burnSeconds <= 0.0
    ensures UpdateTicks(m, cfg, dt, speed, n).state == m.state
    decreases n
  {
    if n > 0 {
      NoBurnoutWhenDisabled(UpdateStep(m, cfg, dt, speed, false), cfg, dt, speed, n - 1);
    }
  }

  /** While a gate is closed (not a striking surface, input required but not
      held, or too slow), any number of stays leaves the match as it was. */
  lemma {:induction false} BlockedStrikesChangeNothing(m: Match, cfg: MatchConfig, dt: real, isStrikeArea: bool, held: bool, n: nat)
    requires !isStrikeArea || (cfg.requireInputForStrike && !held) || m.lastSpeed < cfg.minStrikeSpeed
    ensures StrikeTicks(m, cfg, dt, isStrikeArea, held, n) == m
    decreases n
  {
    if n > 0 {
      BlockedStrikesChangeNothing(StrikeStep(m, cfg, dt, isStrikeArea, held), cfg, dt, isStrikeArea, held, n - 1);
    }
  }

  /** A lit match is not struck: stays leave it as it is. */
  lemma {:induction false} LitIgnoresStrikes(m: Match, cfg: MatchConfig, dt: real, isStrikeArea: bool, held: bool, n: nat)
    requires m.state == Lit
    ensures StrikeTicks(m, cfg, dt, isStrikeArea, held, n) == m
    decreases n
  {
    if n > 0 {
      LitIgnoresStrikes(StrikeStep(m, cfg, dt, isStrikeArea, held), cfg, dt, isStrikeArea, held, n - 1);
    }
  }

  /** Striking an unlit match at a qualifying speed lights it after n stays
      exactly when its progress plus n times the per-stay gain reaches the
      threshold; until then it stays unlit with exactly that progress. */
  lemma {:induction false} IgnitesWhenProgressReaches(m: Match, cfg: MatchConfig, dt: real, held: bool, n: nat)
    requires m.state == Unlit && m.strikeProgress < cfg.strikeProgressNeeded
    requires m.lastSpeed >= cfg.minStrikeSpeed && m.lastSpeed >= 0.0 && dt >= 0.0
    requires !cfg.requireInputForStrike || held
    ensures StrikeTicks(m, cfg, dt, true, held, n).state == Lit <==>
      Accumulated(m.strikeProgress, StrikeGain(m.lastSpeed, dt), n) >= cfg.strikeProgressNeeded
    ensures StrikeTicks(m, cfg, dt, true, held, n).state != Lit ==>
      StrikeTicks(m, cfg, dt, true, held, n).state == Unlit &&
      StrikeTicks(m, cfg, dt, true, held, n).strikeProgress == Accumulated(m.strikeProgress, StrikeGain(m.lastSpeed, dt), n)
    decreases n
  {
    if n > 0 {
      var gain := StrikeGain(m.lastSpeed, dt);
      var next := StrikeStep(m, cfg, dt, true, held);
      assert next.strikeProgress == m.strikeProgress + gain;
      assert StrikeTicks(m, cfg, dt, true, held, n) == StrikeTicks(next, cfg, dt, true, held, n - 1);
      if next.state == Lit {
        LitIgnoresStrikes(next, cfg, dt, true, held, n - 1);
        AccumulatedGrows(next.strikeProgress, gain, n - 1);
      } else {
        IgnitesWhenProgressReaches(next, cfg, dt, held, n - 1);
      }
    }
  }

  /** The value start with g added to it n times. */
  function Accumulated(start: real, g: real, n: nat): real
    decreases n
  {
    if n == 0 then start else Accumulated(start + g, g, n - 1)
  }

  /** n additions of g amount to adding n * g. */
  lemma {:induction false} AccumulatedIsLinear(start: real, g: real, n: nat)
    ensures Accumulated(start, g, n) == start + (n as real) * g
    decreases n
  {
    if n > 0 {
      AccumulatedIsLinear(start + g, g, n - 1);
    }
  }

  lemma {:induction false} AccumulatedGrows(start: real, g: real, n: nat)
    requires g >= 0.0
    ensures Accumulated(start, g, n) >= start
    decreases n
  {
    if n > 0 {
      AccumulatedGrows(start + g, g, n - 1);
    }
  }

  /** The match component. */
  class MatchController {
    const config: MatchConfig
    var state: MatchState
    var strikeProgress: real
    var burnTimer: real
    var lastSpeed: real
    var flameShown: bool

    function Value(): Match
      reads this
    {
      Match(state, strikeProgress, burnTimer, lastSpeed, flameShown)
    }

    ghost predicate Valid()
      reads this
    {
      Consistent(Value(), config)
    }

    /** The IsLit getter: on a valid match, true exactly while the flame shows. */
    function IsLit(): (b: bool)
      reads this
      ensures Valid() ==> (b <==> flameShown)
    {
      state == Lit
    }

    /** Activation: the match starts reset, unlit with the flame hidden. */
    constructor (config: MatchConfig)
      ensures Valid() && this.config == config
      ensures Value() == Match(Unlit, 0.0, 0.0, 0.0, false)
    {
      this.config := config;
      state, strikeProgress, burnTimer, lastSpeed, flameShown := Unlit, 0.0, 0.0, 0.0, false;
    }

    method ResetUnlit()
      requires Valid()
      modifies this
      ensures Valid()
      ensures Value() == ResetUnlitStep(old(Value()))
    {
      state := Unlit;
      strikeProgress := 0.0;
      burnTimer := 0.0;
      flameShown := false;
    }

    /** One frame: speed is the measured speed of the pointer-driven match
        this frame, resetPressed the reset key's press edge. */
    method Update(dt: real, speed: real, resetPressed: bool)
      requires Valid() && dt >= 0.0 && speed >= 0.0
      modifies this
      ensures Valid()
      ensures Value() == UpdateStep(old(Value()), config, dt, speed, resetPressed)
    {
      lastSpeed := speed;
      if state == Lit && config.burnSeconds > 0.0 {
        burnTimer := burnTimer + dt;
        if burnTimer >= config.burnSeconds {
          state := BurnedOut;
          flameShown := false;
        }
      }
      if resetPressed {
        ResetUnlit();
      }
    }

    /** One stay notification for an overlapped region: strike when it is a
        striking surface, then heat the zone it resolves to (null when none). */
    method OnTriggerStay(dt: real, isStrikeArea: bool, held: bool, zone: LightZones.LightZone?)
      requires Valid() && dt >= 0.0
      requires zone != null && zone.candle != null ==> zone.candle.Valid()
      modifies this, if zone != null && zone.candle != null then {zone.candle} else {}
      ensures Valid()
      ensures Value() == StrikeStep(old(Value()), config, dt, isStrikeArea, held)
      ensures zone != null && zone.candle != null ==>
        zone.candle.Valid() &&
        zone.candle.State() ==
          if HeatApplies(Value(), config, held)
          then Candles.AddHeatStep(old(zone.candle.State()), zone.candle.secondsToIgnite, dt)
          else old(zone.candle.State())
    {
      if (state == Unlit || state == BurnedOut) && isStrikeArea {
        var inputOk := !config.requireInputForStrike || held;
        if inputOk && lastSpeed >= config.minStrikeSpeed {
          strikeProgress := strikeProgress + StrikeGain(lastSpeed, dt);
          if strikeProgress >= config.strikeProgressNeeded {
            Ignite();
          }
        }
      }
      if zone != null {
        var heatInputOk := !config.requireInputToHeat || held;
        if state == Lit && heatInputOk {
          zone.AddHeat(dt);
        }
      }
    }

    method Ignite()
      requires Valid() && state != Lit && strikeProgress >= config.strikeProgressNeeded
      modifies this
      ensures Valid()
      ensures Value() == IgniteStep(old(Value()))
    {
      state := Lit;
      flameShown := true;
      burnTimer := 0.0;
    }
  }
}
