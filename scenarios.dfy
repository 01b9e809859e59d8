/** Worked scenarios of the striking mechanic, stated once on the step
    functions and once as clients of the three components. */
module Scenarios {
  import opened Candles
  import opened LightZones
  import opened Matches

  /** The default tuning of a match: strike at 2 world units per second or
      faster until progress 0.35, input required for striking and heating,
      burnout after 6 seconds. */
  const DefaultMatch := MatchConfig(2.0, 0.35, true, true, 6.0)

  /** Three 0.4 contributions to a candle that ignites at 1.0: unlit at 0.8
      after the second, lit at 1.2 after the third. */
  lemma CandleLightsOnThirdContribution()
    ensures AddHeatAll(Unheated, 1.0, [0.4, 0.4]) == CandleState(0.8, false, false)
    ensures AddHeatAll(Unheated, 1.0, [0.4, 0.4, 0.4]) == CandleState(1.2, true, true)
  {
  }

  /** Speed 5.0 with dt 0.1 gains 0.1 progress per stay: still unlit with
      progress 0.3 after the third stay, lit on the fourth. */
  lemma StrikeIgnitesOnFourthStay()
    ensures StrikeTicks(Match(Unlit, 0.0, 0.0, 5.0, false), DefaultMatch, 0.1, true, true, 3)
      == Match(Unlit, 0.3, 0.0, 5.0, false)
    ensures StrikeTicks(Match(Unlit, 0.0, 0.0, 5.0, false), DefaultMatch, 0.1, true, true, 4).state == Lit
  {
  }

  /** With burnSeconds 6 and dt 1, a freshly lit match is still lit after five
      ticks and burned out at the sixth. */
  lemma BurnsOutAtSixthTick(progress: real, speed: real)
    ensures UpdateTicks(Match(Lit, progress, 0.0, speed, true), DefaultMatch, 1.0, speed, 5).state == Lit
    ensures UpdateTicks(Match(Lit, progress, 0.0, speed, true), DefaultMatch, 1.0, speed, 6).state == BurnedOut
  {
  }

  /** Input required but not held: ten stays at speed 10 leave progress at 0. */
  lemma UnheldInputBlocksStriking()
    ensures StrikeTicks(Match(Unlit, 0.0, 0.0, 10.0, false), DefaultMatch, 0.1, true, false, 10).strikeProgress == 0.0
  {
  }

  /** The candle scenario run against the CandleTarget component. */
  method CandleScenario() returns (heatAfterTwo: real, litAfterTwo: bool, heatAfterThree: real, litAfterThree: bool)
    ensures heatAfterTwo == 0.8 && !litAfterTwo
    ensures heatAfterThree == 1.2 && litAfterThree
  {
    var candle := new CandleTarget(1.0);
    candle.AddHeat(0.4);
    candle.AddHeat(0.4);
    heatAfterTwo, litAfterTwo := candle.Heat(), candle.IsLit();
    candle.AddHeat(0.4);
    heatAfterThree, litAfterThree := candle.Heat(), candle.IsLit();
  }

  /** Speed 5.0 with dt 0.1 and the input held, run against the
      MatchController component: unlit after three stays, lit after four. */
  method StrikeScenario() returns (litAfterThreeStays: bool, progressAfterThree: real, litAfterFourStays: bool)
    ensures !litAfterThreeStays && progressAfterThree == 0.3 && litAfterFourStays
  {
    var stick := new MatchController(DefaultMatch);
    stick.Update(0.1, 5.0, false);
    stick.OnTriggerStay(0.1, true, true, null);
    assert stick.Value() == Match(Unlit, 0.1, 0.0, 5.0, false);
    stick.OnTriggerStay(0.1, true, true, null);
    assert stick.Value() == Match(Unlit, 0.2, 0.0, 5.0, false);
    stick.OnTriggerStay(0.1, true, true, null);
    litAfterThreeStays, progressAfterThree := stick.IsLit(), stick.strikeProgress;
    stick.OnTriggerStay(0.1, true, true, null);
    litAfterFourStays := stick.IsLit();
  }

  /** A lit match held over a light zone bound to a candle that ignites at
      1.0: three frames of 0.4 light the candle while the match burns on. */
  method LitMatchLightsCandle() returns (candleHeat: real, candleLit: bool, matchLit: bool)
    ensures candleHeat == 1.2 && candleLit && matchLit
  {
    var stick := new MatchController(DefaultMatch);
    stick.Update(1.0, 10.0, false);
    stick.OnTriggerStay(1.0, true, true, null);
    assert stick.Value() == Match(Lit, 2.0, 0.0, 10.0, true);
    var candle := new CandleTarget(1.0);
    var zone := new LightZone(candle, null);
    stick.Update(0.4, 0.0, false);
    stick.OnTriggerStay(0.4, false, true, zone);
    assert candle.State() == CandleState(0.4, false, false) && stick.burnTimer == 0.4;
    stick.Update(0.4, 0.0, false);
    stick.OnTriggerStay(0.4, false, true, zone);
    assert candle.State() == CandleState(0.8, false, false) && stick.burnTimer == 0.8;
    stick.Update(0.4, 0.0, false);
    stick.OnTriggerStay(0.4, false, true, zone);
    candleHeat, candleLit, matchLit := candle.Heat(), candle.IsLit(), stick.IsLit();
  }
}
