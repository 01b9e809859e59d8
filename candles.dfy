/** A candle wick that accumulates heat until it reaches its ignition
    threshold, then latches "lit" and ignores further heat until it is reset
    (Assets/MatchStriking/CandleTarget.cs). */
module Candles {

  /** What a candle holds: the heat accumulated so far, the lit latch, and
      whether the flame visual has been asked to show. */
  datatype CandleState = CandleState(heat: real, lit: bool, flameShown: bool)

  /** The state a candle starts in and returns to after a reset. */
  const Unheated := CandleState(0.0, false, false)

  /** The invariant every reachable candle state keeps: the latch is only set
      at or above the threshold, and the flame shows exactly while lit. */
  ghost predicate Consistent(c: CandleState, secondsToIgnite: real) {
    (c.lit ==> c.heat >= secondsToIgnite) && c.flameShown == c.lit
  }

  /** Ignite: latch "lit" and show the flame; a candle already lit is left as it is. */
  function IgniteStep(c: CandleState): (r: CandleState)
    ensures r.lit && r.heat == c.heat
    ensures c.lit ==> r == c
    ensures !c.lit ==> r.flameShown
  {
    if c.lit then c else c.(lit := true, flameShown := true)
  }

  /** AddHeat: ignored once lit; otherwise the heat grows by exactly dt and the
      candle lights as soon as the heat reaches the threshold. */
  function AddHeatStep(c: CandleState, secondsToIgnite: real, dt: real): (r: CandleState)
    ensures c.lit ==> r == c
    ensures !c.lit ==> r.heat == c.heat + dt && (r.lit <==> r.heat >= secondsToIgnite)
    ensures !c.lit ==> (r.flameShown <==> r.lit || c.flameShown)
    ensures Consistent(c, secondsToIgnite) ==> Consistent(r, secondsToIgnite)
  {
    if c.lit then c
    else
      var heated := c.(heat := c.heat + dt);
      if heated.heat >= secondsToIgnite then IgniteStep(heated) else heated
  }

  /** ResetCandle: heat back to zero, unlit, flame hidden, from any state. */
  function ResetStep(c: CandleState): (r: CandleState)
    ensures r.heat == 0.0 && !r.lit && !r.flameShown
    ensures forall s: real :: Consistent(r, s)
  {
    Unheated
  }

  /** Total of a sequence of heat contributions. */
  function Sum(dts: seq<real>): real {
    if dts == [] then 0.0 else dts[0] + Sum(dts[1..])
  }

  predicate AllNonNegative(dts: seq<real>) {
    forall i :: 0 <= i < |dts| ==> dts[i] >= 0.0
  }

  /** The candle after AddHeat is called with each of dts in turn. */
  function AddHeatAll(c: CandleState, secondsToIgnite: real, dts: seq<real>): CandleState
    decreases |dts|
  {
    if dts == [] then c else AddHeatAll(AddHeatStep(c, secondsToIgnite, dts[0]), secondsToIgnite, dts[1..])
  }

  lemma {:induction false} SumNonNegative(dts: seq<real>)
    requires AllNonNegative(dts)
    ensures Sum(dts) >= 0.0
    decreases |dts|
  {
    if dts != [] {
      SumNonNegative(dts[1..]);
    }
  }

  /** Once lit, a candle is frozen: no sequence of AddHeat calls changes it. */
  lemma {:induction false} LitCandleIsFrozen(c: CandleState, secondsToIgnite: real, dts: seq<real>)
    requires c.lit
    ensures AddHeatAll(c, secondsToIgnite, dts) == c
    decreases |dts|
  {
    if dts != [] {
      LitCandleIsFrozen(AddHeatStep(c, secondsToIgnite, dts[0]), secondsToIgnite, dts[1..]);
    }
  }

  /** For non-negative contributions heat never decreases, and a lit candle stays lit. */
  lemma {:induction false} HeatNonDecreasing(c: CandleState, secondsToIgnite: real, dts: seq<real>)
    requires AllNonNegative(dts)
    ensures AddHeatAll(c, secondsToIgnite, dts).heat >= c.heat
    ensures c.lit ==> AddHeatAll(c, secondsToIgnite, dts).lit
    decreases |dts|
  {
    if dts != [] {
      HeatNonDecreasing(AddHeatStep(c, secondsToIgnite, dts[0]), secondsToIgnite, dts[1..]);
    }
  }

  /** Starting unlit below the threshold, a run of non-negative contributions lights the candle
      exactly when their total brings the heat to the threshold; while it
      stays unlit, the heat is the starting heat plus that total. */
  lemma {:induction false} LitIffThresholdReached(c: CandleState, secondsToIgnite: real, dts: seq<real>)
    requires !c.lit && c.heat < secondsToIgnite && AllNonNegative(dts)
    ensures AddHeatAll(c, secondsToIgnite, dts).lit <==> c.heat + Sum(dts) >= secondsToIgnite
    ensures !AddHeatAll(c, secondsToIgnite, dts).lit ==> AddHeatAll(c, secondsToIgnite, dts).heat == c.heat + Sum(dts)
    decreases |dts|
  {
    if dts != [] {
      var next := AddHeatStep(c, secondsToIgnite, dts[0]);
      assert AllNonNegative(dts[1..]);
      assert AddHeatAll(c, secondsToIgnite, dts) == AddHeatAll(next, secondsToIgnite, dts[1..]);
      assert Sum(dts) == dts[0] + Sum(dts[1..]);
      if next.lit {
        LitCandleIsFrozen(next, secondsToIgnite, dts[1..]);
        SumNonNegative(dts[1..]);
      } else {
        LitIffThresholdReached(next, secondsToIgnite, dts[1..]);
      }
    }
  }

  /** The candle component: heat and lit are updated in place by AddHeat,
      Ignite and ResetCandle. */
  class CandleTarget {
    const secondsToIgnite: real
    var heat: real
    var lit: bool
    var flameShown: bool

    function State(): CandleState
      reads this
    {
      CandleState(heat, lit, flameShown)
    }

    ghost predicate Valid()
      reads this
    {
      Consistent(State(), secondsToIgnite)
    }

    /** A fresh candle: no heat, unlit, flame hidden. */
    constructor (secondsToIgnite: real)
      ensures Valid() && this.secondsToIgnite == secondsToIgnite
      ensures State() == Unheated
    {
      this.secondsToIgnite := secondsToIgnite;
      heat, lit, flameShown := 0.0, false, false;
    }

    /** The Heat getter: on a valid candle that is lit, at least the threshold. */
    function Heat(): (h: real)
      reads this
      ensures Valid() && lit ==> h >= secondsToIgnite
    {
      heat
    }

    /** The IsLit getter: on a valid candle, true exactly while the flame shows. */
    function IsLit(): (b: bool)
      reads this
      ensures Valid() ==> (b <==> flameShown)
    {
      lit
    }

    method ResetCandle()
      modifies this
      ensures Valid()
      ensures State() == ResetStep(old(State()))
    {
      heat := 0.0;
      lit := false;
      flameShown := false;
    }

    method AddHeat(dt: real)
      requires Valid()
      modifies this
      ensures Valid()
      ensures State() == AddHeatStep(old(State()), secondsToIgnite, dt)
    {
      if lit {
        return;
      }
      heat := heat + dt;
      if heat >= secondsToIgnite {
        Ignite();
      }
    }

    method Ignite()
      requires Valid() && heat >= secondsToIgnite
      modifies this
      ensures Valid()
      ensures State() == IgniteStep(old(State()))
    {
      if lit {
        return;
      }
      lit := true;
      flameShown := true;
    }
  }
}
