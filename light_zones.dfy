/** A region that forwards heat to the candle it is bound to
    (Assets/MatchStriking/LightZone.cs). */
module LightZones {
  import opened Candles

  /** The binding made when the zone wakes: an explicitly wired candle is kept,
      otherwise the one found in the parent chain (if any) is taken. */
  function Bind(wired: CandleTarget?, foundInParents: CandleTarget?): (r: CandleTarget?)
    ensures wired != null ==> r == wired
    ensures r != null ==> r == wired || r == foundInParents
    ensures r == null <==> wired == null && foundInParents == null
  {
    if wired != null then wired else foundInParents
  }

  class LightZone {
    const candle: CandleTarget?

    /** Awake: resolve the binding once; a zone left unbound is a no-op sink. */
    constructor (wired: CandleTarget?, foundInParents: CandleTarget?)
      ensures candle == Bind(wired, foundInParents)
    {
      candle := Bind(wired, foundInParents);
    }

    /** Forward dt verbatim to the bound candle: the effect is that of the
        candle's own AddHeat(dt); with no candle bound nothing changes. The
        binding is fixed when the zone wakes. */
    method AddHeat(dt: real)
      requires candle != null ==> candle.Valid()
      modifies candle
      ensures candle != null ==> candle.Valid()
      ensures candle != null ==> candle.State() == AddHeatStep(old(candle.State()), candle.secondsToIgnite, dt)
    {
      if candle != null {
        candle.AddHeat(dt);
      }
    }

    /** Enter notification: diagnostic logging only. */
    method OnTriggerEnter()
      ensures candle != null ==> unchanged(candle)
    {
    }

    /** Exit notification: diagnostic logging only. */
    method OnTriggerExit()
      ensures candle != null ==> unchanged(candle)
    {
    }
  }
}
