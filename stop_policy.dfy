/** The stop-loss percentage chosen from the volatility bucket and the setup label. */
module StopPolicy {
  import opened Wrappers
  import Indicators

  /** The base stop of a volatility bucket; an unknown volatility gets the default 4 %. */
  function BaseStop(vol: Option<real>): (b: real)
    ensures vol.None? ==> b == 0.04
    ensures vol.Some? && vol.value < 0.25 ==> b == 0.03
    ensures vol.Some? && 0.25 <= vol.value < 0.40 ==> b == 0.045
    ensures vol.Some? && vol.value >= 0.40 ==> b == 0.06
  {
    match vol
    case None => 0.04
    case Some(v) =>
      if v < 0.25 then 0.03
      else if v < 0.40 then 0.045
      else 0.06
  }

  /** Breakouts tighten the stop, trend changes keep it, any other label widens it. */
  function SetupMultiplier(setup: string): (m: real)
    ensures setup == Indicators.Breakout ==> m == 0.8
    ensures setup == Indicators.TrendChange ==> m == 1.0
    ensures setup != Indicators.Breakout && setup != Indicators.TrendChange ==> m == 1.2
  {
    if setup == Indicators.Breakout then 0.8
    else if setup == Indicators.TrendChange then 1.0
    else 1.2
  }

  /** `choose_stop_pct`: base times multiplier, always within [2.4 %, 7.2 %]. */
  function ChooseStopPct(vol: Option<real>, setup: string): (r: real)
    ensures 0.024 <= r <= 0.072
  {
    var b := BaseStop(vol);
    var m := SetupMultiplier(setup);
    assert b == 0.03 || b == 0.04 || b == 0.045 || b == 0.06;
    assert m == 0.8 || m == 1.0 || m == 1.2;
    b * m
  }

  /** For a given label, a higher known volatility never gives a tighter stop. */
  lemma StopWidensWithVolatility(v1: real, v2: real, setup: string)
    requires v1 <= v2
    ensures ChooseStopPct(Some(v1), setup) <= ChooseStopPct(Some(v2), setup)
  {
    var m := SetupMultiplier(setup);
    assert m > 0.0;
    assert BaseStop(Some(v1)) <= BaseStop(Some(v2));
  }

  /** For a given volatility, a breakout's stop is tighter than a trend change's, which is tighter than any other label's. */
  lemma StopOrderedBySetup(vol: Option<real>, other: string)
    requires other != Indicators.Breakout && other != Indicators.TrendChange
    ensures ChooseStopPct(vol, Indicators.Breakout) < ChooseStopPct(vol, Indicators.TrendChange) < ChooseStopPct(vol, other)
  {
    assert BaseStop(vol) > 0.0;
  }
}
