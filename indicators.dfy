/**
 * The price-history helpers of the orchestrator: the length guard of the
 * volatility estimate and the setup classifier. A history is the sequence of
 * daily closes, oldest first; a missing or empty history is the empty sequence.
 */
module Indicators {
  import opened Wrappers

  /** Fewest bars for a volatility estimate. */
  const VolatilityMinBars: nat := 20

  /** Fewest bars for a setup label other than the neutral one. */
  const SetupMinBars: nat := 60

  /** Window of the trailing moving average. */
  const MaWindow: nat := 50

  const Breakout: string := "breakout"
  const TrendChange: string := "trend_change"
  const OtherSetup: string := "other"

  /**
   * The annualised volatility. `estimate` is what the return statistics of a
   * long-enough history yield (None when they raise); a short history never
   * has an estimate, whatever the statistics would say.
   */
  function ComputeVolatility(closes: seq<real>, estimate: Option<real>): (r: Option<real>)
    ensures |closes| < VolatilityMinBars ==> r == None
    ensures |closes| >= VolatilityMinBars ==> r == estimate
  {
    if |closes| < VolatilityMinBars then None else estimate
  }

  /** Largest element of a non-empty series. */
  function Max(s: seq<real>): (m: real)
    requires s != []
    ensures m in s
    ensures forall i :: 0 <= i < |s| ==> s[i] <= m
  {
    if |s| == 1 then s[0]
    else
      var t := Max(s[1..]);
      assert forall i :: 1 <= i < |s| ==> s[i] == s[1..][i - 1];
      if s[0] >= t then s[0] else t
  }

  function Sum(s: seq<real>): real {
    if s == [] then 0.0 else Sum(s[..|s| - 1]) + s[|s| - 1]
  }

  /** The trailing simple moving average of the last `w` closes. */
  function MovingAverage(closes: seq<real>, w: nat): real
    requires 0 < w <= |closes|
  {
    Sum(closes[|closes| - w..]) / w as real
  }

  /**
   * The classifier as the source writes it: the "recent maximum" is taken over
   * the whole series, the last close included.
   */
  function ClassifySetupAsWritten(closes: seq<real>): (r: string)
    ensures r == Breakout || r == TrendChange || r == OtherSetup
    ensures |closes| < SetupMinBars ==> r == OtherSetup
  {
    if |closes| < SetupMinBars then OtherSetup
    else
      var lastClose := closes[|closes| - 1];
      if lastClose >= Max(closes) * 1.01 then Breakout
      else if lastClose > MovingAverage(closes, MaWindow) then TrendChange
      else OtherSetup
  }

  /** Each label of the classifier as written, both directions, with breakout taking precedence. */
  lemma ClassifySetupAsWrittenMeaning(closes: seq<real>)
    ensures ClassifySetupAsWritten(closes) == Breakout <==>
              |closes| >= SetupMinBars && closes[|closes| - 1] >= Max(closes) * 1.01
    ensures ClassifySetupAsWritten(closes) == TrendChange <==>
              |closes| >= SetupMinBars && closes[|closes| - 1] < Max(closes) * 1.01
              && closes[|closes| - 1] > MovingAverage(closes, MaWindow)
  {
  }

  /** As written, a breakout needs a non-positive maximum: with positive prices it never happens. */
  lemma AsWrittenBreakoutNeedsNonPositiveMax(closes: seq<real>)
    requires ClassifySetupAsWritten(closes) == Breakout
    ensures |closes| >= SetupMinBars && Max(closes) <= 0.0
  {
    assert closes[|closes| - 1] <= Max(closes);
  }

  /** The maximum of the closes before the last one. */
  function PreviousMax(closes: seq<real>): real
    requires |closes| >= 2
  {
    Max(closes[..|closes| - 1])
  }

  /**
   * The classifier as intended: a breakout is a last close at least 1 % above
   * the maximum of the closes before it; otherwise a last close above the
   * 50-bar moving average is a trend change; otherwise the neutral label.
   */
  function ClassifySetup(closes: seq<real>): (r: string)
    ensures r == Breakout || r == TrendChange || r == OtherSetup
    ensures |closes| < SetupMinBars ==> r == OtherSetup
  {
    if |closes| < SetupMinBars then OtherSetup
    else
      var lastClose := closes[|closes| - 1];
      if lastClose >= PreviousMax(closes) * 1.01 then Breakout
      else if lastClose > MovingAverage(closes, MaWindow) then TrendChange
      else OtherSetup
  }

  /** Each label of the intended classifier, both directions, with breakout taking precedence. */
  lemma ClassifySetupMeaning(closes: seq<real>)
    ensures ClassifySetup(closes) == Breakout <==>
              |closes| >= SetupMinBars && closes[|closes| - 1] >= PreviousMax(closes) * 1.01
    ensures ClassifySetup(closes) == TrendChange <==>
              |closes| >= SetupMinBars && closes[|closes| - 1] < PreviousMax(closes) * 1.01
              && closes[|closes| - 1] > MovingAverage(closes, MaWindow)
  {
  }

  /** The two classifiers differ only where the intended one reports a breakout. */
  lemma {:induction false} ClassifiersAgreeOffBreakout(closes: seq<real>)
    ensures ClassifySetupAsWritten(closes) == Breakout ==> ClassifySetup(closes) == Breakout
    ensures ClassifySetup(closes) != Breakout ==> ClassifySetupAsWritten(closes) == ClassifySetup(closes)
  {
    if |closes| >= SetupMinBars {
      var n := |closes|;
      var prefix := closes[..n - 1];
      assert closes == prefix + [closes[n - 1]];
      assert forall i :: 0 <= i < |prefix| ==> prefix[i] <= Max(closes) by {
        forall i | 0 <= i < |prefix| ensures prefix[i] <= Max(closes) {
          assert prefix[i] == closes[i];
        }
      }
      assert PreviousMax(closes) <= Max(closes);
    }
  }

  /**
   * A history at 100 for 59 days that closes at 102 breaks its previous high by
   * 2 %: the intended classifier calls it a breakout, the classifier as written
   * does not.
   */
  lemma BreakoutMissedAsWritten()
    ensures var closes := seq(59, _ => 100.0) + [102.0];
            ClassifySetupAsWritten(closes) != Breakout && ClassifySetup(closes) == Breakout
  {
    var closes := seq(59, _ => 100.0) + [102.0];
    assert closes[..59] == seq(59, _ => 100.0);
    var before := closes[..59];
    assert before[0] == 100.0;
    assert PreviousMax(closes) == 100.0;
    assert closes[59] == 102.0;
    assert closes[59] <= Max(closes);
  }

  /** Which classifier the pass labels setups with: the one the program runs, or the corrected one. */
  datatype Classifier = AsWritten | Corrected

  /** The setup label under the chosen classifier. */
  function Classify(rule: Classifier, closes: seq<real>): (r: string)
    ensures r == Breakout || r == TrendChange || r == OtherSetup
    ensures |closes| < SetupMinBars ==> r == OtherSetup
  {
    match rule
    case AsWritten => ClassifySetupAsWritten(closes)
    case Corrected => ClassifySetup(closes)
  }
}
