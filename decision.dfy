/**
 * The decision the daily pass takes for one symbol (`Step`) and for the whole
 * universe in order (`Pass`), with the running ledger of open trades and risk
 * in use threaded from one symbol to the next. This is the specification the
 * imperative loop in `Orchestrator.RunPass` is proved against.
 */
module Decision {
  import opened Wrappers
  import opened Config
  import Indicators
  import StopPolicy
  import Sizing

  /** Everything the pass fetches for one symbol. */
  datatype SymbolInput = SymbolInput(
    symbol: string,
    action: Option<string>,       // the signal's "action" entry; None when the entry is missing
    currentPos: int,              // the broker's position in the symbol
    marketCap: Option<real>,      // None when the market cap cannot be fetched
    closes: seq<real>,            // daily closes, oldest first; [] when the history is unavailable
    volEstimate: Option<real>,    // the return statistics of the history; None when they raise
    lastPrice: Option<real>)      // the broker's price; None when it gives none

  /** Why a symbol gets no order, one reason per check of the pass. */
  datatype SkipReason =
    | Hold                // HOLD or an unrecognised action
    | NoPositionToClose   // SELL without a long position
    | AlreadyOpen         // BUY while long: no pyramiding
    | TradeLimit          // the open-trade ceiling is reached
    | RiskLimit           // one more trade would exceed the total-risk ceiling
    | NoMarketCap         // market cap unavailable
    | SmallMarketCap      // market cap under the floor
    | NoPrice             // no strictly positive price
    | ZeroQty             // the risk budget buys no share
    | ZeroQtyAfterCap     // the exposure cap leaves no share

  datatype Outcome = Skip(reason: SkipReason) | Sell(qty: int) | Buy(qty: int)

  datatype SymbolDecision = SymbolDecision(symbol: string, outcome: Outcome)

  /** The pass's running counters: trades considered open and risk in use. */
  datatype Ledger = Ledger(openTrades: nat, riskTotal: real)

  /** A missing action reads as HOLD. */
  function ActionOf(x: SymbolInput): string {
    match x.action
    case Some(a) => a
    case None => "HOLD"
  }

  /** The stop of a symbol, from its volatility bucket and setup label. */
  function StopFor(rule: Indicators.Classifier, x: SymbolInput): real {
    StopPolicy.ChooseStopPct(Indicators.ComputeVolatility(x.closes, x.volEstimate), Indicators.Classify(rule, x.closes))
  }

  /** The ledger admits one more trade. */
  predicate CanOpen(equity: real, l: Ledger) {
    l.openTrades < MaxOpenTrades && l.riskTotal + RiskPerTrade * equity <= MaxTotalRisk * equity
  }

  /** The ledger is within both ceilings. */
  predicate WithinLimits(equity: real, l: Ledger) {
    l.openTrades <= MaxOpenTrades && l.riskTotal <= MaxTotalRisk * equity
  }

  /**
   * The sizing leg of an entry once every check has passed: no share at the
   * risk budget, no share left by the exposure clamp, or a BUY of the clamped size.
   */
  function Entry(equity: real, price: real, stopPct: real): Outcome
    requires price > 0.0 && stopPct > 0.0
  {
    var raw := Sizing.RawQty(equity, price, stopPct);
    if raw <= 0 then Skip(ZeroQty)
    else
      var qty := Sizing.CappedQty(equity, price, raw);
      if qty <= 0 then Skip(ZeroQtyAfterCap) else Buy(qty)
  }

  /** One symbol: exits first, then entries; the counters move only when orders are sent. */
  function Step(rule: Indicators.Classifier, equity: real, execute: bool, l: Ledger, x: SymbolInput): (Outcome, Ledger) {
    var action := ActionOf(x);
    if action == "SELL" then
      if x.currentPos <= 0 then (Skip(NoPositionToClose), l)
      else (Sell(x.currentPos),
            if execute then Ledger(if l.openTrades == 0 then 0 else l.openTrades - 1, l.riskTotal) else l)
    else if action == "BUY" then
      if x.currentPos > 0 then (Skip(AlreadyOpen), l)
      else if l.openTrades >= MaxOpenTrades then (Skip(TradeLimit), l)
      else if l.riskTotal + RiskPerTrade * equity > MaxTotalRisk * equity then (Skip(RiskLimit), l)
      else if x.marketCap.None? then (Skip(NoMarketCap), l)
      else if x.marketCap.value < MinMarketCap then (Skip(SmallMarketCap), l)
      else if x.lastPrice.None? || x.lastPrice.value <= 0.0 then (Skip(NoPrice), l)
      else
        var o := Entry(equity, x.lastPrice.value, StopFor(rule, x));
        (o, if o.Buy? && execute then Ledger(l.openTrades + 1, l.riskTotal + Sizing.RiskAmount(equity)) else l)
    else (Skip(Hold), l)
  }

  /** The symbols in order, each decided against the ledger its predecessors left. */
  function Pass(rule: Indicators.Classifier, equity: real, execute: bool, start: Ledger, xs: seq<SymbolInput>): (r: (seq<SymbolDecision>, Ledger))
    ensures |r.0| == |xs|
    ensures forall k :: 0 <= k < |xs| ==> r.0[k].symbol == xs[k].symbol
    decreases |xs|
  {
    if xs == [] then ([], start)
    else
      var before := Pass(rule, equity, execute, start, xs[..|xs| - 1]);
      var x := xs[|xs| - 1];
      var after := Step(rule, equity, execute, before.1, x);
      (before.0 + [SymbolDecision(x.symbol, after.0)], after.1)
  }

  // ---------------------------------------------------------------- one symbol

  /** A BUY is placed iff every check passes in turn and the sizer yields at least one share. */
  lemma BuyAdmission(rule: Indicators.Classifier, equity: real, execute: bool, l: Ledger, x: SymbolInput)
    ensures Step(rule, equity, execute, l, x).0.Buy? <==>
              ActionOf(x) == "BUY" && x.currentPos <= 0 && CanOpen(equity, l)
              && x.marketCap.Some? && x.marketCap.value >= MinMarketCap
              && x.lastPrice.Some? && x.lastPrice.value > 0.0
              && Sizing.RawQty(equity, x.lastPrice.value, StopFor(rule, x)) >= 1
              && Sizing.OrderQty(equity, x.lastPrice.value, StopFor(rule, x)) >= 1
    ensures Step(rule, equity, execute, l, x).0.Buy? ==>
              Step(rule, equity, execute, l, x).0.qty == Sizing.OrderQty(equity, x.lastPrice.value, StopFor(rule, x))
  {
  }

  /** The checks run in the source's order: each skip reason implies that every earlier check passed. */
  lemma ChecksInOrder(rule: Indicators.Classifier, equity: real, execute: bool, l: Ledger, x: SymbolInput)
    ensures var o := Step(rule, equity, execute, l, x).0;
      && (o == Skip(AlreadyOpen) ==> ActionOf(x) == "BUY" && x.currentPos > 0)
      && (o == Skip(TradeLimit) ==> ActionOf(x) == "BUY" && x.currentPos <= 0 && l.openTrades >= MaxOpenTrades)
      && (o == Skip(RiskLimit) ==> ActionOf(x) == "BUY" && x.currentPos <= 0 && l.openTrades < MaxOpenTrades
                                   && !CanOpen(equity, l))
      && (o == Skip(NoMarketCap) ==> ActionOf(x) == "BUY" && x.currentPos <= 0 && CanOpen(equity, l) && x.marketCap.None?)
      && (o == Skip(SmallMarketCap) ==> ActionOf(x) == "BUY" && x.currentPos <= 0 && CanOpen(equity, l)
                                        && x.marketCap.Some? && x.marketCap.value < MinMarketCap)
      && (o == Skip(NoPrice) ==> ActionOf(x) == "BUY" && x.currentPos <= 0 && CanOpen(equity, l)
                                 && x.marketCap.Some? && x.marketCap.value >= MinMarketCap && !(x.lastPrice.Some? && x.lastPrice.value > 0.0))
      && (o == Skip(ZeroQty) ==> ActionOf(x) == "BUY" && x.currentPos <= 0 && CanOpen(equity, l)
                                 && x.marketCap.Some? && x.marketCap.value >= MinMarketCap
                                 && x.lastPrice.Some? && x.lastPrice.value > 0.0
                                 && Sizing.RawQty(equity, x.lastPrice.value, StopFor(rule, x)) <= 0)
      && (o == Skip(ZeroQtyAfterCap) ==> ActionOf(x) == "BUY" && x.currentPos <= 0 && CanOpen(equity, l)
                                         && x.marketCap.Some? && x.marketCap.value >= MinMarketCap
                                         && x.lastPrice.Some? && x.lastPrice.value > 0.0
                                         && Sizing.RawQty(equity, x.lastPrice.value, StopFor(rule, x)) >= 1
                                         && Sizing.OrderQty(equity, x.lastPrice.value, StopFor(rule, x)) <= 0)
      && (o == Skip(NoPositionToClose) <==> ActionOf(x) == "SELL" && x.currentPos <= 0)
      && (o == Skip(Hold) <==> ActionOf(x) != "SELL" && ActionOf(x) != "BUY")
      && (o.Skip? ==> Step(rule, equity, execute, l, x).1 == l)
  {
  }

  /** Every bought quantity is at least one share, within the exposure cap and within the risk budget at the stop. */
  predicate BuyWithinBudget(rule: Indicators.Classifier, equity: real, x: SymbolInput, qty: int) {
    x.lastPrice.Some? && x.lastPrice.value > 0.0 && Sizing.SizedWithin(equity, x.lastPrice.value, StopFor(rule, x), qty)
  }

  /** A BUY carries the sizer's quantity for a positive price. */
  lemma BuyIsSized(rule: Indicators.Classifier, equity: real, execute: bool, l: Ledger, x: SymbolInput)
    requires Step(rule, equity, execute, l, x).0.Buy?
    ensures x.lastPrice.Some? && x.lastPrice.value > 0.0
    ensures Step(rule, equity, execute, l, x).0.qty == Sizing.OrderQty(equity, x.lastPrice.value, StopFor(rule, x)) >= 1
  {
  }

  lemma BuyIsWithinBudget(rule: Indicators.Classifier, equity: real, execute: bool, l: Ledger, x: SymbolInput)
    requires Step(rule, equity, execute, l, x).0.Buy?
    ensures BuyWithinBudget(rule, equity, x, Step(rule, equity, execute, l, x).0.qty)
    ensures equity > 0.0
  {
    BuyIsSized(rule, equity, execute, l, x);
    Sizing.PositiveSizeWithin(equity, x.lastPrice.value, StopFor(rule, x));
  }

  /** A SELL is placed iff the signal says SELL and the position is long, and it sells exactly that position. */
  lemma SellOnlyHeld(rule: Indicators.Classifier, equity: real, execute: bool, l: Ledger, x: SymbolInput)
    ensures Step(rule, equity, execute, l, x).0.Sell? <==> ActionOf(x) == "SELL" && x.currentPos > 0
    ensures Step(rule, equity, execute, l, x).0.Sell? ==> Step(rule, equity, execute, l, x).0.qty == x.currentPos
  {
  }

  /** The counters move only with execution on: +1 trade and one risk amount per BUY, -1 trade (floored at 0) per SELL. */
  lemma LedgerEffect(rule: Indicators.Classifier, equity: real, execute: bool, l: Ledger, x: SymbolInput)
    ensures var (o, l') := Step(rule, equity, execute, l, x);
      l' == if execute && o.Buy? then Ledger(l.openTrades + 1, l.riskTotal + RiskPerTrade * equity)
            else if execute && o.Sell? then Ledger(if l.openTrades == 0 then 0 else l.openTrades - 1, l.riskTotal)
            else l
  {
  }

  /** After every executed open, both counters are within their ceilings, whatever the ledger before. */
  lemma OpenLandsWithinLimits(rule: Indicators.Classifier, equity: real, l: Ledger, x: SymbolInput)
    requires Step(rule, equity, true, l, x).0.Buy?
    ensures WithinLimits(equity, Step(rule, equity, true, l, x).1)
  {
  }

  /** A step keeps the ledger within its ceilings. */
  lemma StepKeepsLimits(rule: Indicators.Classifier, equity: real, execute: bool, l: Ledger, x: SymbolInput)
    requires WithinLimits(equity, l)
    ensures WithinLimits(equity, Step(rule, equity, execute, l, x).1)
  {
  }

  // ---------------------------------------------------------------- the two classifiers

  /**
   * For any stop the policy can choose, the entry is decided by the exposure
   * cap alone: a BUY of floor(cap / price) shares when that is at least one,
   * otherwise one of the two size skips.
   */
  lemma EntryByCap(equity: real, price: real, stopPct: real)
    requires price > 0.0 && 0.0 < stopPct <= Sizing.WidestStop
    ensures Entry(equity, price, stopPct).Buy? <==> (Sizing.ExposureCap(equity) / price).Floor >= 1
    ensures Entry(equity, price, stopPct).Buy? ==> Entry(equity, price, stopPct).qty == (Sizing.ExposureCap(equity) / price).Floor
    ensures !Entry(equity, price, stopPct).Buy? ==>
              Entry(equity, price, stopPct) == Skip(ZeroQty) || Entry(equity, price, stopPct) == Skip(ZeroQtyAfterCap)
  {
    var f := (Sizing.ExposureCap(equity) / price).Floor;
    var raw := Sizing.RawQty(equity, price, stopPct);
    Sizing.FloorDivBounds(Sizing.ExposureCap(equity), price);
    if equity >= 0.0 {
      Sizing.OrderQtyIsCapFloor(equity, price, stopPct);
      if f >= 1 {
        Sizing.CapFitsRisk(equity, price, stopPct, f);
        Sizing.RawQtyIsGreatest(equity, price, stopPct, f);
      }
    } else {
      var d := price * stopPct;
      assert raw as real * price * stopPct == raw as real * d;
      Sizing.MulStrict(0.0, price, stopPct);
      Sizing.RawQtyBounds(equity, price, stopPct);
      Sizing.MulCancel(raw as real, 0.0, d, Sizing.RiskAmount(equity));
      Sizing.MulCancel(f as real, 0.0, price, Sizing.ExposureCap(equity));
    }
  }

  /** Two outcomes that place the same order: equal, or both a size skip. */
  predicate SameOrder(o1: Outcome, o2: Outcome) {
    o1 == o2 || (o1 in {Skip(ZeroQty), Skip(ZeroQtyAfterCap)} && o2 in {Skip(ZeroQty), Skip(ZeroQtyAfterCap)})
  }

  /**
   * The classifier as written and the corrected one place the same order for
   * every symbol and move the ledger alike; at most the size skip is reported
   * with a different reason.
   */
  lemma StepRulesAgree(equity: real, execute: bool, l: Ledger, x: SymbolInput)
    ensures SameOrder(Step(Indicators.AsWritten, equity, execute, l, x).0, Step(Indicators.Corrected, equity, execute, l, x).0)
    ensures Step(Indicators.AsWritten, equity, execute, l, x).1 == Step(Indicators.Corrected, equity, execute, l, x).1
  {
    if x.lastPrice.Some? && x.lastPrice.value > 0.0 {
      EntryByCap(equity, x.lastPrice.value, StopFor(Indicators.AsWritten, x));
      EntryByCap(equity, x.lastPrice.value, StopFor(Indicators.Corrected, x));
    }
  }

  /** A BUY for a large-cap symbol with no volatility estimate: 59 closes at 100, then 102, last price 100. */
  function SkipExample(): (x: SymbolInput)
    ensures x.action == Some("BUY") && x.currentPos == 0 && x.marketCap == Some(3000000000.0)
    ensures |x.closes| == 60 && x.volEstimate.None? && x.lastPrice == Some(100.0)
  {
    SymbolInput("SPY", Some("BUY"), 0, Some(3000000000.0), seq(59, _ => 100.0) + [102.0], None, Some(100.0))
  }

  /** As written the example is no breakout, so its stop is 4 % or 4.8 %; corrected it is a breakout at 3.2 %. */
  lemma SkipExampleStops()
    ensures StopFor(Indicators.Corrected, SkipExample()) == 0.032
    ensures StopFor(Indicators.AsWritten, SkipExample()) == 0.04 || StopFor(Indicators.AsWritten, SkipExample()) == 0.048
  {
    Indicators.BreakoutMissedAsWritten();
  }

  /** With equity 350 at price 100, the 4 % and 4.8 % stops buy no share; the 3.2 % stop buys one, which the 28 cap clamps to none. */
  lemma SkipExampleEntries()
    ensures Entry(350.0, 100.0, 0.04) == Skip(ZeroQty)
    ensures Entry(350.0, 100.0, 0.048) == Skip(ZeroQty)
    ensures Entry(350.0, 100.0, 0.032) == Skip(ZeroQtyAfterCap)
  {
    assert Sizing.RawQty(350.0, 100.0, 0.032) == 1;
    assert Sizing.RawQty(350.0, 100.0, 0.04) == 0;
    assert Sizing.RawQty(350.0, 100.0, 0.048) == 0;
    assert Sizing.CappedQty(350.0, 100.0, 1) == 0;
  }

  /**
   * On the example with equity 350, the pass as written skips for a zero risk-based size,
   * the corrected pass for a size the exposure cap clamps to zero.
   */
  lemma SizeSkipReasonDiffers()
    ensures Step(Indicators.AsWritten, 350.0, true, Ledger(0, 0.0), SkipExample()).0 == Skip(ZeroQty)
    ensures Step(Indicators.Corrected, 350.0, true, Ledger(0, 0.0), SkipExample()).0 == Skip(ZeroQtyAfterCap)
  {
    var x := SkipExample();
    assert ActionOf(x) == "BUY";
    assert CanOpen(350.0, Ledger(0, 0.0));
    SkipExampleStops();
    SkipExampleEntries();
  }

  // ---------------------------------------------------------------- the whole pass

  /** The pass over the first i + 1 symbols extends the pass over the first i by symbol i's step. */
  lemma PassStep(rule: Indicators.Classifier, equity: real, execute: bool, start: Ledger, xs: seq<SymbolInput>, i: nat)
    requires i < |xs|
    ensures var before := Pass(rule, equity, execute, start, xs[..i]);
            var after := Step(rule, equity, execute, before.1, xs[i]);
            Pass(rule, equity, execute, start, xs[..i + 1]) == (before.0 + [SymbolDecision(xs[i].symbol, after.0)], after.1)
  {
    assert xs[..i + 1][..i] == xs[..i];
  }

  /** The pass over a prefix is the prefix of the pass. */
  lemma {:induction false} PassPrefix(rule: Indicators.Classifier, equity: real, execute: bool, start: Ledger, xs: seq<SymbolInput>, k: nat)
    requires k <= |xs|
    ensures Pass(rule, equity, execute, start, xs).0[..k] == Pass(rule, equity, execute, start, xs[..k]).0
    decreases |xs|
  {
    if k < |xs| {
      var init := xs[..|xs| - 1];
      assert init[..k] == xs[..k];
      PassPrefix(rule, equity, execute, start, init, k);
    } else {
      assert xs[..k] == xs;
    }
  }

  /** Decision k is the step on symbol k against the ledger left by the symbols before it. */
  lemma PassDecisionAt(rule: Indicators.Classifier, equity: real, execute: bool, start: Ledger, xs: seq<SymbolInput>, k: nat)
    requires k < |xs|
    ensures Pass(rule, equity, execute, start, xs).0[k]
            == SymbolDecision(xs[k].symbol, Step(rule, equity, execute, Pass(rule, equity, execute, start, xs[..k]).1, xs[k]).0)
  {
    PassPrefix(rule, equity, execute, start, xs, k + 1);
    assert xs[..k + 1][..k] == xs[..k];
  }

  /** Every BUY of the pass is within budget and every SELL closes exactly a long position. */
  lemma PassOrdersSound(rule: Indicators.Classifier, equity: real, execute: bool, start: Ledger, xs: seq<SymbolInput>)
    ensures var ds := Pass(rule, equity, execute, start, xs).0;
      forall k :: 0 <= k < |ds| ==>
        (ds[k].outcome.Buy? ==> BuyWithinBudget(rule, equity, xs[k], ds[k].outcome.qty))
        && (ds[k].outcome.Sell? ==> ActionOf(xs[k]) == "SELL" && ds[k].outcome.qty == xs[k].currentPos > 0)
  {
    var ds := Pass(rule, equity, execute, start, xs).0;
    forall k | 0 <= k < |ds|
      ensures (ds[k].outcome.Buy? ==> BuyWithinBudget(rule, equity, xs[k], ds[k].outcome.qty))
              && (ds[k].outcome.Sell? ==> ActionOf(xs[k]) == "SELL" && ds[k].outcome.qty == xs[k].currentPos > 0)
    {
      PassDecisionAt(rule, equity, execute, start, xs, k);
      var l := Pass(rule, equity, execute, start, xs[..k]).1;
      if ds[k].outcome.Buy? {
        BuyIsWithinBudget(rule, equity, execute, l, xs[k]);
      }
      SellOnlyHeld(rule, equity, execute, l, xs[k]);
    }
  }

  /** A ledger that starts within its ceilings stays within them, with execution on or off. */
  lemma {:induction false} PassKeepsLimits(rule: Indicators.Classifier, equity: real, execute: bool, start: Ledger, xs: seq<SymbolInput>)
    requires WithinLimits(equity, start)
    ensures WithinLimits(equity, Pass(rule, equity, execute, start, xs).1)
    decreases |xs|
  {
    if xs != [] {
      PassKeepsLimits(rule, equity, execute, start, xs[..|xs| - 1]);
      StepKeepsLimits(rule, equity, execute, Pass(rule, equity, execute, start, xs[..|xs| - 1]).1, xs[|xs| - 1]);
    }
  }

  /** A simulated pass (execution off) leaves the ledger as it found it. */
  lemma {:induction false} SimulationLeavesLedger(rule: Indicators.Classifier, equity: real, start: Ledger, xs: seq<SymbolInput>)
    ensures Pass(rule, equity, false, start, xs).1 == start
    decreases |xs|
  {
    if xs != [] {
      SimulationLeavesLedger(rule, equity, start, xs[..|xs| - 1]);
    }
  }

  /** Number of BUY decisions. */
  function Buys(ds: seq<SymbolDecision>): nat {
    if ds == [] then 0 else Buys(ds[..|ds| - 1]) + (if ds[|ds| - 1].outcome.Buy? then 1 else 0)
  }

  /** With execution on, one step adds one risk amount if it buys and nothing otherwise. */
  lemma StepRisk(rule: Indicators.Classifier, equity: real, l: Ledger, x: SymbolInput)
    ensures var (o, l') := Step(rule, equity, true, l, x);
      l'.riskTotal == l.riskTotal + (if o.Buy? then RiskPerTrade * equity else 0.0)
  {
  }

  /** The risk that `ds` adds at `amount` per BUY. */
  function RiskAdded(ds: seq<SymbolDecision>, amount: real): real {
    if ds == [] then 0.0 else RiskAdded(ds[..|ds| - 1], amount) + (if ds[|ds| - 1].outcome.Buy? then amount else 0.0)
  }

  /** One risk amount per BUY: the added risk is the number of BUYs times the amount. */
  lemma {:induction false} RiskAddedCountsBuys(ds: seq<SymbolDecision>, amount: real)
    ensures RiskAdded(ds, amount) == Buys(ds) as real * amount
  {
    if ds != [] {
      RiskAddedCountsBuys(ds[..|ds| - 1], amount);
    }
  }

  /** Closing never releases risk: with execution on, the risk in use grows by exactly one risk amount per BUY. */
  lemma {:induction false} RiskAccounting(rule: Indicators.Classifier, equity: real, start: Ledger, xs: seq<SymbolInput>)
    ensures Pass(rule, equity, true, start, xs).1.riskTotal
            == start.riskTotal + RiskAdded(Pass(rule, equity, true, start, xs).0, RiskPerTrade * equity)
    decreases |xs|
  {
    if xs != [] {
      var init := xs[..|xs| - 1];
      var x := xs[|xs| - 1];
      RiskAccounting(rule, equity, start, init);
      var before := Pass(rule, equity, true, start, init);
      StepRisk(rule, equity, before.1, x);
      var ds := Pass(rule, equity, true, start, xs).0;
      assert ds[..|ds| - 1] == before.0;
    }
  }

  /** Over the whole pass, both classifiers place the same orders and leave the same ledger. */
  lemma {:induction false} PassRulesAgree(equity: real, execute: bool, start: Ledger, xs: seq<SymbolInput>)
    ensures Pass(Indicators.AsWritten, equity, execute, start, xs).1 == Pass(Indicators.Corrected, equity, execute, start, xs).1
    ensures var a := Pass(Indicators.AsWritten, equity, execute, start, xs).0;
            var c := Pass(Indicators.Corrected, equity, execute, start, xs).0;
            forall k :: 0 <= k < |xs| ==> a[k].symbol == c[k].symbol && SameOrder(a[k].outcome, c[k].outcome)
    decreases |xs|
  {
    if xs != [] {
      var init := xs[..|xs| - 1];
      var x := xs[|xs| - 1];
      PassRulesAgree(equity, execute, start, init);
      var before := Pass(Indicators.AsWritten, equity, execute, start, init);
      StepRulesAgree(equity, execute, before.1, x);
    }
  }
}
