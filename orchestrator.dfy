/**
 * The daily swing pass (`main` of src/orchestrator.py): the initial ledger from
 * the broker snapshot, then one decision per symbol in universe order, the two
 * running counters updated in place as orders are sent.
 */
module Orchestrator {
  import opened Wrappers
  import opened Config
  import opened IbkrClient
  import Indicators
  import StopPolicy
  import Sizing
  import opened Decision

  /** Why the whole pass stops before deciding anything. */
  datatype RunError =
    | ConnectFailed          // the session could not be connected
    | Broker(e: ClientError) // a broker call raised
    | ZeroEquity             // the opening report divides by a zero equity

  /** What one pass produced. */
  datatype PassReport = PassReport(equity: real, start: Ledger, decisions: seq<SymbolDecision>, final: Ledger)

  /** The symbols of the universe. */
  function Universe(inputs: seq<SymbolInput>): set<string> {
    set x | x in inputs :: x.symbol
  }

  /** The input records are the configured universe, in the configured order. */
  predicate DeployedInputs(inputs: seq<SymbolInput>) {
    |inputs| == |Symbols| && forall i :: 0 <= i < |inputs| ==> inputs[i].symbol == Symbols[i]
  }

  /**
   * With the configured universe, the positions are counted against exactly the
   * configured symbols, and the pass decides the eight of them in order.
   */
  lemma DeployedUniverse(rule: Indicators.Classifier, equity: real, execute: bool, start: Ledger, inputs: seq<SymbolInput>)
    requires DeployedInputs(inputs)
    ensures Universe(inputs) == set s | s in Symbols
    ensures var ds := Pass(rule, equity, execute, start, inputs).0;
            |ds| == 8 && forall i :: 0 <= i < 8 ==> ds[i].symbol == Symbols[i]
  {
    forall s | s in Symbols ensures s in Universe(inputs) {
      var i :| 0 <= i < |Symbols| && Symbols[i] == s;
      assert inputs[i].symbol == s;
    }
  }

  /** Positions counted as open swing trades: non-zero quantity (shorts included) in a managed symbol. */
  predicate CountsAsOpen(p: Position, universe: set<string>) {
    p.qty != 0.0 && p.symbol in universe
  }

  function OpenTradeCount(ps: seq<Position>, universe: set<string>): (n: nat)
    ensures n <= |ps|
  {
    if ps == [] then 0
    else OpenTradeCount(ps[..|ps| - 1], universe) + (if CountsAsOpen(ps[|ps| - 1], universe) then 1 else 0)
  }

  /** The count is zero exactly when no position counts as open. */
  lemma {:induction false} OpenTradeCountZero(ps: seq<Position>, universe: set<string>)
    ensures OpenTradeCount(ps, universe) == 0 <==> forall i :: 0 <= i < |ps| ==> !CountsAsOpen(ps[i], universe)
  {
    if ps != [] {
      var init := ps[..|ps| - 1];
      OpenTradeCountZero(init, universe);
      assert forall i :: 0 <= i < |init| ==> init[i] == ps[i];
    }
  }

  /** Every counted position adds one: the count equals the number of positions when all of them count. */
  lemma {:induction false} OpenTradeCountAll(ps: seq<Position>, universe: set<string>)
    requires forall i :: 0 <= i < |ps| ==> CountsAsOpen(ps[i], universe)
    ensures OpenTradeCount(ps, universe) == |ps|
  {
    if ps != [] {
      var init := ps[..|ps| - 1];
      assert forall i :: 0 <= i < |init| ==> init[i] == ps[i];
      OpenTradeCountAll(init, universe);
    }
  }

  /** The ledger the pass starts from: each open trade is taken to risk one risk amount. */
  function InitialLedger(equity: real, ps: seq<Position>, universe: set<string>): (l: Ledger)
    ensures l.openTrades == OpenTradeCount(ps, universe)
    ensures l.openTrades <= |ps|
  {
    var n := OpenTradeCount(ps, universe);
    Ledger(n, n as real * (RiskPerTrade * equity))
  }

  /** With positive equity and no more open trades than the ceiling, the initial ledger is within both ceilings. */
  lemma InitialLedgerWithinLimits(equity: real, ps: seq<Position>, universe: set<string>)
    requires equity > 0.0 && OpenTradeCount(ps, universe) <= MaxOpenTrades
    ensures WithinLimits(equity, InitialLedger(equity, ps, universe))
  {
    var n := OpenTradeCount(ps, universe) as real;
    assert n * (RiskPerTrade * equity) <= 5.0 * (RiskPerTrade * equity);
  }

  /**
   * The body of the per-symbol loop: exits first, then the entry checks in
   * order, the sizing with its exposure clamp, and the counter updates when
   * orders are sent.
   */
  method DecideSymbol(rule: Indicators.Classifier, equity: real, execute: bool, openTrades: nat, risk: real, x: SymbolInput)
    returns (outcome: Outcome, numOpenTrades: nat, riskTotal: real)
    ensures (outcome, Ledger(numOpenTrades, riskTotal)) == Step(rule, equity, execute, Ledger(openTrades, risk), x)
  {
    numOpenTrades, riskTotal := openTrades, risk;
    var action := match x.action case Some(a) => a case None => "HOLD";

    if action == "SELL" {
      if x.currentPos <= 0 {
        outcome := Skip(NoPositionToClose);
      } else {
        outcome := Sell(x.currentPos);
        if execute {
          numOpenTrades := if numOpenTrades == 0 then 0 else numOpenTrades - 1;
        }
      }
    } else if action == "BUY" {
      if x.currentPos > 0 {
        outcome := Skip(AlreadyOpen);
      } else if numOpenTrades >= MaxOpenTrades {
        outcome := Skip(TradeLimit);
      } else if riskTotal + RiskPerTrade * equity > MaxTotalRisk * equity {
        outcome := Skip(RiskLimit);
      } else if x.marketCap.None? {
        outcome := Skip(NoMarketCap);
      } else if x.marketCap.value < MinMarketCap {
        outcome := Skip(SmallMarketCap);
      } else {
        var volAnnual := Indicators.ComputeVolatility(x.closes, x.volEstimate);
        var setup := Indicators.Classify(rule, x.closes);
        var stopPct := StopPolicy.ChooseStopPct(volAnnual, setup);
        assert stopPct == StopFor(rule, x);
        if x.lastPrice.None? || x.lastPrice.value <= 0.0 {
          outcome := Skip(NoPrice);
        } else {
          outcome := SizeEntry(equity, x.lastPrice.value, stopPct);
          if outcome.Buy? && execute {
            numOpenTrades := numOpenTrades + 1;
            riskTotal := riskTotal + equity * RiskPerTrade;
          }
        }
      }
    } else {
      outcome := Skip(Hold);
    }
  }

  /**
   * The sizing code of an entry: the quantity that puts the risk budget at the
   * stop, reassigned to the exposure-cap size when its capital exceeds the cap.
   */
  method SizeEntry(equity: real, lastPrice: real, stopPct: real) returns (outcome: Outcome)
    requires lastPrice > 0.0 && stopPct > 0.0
    ensures outcome == Entry(equity, lastPrice, stopPct)
  {
    var riskAmount := equity * RiskPerTrade;
    var riskPerShare := lastPrice * stopPct;
    Sizing.MulStrict(0.0, lastPrice, stopPct);
    var qty := (riskAmount / riskPerShare).Floor;
    assert riskAmount == Sizing.RiskAmount(equity);
    ghost var raw := qty;
    assert raw == Sizing.RawQty(equity, lastPrice, stopPct);
    if qty <= 0 {
      return Skip(ZeroQty);
    }
    var capitalPos := qty as real * lastPrice;
    var maxCapitalForSymbol := equity * MaxPositionExposure;
    assert maxCapitalForSymbol == Sizing.ExposureCap(equity);
    if capitalPos > maxCapitalForSymbol {
      qty := (maxCapitalForSymbol / lastPrice).Floor;
    }
    assert qty == Sizing.CappedQty(equity, lastPrice, raw);
    if qty <= 0 {
      return Skip(ZeroQtyAfterCap);
    }
    outcome := Buy(qty);
  }

  /**
   * The per-symbol loop. `numOpenTrades` and `riskTotal` are updated in place;
   * a BUY is sized from the risk budget, then clamped to the exposure cap.
   */
  method RunPass(rule: Indicators.Classifier, equity: real, execute: bool, start: Ledger, inputs: seq<SymbolInput>)
    returns (decisions: seq<SymbolDecision>, final: Ledger)
    ensures (decisions, final) == Pass(rule, equity, execute, start, inputs)
    ensures |decisions| == |inputs|
  {
    var numOpenTrades: nat := start.openTrades;
    var riskTotal := start.riskTotal;
    decisions := [];
    for i := 0 to |inputs|
      invariant (decisions, Ledger(numOpenTrades, riskTotal)) == Pass(rule, equity, execute, start, inputs[..i])
    {
      var x := inputs[i];
      PassStep(rule, equity, execute, start, inputs, i);
      var outcome: Outcome;
      outcome, numOpenTrades, riskTotal := DecideSymbol(rule, equity, execute, numOpenTrades, riskTotal, x);
      decisions := decisions + [SymbolDecision(x.symbol, outcome)];
    }
    assert inputs[..|inputs|] == inputs;
    final := Ledger(numOpenTrades, riskTotal);
  }

  /**
   * `main`: connect, read equity and positions, build the initial ledger, then
   * run the per-symbol loop. The opening report divides by the equity, so a
   * zero equity stops the pass before any symbol is visited.
   */
  method DailyPass(rule: Indicators.Classifier, connected: bool, summary: seq<AccountValue>, held: seq<BrokerPosition>,
                   inputs: seq<SymbolInput>, execute: bool)
    returns (r: Result<PassReport, RunError>)
    ensures !connected ==> r == Err(ConnectFailed)
    ensures connected && FirstNetLiquidation(summary).None? ==> r == Err(Broker(NoNetLiquidation))
    ensures connected && FirstNetLiquidation(summary) == Some(0.0) ==> r == Err(ZeroEquity)
    ensures connected && FirstNetLiquidation(summary).Some? && FirstNetLiquidation(summary).value != 0.0 ==> r.Ok?
    ensures r.Ok? ==>
              && connected
              && FirstNetLiquidation(summary) == Some(r.value.equity)
              && r.value.start == InitialLedger(r.value.equity, ParseAll(held), Universe(inputs))
              && (r.value.decisions, r.value.final) == Pass(rule, r.value.equity, execute, r.value.start, inputs)
  {
    if !connected {
      return Err(ConnectFailed);
    }
    var equityResult := GetEquity(connected, summary);
    if equityResult.Err? {
      return Err(Broker(equityResult.error));
    }
    var equity := equityResult.value;
    var positionsResult := GetAllPositions(connected, held);
    var positions := positionsResult.value;
    var start := InitialLedger(equity, positions, Universe(inputs));
    if equity == 0.0 {
      return Err(ZeroEquity);
    }
    var decisions, final := RunPass(rule, equity, execute, start, inputs);
    r := Ok(PassReport(equity, start, decisions, final));
  }

  /** Every order the pass decides is one the broker wrapper places as given: positive quantity, valid side. */
  lemma PassOrdersArePlaced(rule: Indicators.Classifier, equity: real, execute: bool, start: Ledger, inputs: seq<SymbolInput>)
    ensures var ds := Pass(rule, equity, execute, start, inputs).0;
      forall k :: 0 <= k < |ds| ==>
        (ds[k].outcome.Buy? ==> SendMarketOrder(true, "BUY", ds[k].outcome.qty) == Ok(Placed("BUY", ds[k].outcome.qty)))
        && (ds[k].outcome.Sell? ==> SendMarketOrder(true, "SELL", ds[k].outcome.qty) == Ok(Placed("SELL", ds[k].outcome.qty)))
  {
    PassOrdersSound(rule, equity, execute, start, inputs);
    assert Upper("BUY") == "BUY";
    assert Upper("SELL") == "SELL";
  }
}
