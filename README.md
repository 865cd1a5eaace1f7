# Swing orchestrator: a verified model of the daily decision pass

This project models the core of a small swing-trading bot in Dafny. The bot's
daily pass (`main` in `src/orchestrator.py`) reads the account equity and
positions from an Interactive Brokers session. From them it builds a ledger of
open trades and risk in use. It then walks a fixed universe of symbols. For
each symbol it turns a BUY/SELL/HOLD signal into one of three outcomes:

- no order, with a reason;
- a SELL of the whole long position;
- a BUY sized so that the loss at the stop is 1 % of equity, clamped so that
  the position is at most 8 % of equity.

While orders are being sent, the two ledger counters are updated in place.

Modules, one per concern of the source:

- `Config`: the portfolio parameters and the managed universe.
- `Indicators`: the history-length guard of the volatility estimate, and the
  setup classifier. The classifier is modelled both as written and as
  corrected; see "Findings".
- `StopPolicy`: the stop-percentage table.
- `Sizing`: risk-budget sizing and the exposure clamp, with floors.
- `Decision`: the specification of the pass.
  - `Step` decides one symbol against a ledger. It takes the classifier as a
    parameter: `AsWritten` is the program as it runs, `Corrected` is the
    intended classifier.
  - `Pass` threads the ledger through the universe in order.
  - Lemmas state the admission rule, the order of the checks, the budgets
    every BUY respects, that a SELL only closes held shares, and the ledger
    ceilings.
- `Orchestrator`: the imperative pass, proved equal to `Pass`.
  - `RunPass` is the loop. It updates `numOpenTrades` and `riskTotal` in place.
  - `DecideSymbol` is the loop body.
  - `SizeEntry` is the sizing code; it reassigns `qty` when the clamp applies.
  - `DailyPass` is `main`: connect, read equity and positions, build the
    initial ledger, then run the loop.
- `IbkrClient`: the selection logic of the broker wrapper.
  - The first readable NetLiquidation.
  - Parsing of the position rows.
  - The case-insensitive position total.
  - The first valid price among last, close and market price.
  - The guards of `send_market_order`.
  - The session is reduced to a `connected` flag and the lists it returns.

Every external fetch of the pass is a field of one `SymbolInput` record per symbol:

- the signal's action;
- the broker position;
- the market cap;
- the daily closes;
- the volatility statistic;
- the broker price.

`EXECUTE_ORDERS` is the `execute` parameter. The pass returns the decisions in
universe order and the final ledger.

Floats are idealised as exact reals. `math.floor` is `.Floor`, and `int()` on a
float is truncation toward zero (`IbkrClient.Trunc`).

## Model

| member | source | states |
|---|---|---|
| Indicators.ComputeVolatility | src/orchestrator.py:96-97 | Fewer than 20 closes (or none) gives no volatility. At least 20 bars gives the statistic's value. |
| Indicators.Max | src/orchestrator.py:121 | The series maximum is one of the closes and bounds every close. |
| Indicators.ClassifySetupAsWritten | src/orchestrator.py:114-134 | The classifier with the maximum over the whole series. Its label is one of the three, and "other" below 60 bars. |
| Indicators.ClassifySetupAsWrittenMeaning | src/orchestrator.py:114-134 | As written: breakout iff at least 60 bars and the last close is at least 1.01 × the maximum of the whole series. Trend change iff it is not such a breakout and the last close is above the 50-bar mean. Both directions. |
| Indicators.AsWrittenBreakoutNeedsNonPositiveMax | src/orchestrator.py:121-128 | As written, "breakout" is returned only when the series maximum is at most 0, so never for positive prices. |
| Indicators.ClassifySetup | src/orchestrator.py:107-134 | The corrected classifier: the label is one of the three, and "other" below 60 bars. |
| Indicators.ClassifySetupMeaning | src/orchestrator.py:126-132 | Breakout iff at least 60 bars and the last close is at least 1.01 × the previous maximum. Trend change iff it is not a breakout and the last close is above the 50-bar mean. Both directions. |
| Indicators.ClassifiersAgreeOffBreakout | src/orchestrator.py:121-134 | An as-written breakout is also a corrected breakout. Wherever the corrected classifier does not say breakout, the two classifiers agree. |
| Indicators.BreakoutMissedAsWritten | src/orchestrator.py:121-128 | 59 closes at 100 then 102: the corrected classifier says breakout, the as-written one does not. |
| Indicators.Classify | src/orchestrator.py:251 | The label under either classifier is one of the three, and "other" below 60 bars. |
| StopPolicy.BaseStop | src/orchestrator.py:141-149 | The base stop per volatility bucket: unknown 4 %, below 0.25 3 %, below 0.40 4.5 %, otherwise 6 %. |
| StopPolicy.SetupMultiplier | src/orchestrator.py:151-157 | The multiplier: breakout 0.8, trend change 1.0, any other label 1.2. |
| StopPolicy.ChooseStopPct | src/orchestrator.py:137-159 | The stop always lies in [2.4 %, 7.2 %], so it is strictly positive. |
| StopPolicy.StopWidensWithVolatility | src/orchestrator.py:142-149 | For a fixed label, a higher known volatility never gives a tighter stop. |
| StopPolicy.StopOrderedBySetup | src/orchestrator.py:152-157 | For a fixed volatility, breakout < trend change < any other label. |
| Sizing.RawQtyBounds | src/orchestrator.py:268-270 | The raw size's risk at the stop fits the risk budget, and one more share would not. |
| Sizing.CappedQtyBounds | src/orchestrator.py:276-284 | The clamp never grows the size and leaves it alone under the cap. A clamped size fits the 8 % cap, and one more share would not. |
| Sizing.SizeWithinBudgets | src/orchestrator.py:268-284 | The final size is at most the raw size, its capital is within the exposure cap, and its risk at the stop is within the risk budget. |
| Sizing.PositiveSizeWithin | src/orchestrator.py:268-288 | A size of at least one share satisfies all three bounds: at least 1 share, capital ≤ 8 % of equity, risk ≤ 1 % of equity. The equity is then positive. |
| Sizing.PositiveSizeNeedsEquity | src/orchestrator.py:268-288 | A size of at least one share needs a strictly positive equity. |
| Sizing.RawQtyIsGreatest | src/orchestrator.py:270 | Every integer whose risk at the stop fits the budget is at most the raw size. |
| Sizing.CappedQtyIsGreatest | src/orchestrator.py:279-284 | Every integer up to the raw size that fits the cap is at most the clamped size. |
| Sizing.SizeIsGreatest | src/orchestrator.py:268-284 | The final size is the greatest integer within both budgets. |
| Sizing.CapFitsRisk | src/orchestrator.py:268-284 | Any non-negative size within the 8 % cap is also within the 1 % risk budget at any stop up to 7.2 %. |
| Sizing.OrderQtyIsCapFloor | src/orchestrator.py:268-288 | For non-negative equity and any stop up to 7.2 %, the size is floor(cap / price): the exposure cap always binds, whatever the stop. |
| Sizing.SizingExample | src/orchestrator.py:268-284 | Equity 100000, price 50, stop 3 %: raw size 666, clamped to 160. |
| Decision.Pass | src/orchestrator.py:195 | One decision per symbol, in universe order, each carrying its symbol. |
| Decision.BuyAdmission | src/orchestrator.py:221-288 | A BUY is decided iff all of: action BUY, no long position, fewer than 5 open trades, projected risk ≤ 15 % of equity, market cap known and ≥ 2e9, price known and > 0, and raw and clamped sizes ≥ 1. Its quantity is the sizer's. |
| Decision.ChecksInOrder | src/orchestrator.py:207-288 | Each skip reason implies that every earlier check passed. This includes the two size skips: a raw size ≤ 0, or a raw size ≥ 1 whose clamped size is ≤ 0. Every skip leaves the ledger unchanged. A SELL with no long position, or a HOLD/unknown action, skips (both directions). |
| Decision.BuyIsSized | src/orchestrator.py:261-288 | A BUY has a strictly positive price and carries the sizer's quantity, at least 1. |
| Decision.BuyIsWithinBudget | src/orchestrator.py:268-288 | Every BUY quantity is ≥ 1, its capital is ≤ 8 % of equity, and its risk at the stop is ≤ 1 % of equity. |
| Decision.SellOnlyHeld | src/orchestrator.py:207-218 | A SELL is decided iff the action is SELL and the position is long, and it sells exactly that position. |
| Decision.LedgerEffect | src/orchestrator.py:207-300 | Only with execution on does the ledger change. A BUY adds one trade and one risk amount. A SELL removes one trade, floored at 0, and leaves the risk. Anything else changes nothing. |
| Decision.OpenLandsWithinLimits | src/orchestrator.py:228-300 | After every executed BUY, both counters are within their ceilings. |
| Decision.StepKeepsLimits | src/orchestrator.py:207-300 | A ledger within its ceilings stays within them after any symbol. |
| Decision.EntryByCap | src/orchestrator.py:268-288 | For any stop the policy can choose, the entry is a BUY iff floor(cap / price) ≥ 1, and then of exactly that many shares. Otherwise it is one of the two size skips. |
| Decision.StepRulesAgree | src/orchestrator.py:251-300 | With either classifier, a symbol gets the same order and leaves the same ledger. At most, one size skip is reported as the other. |
| Decision.PassStep | src/orchestrator.py:195-306 | The pass over the first i + 1 symbols extends the pass over the first i by symbol i's step, taken against the ledger the first i left. |
| Decision.PassPrefix | src/orchestrator.py:195-306 | The decisions for a prefix of the universe are the prefix of the decisions. |
| Decision.PassDecisionAt | src/orchestrator.py:195-306 | Decision k is the step on symbol k against the ledger left by symbols 0..k-1. |
| Decision.PassOrdersSound | src/orchestrator.py:195-306 | Across the whole pass, every BUY is within both budgets, and every SELL answers a SELL signal and sells exactly a long position. |
| Decision.PassKeepsLimits | src/orchestrator.py:195-306 | A pass that starts within the ceilings (≤ 5 trades, ≤ 15 % risk) ends within them. |
| Decision.SimulationLeavesLedger | src/orchestrator.py:207-302 | With execution off, the pass returns the ledger it was given. |
| Decision.StepRisk | src/orchestrator.py:296-300 | With execution on, a step adds one risk amount for a BUY and nothing otherwise. |
| Decision.RiskAddedCountsBuys | src/orchestrator.py:185-187 | Risk added at one amount per BUY is the number of BUYs times the amount. |
| Decision.RiskAccounting | src/orchestrator.py:207-300 | With execution on, final risk = starting risk + one risk amount per BUY. Closing never releases risk. |
| Decision.PassRulesAgree | src/orchestrator.py:195-306 | Over the whole pass, both classifiers decide the same orders for the same symbols and leave the same final ledger. |
| Decision.SizeSkipReasonDiffers | src/orchestrator.py:251-288 | On one BUY with equity 350 at price 100, no volatility estimate and the breakout-missing closes, the program skips for a zero risk-based size. The corrected classifier skips for a size the exposure cap clamps to zero. |
| Orchestrator.DeployedUniverse | src/orchestrator.py:42-56 | With the eight configured symbols in order as inputs, positions are counted against exactly those symbols, and the pass decides the eight of them in that order. |
| Orchestrator.OpenTradeCount | src/orchestrator.py:179-183 | The count of open trades never exceeds the number of positions. |
| Orchestrator.OpenTradeCountZero | src/orchestrator.py:179-183 | The count is 0 iff no position has a non-zero quantity in a managed symbol. |
| Orchestrator.OpenTradeCountAll | src/orchestrator.py:179-183 | When every position counts, the count is the number of positions. |
| Orchestrator.InitialLedger | src/orchestrator.py:178-187 | The starting ledger counts the open trades: non-zero quantity, shorts included, in a managed symbol. |
| Orchestrator.InitialLedgerWithinLimits | src/orchestrator.py:183-187 | With positive equity and at most 5 open trades, the starting ledger is within both ceilings. |
| Orchestrator.DecideSymbol | src/orchestrator.py:200-306 | The imperative loop body computes exactly `Step`: the outcome and the counters after the symbol. |
| Orchestrator.SizeEntry | src/orchestrator.py:268-288 | The sizing code, with `qty` reassigned by the clamp. It yields exactly the specified entry outcome: no share, no share after the clamp, or a BUY of the clamped size. |
| Orchestrator.RunPass | src/orchestrator.py:195-306 | The loop that updates the counters in place returns exactly `Pass`: the decisions in order and the final ledger. |
| Orchestrator.DailyPass | src/orchestrator.py:164-306 | With either classifier. Not connected: error. No readable NetLiquidation: error. Zero equity: stops at the opening report. Otherwise the report holds the first readable NetLiquidation, the initial ledger of the parsed positions, and the pass. |
| Orchestrator.PassOrdersArePlaced | src/orchestrator.py:212-298 | Every order the pass decides is accepted by the order wrapper as given: side BUY or SELL, positive quantity. |
| IbkrClient.Upper | src/ibkr_client.py:130 | Upper-casing keeps the length and maps each ASCII lower-case letter to its capital. |
| IbkrClient.Trunc | src/ibkr_client.py:131 | `int()` truncates toward zero: the result lies between 0 and x, within 1 of x. |
| IbkrClient.FirstNetLiquidation | src/ibkr_client.py:68-85 | The value is the first NetLiquidation row that parses. None iff no such row exists. |
| IbkrClient.GetEquity | src/ibkr_client.py:60-85 | Not connected: error. Otherwise the scan that breaks at the first match yields that row's value, or the NetLiquidation error. |
| IbkrClient.ParsePosition | src/ibkr_client.py:101-113 | A row parses iff both numeric fields parse, and then keeps symbol, account, quantity and cost. |
| IbkrClient.ParseAllAppend | src/ibkr_client.py:98-117 | Parsing a concatenation concatenates the results, so input order is kept. |
| IbkrClient.ParseAllSound | src/ibkr_client.py:100-115 | Every reported position comes from a row that parses. |
| IbkrClient.ParseAllComplete | src/ibkr_client.py:100-115 | Every row that parses is reported. |
| IbkrClient.GetAllPositions | src/ibkr_client.py:90-117 | Not connected: error. Otherwise the appending loop returns exactly the parsed rows in order. |
| IbkrClient.PositionTotalNoMatch | src/ibkr_client.py:127-133 | With no matching row, the total is 0. |
| IbkrClient.PositionTotalIgnoresCase | src/ibkr_client.py:130 | The total depends on the symbol only up to upper-casing. |
| IbkrClient.PositionTotalFailureSticks | src/ibkr_client.py:129-131 | Once a matching row fails to convert, the whole call fails. |
| IbkrClient.GetPosition | src/ibkr_client.py:119-133 | Not connected: error. Otherwise the accumulating loop returns the truncated sum over case-insensitively matching rows, or fails at the first unconvertible matching row. |
| IbkrClient.FirstValidPrice | src/ibkr_client.py:169-175 | The result is the first candidate that is present and > 0. None iff no candidate qualifies. |
| IbkrClient.GetLastPrice | src/ibkr_client.py:147-175 | Not connected: error. A failed request propagates. Otherwise the first valid of last, close and market price. |
| IbkrClient.GetLastPriceIbkrOnly | src/ibkr_client.py:177-207 | Errors only when not connected. A failed request gives no price. Otherwise the first valid of last, close and market price. |
| IbkrClient.PricePreference | src/ibkr_client.py:163-175 | `last` wins when valid. `close` wins only when `last` is not valid. The market price only when neither is. |
| IbkrClient.SendMarketOrder | src/ibkr_client.py:213-238 | Not connected: error. Quantity ≤ 0: no order, checked before the side. Otherwise it errors iff the upper-cased side is neither BUY nor SELL, and places the order with the upper-cased side and the given quantity iff it is one of them. |
| IbkrClient.SendMarketOrderFoldsSide | src/ibkr_client.py:224-232 | The side is upper-cased before it is checked: a lower-case "sell" is placed as SELL, and "hold" is refused as an invalid side. |

## Left out

- The statistics of `compute_volatility` (`pct_change`, `std`, the square root of 252) are floating-point library numerics. The volatility is an input; only the 20-bar guard is modelled.
- `get_market_cap_and_history` is network I/O. The market cap and the daily closes are inputs. A missing or empty history is the empty sequence.
- The TradingAgents client (`src/ta_client.py`) is not part of this model. The signal's action is an input.
- The broker session is reduced to a `connected` flag and the rows it returns: connect and disconnect, `accountSummary`, `positions`, `reqMktData`, the two-second waits, `placeOrder`, `.env` loading. `SendMarketOrder` returns what the wrapper would place rather than placing it.
- The per-symbol broker calls inside the loop are inputs of `SymbolInput`. Their exceptions are modelled in `IbkrClient` but not threaded into `RunPass`. Such an exception would abort the pass after earlier orders were sent.
- `float()` and `int()` on strings are abstracted: a field that does not parse is `None`. NaN and infinities are not modelled, and floats are exact reals.
- `str.upper()` is modelled on ASCII letters only.
- All `print` output, date formatting and `sys.path` setup. The one print with an effect is the risk percentage, which divides by the equity. It is modelled as the `ZeroEquity` error.
- Orchestrator.DailyPass: the universe is the symbols of the input records, in input order. The deployed universe is `Config.Symbols` (`Orchestrator.DeployedUniverse`); the pass is proved for any universe.
- Decision.Step: the classifier is a parameter. The program as it runs is `Indicators.AsWritten`, and every property of the pass is proved for both classifiers. The two classifiers differ only in the reason of a size skip (`Decision.PassRulesAgree`).
- `src/check_ibkr_symbols.py` and the three `test_*.py` scripts are manual I/O scripts with no decision logic.

## Findings

| source | as written | input that shows it | evidently intended | confidence | as-written member | corrected member |
|---|---|---|---|---|---|---|
| src/orchestrator.py:121 | The breakout threshold uses the maximum of the whole series, the last close included. So `last_close >= recent_max * 1.01` holds only when that maximum is ≤ 0, and a positive-price series is never a breakout. | 59 daily closes at 100.0 followed by 102.0 | Compare the last close with the maximum of the closes before it, as the comment on line 126 says ("máximo anterior"). That series then breaks its previous high by 2 % and is a breakout. | high; not executed | Indicators.ClassifySetupAsWritten | Indicators.ClassifySetup |

`Indicators.BreakoutMissedAsWritten` exhibits the input above.
`Indicators.AsWrittenBreakoutNeedsNonPositiveMax` shows that no positive-price
series is a breakout as written. `Indicators.ClassifySetupMeaning` states the
intended meaning of the corrected classifier.

The pass (`Decision.Step` through `Orchestrator.DailyPass`) is proved with either
classifier. The bug places no different order: `Sizing.OrderQtyIsCapFloor` shows
the 8 % cap always binds for the stops the policy chooses, so a tighter stop
never changes a size. `Decision.PassRulesAgree` concludes that both classifiers
send the same orders and leave the same ledger. Only a size skip can be reported
under the other reason: with equity 350, price 100, no volatility estimate and
the closes above, the program reports no share at the risk budget. The corrected
classifier reports no share after the clamp (`Decision.SizeSkipReasonDiffers`).
