/** The run-wide portfolio parameters of the swing orchestrator. */
module Config {

  /** Fraction of equity put at risk by one trade (1 %). */
  const RiskPerTrade: real := 0.01

  /** Ceiling on the aggregate risk, as a fraction of equity (15 %). */
  const MaxTotalRisk: real := 0.15

  /** Ceiling on the number of open swing trades. */
  const MaxOpenTrades: nat := 5

  /** Ceiling on the capital in one instrument, as a fraction of equity (8 %). */
  const MaxPositionExposure: real := 0.08

  /** Smallest admissible market capitalisation (2 billion, equality admitted). */
  const MinMarketCap: real := 2000000000.0

  /** The managed universe, in the order the daily pass visits it. */
  const Symbols: seq<string> := ["AMZN", "JPM", "XOM", "JNJ", "PG", "SPY", "QQQ", "IWM"]
}
