/**
 * The selection and aggregation logic of the broker wrapper (src/ibkr_client.py).
 * The broker session is reduced to a `connected` flag and to the lists the
 * session returns (account summary, positions, a market-data ticker); placing
 * the order itself is left to the caller.
 */
module IbkrClient {
  import opened Wrappers

  /** The exceptions the wrapper raises. */
  datatype ClientError =
    | NotConnected          // the session is not connected
    | NoNetLiquidation      // no NetLiquidation entry could be read
    | UnreadablePosition    // `int(p.position)` failed on a matching row
    | MarketDataFailed      // requesting market data raised
    | InvalidSide           // the order side is neither BUY nor SELL

  /** An account-summary row; `value` is the row's text as `float()` reads it (None when it raises). */
  datatype AccountValue = AccountValue(tag: string, value: Option<real>)

  /** A position row of the broker; numeric fields as `float()` reads them (None when it raises). */
  datatype BrokerPosition = BrokerPosition(symbol: string, position: Option<real>, avgCost: Option<real>, account: string)

  /** A parsed position, as `get_all_positions` reports it. */
  datatype Position = Position(symbol: string, qty: real, avgCost: real, account: string)

  /** The three price fields of a market-data ticker; None stands for a missing or NaN field. */
  datatype Ticker = Ticker(last: Option<real>, close: Option<real>, marketPrice: Option<real>)

  /** What a market-data request produced. */
  datatype MarketData = Quote(ticker: Ticker) | RequestFailed

  /** What `send_market_order` does. */
  datatype OrderOutcome = NoOrder | Placed(side: string, qty: int)

  // ---------------------------------------------------------------- text

  function UpperChar(c: char): (u: char)
    ensures 'a' <= c <= 'z' ==> 'A' <= u <= 'Z' && u as int == c as int - 32
    ensures !('a' <= c <= 'z') ==> u == c
  {
    if 'a' <= c <= 'z' then (c as int - 32) as char else c
  }

  /** `str.upper()` on ASCII letters. */
  function Upper(s: string): (u: string)
    ensures |u| == |s|
    ensures forall i :: 0 <= i < |s| ==> u[i] == UpperChar(s[i])
  {
    seq(|s|, i requires 0 <= i < |s| => UpperChar(s[i]))
  }

  /** Case-insensitive symbol comparison of `get_position`. */
  predicate SameSymbol(a: string, b: string) {
    Upper(a) == Upper(b)
  }

  /** `int(x)` on a float: truncation toward zero. */
  function Trunc(x: real): (n: int)
    ensures x >= 0.0 ==> 0 <= n && n as real <= x < n as real + 1.0
    ensures x < 0.0 ==> n <= 0 && n as real - 1.0 < x <= n as real
  {
    if x >= 0.0 then x.Floor else -((-x).Floor)
  }

  // ---------------------------------------------------------------- equity

  /** The first NetLiquidation row whose value parses; unparseable ones are skipped. */
  function FirstNetLiquidation(summary: seq<AccountValue>): (r: Option<real>)
    ensures r.Some? ==> exists i :: 0 <= i < |summary| && summary[i].tag == "NetLiquidation" && summary[i].value == r
                          && forall j :: 0 <= j < i ==> !(summary[j].tag == "NetLiquidation" && summary[j].value.Some?)
    ensures r.None? <==> forall i :: 0 <= i < |summary| ==> !(summary[i].tag == "NetLiquidation" && summary[i].value.Some?)
  {
    if summary == [] then None
    else if summary[0].tag == "NetLiquidation" && summary[0].value.Some? then summary[0].value
    else
      var r := FirstNetLiquidation(summary[1..]);
      assert forall j :: 1 <= j < |summary| ==> summary[j] == summary[1..][j - 1];
      r
  }

  /** `get_equity`: scans the account summary and stops at the first readable NetLiquidation. */
  method GetEquity(connected: bool, summary: seq<AccountValue>) returns (r: Result<real, ClientError>)
    ensures !connected ==> r == Err(NotConnected)
    ensures connected ==> r == match FirstNetLiquidation(summary)
                              case Some(v) => Ok(v)
                              case None => Err(NoNetLiquidation)
  {
    if !connected {
      return Err(NotConnected);
    }
    var equity: Option<real> := None;
    var i := 0;
    while i < |summary|
      invariant 0 <= i <= |summary|
      invariant equity.None? ==> FirstNetLiquidation(summary) == FirstNetLiquidation(summary[i..])
      invariant equity.Some? ==> FirstNetLiquidation(summary) == equity
    {
      var item := summary[i];
      if item.tag == "NetLiquidation" {
        match item.value {
          case Some(v) =>
            equity := Some(v);
            break;
          case None =>
        }
      }
      assert summary[i..][1..] == summary[i + 1..];
      i := i + 1;
    }
    if equity.None? {
      return Err(NoNetLiquidation);
    }
    r := Ok(equity.value);
  }

  // ---------------------------------------------------------------- positions

  /** One row of `get_all_positions`: None when a field fails to parse. */
  function ParsePosition(p: BrokerPosition): (r: Option<Position>)
    ensures r.Some? <==> p.position.Some? && p.avgCost.Some?
    ensures r.Some? ==> r.value.symbol == p.symbol && r.value.account == p.account
                        && Some(r.value.qty) == p.position && Some(r.value.avgCost) == p.avgCost
  {
    if p.position.Some? && p.avgCost.Some? then Some(Position(p.symbol, p.position.value, p.avgCost.value, p.account))
    else None
  }

  /** The parsed rows, in input order. */
  function ParseAll(ps: seq<BrokerPosition>): seq<Position> {
    if ps == [] then []
    else (match ParsePosition(ps[0]) case Some(q) => [q] case None => []) + ParseAll(ps[1..])
  }

  /** Parsing the rows of a concatenation concatenates the parsed rows: the order is kept. */
  lemma {:induction false} ParseAllAppend(a: seq<BrokerPosition>, b: seq<BrokerPosition>)
    ensures ParseAll(a + b) == ParseAll(a) + ParseAll(b)
  {
    if a != [] {
      assert (a + b)[1..] == a[1..] + b;
      ParseAllAppend(a[1..], b);
    } else {
      assert a + b == b;
    }
  }

  /** Every output row comes from a readable input row. */
  lemma {:induction false} ParseAllSound(ps: seq<BrokerPosition>)
    ensures forall q :: q in ParseAll(ps) ==> exists i :: 0 <= i < |ps| && ParsePosition(ps[i]) == Some(q)
  {
    if ps != [] {
      var head := match ParsePosition(ps[0]) case Some(q) => [q] case None => [];
      assert ParseAll(ps) == head + ParseAll(ps[1..]);
      ParseAllSound(ps[1..]);
      forall q | q in ParseAll(ps)
        ensures exists i :: 0 <= i < |ps| && ParsePosition(ps[i]) == Some(q)
      {
        if q in head {
          assert ParsePosition(ps[0]) == Some(q);
        } else {
          assert q in ParseAll(ps[1..]);
          var i :| 0 <= i < |ps[1..]| && ParsePosition(ps[1..][i]) == Some(q);
          assert ps[1..][i] == ps[i + 1];
        }
      }
    }
  }

  /** Every readable input row appears among the output rows. */
  lemma {:induction false} ParseAllComplete(ps: seq<BrokerPosition>)
    ensures forall i :: 0 <= i < |ps| && ParsePosition(ps[i]).Some? ==> ParsePosition(ps[i]).value in ParseAll(ps)
  {
    if ps != [] {
      var head := match ParsePosition(ps[0]) case Some(q) => [q] case None => [];
      assert ParseAll(ps) == head + ParseAll(ps[1..]);
      ParseAllComplete(ps[1..]);
      forall i | 0 <= i < |ps| && ParsePosition(ps[i]).Some?
        ensures ParsePosition(ps[i]).value in ParseAll(ps)
      {
        if i > 0 {
          assert ps[i] == ps[1..][i - 1];
        }
      }
    }
  }

  /** `get_all_positions`: keeps the rows that parse, in order. */
  method GetAllPositions(connected: bool, ps: seq<BrokerPosition>) returns (r: Result<seq<Position>, ClientError>)
    ensures !connected ==> r == Err(NotConnected)
    ensures connected ==> r == Ok(ParseAll(ps))
  {
    if !connected {
      return Err(NotConnected);
    }
    var result: seq<Position> := [];
    for i := 0 to |ps|
      invariant result == ParseAll(ps[..i])
    {
      var p := ps[i];
      match ParsePosition(p) {
        case Some(q) => result := result + [q];
        case None =>
      }
      assert ps[..i + 1] == ps[..i] + [p];
      ParseAllAppend(ps[..i], [p]);
    }
    assert ps[..|ps|] == ps;
    r := Ok(result);
  }

  /**
   * Sum of `int(position)` over the rows whose symbol matches case-insensitively,
   * scanned from the front; None when a matching row's position cannot be converted.
   */
  function PositionTotal(ps: seq<BrokerPosition>, symbol: string): Option<int>
    decreases |ps|
  {
    if ps == [] then Some(0)
    else
      var last := ps[|ps| - 1];
      match PositionTotal(ps[..|ps| - 1], symbol)
      case None => None
      case Some(t) =>
        if !SameSymbol(last.symbol, symbol) then Some(t)
        else match last.position
             case None => None
             case Some(v) => Some(t + Trunc(v))
  }

  /** No matching row: the total is 0. */
  lemma {:induction false} PositionTotalNoMatch(ps: seq<BrokerPosition>, symbol: string)
    requires forall i :: 0 <= i < |ps| ==> !SameSymbol(ps[i].symbol, symbol)
    ensures PositionTotal(ps, symbol) == Some(0)
  {
    if ps != [] {
      PositionTotalNoMatch(ps[..|ps| - 1], symbol);
    }
  }

  /** The total depends on the symbol only up to upper-casing. */
  lemma {:induction false} PositionTotalIgnoresCase(ps: seq<BrokerPosition>, a: string, b: string)
    requires Upper(a) == Upper(b)
    ensures PositionTotal(ps, a) == PositionTotal(ps, b)
  {
    if ps != [] {
      PositionTotalIgnoresCase(ps[..|ps| - 1], a, b);
    }
  }

  /** Once a prefix has failed, the whole scan fails. */
  lemma {:induction false} PositionTotalFailureSticks(ps: seq<BrokerPosition>, symbol: string, k: nat)
    requires k <= |ps| && PositionTotal(ps[..k], symbol).None?
    ensures PositionTotal(ps, symbol).None?
    decreases |ps| - k
  {
    if k < |ps| {
      assert ps[..k + 1][..k] == ps[..k];
      PositionTotalFailureSticks(ps, symbol, k + 1);
    } else {
      assert ps[..k] == ps;
    }
  }

  /** `get_position`: accumulates the matching rows, 0 when there are none. */
  method GetPosition(connected: bool, ps: seq<BrokerPosition>, symbol: string) returns (r: Result<int, ClientError>)
    ensures !connected ==> r == Err(NotConnected)
    ensures connected ==> r == match PositionTotal(ps, symbol)
                              case Some(t) => Ok(t)
                              case None => Err(UnreadablePosition)
  {
    if !connected {
      return Err(NotConnected);
    }
    var totalQty := 0;
    for i := 0 to |ps|
      invariant PositionTotal(ps[..i], symbol) == Some(totalQty)
    {
      var p := ps[i];
      assert ps[..i + 1][..i] == ps[..i];
      if Upper(p.symbol) == Upper(symbol) {
        match p.position {
          case None =>
            PositionTotalFailureSticks(ps, symbol, i + 1);
            return Err(UnreadablePosition);
          case Some(v) =>
            totalQty := totalQty + Trunc(v);
        }
      }
    }
    assert ps[..|ps|] == ps;
    r := Ok(totalQty);
  }

  // ---------------------------------------------------------------- prices

  predicate ValidPrice(p: Option<real>) {
    p.Some? && p.value > 0.0
  }

  /** The head of the candidates that are present and strictly positive. */
  function FirstValidPrice(cs: seq<Option<real>>): (r: Option<real>)
    ensures r.Some? ==> r.value > 0.0 && exists i :: 0 <= i < |cs| && cs[i] == r && forall j :: 0 <= j < i ==> !ValidPrice(cs[j])
    ensures r.None? <==> forall i :: 0 <= i < |cs| ==> !ValidPrice(cs[i])
  {
    if cs == [] then None
    else if ValidPrice(cs[0]) then cs[0]
    else
      var r := FirstValidPrice(cs[1..]);
      assert forall j :: 1 <= j < |cs| ==> cs[j] == cs[1..][j - 1];
      r
  }

  function Candidates(t: Ticker): seq<Option<real>> {
    [t.last, t.close, t.marketPrice]
  }

  /** `get_last_price`: a failed market-data request propagates. */
  function GetLastPrice(connected: bool, md: MarketData): (r: Result<Option<real>, ClientError>)
    ensures !connected ==> r == Err(NotConnected)
    ensures connected && md.RequestFailed? ==> r == Err(MarketDataFailed)
    ensures connected && md.Quote? ==> r == Ok(FirstValidPrice(Candidates(md.ticker)))
    ensures r.Ok? ==> md.Quote?
  {
    if !connected then Err(NotConnected)
    else match md
         case RequestFailed => Err(MarketDataFailed)
         case Quote(t) => Ok(FirstValidPrice(Candidates(t)))
  }

  /** `get_last_price_ibkr_only`: a failed request yields no price instead of raising. */
  function GetLastPriceIbkrOnly(connected: bool, md: MarketData): (r: Result<Option<real>, ClientError>)
    ensures !connected <==> r.Err?
    ensures r.Err? ==> r.error == NotConnected
    ensures connected && md.RequestFailed? ==> r == Ok(None)
    ensures connected && md.Quote? ==> r == Ok(FirstValidPrice(Candidates(md.ticker)))
  {
    if !connected then Err(NotConnected)
    else match md
         case RequestFailed => Ok(None)
         case Quote(t) => Ok(FirstValidPrice(Candidates(t)))
  }

  /** The preference order: `last` wins whenever it is valid, `close` only when `last` is not. */
  lemma PricePreference(t: Ticker)
    ensures ValidPrice(t.last) ==> FirstValidPrice(Candidates(t)) == t.last
    ensures !ValidPrice(t.last) && ValidPrice(t.close) ==> FirstValidPrice(Candidates(t)) == t.close
    ensures !ValidPrice(t.last) && !ValidPrice(t.close) ==> FirstValidPrice(Candidates(t)) == (if ValidPrice(t.marketPrice) then t.marketPrice else None)
  {
    var cs := Candidates(t);
    assert cs[0] == t.last && cs[1] == t.close && cs[2] == t.marketPrice;
  }

  // ---------------------------------------------------------------- orders

  /** `send_market_order`: the quantity guard comes before side validation. */
  function SendMarketOrder(connected: bool, side: string, quantity: int): (r: Result<OrderOutcome, ClientError>)
    ensures !connected ==> r == Err(NotConnected)
    ensures connected && quantity <= 0 ==> r == Ok(NoOrder)
    ensures connected && quantity > 0 ==> (r.Err? <==> Upper(side) != "BUY" && Upper(side) != "SELL")
    ensures connected && quantity > 0 && (Upper(side) == "BUY" || Upper(side) == "SELL") ==> r == Ok(Placed(Upper(side), quantity))
    ensures r.Err? ==> r.error == NotConnected || r.error == InvalidSide
    ensures r.Ok? && r.value.Placed? ==> connected && r.value.qty == quantity > 0
                                         && r.value.side == Upper(side) && (r.value.side == "BUY" || r.value.side == "SELL")
  {
    if !connected then Err(NotConnected)
    else if quantity <= 0 then Ok(NoOrder)
    else
      var s := Upper(side);
      if s != "BUY" && s != "SELL" then Err(InvalidSide)
      else Ok(Placed(s, quantity))
  }

  /** The side is case-folded before it is checked: "sell" places a SELL, "hold" is refused. */
  lemma SendMarketOrderFoldsSide()
    ensures SendMarketOrder(true, "sell", 7) == Ok(Placed("SELL", 7))
    ensures SendMarketOrder(true, "hold", 7) == Err(InvalidSide)
  {
    assert Upper("sell") == "SELL";
    assert Upper("hold")[0] == 'H';
  }
}
