/**
 * Position sizing: the quantity that puts the per-trade risk budget at the
 * stop, clamped to the per-instrument exposure cap. Floors only, never rounds up.
 */
module Sizing {
  import opened Config

  /** Money at risk in one trade. */
  function RiskAmount(equity: real): real {
    equity * RiskPerTrade
  }

  /** Money the exposure cap allows in one instrument. */
  function ExposureCap(equity: real): real {
    equity * MaxPositionExposure
  }

  /** floor(risk amount / risk per share). */
  function RawQty(equity: real, price: real, stopPct: real): int
    requires price > 0.0 && stopPct > 0.0
  {
    (RiskAmount(equity) / (price * stopPct)).Floor
  }

  /** The raw quantity, cut down to floor(cap / price) when its capital exceeds the cap. */
  function CappedQty(equity: real, price: real, raw: int): int
    requires price > 0.0
  {
    if raw as real * price > ExposureCap(equity) then (ExposureCap(equity) / price).Floor else raw
  }

  /** The size the sizer settles on. */
  function OrderQty(equity: real, price: real, stopPct: real): int
    requires price > 0.0 && stopPct > 0.0
  {
    CappedQty(equity, price, RawQty(equity, price, stopPct))
  }

  /** Multiplying by a non-negative factor keeps the order. */
  lemma MulMonotoneNonNeg(x: real, y: real, d: real)
    requires x <= y && d >= 0.0
    ensures x * d <= y * d
  {
  }

  /** Multiplying by a positive factor keeps the strict order. */
  lemma MulStrict(x: real, y: real, d: real)
    requires x < y && d > 0.0
    ensures x * d < y * d
  {
  }

  /** A value equal to x * d lies below y * d when x < y and d > 0. */
  lemma MulStrictFrom(a: real, x: real, y: real, d: real)
    requires x < y && d > 0.0 && a == x * d
    ensures a < y * d
  {
    MulStrict(x, y, d);
  }

  /** A positive factor can be cancelled from a strict order, here one through a middle value. */
  lemma MulCancel(x: real, y: real, d: real, m: real)
    requires d > 0.0 && x * d <= m < y * d
    ensures x < y
  {
  }

  /** floor(a / d) * d <= a < (floor(a / d) + 1) * d for d > 0. */
  lemma FloorDivBounds(a: real, d: real)
    requires d > 0.0
    ensures (a / d).Floor as real * d <= a < ((a / d).Floor as real + 1.0) * d
  {
    var q := a / d;
    assert q * d == a;
    var f := q.Floor as real;
    assert f <= q < f + 1.0;
    MulMonotoneNonNeg(f, q, d);
    MulStrictFrom(a, q, f + 1.0, d);
  }

  /** The raw size is the largest whole number of shares whose risk at the stop fits the risk budget. */
  lemma RawQtyBounds(equity: real, price: real, stopPct: real)
    requires price > 0.0 && stopPct > 0.0
    ensures RawQty(equity, price, stopPct) as real * price * stopPct <= RiskAmount(equity)
    ensures RiskAmount(equity) < (RawQty(equity, price, stopPct) as real + 1.0) * (price * stopPct)
  {
    var raw := RawQty(equity, price, stopPct) as real;
    MulStrict(0.0, price, stopPct);
    FloorDivBounds(RiskAmount(equity), price * stopPct);
    assert raw * price * stopPct == raw * (price * stopPct);
  }

  /** The clamp never grows the size, always fits the cap, and only cuts to the largest size that fits it. */
  lemma CappedQtyBounds(equity: real, price: real, raw: int)
    requires price > 0.0
    ensures CappedQty(equity, price, raw) <= raw
    ensures raw as real * price <= ExposureCap(equity) ==> CappedQty(equity, price, raw) == raw
    ensures CappedQty(equity, price, raw) as real * price <= ExposureCap(equity)
    ensures raw as real * price > ExposureCap(equity) ==>
              ExposureCap(equity) < (CappedQty(equity, price, raw) as real + 1.0) * price
  {
    if raw as real * price > ExposureCap(equity) {
      var c := (ExposureCap(equity) / price).Floor;
      FloorDivBounds(ExposureCap(equity), price);
      if c > raw {
        MulMonotoneNonNeg(raw as real, c as real, price);
        assert false;
      }
    }
  }

  /** The size stays within both budgets and never exceeds the raw size. */
  lemma SizeWithinBudgets(equity: real, price: real, stopPct: real)
    requires price > 0.0 && stopPct > 0.0
    ensures var q := OrderQty(equity, price, stopPct);
            q <= RawQty(equity, price, stopPct)
            && q as real * price <= ExposureCap(equity)
            && q as real * price * stopPct <= RiskAmount(equity)
  {
    var raw := RawQty(equity, price, stopPct);
    var q := OrderQty(equity, price, stopPct);
    RawQtyBounds(equity, price, stopPct);
    CappedQtyBounds(equity, price, raw);
    MulMonotoneNonNeg(q as real, raw as real, price);
    MulMonotoneNonNeg(q as real * price, raw as real * price, stopPct);
  }

  /** At least one share, within the exposure cap, and within the risk budget at the stop. */
  predicate SizedWithin(equity: real, price: real, stopPct: real, qty: int) {
    && qty >= 1
    && qty as real * price <= equity * MaxPositionExposure
    && qty as real * price * stopPct <= equity * RiskPerTrade
  }

  /** A size of at least one share is within both budgets and needs a positive equity. */
  lemma PositiveSizeWithin(equity: real, price: real, stopPct: real)
    requires price > 0.0 && stopPct > 0.0
    requires OrderQty(equity, price, stopPct) >= 1
    ensures SizedWithin(equity, price, stopPct, OrderQty(equity, price, stopPct))
    ensures equity > 0.0
  {
    SizeWithinBudgets(equity, price, stopPct);
    PositiveSizeNeedsEquity(equity, price, stopPct);
  }

  /** A size of at least one share needs a positive equity. */
  lemma PositiveSizeNeedsEquity(equity: real, price: real, stopPct: real)
    requires price > 0.0 && stopPct > 0.0
    requires OrderQty(equity, price, stopPct) >= 1
    ensures equity > 0.0
  {
    var q := OrderQty(equity, price, stopPct);
    SizeWithinBudgets(equity, price, stopPct);
    assert q as real * price * stopPct == q as real * (price * stopPct);
    MulMonotoneNonNeg(1.0, q as real, price * stopPct);
  }

  /** No larger integer than the raw size fits the risk budget at the stop. */
  lemma RawQtyIsGreatest(equity: real, price: real, stopPct: real, k: int)
    requires price > 0.0 && stopPct > 0.0
    requires k as real * price * stopPct <= RiskAmount(equity)
    ensures k <= RawQty(equity, price, stopPct)
  {
    var raw := RawQty(equity, price, stopPct);
    var d := price * stopPct;
    assert k as real * price * stopPct == k as real * d;
    MulStrict(0.0, price, stopPct);
    assert raw == (RiskAmount(equity) / d).Floor;
    FloorDivBounds(RiskAmount(equity), d);
    MulCancel(k as real, raw as real + 1.0, d, RiskAmount(equity));
  }

  /** No larger integer than the clamped size fits the exposure cap, short of the raw size. */
  lemma CappedQtyIsGreatest(equity: real, price: real, raw: int, k: int)
    requires price > 0.0
    requires k <= raw && k as real * price <= ExposureCap(equity)
    ensures k <= CappedQty(equity, price, raw)
  {
    if raw as real * price > ExposureCap(equity) {
      var c := (ExposureCap(equity) / price).Floor;
      FloorDivBounds(ExposureCap(equity), price);
      MulCancel(k as real, c as real + 1.0, price, ExposureCap(equity));
    }
  }

  /** No larger integer fits both budgets: the size is the greatest admissible one. */
  lemma SizeIsGreatest(equity: real, price: real, stopPct: real, k: int)
    requires price > 0.0 && stopPct > 0.0
    requires k as real * price <= ExposureCap(equity)
    requires k as real * price * stopPct <= RiskAmount(equity)
    ensures k <= OrderQty(equity, price, stopPct)
  {
    RawQtyIsGreatest(equity, price, stopPct, k);
    CappedQtyIsGreatest(equity, price, RawQty(equity, price, stopPct), k);
  }

  /** The widest stop the stop policy chooses (6 % base widened by 1.2). */
  const WidestStop: real := 0.072

  /**
   * Whatever fits the exposure cap also fits the risk budget at any stop up to
   * the widest: 8 % of equity at 7.2 % is 0.576 % of equity, under the 1 %.
   */
  lemma CapFitsRisk(equity: real, price: real, stopPct: real, k: int)
    requires price > 0.0 && 0.0 < stopPct <= WidestStop
    requires k >= 0 && k as real * price <= ExposureCap(equity)
    ensures k as real * price * stopPct <= RiskAmount(equity)
  {
    var capital := k as real * price;
    assert capital >= 0.0;
    MulMonotoneNonNeg(capital, ExposureCap(equity), stopPct);
    MulMonotoneNonNeg(stopPct, WidestStop, ExposureCap(equity));
    assert ExposureCap(equity) * WidestStop <= RiskAmount(equity);
  }

  /**
   * For a non-negative equity and any stop the policy can choose, the exposure
   * cap always binds: the size is floor(cap / price), whatever the stop.
   */
  lemma OrderQtyIsCapFloor(equity: real, price: real, stopPct: real)
    requires equity >= 0.0 && price > 0.0 && 0.0 < stopPct <= WidestStop
    ensures OrderQty(equity, price, stopPct) == (ExposureCap(equity) / price).Floor
  {
    var f := (ExposureCap(equity) / price).Floor;
    FloorDivBounds(ExposureCap(equity), price);
    MulCancel(0.0, f as real + 1.0, price, ExposureCap(equity));
    CapFitsRisk(equity, price, stopPct, f);
    SizeIsGreatest(equity, price, stopPct, f);
    var q := OrderQty(equity, price, stopPct);
    SizeWithinBudgets(equity, price, stopPct);
    MulCancel(q as real, f as real + 1.0, price, ExposureCap(equity));
  }

  /** Equity 100000, price 50, stop 3 %: the raw size 666 is clamped to 160 shares (8000 of capital). */
  lemma SizingExample()
    ensures RawQty(100000.0, 50.0, 0.03) == 666
    ensures OrderQty(100000.0, 50.0, 0.03) == 160
  {
    assert RiskAmount(100000.0) / (50.0 * 0.03) == 666.0 + 2.0 / 3.0;
    assert ExposureCap(100000.0) / 50.0 == 160.0;
  }
}
