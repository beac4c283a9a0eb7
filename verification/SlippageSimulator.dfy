/** `SlippageCostSimulator.calculate_futures_cost`: the all-in cost charged for a futures trade. */
module SlippageSimulator {
  import opened Common

  datatype BrokerageConfig = BrokerageConfig(
    futuresBrokerageFlat: real,
    sttFuturesPct: real,
    nseTxnChargePct: real,
    sebiChargePct: real,
    gstPct: real,
    stampDutyPct: real,
    marketImpactBps: real)

  const DEFAULT_BROKERAGE := BrokerageConfig(20.0, 0.0001, 0.000195, 0.000001, 0.18, 0.00003, 2.0)

  datatype FuturesCost = FuturesCost(
    notional: real,
    brokerage: real,
    gst: real,
    stt: real,
    nseCharge: real,
    sebi: real,
    stampDuty: real,
    slippage: real,
    totalCost: real,
    costBps: real,
    costPerLot: real,
    breakevenMovePts: real)

  /** Raises when the notional is zero: both the per-lot and the basis-point figures divide. */
  function CalculateFuturesCost(c: BrokerageConfig, entryPrice: real, quantity: int, lotSize: int): Result<FuturesCost>
  {
    var notional := entryPrice * quantity as real;
    var brokerage := c.futuresBrokerageFlat + c.futuresBrokerageFlat;
    var gst := brokerage * c.gstPct;
    var stt := notional * c.sttFuturesPct;
    var nse := notional * c.nseTxnChargePct * 2.0;
    var sebi := notional * c.sebiChargePct * 2.0;
    var stamp := notional * c.stampDutyPct;
    var slippage := notional * (c.marketImpactBps / 10000.0);
    var total := brokerage + gst + stt + nse + sebi + stamp + slippage;
    if quantity == 0 || notional == 0.0 then Raised else
      var perLot := if lotSize != 0 then total / (quantity as real / lotSize as real) else total;
      Ok(FuturesCost(notional, brokerage, gst, stt, nse, sebi, stamp, slippage,
                     total, total / notional * 10000.0, perLot, total / quantity as real))
  }

  /** The part of the cost that does not depend on the traded notional. */
  function FixedCost(c: BrokerageConfig): real {
    2.0 * c.futuresBrokerageFlat * (1.0 + c.gstPct)
  }

  /** The cost of one rupee of notional. */
  function CostRate(c: BrokerageConfig): real {
    c.sttFuturesPct + 2.0 * c.nseTxnChargePct + 2.0 * c.sebiChargePct + c.stampDutyPct + c.marketImpactBps / 10000.0
  }

  lemma {:induction false} NonzeroProduct(a: real, b: real)
    requires a != 0.0 && b != 0.0
    ensures a * b != 0.0
  {
  }

  lemma {:induction false} FiveTerms(n: real, a: real, b: real, c: real, d: real, e: real)
    ensures n * a + n * b + n * c + n * d + n * e == (a + b + c + d + e) * n
  {
  }

  /** The total cost is affine in the notional: a fixed brokerage-plus-tax part and one rate. */
  lemma {:induction false} CostIsAffine(c: BrokerageConfig, entryPrice: real, quantity: int, lotSize: int)
    requires entryPrice != 0.0 && quantity != 0
    ensures CalculateFuturesCost(c, entryPrice, quantity, lotSize).Ok?
    ensures var cost := CalculateFuturesCost(c, entryPrice, quantity, lotSize).value;
            cost.totalCost == FixedCost(c) + CostRate(c) * (entryPrice * quantity as real)
  {
    var notional := entryPrice * quantity as real;
    NonzeroProduct(entryPrice, quantity as real);
    FiveTerms(notional, c.sttFuturesPct, c.nseTxnChargePct * 2.0, c.sebiChargePct * 2.0, c.stampDutyPct,
              c.marketImpactBps / 10000.0);
  }

  lemma {:induction false} QuotientTimes(x: real, d: real)
    requires d != 0.0
    ensures x / d * d == x
  {
  }

  lemma {:induction false} PartRates(c: BrokerageConfig, n: real)
    ensures n * c.nseTxnChargePct * 2.0 == 2.0 * (c.nseTxnChargePct * n)
    ensures n * c.sebiChargePct * 2.0 == 2.0 * (c.sebiChargePct * n)
    ensures n * (c.marketImpactBps / 10000.0) * 10000.0 == c.marketImpactBps * n
  {
    var bps := c.marketImpactBps / 10000.0;
    assert n * bps * 10000.0 == n * (bps * 10000.0);
  }

  /** Each part is its rate of the notional, on both legs for the exchange's and the regulator's
      charge and for the brokerage; the parts add up to the total, and each derived ratio recovers it: the per-lot cost over the
      number of lots, the basis points over the notional, and the breakeven move over the units. */
  lemma {:induction false} CostPartsRecoverTotal(c: BrokerageConfig, entryPrice: real, quantity: int, lotSize: int)
    requires entryPrice != 0.0 && quantity != 0 && lotSize != 0
    ensures CalculateFuturesCost(c, entryPrice, quantity, lotSize).Ok?
    ensures var cost := CalculateFuturesCost(c, entryPrice, quantity, lotSize).value;
            var notional := entryPrice * quantity as real;
            && cost.notional == notional
            && cost.brokerage == 2.0 * c.futuresBrokerageFlat && cost.gst == c.gstPct * cost.brokerage
            && cost.stt == c.sttFuturesPct * notional && cost.stampDuty == c.stampDutyPct * notional
            && cost.nseCharge == 2.0 * (c.nseTxnChargePct * notional) && cost.sebi == 2.0 * (c.sebiChargePct * notional)
            && cost.slippage * 10000.0 == c.marketImpactBps * notional
            && cost.brokerage + cost.gst + cost.stt + cost.nseCharge + cost.sebi + cost.stampDuty + cost.slippage
               == cost.totalCost
            && cost.costPerLot * (quantity as real / lotSize as real) == cost.totalCost
            && cost.costBps * cost.notional == cost.totalCost * 10000.0
            && cost.breakevenMovePts * quantity as real == cost.totalCost
  {
    NonzeroProduct(entryPrice, quantity as real);
    var cost := CalculateFuturesCost(c, entryPrice, quantity, lotSize).value;
    var lots := quantity as real / lotSize as real;
    assert lots * lotSize as real == quantity as real;
    PartRates(c, entryPrice * quantity as real);
    QuotientTimes(cost.totalCost, lots);
    QuotientTimes(cost.totalCost, cost.notional);
    QuotientTimes(cost.totalCost, quantity as real);
  }

  lemma {:induction false} CompareQuotient(m: real, t: real, q: real)
    requires q > 0.0
    ensures m * q > t <==> m > t / q
  {
    var x := t / q;
    assert x * q == t;
    if m > x { assert (m - x) * q > 0.0; } else { ScaleLe(m, x, q); }
  }

  /** The breakeven move is exact: a favourable move earns more than the cost iff it exceeds it. */
  lemma {:induction false} BreakevenIsExact(c: BrokerageConfig, entryPrice: real, quantity: int, lotSize: int,
      move: real)
    requires entryPrice != 0.0 && quantity > 0
    ensures CalculateFuturesCost(c, entryPrice, quantity, lotSize).Ok?
    ensures var cost := CalculateFuturesCost(c, entryPrice, quantity, lotSize).value;
            move * quantity as real > cost.totalCost <==> move > cost.breakevenMovePts
  {
    CostIsAffine(c, entryPrice, quantity, lotSize);
    var cost := CalculateFuturesCost(c, entryPrice, quantity, lotSize).value;
    CompareQuotient(move, cost.totalCost, quantity as real);
  }
}
