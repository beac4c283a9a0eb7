/** The records exchanged by the backtest engine and the metrics calculator. */
module BacktestTypes {
  import opened Common

  datatype Bar = Bar(close: real, high: real, low: real)

  type Positive = n: int | n > 0 witness 1

  /** A price one can divide by. */
  type Price = r: real | r != 0.0 witness 1.0

  datatype ExitReason = StopHit | TargetHit

  datatype OpenTrade = OpenTrade(
    side: Side, entryPrice: Price, stopLoss: real, target: real, quantity: Positive, entryIdx: nat)

  datatype Trade = Trade(
    entry: OpenTrade, exitPrice: real, exitReason: ExitReason, exitIdx: nat,
    grossPnl: real, netPnl: real, returnPct: real)

  /** Gross profit over gross loss, infinite without losses. */
  datatype ProfitFactor = Infinite | Ratio(value: real)

  datatype BacktestResult = BacktestResult(
    totalReturnPct: real,
    maxDrawdownPct: real,
    winRatePct: real,
    profitFactor: ProfitFactor,
    totalTrades: nat,
    avgTradeReturnPct: real,
    avgWinPct: real,
    avgLossPct: real,
    maxConsecutiveWins: nat,
    maxConsecutiveLosses: nat,
    trades: seq<Trade>,
    equityCurve: seq<real>)

  function NetPnls(trades: seq<Trade>): (s: seq<real>)
    ensures |s| == |trades| && forall k :: 0 <= k < |s| ==> s[k] == trades[k].netPnl
  {
    seq(|trades|, k requires 0 <= k < |trades| => trades[k].netPnl)
  }

  function Returns(trades: seq<Trade>): (s: seq<real>)
    ensures |s| == |trades| && forall k :: 0 <= k < |s| ==> s[k] == trades[k].returnPct
  {
    seq(|trades|, k requires 0 <= k < |trades| => trades[k].returnPct)
  }
}
