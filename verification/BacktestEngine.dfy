/** `BacktestEngine.run`: a bar-by-bar machine holding at most one open trade. */
module BacktestEngine {
  import opened Common
  import opened BacktestTypes
  import Metrics
  import Slippage = SlippageSimulator

  datatype BacktestConfig = BacktestConfig(
    initialCapital: real, slippageBps: real, lotSize: Positive, positionSizePct: real)

  datatype Signal = Signal(side: Side, stopLoss: real, target: real)

  /** The signal, if any, that the strategy gives at a bar of the frame. */
  type Strategy = (seq<Bar>, nat) -> Option<Signal>

  datatype State = State(capital: real, equity: seq<real>, trades: seq<Trade>, open: Option<OpenTrade>)

  // ---------------------------------------------------------------- one bar

  predicate TouchesStop(o: OpenTrade, bar: Bar) {
    if o.side == Long then bar.low <= o.stopLoss else bar.high >= o.stopLoss
  }

  predicate TouchesTarget(o: OpenTrade, bar: Bar) {
    if o.side == Long then bar.high >= o.target else bar.low <= o.target
  }

  /** Which exit level the bar touches; a bar that touches both counts as a stop. */
  function Touched(o: OpenTrade, bar: Bar): Option<ExitReason> {
    if TouchesStop(o, bar) then Some(StopHit) else if TouchesTarget(o, bar) then Some(TargetHit) else None
  }

  function Level(o: OpenTrade, reason: ExitReason): real {
    if reason == StopHit then o.stopLoss else o.target
  }

  /** The bar ends the trade. `if exit_price:` is a truth test, so a level of exactly zero never does. */
  predicate Exits(o: OpenTrade, bar: Bar) {
    Touched(o, bar).Some? && Level(o, Touched(o, bar).value) != 0.0
  }

  function Brokerage(cfg: BacktestConfig): Slippage.BrokerageConfig {
    Slippage.DEFAULT_BROKERAGE.(marketImpactBps := cfg.slippageBps)
  }

  function CostOf(cfg: BacktestConfig, o: OpenTrade): Slippage.FuturesCost {
    Slippage.CostIsAffine(Brokerage(cfg), o.entryPrice, o.quantity, cfg.lotSize);
    Slippage.CalculateFuturesCost(Brokerage(cfg), o.entryPrice, o.quantity, cfg.lotSize).value
  }

  datatype Figures = Figures(gross: real, net: real, returnPct: real)

  function Settle(cfg: BacktestConfig, o: OpenTrade, exitPrice: real): Figures {
    Slippage.NonzeroProduct(o.entryPrice, o.quantity as real);
    var gross := Multiplier(o.side) * (exitPrice - o.entryPrice) * o.quantity as real;
    var net := gross - CostOf(cfg, o).totalCost;
    Figures(gross, net, net / (o.entryPrice * o.quantity as real) * 100.0)
  }

  function LotsIn(budget: real, close: Price, lotSize: Positive): real {
    budget / close / lotSize as real
  }

  function Budget(cfg: BacktestConfig, capital: real): real { capital * cfg.positionSizePct }

  function LotCount(cfg: BacktestConfig, capital: real, close: Price): int {
    Truncate(LotsIn(Budget(cfg, capital), close, cfg.lotSize))
  }

  function LotQuantity(cfg: BacktestConfig, capital: real, close: Price): Positive {
    var qty := LotCount(cfg, capital, close) * cfg.lotSize;
    if qty > cfg.lotSize then qty else cfg.lotSize
  }

  /** What the bar loop takes from the configuration: the starting capital, the sizing rule and
      the settlement rule. The loop is the same for any such rules. */
  datatype Rules = Rules(
    initialCapital: real,
    size: (real, Price) -> Positive,
    settle: (OpenTrade, real) -> Figures)

  function RulesOf(cfg: BacktestConfig): Rules {
    Rules(cfg.initialCapital,
          (capital, close) => LotQuantity(cfg, capital, close),
          (o, exitPrice) => Settle(cfg, o, exitPrice))
  }

  function Record(m: Rules, o: OpenTrade, reason: ExitReason, i: nat): Trade {
    var fig := m.settle(o, Level(o, reason));
    Trade(o, Level(o, reason), reason, i, fig.gross, fig.net, fig.returnPct)
  }

  function ExitStep(m: Rules, bars: seq<Bar>, i: nat, st: State): State
    requires i < |bars|
  {
    if st.open.Some? && Exits(st.open.value, bars[i]) then
      var t := Record(m, st.open.value, Touched(st.open.value, bars[i]).value, i);
      State(st.capital + t.netPnl, st.equity, st.trades + [t], None)
    else st
  }

  function Enter(m: Rules, s: Signal, close: Price, capital: real, i: nat): OpenTrade
  {
    OpenTrade(s.side, close, s.stopLoss, s.target, m.size(capital, close), i)
  }

  /** A zero close makes the lot computation raise. */
  function EntryStep(m: Rules, f: Strategy, bars: seq<Bar>, i: nat, st: State): Result<State>
    requires i < |bars|
  {
    if st.open.Some? || f(bars, i).None? then Ok(st)
    else if bars[i].close == 0.0 then Raised
    else Ok(st.(open := Some(Enter(m, f(bars, i).value, bars[i].close, st.capital, i))))
  }

  function Step(m: Rules, f: Strategy, bars: seq<Bar>, i: nat, st: State): Result<State>
    requires i < |bars|
  {
    match EntryStep(m, f, bars, i, ExitStep(m, bars, i, st))
    case Raised => Raised
    case Ok(s) => Ok(s.(equity := s.equity + [s.capital]))
  }

  /** State once bars 1 .. n-1 are processed; bar 0 only contributes the initial equity point. */
  function RunTo(m: Rules, f: Strategy, bars: seq<Bar>, n: nat): Result<State>
    requires 1 <= n && (n <= |bars| || n == 1)
  {
    if n == 1 then Ok(State(m.initialCapital, [m.initialCapital], [], None)) else
      match RunTo(m, f, bars, n - 1)
      case Raised => Raised
      case Ok(st) => Step(m, f, bars, n - 1, st)
  }

  function PointCount(bars: seq<Bar>): nat { if bars == [] then 1 else |bars| }

  method ExitLevel(o: OpenTrade, row: Bar) returns (exitPrice: Option<real>, exitReason: ExitReason)
    ensures o.side == Long && row.low <= o.stopLoss ==> exitPrice == Some(o.stopLoss) && exitReason == StopHit
    ensures o.side != Long && row.high >= o.stopLoss ==> exitPrice == Some(o.stopLoss) && exitReason == StopHit
    ensures exitPrice.None? <==> Touched(o, row).None?
    ensures exitPrice.Some? ==> Touched(o, row) == Some(exitReason) && exitPrice.value == Level(o, exitReason)
  {
    exitPrice, exitReason := None, StopHit;
    if o.side == Long {
      if row.low <= o.stopLoss {
        exitPrice := Some(o.stopLoss);
      } else if row.high >= o.target {
        exitPrice, exitReason := Some(o.target), TargetHit;
      }
    } else {
      if row.high >= o.stopLoss {
        exitPrice := Some(o.stopLoss);
      } else if row.low <= o.target {
        exitPrice, exitReason := Some(o.target), TargetHit;
      }
    }
  }

  lemma {:induction false} RaisesForever(m: Rules, f: Strategy, bars: seq<Bar>, i: nat, n: nat)
    requires 1 <= i <= n <= |bars|
    requires RunTo(m, f, bars, i).Raised?
    ensures RunTo(m, f, bars, n).Raised?
  {
    if i == n {
    } else {
      RaisesForever(m, f, bars, i, n - 1);
    }
  }

  method Replay(m: Rules, bars: seq<Bar>, f: Strategy) returns (r: Result<State>)
    ensures r == RunTo(m, f, bars, PointCount(bars))
  {
    var capital := m.initialCapital;
    var equity := [capital];
    var trades: seq<Trade> := [];
    var open: Option<OpenTrade> := None;
    var i := 1;
    while i < |bars|
      invariant 1 <= i <= PointCount(bars)
      invariant RunTo(m, f, bars, i) == Ok(State(capital, equity, trades, open))
    {
      var row := bars[i];
      ghost var before := State(capital, equity, trades, open);
      if open.Some? {
        var o := open.value;
        var exitPrice, exitReason := ExitLevel(o, row);
        if exitPrice.Some? && exitPrice.value != 0.0 {
          var fig := m.settle(o, exitPrice.value);
          capital := capital + fig.net;
          trades := trades + [Trade(o, exitPrice.value, exitReason, i, fig.gross, fig.net, fig.returnPct)];
          open := None;
        }
      }
      ghost var flat := State(capital, equity, trades, open);
      assert flat == ExitStep(m, bars, i, before);
      if open.None? {
        var signal := f(bars, i);
        if signal.Some? {
          if row.close == 0.0 {
            RaisesForever(m, f, bars, i + 1, PointCount(bars));
            return Raised;
          }
          var qty := m.size(capital, row.close);
          open := Some(OpenTrade(
                         signal.value.side, row.close, signal.value.stopLoss, signal.value.target, qty, i));
        }
      }
      assert EntryStep(m, f, bars, i, flat) == Ok(State(capital, equity, trades, open));
      equity := equity + [capital];
      i := i + 1;
    }
    r := Ok(State(capital, equity, trades, open));
  }

  lemma {:induction false} CurveLength(m: Rules, f: Strategy, bars: seq<Bar>, n: nat)
    requires 1 <= n && (n <= |bars| || n == 1)
    requires RunTo(m, f, bars, n).Ok?
    ensures |RunTo(m, f, bars, n).value.equity| == n
  {
    if n == 1 {
    } else {
      CurveLength(m, f, bars, n - 1);
    }
  }

  /** Raises when the bar machine does, and on a run with trades that started without capital. */
  method Run(cfg: BacktestConfig, bars: seq<Bar>, f: Strategy) returns (r: Result<BacktestResult>)
    requires cfg.initialCapital >= 0.0
    ensures var run := RunTo(RulesOf(cfg), f, bars, PointCount(bars));
            && (r.Raised? <==> run.Raised? || (cfg.initialCapital == 0.0 && run.value.trades != []))
            && (r.Ok? ==>
                  if cfg.initialCapital > 0.0 then
                    Metrics.IsReport(r.value, run.value.trades, run.value.equity, cfg.initialCapital)
                  else
                    r.value == Metrics.EmptyReport(run.value.equity))
  {
    var st := Replay(RulesOf(cfg), bars, f);
    if st.Raised? {
      return Raised;
    }
    CurveLength(RulesOf(cfg), f, bars, PointCount(bars));
    r := Metrics.Calculate(st.value.trades, st.value.equity, cfg.initialCapital);
  }

  // ---------------------------------------------------------------- what a run means

  /** Sum of the net results of the trades closed by bar `i`. */
  function RealisedBy(trades: seq<Trade>, i: nat): real
  {
    if trades == [] then 0.0 else
      var last := trades[|trades| - 1];
      RealisedBy(trades[..|trades| - 1], i) + (if last.exitIdx <= i then last.netPnl else 0.0)
  }

  /** The trade was opened by a signal at its entry bar, at that bar's close, sized from the
      equity recorded for that bar. */
  predicate IsEntry(m: Rules, f: Strategy, bars: seq<Bar>, equity: seq<real>, o: OpenTrade) {
    && 1 <= o.entryIdx < |bars|
    && o.entryIdx < |equity|
    && o.entryPrice == bars[o.entryIdx].close
    && f(bars, o.entryIdx) == Some(Signal(o.side, o.stopLoss, o.target))
    && o.quantity == m.size(equity[o.entryIdx], o.entryPrice)
  }

  /** No bar after the entry and before `n` ends the trade. */
  predicate Survives(bars: seq<Bar>, o: OpenTrade, n: nat) {
    n <= |bars| && forall j {:trigger Exits(o, bars[j])} :: o.entryIdx < j < n ==> !Exits(o, bars[j])
  }

  /** The trade was closed at the first bar that ends it, with the result of that bar's level. */
  predicate IsExit(m: Rules, bars: seq<Bar>, t: Trade) {
    && t.entry.entryIdx < t.exitIdx < |bars|
    && Survives(bars, t.entry, t.exitIdx)
    && Exits(t.entry, bars[t.exitIdx])
    && t == Record(m, t.entry, Touched(t.entry, bars[t.exitIdx]).value, t.exitIdx)
  }

  /** Each point of the curve is the initial capital plus everything realised by then. */
  predicate EquityMatches(initial: real, equity: seq<real>, trades: seq<Trade>) {
    forall i :: 0 <= i < |equity| ==> equity[i] == initial + RealisedBy(trades, i)
  }

  predicate TradeFollows(m: Rules, f: Strategy, bars: seq<Bar>, equity: seq<real>, t: Trade) {
    IsEntry(m, f, bars, equity, t.entry) && IsExit(m, bars, t) && t.exitIdx < |equity|
  }

  /** The closed trades have proper entries and exits and do not overlap. */
  predicate TradesFollow(m: Rules, f: Strategy, bars: seq<Bar>, equity: seq<real>, trades: seq<Trade>) {
    && (forall k :: 0 <= k < |trades| ==> TradeFollows(m, f, bars, equity, trades[k]))
    && (forall k, l :: 0 <= k < l < |trades| ==> trades[k].exitIdx <= trades[l].entry.entryIdx)
  }

  /** The trade still open was entered after all closed ones and no bar so far ends it. */
  predicate OpenFollows(m: Rules, f: Strategy, bars: seq<Bar>, equity: seq<real>, trades: seq<Trade>,
                        open: Option<OpenTrade>) {
    open.Some? ==>
      && IsEntry(m, f, bars, equity, open.value)
      && Survives(bars, open.value, |equity|)
      && forall k :: 0 <= k < |trades| ==> trades[k].exitIdx <= open.value.entryIdx
  }

  /** At the end of bar `i` a trade was held. */
  predicate Held(trades: seq<Trade>, open: Option<OpenTrade>, i: nat) {
    || (exists k :: 0 <= k < |trades| && trades[k].entry.entryIdx <= i < trades[k].exitIdx)
    || (open.Some? && open.value.entryIdx <= i)
  }

  /** Whenever no trade was held the strategy gave no signal: none is ever skipped. */
  predicate SilentWhenFlat(f: Strategy, bars: seq<Bar>, n: nat, trades: seq<Trade>, open: Option<OpenTrade>) {
    forall i {:trigger Held(trades, open, i)} :: 1 <= i < n && !Held(trades, open, i) ==> f(bars, i).None?
  }

  /** The ledger of the first `n` bars, stated without reference to the loop. */
  predicate IsLedger(m: Rules, f: Strategy, bars: seq<Bar>, n: nat, st: State) {
    && |st.equity| == n > 0
    && st.capital == st.equity[n - 1]
    && EquityMatches(m.initialCapital, st.equity, st.trades)
    && TradesFollow(m, f, bars, st.equity, st.trades)
    && OpenFollows(m, f, bars, st.equity, st.trades, st.open)
    && SilentWhenFlat(f, bars, n, st.trades, st.open)
  }

  lemma {:induction false} RealisedAfterAll(trades: seq<Trade>, i: nat, j: nat)
    requires i <= j
    requires forall k :: 0 <= k < |trades| ==> trades[k].exitIdx <= i
    ensures RealisedBy(trades, i) == RealisedBy(trades, j)
  {
    if trades == [] {
    } else {
      RealisedAfterAll(trades[..|trades| - 1], i, j);
    }
  }

  lemma {:induction false} RealisedAppend(trades: seq<Trade>, t: Trade, i: nat)
    ensures RealisedBy(trades + [t], i) == RealisedBy(trades, i) + (if t.exitIdx <= i then t.netPnl else 0.0)
  {
    assert (trades + [t])[..|trades|] == trades;
  }

  lemma {:induction false} EquityKept(initial: real, st: State, mid: State, n: nat, equity: seq<real>)
    requires |st.equity| == n > 0 && st.capital == st.equity[n - 1]
    requires EquityMatches(initial, st.equity, st.trades)
    requires forall k :: 0 <= k < |st.trades| ==> st.trades[k].exitIdx < n
    requires || (mid.trades == st.trades && mid.capital == st.capital)
             || exists t: Trade :: t.exitIdx == n && mid.trades == st.trades + [t] && mid.capital == st.capital + t.netPnl
    requires equity == st.equity + [mid.capital]
    ensures EquityMatches(initial, equity, mid.trades)
  {
    RealisedAfterAll(st.trades, n - 1, n);
    if mid.trades != st.trades {
      var t: Trade :| t.exitIdx == n && mid.trades == st.trades + [t] && mid.capital == st.capital + t.netPnl;
      forall i | 0 <= i < |equity|
        ensures equity[i] == initial + RealisedBy(mid.trades, i)
      {
        RealisedAppend(st.trades, t, i);
      }
    }
  }

  /** The exit test of bar `n` keeps the curve, the trades and the silent bars in order. */
  lemma {:induction false} ExitKeepsEquity(m: Rules, f: Strategy, bars: seq<Bar>, n: nat, st: State, equity: seq<real>)
    requires n < |bars| && IsLedger(m, f, bars, n, st)
    requires equity == st.equity + [ExitStep(m, bars, n, st).capital]
    ensures EquityMatches(m.initialCapital, equity, ExitStep(m, bars, n, st).trades)
  {
    var mid := ExitStep(m, bars, n, st);
    if mid.trades != st.trades {
      var t := Record(m, st.open.value, Touched(st.open.value, bars[n]).value, n);
      assert mid.trades == st.trades + [t];
    }
    EquityKept(m.initialCapital, st, mid, n, equity);
  }

  lemma {:induction false} TradesKept(m: Rules, f: Strategy, bars: seq<Bar>, equity: seq<real>,
      longer: seq<real>, trades: seq<Trade>)
    requires equity <= longer && TradesFollow(m, f, bars, equity, trades)
    ensures TradesFollow(m, f, bars, longer, trades)
  {
    forall k | 0 <= k < |trades|
      ensures TradeFollows(m, f, bars, longer, trades[k])
    {
      assert TradeFollows(m, f, bars, equity, trades[k]);
    }
  }

  lemma {:induction false} ExitKeepsTrades(m: Rules, f: Strategy, bars: seq<Bar>, n: nat, st: State, equity: seq<real>)
    requires n < |bars| && IsLedger(m, f, bars, n, st)
    requires |equity| == n + 1 && st.equity <= equity
    ensures var mid := ExitStep(m, bars, n, st);
            && TradesFollow(m, f, bars, equity, mid.trades)
            && OpenFollows(m, f, bars, equity, mid.trades, mid.open)
            && (mid.open.Some? ==> !Exits(mid.open.value, bars[n]))
  {
    TradesKept(m, f, bars, st.equity, equity, st.trades);
    if st.open.Some? && Exits(st.open.value, bars[n]) {
      var t := Record(m, st.open.value, Touched(st.open.value, bars[n]).value, n);
      assert TradeFollows(m, f, bars, equity, t);
    }
  }

  /** Closing the open trade moves its bars from the open trade to the list. */
  lemma {:induction false} HeldMoves(f: Strategy, bars: seq<Bar>, n: nat, st: State, t: Trade)
    requires SilentWhenFlat(f, bars, n, st.trades, st.open)
    requires st.open == Some(t.entry) && t.exitIdx == n
    ensures SilentWhenFlat(f, bars, n, st.trades + [t], None)
  {
    var trades := st.trades + [t];
    forall i | 1 <= i < n && !Held(trades, None, i)
      ensures !Held(st.trades, st.open, i)
    {
      assert trades[|st.trades|] == t;
      assert forall k :: 0 <= k < |st.trades| ==> trades[k] == st.trades[k];
    }
  }

  lemma {:induction false} ExitKeepsSilence(m: Rules, f: Strategy, bars: seq<Bar>, n: nat, st: State)
    requires n < |bars|
    requires SilentWhenFlat(f, bars, n, st.trades, st.open)
    ensures var mid := ExitStep(m, bars, n, st); SilentWhenFlat(f, bars, n, mid.trades, mid.open)
  {
    if st.open.Some? && Exits(st.open.value, bars[n]) {
      HeldMoves(f, bars, n, st, Record(m, st.open.value, Touched(st.open.value, bars[n]).value, n));
    }
  }

  lemma {:induction false} EntryKeepsLedger(m: Rules, f: Strategy, bars: seq<Bar>, n: nat, mid: State,
      equity: seq<real>)
    requires 0 < n < |bars| && |equity| == n + 1 && equity[n] == mid.capital
    requires OpenFollows(m, f, bars, equity, mid.trades, mid.open)
    requires mid.open.Some? ==> !Exits(mid.open.value, bars[n])
    requires TradesFollow(m, f, bars, equity, mid.trades)
    requires SilentWhenFlat(f, bars, n, mid.trades, mid.open)
    requires EntryStep(m, f, bars, n, mid).Ok?
    ensures var open := EntryStep(m, f, bars, n, mid).value.open;
            OpenFollows(m, f, bars, equity, mid.trades, open) && SilentWhenFlat(f, bars, n + 1, mid.trades, open)
  {
    var open := EntryStep(m, f, bars, n, mid).value.open;
    forall i | 1 <= i <= n && !Held(mid.trades, open, i)
      ensures f(bars, i).None?
    {
      if i < n {
        assert !Held(mid.trades, mid.open, i);
      }
    }
  }

  /** Processing bar `n` keeps the ledger. */
  lemma {:induction false} StepKeepsLedger(m: Rules, f: Strategy, bars: seq<Bar>, n: nat, st: State)
    requires n < |bars| && IsLedger(m, f, bars, n, st)
    requires Step(m, f, bars, n, st).Ok?
    ensures IsLedger(m, f, bars, n + 1, Step(m, f, bars, n, st).value)
  {
    var mid := ExitStep(m, bars, n, st);
    var st' := Step(m, f, bars, n, st).value;
    assert st' == mid.(open := EntryStep(m, f, bars, n, mid).value.open, equity := st.equity + [mid.capital]);
    ExitKeepsEquity(m, f, bars, n, st, st'.equity);
    ExitKeepsTrades(m, f, bars, n, st, st'.equity);
    ExitKeepsSilence(m, f, bars, n, st);
    EntryKeepsLedger(m, f, bars, n, mid, st'.equity);
  }

  /** Every completed run is a ledger. */
  lemma {:induction false} RunIsLedger(m: Rules, f: Strategy, bars: seq<Bar>, n: nat)
    requires 1 <= n && (n <= |bars| || n == 1)
    requires RunTo(m, f, bars, n).Ok?
    ensures IsLedger(m, f, bars, n, RunTo(m, f, bars, n).value)
  {
    if n == 1 {
    } else {
      RunIsLedger(m, f, bars, n - 1);
      StepKeepsLedger(m, f, bars, n - 1, RunTo(m, f, bars, n - 1).value);
    }
  }

  // ---------------------------------------------------------------- only the run is a ledger

  predicate ClosesAt(st: State, i: nat) {
    st.trades != [] && st.trades[|st.trades| - 1].exitIdx == i
  }

  predicate OpensAt(st: State, i: nat) {
    st.open.Some? && st.open.value.entryIdx == i
  }

  /** The ledger with its last bar `i` undone. */
  function Rewind(st: State, i: nat): State
    requires |st.equity| == i + 1 && i > 0
  {
    var equity := st.equity[..i];
    if ClosesAt(st, i) then
      var last := |st.trades| - 1;
      State(equity[i - 1], equity, st.trades[..last], Some(st.trades[last].entry))
    else
      State(equity[i - 1], equity, st.trades, if OpensAt(st, i) then None else st.open)
  }

  lemma {:induction false} RewindEquity(initial: real, n: nat, st: State)
    requires |st.equity| == n + 1 && n > 0 && st.capital == st.equity[n]
    requires EquityMatches(initial, st.equity, st.trades)
    requires forall k :: 0 <= k < |Rewind(st, n).trades| ==> st.trades[k].exitIdx < n
    ensures var p := Rewind(st, n);
            && EquityMatches(initial, p.equity, p.trades)
            && st.capital == p.capital + (if ClosesAt(st, n) then st.trades[|st.trades| - 1].netPnl else 0.0)
  {
    var p := Rewind(st, n);
    if ClosesAt(st, n) {
      var last := st.trades[|st.trades| - 1];
      assert st.trades == p.trades + [last];
      forall i | 0 <= i <= n
        ensures st.equity[i] == initial + RealisedBy(p.trades, i) + (if i == n then last.netPnl else 0.0)
      {
        RealisedAppend(p.trades, last, i);
      }
    }
    RealisedAfterAll(p.trades, n - 1, n);
  }

  lemma {:induction false} RewindExits(m: Rules, f: Strategy, bars: seq<Bar>, n: nat, st: State)
    requires |st.equity| == n + 1 && n > 0
    requires TradesFollow(m, f, bars, st.equity, st.trades)
    ensures forall k :: 0 <= k < |Rewind(st, n).trades| ==> st.trades[k].exitIdx < n
  {
    forall k | 0 <= k < |Rewind(st, n).trades|
      ensures st.trades[k].exitIdx < n
    {
      var last := st.trades[|st.trades| - 1];
      assert TradeFollows(m, f, bars, st.equity, last);
    }
  }

  lemma {:induction false} RewindTrades(m: Rules, f: Strategy, bars: seq<Bar>, n: nat, st: State)
    requires 0 < n < |bars| && IsLedger(m, f, bars, n + 1, st)
    ensures TradesFollow(m, f, bars, Rewind(st, n).equity, Rewind(st, n).trades)
  {
    var p := Rewind(st, n);
    RewindExits(m, f, bars, n, st);
    forall k {:trigger TradeFollows(m, f, bars, p.equity, p.trades[k])} | 0 <= k < |p.trades|
      ensures TradeFollows(m, f, bars, p.equity, p.trades[k])
    {
      assert TradeFollows(m, f, bars, st.equity, st.trades[k]);
    }
  }

  lemma {:induction false} RewindOpen(m: Rules, f: Strategy, bars: seq<Bar>, n: nat, st: State)
    requires 0 < n < |bars| && IsLedger(m, f, bars, n + 1, st)
    ensures OpenFollows(m, f, bars, Rewind(st, n).equity, Rewind(st, n).trades, Rewind(st, n).open)
  {
    if ClosesAt(st, n) {
      assert TradeFollows(m, f, bars, st.equity, st.trades[|st.trades| - 1]);
    }
  }

  lemma {:induction false} RewindSilence(f: Strategy, bars: seq<Bar>, n: nat, st: State)
    requires |st.equity| == n + 1 && n > 0
    requires SilentWhenFlat(f, bars, n + 1, st.trades, st.open)
    requires ClosesAt(st, n) && st.open.Some? ==> OpensAt(st, n)
    ensures var p := Rewind(st, n); SilentWhenFlat(f, bars, n, p.trades, p.open)
  {
    var p := Rewind(st, n);
    forall i | 1 <= i < n && !Held(p.trades, p.open, i)
      ensures !Held(st.trades, st.open, i)
    {
      assert forall k :: 0 <= k < |p.trades| ==> p.trades[k] == st.trades[k];
    }
  }

  lemma {:induction false} ExitRedone(m: Rules, bars: seq<Bar>, n: nat, st: State)
    requires |st.equity| == n + 1 && 0 < n < |bars|
    requires ClosesAt(st, n) ==> IsExit(m, bars, st.trades[|st.trades| - 1])
    requires ClosesAt(st, n) && st.open.Some? ==> OpensAt(st, n)
    requires st.open.Some? && !OpensAt(st, n) ==> !Exits(st.open.value, bars[n])
    requires st.capital == Rewind(st, n).capital + (if ClosesAt(st, n) then st.trades[|st.trades| - 1].netPnl else 0.0)
    ensures var mid := ExitStep(m, bars, n, Rewind(st, n));
            && mid.trades == st.trades && mid.capital == st.capital
            && mid.open == (if OpensAt(st, n) then None else st.open)
  {
    if ClosesAt(st, n) {
      assert st.trades == Rewind(st, n).trades + [st.trades[|st.trades| - 1]];
    }
  }

  lemma {:induction false} RewindExitFacts(m: Rules, f: Strategy, bars: seq<Bar>, n: nat, st: State)
    requires 0 < n < |bars| && IsLedger(m, f, bars, n + 1, st)
    ensures ClosesAt(st, n) ==> IsExit(m, bars, st.trades[|st.trades| - 1])
    ensures ClosesAt(st, n) && st.open.Some? ==> OpensAt(st, n)
    ensures st.open.Some? && !OpensAt(st, n) ==> !Exits(st.open.value, bars[n])
    ensures st.open.None? ==> f(bars, n).None?
  {
    assert forall k :: 0 <= k < |st.trades| ==> TradeFollows(m, f, bars, st.equity, st.trades[k]);
    assert st.open.None? ==> !Held(st.trades, st.open, n);
  }

  lemma {:induction false} EntryRedone(m: Rules, f: Strategy, bars: seq<Bar>, n: nat, st: State, mid: State)
    requires 0 < n < |bars| && |st.equity| == n + 1 && st.equity[n] == st.capital
    requires mid.capital == st.capital && mid.open == (if OpensAt(st, n) then None else st.open)
    requires st.open.Some? ==> IsEntry(m, f, bars, st.equity, st.open.value)
    requires st.open.None? ==> f(bars, n).None?
    ensures EntryStep(m, f, bars, n, mid) == Ok(mid.(open := st.open))
  {
  }

  lemma {:induction false} StepUndoesRewind(m: Rules, f: Strategy, bars: seq<Bar>, n: nat, st: State)
    requires 0 < n < |bars| && IsLedger(m, f, bars, n + 1, st)
    ensures Step(m, f, bars, n, Rewind(st, n)) == Ok(st)
  {
    RewindExits(m, f, bars, n, st);
    RewindEquity(m.initialCapital, n, st);
    RewindExitFacts(m, f, bars, n, st);
    ExitRedone(m, bars, n, st);
    EntryRedone(m, f, bars, n, st, ExitStep(m, bars, n, Rewind(st, n)));
    assert st.equity == st.equity[..n] + [st.capital];
  }

  lemma {:induction false} RewindIsLedger(m: Rules, f: Strategy, bars: seq<Bar>, n: nat, st: State)
    requires 0 < n < |bars| && IsLedger(m, f, bars, n + 1, st)
    ensures IsLedger(m, f, bars, n, Rewind(st, n))
  {
    RewindExits(m, f, bars, n, st);
    RewindEquity(m.initialCapital, n, st);
    RewindTrades(m, f, bars, n, st);
    RewindOpen(m, f, bars, n, st);
    RewindExitFacts(m, f, bars, n, st);
    RewindSilence(f, bars, n, st);
  }

  lemma {:induction false} FirstLedger(m: Rules, f: Strategy, bars: seq<Bar>, st: State)
    requires IsLedger(m, f, bars, 1, st)
    ensures st == State(m.initialCapital, [m.initialCapital], [], None)
  {
    assert st.equity == [m.initialCapital + RealisedBy(st.trades, 0)];
  }

  lemma {:induction false} RunToNext(m: Rules, f: Strategy, bars: seq<Bar>, n: nat, before: State, after: State)
    requires 1 < n <= |bars|
    requires RunTo(m, f, bars, n - 1) == Ok(before) && Step(m, f, bars, n - 1, before) == Ok(after)
    ensures RunTo(m, f, bars, n) == Ok(after)
  {
  }

  lemma {:induction false} LedgerIsRun(m: Rules, f: Strategy, bars: seq<Bar>, n: nat, st: State)
    requires 1 <= n && (n <= |bars| || n == 1)
    requires IsLedger(m, f, bars, n, st)
    ensures RunTo(m, f, bars, n) == Ok(st)
    decreases n, 1
  {
    if n == 1 {
      FirstLedger(m, f, bars, st);
    } else {
      LedgerRewinds(m, f, bars, n, st);
      RunToNext(m, f, bars, n, Rewind(st, n - 1), st);
    }
  }

  lemma {:induction false} LedgerRewinds(m: Rules, f: Strategy, bars: seq<Bar>, n: nat, st: State)
    requires 1 < n <= |bars|
    requires IsLedger(m, f, bars, n, st)
    ensures RunTo(m, f, bars, n - 1) == Ok(Rewind(st, n - 1))
    ensures Step(m, f, bars, n - 1, Rewind(st, n - 1)) == Ok(st)
    decreases n, 0
  {
    RewindIsLedger(m, f, bars, n - 1, st);
    StepUndoesRewind(m, f, bars, n - 1, st);
    LedgerIsRun(m, f, bars, n - 1, Rewind(st, n - 1));
  }

  /** The declarative ledger characterises the run completely: same equity curve, trades,
      capital and open trade, and a run that raises has no ledger. */
  lemma {:induction false} RunIffLedger(m: Rules, f: Strategy, bars: seq<Bar>, st: State)
    ensures RunTo(m, f, bars, PointCount(bars)) == Ok(st) <==> IsLedger(m, f, bars, PointCount(bars), st)
  {
    var n := PointCount(bars);
    if RunTo(m, f, bars, n) == Ok(st) {
      RunIsLedger(m, f, bars, n);
    }
    if IsLedger(m, f, bars, n, st) {
      LedgerIsRun(m, f, bars, n, st);
    }
  }

  // ---------------------------------------------------------------- no look-ahead

  /** At bar `i` the strategy reads only bars 0 .. i. */
  ghost predicate IsCausal(f: Strategy) {
    forall bars: seq<Bar>, i: nat, k: nat :: i < k <= |bars| ==> f(bars[..k], i) == f(bars, i)
  }

  lemma {:induction false} StepsAlike(m: Rules, f: Strategy, a: seq<Bar>, b: seq<Bar>, i: nat, st: State)
    requires i < |a| && i < |b| && a[i] == b[i] && f(a, i) == f(b, i)
    ensures Step(m, f, a, i, st) == Step(m, f, b, i, st)
  {
  }

  lemma {:induction false} PrefixRunsAlike(m: Rules, f: Strategy, bars: seq<Bar>, k: nat, n: nat)
    requires IsCausal(f) && 1 <= n <= k <= |bars|
    ensures RunTo(m, f, bars[..k], n) == RunTo(m, f, bars, n)
  {
    if n == 1 {
    } else {
      PrefixRunsAlike(m, f, bars, k, n - 1);
      var before := RunTo(m, f, bars, n - 1);
      if before.Ok? {
        StepsAlike(m, f, bars[..k], bars, n - 1, before.value);
      }
    }
  }

  lemma {:induction false} StepExtends(m: Rules, f: Strategy, bars: seq<Bar>, i: nat, st: State)
    requires i < |bars| && Step(m, f, bars, i, st).Ok?
    ensures var st' := Step(m, f, bars, i, st).value;
            && st.equity <= st'.equity && st.trades <= st'.trades
            && forall j :: |st.trades| <= j < |st'.trades| ==> st'.trades[j].exitIdx == i
  {
  }

  /** Later bars only append equity points, and trades that close at those bars. */
  lemma {:induction false} RunExtends(m: Rules, f: Strategy, bars: seq<Bar>, k: nat, n: nat)
    requires 1 <= k <= n <= |bars|
    requires RunTo(m, f, bars, n).Ok?
    ensures RunTo(m, f, bars, k).Ok?
    ensures var a, b := RunTo(m, f, bars, k).value, RunTo(m, f, bars, n).value;
            && a.equity <= b.equity && |a.equity| == k && a.trades <= b.trades
            && forall j :: |a.trades| <= j < |b.trades| ==> b.trades[j].exitIdx >= k
  {
    if k < n {
      RunExtends(m, f, bars, k, n - 1);
      StepExtends(m, f, bars, n - 1, RunTo(m, f, bars, n - 1).value);
    } else {
      RunIsLedger(m, f, bars, k);
    }
  }

  /** No look-ahead: if a causal strategy completes on all bars, then running it on the first k
      bars completes with exactly the first k equity points and exactly the trades closed
      before bar k. */
  lemma {:induction false} NoLookAhead(m: Rules, f: Strategy, bars: seq<Bar>, k: nat)
    requires IsCausal(f) && 1 <= k <= |bars|
    requires RunTo(m, f, bars, |bars|).Ok?
    ensures RunTo(m, f, bars[..k], k).Ok?
    ensures var pre, full := RunTo(m, f, bars[..k], k).value, RunTo(m, f, bars, |bars|).value;
            && |pre.equity| == k && pre.equity <= full.equity
            && pre.trades <= full.trades
            && forall j :: 0 <= j < |full.trades| ==> (j < |pre.trades| <==> full.trades[j].exitIdx < k)
  {
    PrefixRunsAlike(m, f, bars, k, k);
    RunExtends(m, f, bars, k, |bars|);
    RunIsLedger(m, f, bars, |bars|);
    RunIsLedger(m, f, bars, k);
  }

  // ---------------------------------------------------------------- exits at the first touch

  predicate Touches(o: OpenTrade, bar: Bar) { TouchesStop(o, bar) || TouchesTarget(o, bar) }

  /** The price a touching bar settles the trade at. */
  function SettlePrice(o: OpenTrade, bar: Bar): real { if TouchesStop(o, bar) then o.stopLoss else o.target }

  /** No bar after the entry and before bar `n` touches the stop or the target. */
  predicate Untouched(bars: seq<Bar>, o: OpenTrade, n: nat) {
    n <= |bars| && forall j {:trigger bars[j]} :: o.entryIdx < j < n ==> !Touches(o, bars[j])
  }

  predicate FirstTouch(bars: seq<Bar>, o: OpenTrade, j: nat) {
    o.entryIdx < j < |bars| && Untouched(bars, o, j) && Touches(o, bars[j])
  }

  /** The trade closed at its first touching bar, at the stop price when that bar touches both. */
  predicate ClosedAtFirstTouch(bars: seq<Bar>, t: Trade) {
    && FirstTouch(bars, t.entry, t.exitIdx)
    && t.exitPrice == SettlePrice(t.entry, bars[t.exitIdx])
    && (t.exitReason == StopHit <==> TouchesStop(t.entry, bars[t.exitIdx]))
  }

  /** If some bar before `n` touches the trade, the first one settles it at a price other than zero. */
  predicate FirstTouchHasPrice(bars: seq<Bar>, o: OpenTrade, n: nat) {
    forall j: nat :: j < n && FirstTouch(bars, o, j) ==> SettlePrice(o, bars[j]) != 0.0
  }

  lemma {:induction false} ExitsIffPriceNonzero(o: OpenTrade, bar: Bar)
    ensures Exits(o, bar) <==> Touches(o, bar) && SettlePrice(o, bar) != 0.0
  {
  }

  lemma {:induction false} TouchedHasFirst(bars: seq<Bar>, o: OpenTrade, n: nat)
    requires n <= |bars|
    ensures Untouched(bars, o, n) || exists j: nat :: j < n && FirstTouch(bars, o, j)
  {
    if n == 0 {
    } else {
      TouchedHasFirst(bars, o, n - 1);
      if Untouched(bars, o, n - 1) && !Untouched(bars, o, n) {
        assert FirstTouch(bars, o, n - 1);
      }
    }
  }

  /** The first bar touching a surviving trade can only be one whose price is zero. */
  lemma {:induction false} SurvivesFirstTouch(bars: seq<Bar>, o: OpenTrade, n: nat, j: nat)
    requires Survives(bars, o, n) && j < n && FirstTouch(bars, o, j)
    ensures SettlePrice(o, bars[j]) == 0.0
  {
    assert !Exits(o, bars[j]);
    ExitsIffPriceNonzero(o, bars[j]);
  }

  lemma {:induction false} ClosedTradeFirstTouch(m: Rules, bars: seq<Bar>, t: Trade, j: nat)
    requires IsExit(m, bars, t) && FirstTouch(bars, t.entry, j)
    ensures t.exitIdx == j <==> SettlePrice(t.entry, bars[j]) != 0.0
  {
    ExitsIffPriceNonzero(t.entry, bars[t.exitIdx]);
    if j < t.exitIdx {
      SurvivesFirstTouch(bars, t.entry, t.exitIdx, j);
    }
  }

  /** At the first bar that touches a trade of the run, the trade closes exactly when that bar's
      price is not zero; in particular a trade still open was touched at a zero price or not at all. */
  lemma {:induction false} FirstTouchClosesIff(m: Rules, f: Strategy, bars: seq<Bar>, n: nat, st: State)
    requires n <= |bars| && IsLedger(m, f, bars, n, st)
    ensures forall k, j: nat :: 0 <= k < |st.trades| && j < n && FirstTouch(bars, st.trades[k].entry, j) ==>
      (st.trades[k].exitIdx == j <==> SettlePrice(st.trades[k].entry, bars[j]) != 0.0)
    ensures forall j: nat :: st.open.Some? && j < n && FirstTouch(bars, st.open.value, j) ==>
      SettlePrice(st.open.value, bars[j]) == 0.0
  {
    forall k, j: nat | 0 <= k < |st.trades| && j < n && FirstTouch(bars, st.trades[k].entry, j)
      ensures st.trades[k].exitIdx == j <==> SettlePrice(st.trades[k].entry, bars[j]) != 0.0
    {
      ClosedTradeFirstTouch(m, bars, st.trades[k], j);
    }
    forall j: nat | st.open.Some? && j < n && FirstTouch(bars, st.open.value, j)
      ensures SettlePrice(st.open.value, bars[j]) == 0.0
    {
      SurvivesFirstTouch(bars, st.open.value, n, j);
    }
  }

  lemma {:induction false} OneFirstTouch(bars: seq<Bar>, o: OpenTrade, i: nat)
    ensures FirstTouch(bars, o, i) ==> forall j: nat :: FirstTouch(bars, o, j) ==> j == i
  {
    if FirstTouch(bars, o, i) {
      forall j: nat | FirstTouch(bars, o, j)
        ensures j == i
      {
        assert Touches(o, bars[i]) && Touches(o, bars[j]);
      }
    }
  }

  lemma {:induction false} ClosedAtFirstTouchIff(m: Rules, bars: seq<Bar>, t: Trade, n: nat)
    requires IsExit(m, bars, t) && t.exitIdx < n
    ensures ClosedAtFirstTouch(bars, t) <==> FirstTouchHasPrice(bars, t.entry, n)
  {
    forall j: nat | j < n && FirstTouch(bars, t.entry, j)
      ensures t.exitIdx == j <==> SettlePrice(t.entry, bars[j]) != 0.0
    {
      ClosedTradeFirstTouch(m, bars, t, j);
    }
    TouchedHasFirst(bars, t.entry, t.exitIdx);
    ExitsIffPriceNonzero(t.entry, bars[t.exitIdx]);
    OneFirstTouch(bars, t.entry, t.exitIdx);
  }

  /** Exactly when the first-touch rule holds. A closed trade closed at the first bar after entry
      touching stop or target, at the stop price when one bar touches both, iff that first touch
      had a price other than zero; a trade still open was touched by no bar iff none touched it
      first at price zero. */
  lemma {:induction false} ExitsAtFirstTouch(m: Rules, f: Strategy, bars: seq<Bar>, n: nat, st: State)
    requires n <= |bars| && IsLedger(m, f, bars, n, st)
    ensures forall k :: 0 <= k < |st.trades| ==>
      (ClosedAtFirstTouch(bars, st.trades[k]) <==> FirstTouchHasPrice(bars, st.trades[k].entry, n))
    ensures st.open.Some? ==> (Untouched(bars, st.open.value, n) <==> FirstTouchHasPrice(bars, st.open.value, n))
  {
    forall k | 0 <= k < |st.trades|
      ensures ClosedAtFirstTouch(bars, st.trades[k]) <==> FirstTouchHasPrice(bars, st.trades[k].entry, n)
    {
      assert TradeFollows(m, f, bars, st.equity, st.trades[k]);
      ClosedAtFirstTouchIff(m, bars, st.trades[k], n);
    }
    if st.open.Some? {
      TouchedHasFirst(bars, st.open.value, n);
      FirstTouchClosesIff(m, f, bars, n, st);
    }
  }

  predicate LevelsNonzero(o: OpenTrade) { o.stopLoss != 0.0 && o.target != 0.0 }

  /** Nonzero levels are always enough. */
  lemma {:induction false} NonzeroLevelsObeyFirstTouch(m: Rules, f: Strategy, bars: seq<Bar>, n: nat, st: State)
    requires n <= |bars| && IsLedger(m, f, bars, n, st)
    ensures forall k :: 0 <= k < |st.trades| && LevelsNonzero(st.trades[k].entry) ==>
      ClosedAtFirstTouch(bars, st.trades[k])
    ensures st.open.Some? && LevelsNonzero(st.open.value) ==> Untouched(bars, st.open.value, n)
  {
    ExitsAtFirstTouch(m, f, bars, n, st);
  }

  /** The bar reaches neither level of the trade. */
  predicate PassesBy(o: OpenTrade, bar: Bar) {
    if o.side == Long then bar.low > o.stopLoss && bar.high < o.target
    else bar.high < o.stopLoss && bar.low > o.target
  }

  /** The bar reaches the stop and the trade settles at it, or it reaches the target alone. */
  predicate ReachesExit(t: Trade, bar: Bar) {
    var o := t.entry;
    if (if o.side == Long then bar.low <= o.stopLoss else bar.high >= o.stopLoss) then
      t.exitPrice == o.stopLoss && t.exitReason == StopHit
    else
      && (if o.side == Long then bar.high >= o.target else bar.low <= o.target)
      && t.exitPrice == o.target && t.exitReason == TargetHit
  }

  /** The same in prices: with nonzero levels every bar before the exit stays between stop and
      target, and the exit bar reaches the stop or else the target. */
  lemma {:induction false} BarsStayBetweenLevels(m: Rules, f: Strategy, bars: seq<Bar>, n: nat, st: State)
    requires n <= |bars| && IsLedger(m, f, bars, n, st)
    ensures forall k :: 0 <= k < |st.trades| && LevelsNonzero(st.trades[k].entry) ==>
      var t := st.trades[k];
      && t.entry.entryIdx < t.exitIdx < |bars| && ReachesExit(t, bars[t.exitIdx])
      && forall j :: t.entry.entryIdx < j < t.exitIdx ==> PassesBy(t.entry, bars[j])
    ensures st.open.Some? && LevelsNonzero(st.open.value) ==>
      forall j :: st.open.value.entryIdx < j < n ==> PassesBy(st.open.value, bars[j])
  {
    NonzeroLevelsObeyFirstTouch(m, f, bars, n, st);
    forall k | 0 <= k < |st.trades| && LevelsNonzero(st.trades[k].entry)
      ensures var t := st.trades[k];
              && t.entry.entryIdx < t.exitIdx < |bars| && ReachesExit(t, bars[t.exitIdx])
              && forall j :: t.entry.entryIdx < j < t.exitIdx ==> PassesBy(t.entry, bars[j])
    {
      assert ClosedAtFirstTouch(bars, st.trades[k]);
    }
  }

  /** A strategy that goes short once, at bar 1, with a stop at zero. */
  function ShortAtBarOne(): Strategy {
    (bars, i) => if i == 1 then Some(Signal(Short, 0.0, 90.0)) else None
  }

  /** A run on which the first-touch rule fails: bar 2 reaches the target of 90, but every high
      touches the stop at zero first, which closes nothing, and the trade stays open. */
  lemma {:induction false} ZeroStopNeverCloses(m: Rules) returns (bars: seq<Bar>, o: OpenTrade)
    ensures |bars| == 3
    ensures RunTo(m, ShortAtBarOne(), bars, 3) ==
      Ok(State(m.initialCapital, [m.initialCapital, m.initialCapital, m.initialCapital], [], Some(o)))
    ensures FirstTouch(bars, o, 2) && TouchesTarget(o, bars[2]) && bars[2].low <= o.target < o.entryPrice
  {
    bars := [Bar(100.0, 101.0, 99.0), Bar(100.0, 101.0, 99.0), Bar(88.0, 99.0, 85.0)];
    var f := ShortAtBarOne();
    o := Enter(m, Signal(Short, 0.0, 90.0), 100.0, m.initialCapital, 1);
    var start := State(m.initialCapital, [m.initialCapital], [], None);
    var entered := State(m.initialCapital, start.equity + [m.initialCapital], [], Some(o));
    var held := entered.(equity := entered.equity + [m.initialCapital]);
    assert f(bars, 1) == Some(Signal(Short, 0.0, 90.0));
    assert EntryStep(m, f, bars, 1, start) == Ok(start.(open := Some(o)));
    RunToNext(m, f, bars, 2, start, entered);
    assert !Exits(o, bars[2]);
    RunToNext(m, f, bars, 3, entered, held);
    assert held.equity == [m.initialCapital, m.initialCapital, m.initialCapital];
  }

  // ---------------------------------------------------------------- sizing and settlement

  /** The number of lots bought: never fewer than one. */
  function LotsBought(cfg: BacktestConfig, capital: real, close: Price): int {
    if LotCount(cfg, capital, close) > 1 then LotCount(cfg, capital, close) else 1
  }

  lemma {:induction false} QuantityInLots(cfg: BacktestConfig, capital: real, close: Price)
    ensures LotQuantity(cfg, capital, close) == LotsBought(cfg, capital, close) * cfg.lotSize
  {
    IntOrderScales(1, LotCount(cfg, capital, close), cfg.lotSize);
  }

  lemma {:induction false} LotsInTimes(budget: real, close: Price, lot: Positive)
    requires close > 0.0
    ensures lot as real * close > 0.0 && LotsIn(budget, close, lot) * (lot as real * close) == budget
  {
    var units := budget / close;
    var x := units / lot as real;
    assert units * close == budget && x * lot as real == units;
    assert x * (lot as real * close) == (x * lot as real) * close;
  }

  lemma {:induction false} BudgetBelow(x: real, y: real, unit: real, budget: real)
    requires unit > 0.0 && x * unit == budget
    ensures x < y <==> budget < y * unit
  {
    OrderScales(x, y, unit);
  }

  lemma {:induction false} PlusOne(n: real, unit: real)
    ensures (n + 1.0) * unit == n * unit + unit
  {
  }

  lemma {:induction false} LotsFit(x: real, n: real, unit: real, budget: real)
    requires unit > 0.0 && x * unit == budget
    requires x < n + 1.0 && (n == 1.0 || 1.0 <= n <= x)
    ensures n * unit <= budget <==> unit <= budget
    ensures n * unit + unit > budget
  {
    BudgetBelow(x, n + 1.0, unit, budget);
    BudgetBelow(x, 1.0, unit, budget);
    BudgetBelow(x, n, unit, budget);
    PlusOne(n, unit);
  }

  lemma {:induction false} AsLots(n: int, lot: int, close: real)
    ensures (n * lot) as real * close == n as real * (lot as real * close)
    ensures (n * lot + lot) as real * close == n as real * (lot as real * close) + lot as real * close
  {
    assert (n * lot) as real == n as real * lot as real;
    assert (n as real * lot as real) * close == n as real * (lot as real * close);
  }

  lemma {:induction false} BudgetInLots(x: real, n: int, lot: Positive, close: real, budget: real)
    requires close > 0.0 && lot as real * close > 0.0 && x * (lot as real * close) == budget
    requires n == if Truncate(x) > 1 then Truncate(x) else 1
    ensures (n * lot) as real * close <= budget <==> lot as real * close <= budget
    ensures (n * lot + lot) as real * close > budget
  {
    LotsFit(x, n as real, lot as real * close, budget);
    AsLots(n, lot, close);
  }

  lemma {:induction false} SameQuotientNegated(a: real, b: real)
    requires b != 0.0
    ensures a / b == -a / -b
  {
    var q := a / b;
    assert q * b == a;
    assert q * -b == -a;
    QuotientIs(-a, -b, q);
  }

  /** A whole number of lots: as many as the amount covers at the unit price, and one lot if it
      does not cover even that. */
  predicate IsLargestCovered(qty: int, lot: Positive, unitPrice: real, amount: real) {
    && qty % lot == 0
    && (lot as real * unitPrice > amount ==> qty == lot)
    && (lot as real * unitPrice <= amount ==> qty as real * unitPrice <= amount)
    && (qty + lot) as real * unitPrice > amount
  }

  lemma {:induction false} LotsCovered(budget: real, close: Price, lot: Positive, n: int)
    requires close > 0.0
    requires var x := LotsIn(budget, close, lot); n == if Truncate(x) > 1 then Truncate(x) else 1
    ensures (n * lot) as real * close <= budget <==> lot as real * close <= budget
    ensures (n * lot + lot) as real * close > budget
    ensures lot as real * close > budget ==> n == 1
  {
    LotsInTimes(budget, close, lot);
    BudgetInLots(LotsIn(budget, close, lot), n, lot, close, budget);
    OrderScales(LotsIn(budget, close, lot), 1.0, lot as real * close);
  }

  lemma {:induction false} LotsAreLargest(budget: real, price: Price, lot: Positive, n: int)
    requires price > 0.0
    requires var x := LotsIn(budget, price, lot); n == if Truncate(x) > 1 then Truncate(x) else 1
    ensures IsLargestCovered(n * lot, lot, price, budget)
  {
    LotsCovered(budget, price, lot, n);
    MultipleOf(n, lot);
  }

  lemma {:induction false} QuantityAtPositiveClose(cfg: BacktestConfig, capital: real, close: Price)
    requires close > 0.0
    ensures IsLargestCovered(LotQuantity(cfg, capital, close), cfg.lotSize, close, capital * cfg.positionSizePct)
  {
    QuantityInLots(cfg, capital, close);
    LotsAreLargest(Budget(cfg, capital), close, cfg.lotSize, LotsBought(cfg, capital, close));
  }

  lemma {:induction false} SameLotsNegated(budget: real, close: Price, lot: Positive)
    requires close < 0.0
    ensures LotsIn(budget, close, lot) == LotsIn(-budget, Abs(close), lot)
  {
    SameQuotientNegated(budget, close);
  }

  lemma {:induction false} QuantityAtNegativeClose(cfg: BacktestConfig, capital: real, close: Price)
    requires close < 0.0
    ensures IsLargestCovered(LotQuantity(cfg, capital, close), cfg.lotSize, Abs(close), -(capital * cfg.positionSizePct))
  {
    QuantityInLots(cfg, capital, close);
    SameLotsNegated(Budget(cfg, capital), close, cfg.lotSize);
    LotsAreLargest(-Budget(cfg, capital), Abs(close), cfg.lotSize, LotsBought(cfg, capital, close));
  }

  /** Position sizes are whole lots. Where the budget covers a lot it is the largest number of
      lots the budget covers; where it does not, one lot is bought all the same. At a negative
      close, budget and price both change sign. */
  lemma {:induction false} QuantityIsWholeLots(cfg: BacktestConfig, capital: real, close: Price)
    ensures close > 0.0 ==>
      IsLargestCovered(LotQuantity(cfg, capital, close), cfg.lotSize, close, capital * cfg.positionSizePct)
    ensures close < 0.0 ==>
      IsLargestCovered(LotQuantity(cfg, capital, close), cfg.lotSize, Abs(close), -(capital * cfg.positionSizePct))
  {
    if close < 0.0 {
      QuantityAtNegativeClose(cfg, capital, close);
    } else {
      QuantityAtPositiveClose(cfg, capital, close);
    }
  }

  lemma {:induction false} SignOfQuotient(net: real, price: real, qty: real)
    requires price > 0.0 && qty > 0.0
    ensures price * qty > 0.0
    ensures net / (price * qty) * 100.0 > 0.0 <==> net > 0.0
  {
    var d := price * qty;
    assert d > 0.0;
    var q := net / d;
    assert q * d == net;
    if q > 0.0 { assert q * d > 0.0; } else { ScaleLe(q, 0.0, d); }
  }

  /** A trade wins after costs exactly when the price moved its way by more than the simulator's
      breakeven move, and for a positive entry price its percentage return has the same sign. */
  lemma {:induction false} WinsBeyondBreakeven(cfg: BacktestConfig, o: OpenTrade, exitPrice: real)
    ensures Settle(cfg, o, exitPrice).net > 0.0 <==>
      Multiplier(o.side) * (exitPrice - o.entryPrice) > CostOf(cfg, o).breakevenMovePts
    ensures o.entryPrice > 0.0 ==>
      (Settle(cfg, o, exitPrice).returnPct > 0.0 <==> Settle(cfg, o, exitPrice).net > 0.0)
  {
    var move := Multiplier(o.side) * (exitPrice - o.entryPrice);
    Slippage.BreakevenIsExact(Brokerage(cfg), o.entryPrice, o.quantity, cfg.lotSize, move);
    if o.entryPrice > 0.0 {
      SignOfQuotient(Settle(cfg, o, exitPrice).net, o.entryPrice, o.quantity as real);
    }
  }

  lemma {:induction false} PercentOf(part: real, whole: real)
    requires whole != 0.0
    ensures part / whole * 100.0 * whole == part * 100.0
  {
    var q := part / whole;
    assert q * whole == part;
  }

  lemma {:induction false} OppositeProducts(move: real, qty: real)
    ensures 1.0 * move * qty + -1.0 * move * qty == 0.0
  {
  }

  /** The percentage return is the net result relative to the entry notional, and opposite trades
      at the same prices together lose exactly the cost of both. */
  lemma {:induction false} SettlementBalances(cfg: BacktestConfig, o: OpenTrade, opposite: OpenTrade, exitPrice: real)
    requires opposite == o.(side := opposite.side) && Multiplier(opposite.side) == -Multiplier(o.side)
    ensures Settle(cfg, o, exitPrice).returnPct * (o.entryPrice * o.quantity as real) ==
      Settle(cfg, o, exitPrice).net * 100.0
    ensures Settle(cfg, o, exitPrice).net + Settle(cfg, opposite, exitPrice).net == -2.0 * CostOf(cfg, o).totalCost
  {
    PercentOf(Settle(cfg, o, exitPrice).net, o.entryPrice * o.quantity as real);
    OppositeProducts(exitPrice - o.entryPrice, o.quantity as real);
  }

  lemma {:induction false} RateTimes(rate: real, extra: real, notional: real)
    ensures (rate + extra) * notional == rate * notional + extra * notional
  {
  }

  /** Every extra basis point of slippage takes that part of the entry notional off the result. */
  lemma {:induction false} SlippageTakesItsShare(cfg: BacktestConfig, o: OpenTrade, exitPrice: real, extraBps: real)
    ensures Settle(cfg.(slippageBps := cfg.slippageBps + extraBps), o, exitPrice).net ==
      Settle(cfg, o, exitPrice).net - extraBps / 10000.0 * (o.entryPrice * o.quantity as real)
  {
    var worse := cfg.(slippageBps := cfg.slippageBps + extraBps);
    Slippage.CostIsAffine(Brokerage(cfg), o.entryPrice, o.quantity, cfg.lotSize);
    Slippage.CostIsAffine(Brokerage(worse), o.entryPrice, o.quantity, cfg.lotSize);
    assert Slippage.CostRate(Brokerage(worse)) == Slippage.CostRate(Brokerage(cfg)) + extraBps / 10000.0;
    RateTimes(Slippage.CostRate(Brokerage(cfg)), extraBps / 10000.0, o.entryPrice * o.quantity as real);
  }

  /** A position whose recorded result wins exactly beyond the breakeven move. */
  predicate IsSettled(cfg: BacktestConfig, t: Trade) {
    && Figures(t.grossPnl, t.netPnl, t.returnPct) == Settle(cfg, t.entry, t.exitPrice)
    && (t.netPnl > 0.0 <==>
          Multiplier(t.entry.side) * (t.exitPrice - t.entry.entryPrice) > CostOf(cfg, t.entry).breakevenMovePts)
  }

  lemma {:induction false} SettledTrade(cfg: BacktestConfig, f: Strategy, bars: seq<Bar>, equity: seq<real>, t: Trade)
    requires TradeFollows(RulesOf(cfg), f, bars, equity, t)
    ensures IsSettled(cfg, t)
  {
    WinsBeyondBreakeven(cfg, t.entry, t.exitPrice);
    assert RulesOf(cfg).settle(t.entry, t.exitPrice) == Settle(cfg, t.entry, t.exitPrice);
  }

  /** Every trade of a run is settled by the simulator's cost at its exit level. */
  lemma {:induction false} TradesAreSettled(cfg: BacktestConfig, f: Strategy, bars: seq<Bar>, n: nat, st: State)
    requires IsLedger(RulesOf(cfg), f, bars, n, st)
    ensures forall k :: 0 <= k < |st.trades| ==> IsSettled(cfg, st.trades[k])
  {
    forall k | 0 <= k < |st.trades|
      ensures IsSettled(cfg, st.trades[k])
    {
      assert TradeFollows(RulesOf(cfg), f, bars, st.equity, st.trades[k]);
      SettledTrade(cfg, f, bars, st.equity, st.trades[k]);
    }
  }

  /** The recorded figures in numbers: the move in the trade's favour on the whole quantity, less
      brokerage of 20 a side with 18 percent GST and the charges and slippage on the notional. */
  predicate HasFigures(cfg: BacktestConfig, t: Trade) {
    var price, qty := t.entry.entryPrice, t.entry.quantity as real;
    && t.grossPnl == (if t.entry.side == Long then t.exitPrice - price else price - t.exitPrice) * qty
    && t.netPnl == t.grossPnl - (2.0 * 20.0 * 1.18
                                 + (0.0001 + 2.0 * 0.000195 + 2.0 * 0.000001 + 0.00003 + cfg.slippageBps / 10000.0)
                                   * (price * qty))
    && t.returnPct * (price * qty) == t.netPnl * 100.0
  }

  lemma {:induction false} GrossInNumbers(side: Side, price: real, exitPrice: real, qty: real)
    ensures Multiplier(side) * (exitPrice - price) * qty
            == (if side == Long then exitPrice - price else price - exitPrice) * qty
  {
  }

  lemma {:induction false} CostInNumbers(cfg: BacktestConfig, o: OpenTrade)
    ensures CostOf(cfg, o).totalCost ==
      2.0 * 20.0 * 1.18
      + (0.0001 + 2.0 * 0.000195 + 2.0 * 0.000001 + 0.00003 + cfg.slippageBps / 10000.0)
        * (o.entryPrice * o.quantity as real)
  {
    Slippage.CostIsAffine(Brokerage(cfg), o.entryPrice, o.quantity, cfg.lotSize);
    assert Slippage.FixedCost(Brokerage(cfg)) == 2.0 * 20.0 * 1.18;
    assert Slippage.CostRate(Brokerage(cfg)) ==
      0.0001 + 2.0 * 0.000195 + 2.0 * 0.000001 + 0.00003 + cfg.slippageBps / 10000.0;
  }

  lemma {:induction false} SettleInNumbers(cfg: BacktestConfig, t: Trade)
    requires Figures(t.grossPnl, t.netPnl, t.returnPct) == Settle(cfg, t.entry, t.exitPrice)
    ensures HasFigures(cfg, t)
  {
    var price, qty := t.entry.entryPrice, t.entry.quantity as real;
    GrossInNumbers(t.entry.side, price, t.exitPrice, qty);
    CostInNumbers(cfg, t.entry);
    Slippage.NonzeroProduct(price, qty);
    PercentOf(t.netPnl, price * qty);
  }

  /** The quantity of a trade against the equity recorded at its entry bar. */
  predicate IsSizedFrom(cfg: BacktestConfig, equity: seq<real>, o: OpenTrade) {
    && o.entryIdx < |equity|
    && var budget := equity[o.entryIdx] * cfg.positionSizePct;
       if o.entryPrice > 0.0 then IsLargestCovered(o.quantity, cfg.lotSize, o.entryPrice, budget)
       else IsLargestCovered(o.quantity, cfg.lotSize, Abs(o.entryPrice), -budget)
  }

  lemma {:induction false} EntryIsSized(cfg: BacktestConfig, f: Strategy, bars: seq<Bar>, equity: seq<real>, o: OpenTrade)
    requires IsEntry(RulesOf(cfg), f, bars, equity, o)
    ensures IsSizedFrom(cfg, equity, o)
  {
    assert o.quantity == LotQuantity(cfg, equity[o.entryIdx], o.entryPrice);
    QuantityIsWholeLots(cfg, equity[o.entryIdx], o.entryPrice);
  }

  lemma {:induction false} TradeInNumbers(cfg: BacktestConfig, f: Strategy, bars: seq<Bar>, equity: seq<real>, t: Trade)
    requires TradeFollows(RulesOf(cfg), f, bars, equity, t)
    ensures HasFigures(cfg, t) && IsSizedFrom(cfg, equity, t.entry)
  {
    SettledTrade(cfg, f, bars, equity, t);
    SettleInNumbers(cfg, t);
    EntryIsSized(cfg, f, bars, equity, t.entry);
  }

  /** Every completed run of the program in numbers: the curve starts at the initial capital and
      gains every net result at its exit bar, each trade is sized from the equity at its entry, and
      its result and return are those of its prices, quantity and costs. */
  lemma {:induction false} RunInNumbers(cfg: BacktestConfig, f: Strategy, bars: seq<Bar>, st: State)
    requires RunTo(RulesOf(cfg), f, bars, PointCount(bars)) == Ok(st)
    ensures forall i :: 0 <= i < |st.equity| ==> st.equity[i] == cfg.initialCapital + RealisedBy(st.trades, i)
    ensures forall k :: 0 <= k < |st.trades| ==>
      HasFigures(cfg, st.trades[k]) && IsSizedFrom(cfg, st.equity, st.trades[k].entry)
    ensures st.open.Some? ==> IsSizedFrom(cfg, st.equity, st.open.value)
  {
    RunIsLedger(RulesOf(cfg), f, bars, PointCount(bars));
    forall k | 0 <= k < |st.trades|
      ensures HasFigures(cfg, st.trades[k]) && IsSizedFrom(cfg, st.equity, st.trades[k].entry)
    {
      TradeInNumbers(cfg, f, bars, st.equity, st.trades[k]);
    }
    if st.open.Some? {
      EntryIsSized(cfg, f, bars, st.equity, st.open.value);
    }
  }

  // ---------------------------------------------------------------- conservation with the metrics

  lemma {:induction false} RealisedIsSum(trades: seq<Trade>, i: nat)
    requires forall k :: 0 <= k < |trades| ==> trades[k].exitIdx <= i
    ensures RealisedBy(trades, i) == Sum(NetPnls(trades))
  {
    if trades == [] {
    } else {
      RealisedIsSum(trades[..|trades| - 1], i);
      assert NetPnls(trades)[..|trades| - 1] == NetPnls(trades[..|trades| - 1]);
    }
  }

  /** The capital at the end is the initial capital plus the net results of all trades. */
  lemma {:induction false} GainIsSum(initial: real, st: State)
    requires st.equity != [] && st.capital == st.equity[|st.equity| - 1]
    requires EquityMatches(initial, st.equity, st.trades)
    requires forall k :: 0 <= k < |st.trades| ==> st.trades[k].exitIdx < |st.equity|
    ensures st.capital == initial + Sum(NetPnls(st.trades))
  {
    RealisedIsSum(st.trades, |st.equity| - 1);
  }

  lemma {:induction false} NothingRealisedBefore(trades: seq<Trade>, i: nat)
    requires forall k :: 0 <= k < |trades| ==> trades[k].exitIdx > i
    ensures RealisedBy(trades, i) == 0.0
  {
    if trades == [] {
    } else {
      NothingRealisedBefore(trades[..|trades| - 1], i);
    }
  }

  /** Across engine and metrics: for a run whose curve never falls below zero, the reported maximum
      drawdown is the worst loss between any two points of its equity curve, and at most 100. */
  lemma {:induction false} ReportedDrawdownIsWorstPair(m: Rules, f: Strategy, bars: seq<Bar>, st: State, maxDd: real)
    requires m.initialCapital > 0.0
    requires RunTo(m, f, bars, PointCount(bars)) == Ok(st)
    requires forall k :: 0 <= k < |st.equity| ==> st.equity[k] >= 0.0
    requires Metrics.IsMaxDrawdown(m.initialCapital, st.equity, maxDd)
    ensures 0.0 <= maxDd <= 100.0 && Metrics.IsWorstPair(st.equity, maxDd)
  {
    RunIsLedger(m, f, bars, PointCount(bars));
    forall k | 0 <= k < |st.trades|
      ensures st.trades[k].exitIdx > 0
    {
      assert TradeFollows(m, f, bars, st.equity, st.trades[k]);
    }
    NothingRealisedBefore(st.trades, 0);
    Metrics.DrawdownIsWorstPair(m.initialCapital, st.equity, maxDd);
    Metrics.WorstPairOfCurve(m.initialCapital, st.equity, maxDd);
  }

  lemma {:induction false} FactorAboveOne(factor: real, profit: real, loss: real)
    requires loss > 0.0 && factor * loss == profit
    ensures factor > 1.0 <==> profit - loss > 0.0
  {
    OrderScales(1.0, factor, loss);
  }

  lemma {:induction false} SignOfReturn(gain: real, initial: real)
    requires initial > 0.0
    ensures gain / initial * 100.0 > 0.0 <==> gain > 0.0
  {
    var q := gain / initial;
    assert q * initial == gain;
    if q > 0.0 { assert q * initial > 0.0; } else { ScaleLe(q, 0.0, initial); }
  }

  lemma {:induction false} FactorAgainstReturn(trades: seq<Trade>, equity: seq<real>, initial: real, r: BacktestResult)
    requires initial > 0.0 && equity != []
    requires equity[|equity| - 1] == initial + Sum(NetPnls(trades))
    requires Metrics.HasReturnFigures(r, trades, equity, initial)
    requires exists k :: 0 <= k < |trades| && trades[k].netPnl < 0.0
    ensures r.profitFactor.Ratio? && (r.profitFactor.value > 1.0 <==> r.totalReturnPct > 0.0)
  {
    var pnls := NetPnls(trades);
    Metrics.GrossFiguresBalance(pnls);
    Metrics.NoLossNoGrossLoss(pnls);
    var k :| 0 <= k < |trades| && trades[k].netPnl < 0.0;
    assert pnls[k] < 0.0;
    FactorAboveOne(r.profitFactor.value, Metrics.GrossProfit(pnls), Metrics.GrossLoss(pnls));
    SignOfReturn(equity[|equity| - 1] - initial, initial);
  }

  /** Gross profit minus gross loss is the change of capital over the run, and with some losing
      trade the profit factor exceeds 1 exactly when the total return is positive. */
  lemma {:induction false} ProfitsExplainReturn(m: Rules, f: Strategy, bars: seq<Bar>, st: State, r: BacktestResult)
    requires m.initialCapital > 0.0
    requires IsLedger(m, f, bars, PointCount(bars), st)
    requires Metrics.HasReturnFigures(r, st.trades, st.equity, m.initialCapital)
    ensures Metrics.GrossProfit(NetPnls(st.trades)) - Metrics.GrossLoss(NetPnls(st.trades))
            == st.capital - m.initialCapital
    ensures (exists k :: 0 <= k < |st.trades| && st.trades[k].netPnl < 0.0) ==>
      r.profitFactor.Ratio? && (r.profitFactor.value > 1.0 <==> r.totalReturnPct > 0.0)
  {
    forall k | 0 <= k < |st.trades|
      ensures st.trades[k].exitIdx < |st.equity|
    {
      assert TradeFollows(m, f, bars, st.equity, st.trades[k]);
    }
    GainIsSum(m.initialCapital, st);
    Metrics.GrossFiguresBalance(NetPnls(st.trades));
    if exists k :: 0 <= k < |st.trades| && st.trades[k].netPnl < 0.0 {
      FactorAgainstReturn(st.trades, st.equity, m.initialCapital, r);
    }
  }
}
