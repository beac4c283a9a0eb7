/** The breakers of the risk kernel, fed with the results of a backtest, against the figures the
    metrics report for that backtest. */
module BacktestBreakers {
  import opened Common
  import opened BacktestTypes
  import Engine = BacktestEngine
  import Metrics
  import Risk = RiskManager
  import KillSwitch

  // ---------------------------------------------------------------- drawdown

  ghost predicate HasDrawdown(initial: real, curve: seq<real>, dd: real)
    requires initial > 0.0
  {
    exists k :: 0 <= k < |curve| && Metrics.DrawdownAt(initial, curve, k) == dd
  }

  /** Two curves with the same last point, the same peak and the same drawdown figures. */
  ghost predicate SameDrawdowns(initial: real, e: seq<real>, p: seq<real>)
    requires initial > 0.0
  {
    && e != [] && p != []
    && e[|e| - 1] == p[|p| - 1]
    && Metrics.PeakTo(initial, e, |e|) == Metrics.PeakTo(initial, p, |p|)
    && (forall j :: 0 <= j < |e| ==> HasDrawdown(initial, p, Metrics.DrawdownAt(initial, e, j)))
    && (forall k :: 0 <= k < |p| ==> HasDrawdown(initial, e, Metrics.DrawdownAt(initial, p, k)))
  }

  lemma {:induction false} DrawdownOfPrefix(initial: real, curve: seq<real>, x: real, j: nat)
    requires initial > 0.0 && j < |curve|
    ensures Metrics.DrawdownAt(initial, curve + [x], j) == Metrics.DrawdownAt(initial, curve, j)
  {
    Risk.PeakOfPrefix(initial, curve, [x], j + 1);
  }

  /** What one more point does: the peak rises to it or stays, and its drawdown is measured from there. */
  lemma {:induction false} OneMorePoint(initial: real, curve: seq<real>, x: real)
    requires initial > 0.0
    ensures Metrics.PeakTo(initial, curve + [x], |curve| + 1) == Max(x, Metrics.PeakTo(initial, curve, |curve|)) > 0.0
    ensures Metrics.DrawdownAt(initial, curve + [x], |curve|)
            == Metrics.DropFrom(Max(x, Metrics.PeakTo(initial, curve, |curve|)), x)
    ensures forall dd :: HasDrawdown(initial, curve + [x], dd) <==>
      HasDrawdown(initial, curve, dd) || dd == Metrics.DrawdownAt(initial, curve + [x], |curve|)
  {
    Risk.PeakOfPrefix(initial, curve, [x], |curve|);
    Metrics.PeakIsMaximum(initial, curve + [x], |curve| + 1);
    forall j | 0 <= j < |curve|
      ensures Metrics.DrawdownAt(initial, curve + [x], j) == Metrics.DrawdownAt(initial, curve, j)
    {
      DrawdownOfPrefix(initial, curve, x, j);
    }
    forall dd
      ensures HasDrawdown(initial, curve + [x], dd) <==>
        HasDrawdown(initial, curve, dd) || dd == Metrics.DrawdownAt(initial, curve + [x], |curve|)
    {
      if HasDrawdown(initial, curve, dd) {
        var k :| 0 <= k < |curve| && Metrics.DrawdownAt(initial, curve, k) == dd;
        assert Metrics.DrawdownAt(initial, curve + [x], k) == dd;
      }
    }
  }

  /** The last point's own drawdown. */
  lemma {:induction false} LastPoint(initial: real, curve: seq<real>)
    requires initial > 0.0 && curve != []
    ensures curve[|curve| - 1] <= Metrics.PeakTo(initial, curve, |curve|)
    ensures Metrics.PeakTo(initial, curve, |curve|) > 0.0
    ensures HasDrawdown(initial, curve, Metrics.DropFrom(Metrics.PeakTo(initial, curve, |curve|), curve[|curve| - 1]))
  {
    Metrics.PeakIsMaximum(initial, curve, |curve|);
    assert Metrics.DrawdownAt(initial, curve, |curve| - 1)
        == Metrics.DropFrom(Metrics.PeakTo(initial, curve, |curve|), curve[|curve| - 1]);
  }

  lemma {:induction false} BothGrow(initial: real, e: seq<real>, p: seq<real>, x: real)
    requires initial > 0.0 && SameDrawdowns(initial, e, p)
    ensures SameDrawdowns(initial, e + [x], p + [x])
  {
    OneMorePoint(initial, e, x);
    OneMorePoint(initial, p, x);
    forall j | 0 <= j < |e| + 1
      ensures HasDrawdown(initial, p + [x], Metrics.DrawdownAt(initial, e + [x], j))
    {
      if j < |e| { DrawdownOfPrefix(initial, e, x, j); }
    }
    forall k | 0 <= k < |p| + 1
      ensures HasDrawdown(initial, e + [x], Metrics.DrawdownAt(initial, p + [x], k))
    {
      if k < |p| { DrawdownOfPrefix(initial, p, x, k); }
    }
  }

  lemma {:induction false} RepeatedPoint(initial: real, e: seq<real>, p: seq<real>)
    requires initial > 0.0 && SameDrawdowns(initial, e, p)
    ensures SameDrawdowns(initial, e + [e[|e| - 1]], p)
  {
    var x := e[|e| - 1];
    OneMorePoint(initial, e, x);
    LastPoint(initial, e);
    LastPoint(initial, p);
    forall j | 0 <= j < |e| + 1
      ensures HasDrawdown(initial, p, Metrics.DrawdownAt(initial, e + [x], j))
    {
      if j < |e| { DrawdownOfPrefix(initial, e, x, j); }
    }
  }

  lemma {:induction false} SameMaxDrawdown(initial: real, e: seq<real>, p: seq<real>, dd: real)
    requires initial > 0.0 && SameDrawdowns(initial, e, p)
    requires Metrics.IsMaxDrawdown(initial, e, dd)
    ensures Metrics.IsMaxDrawdown(initial, p, dd)
  {
    forall k | 0 <= k < |p|
      ensures Metrics.DrawdownAt(initial, p, k) <= dd
    {
      assert HasDrawdown(initial, e, Metrics.DrawdownAt(initial, p, k));
    }
    if dd != 0.0 {
      var j :| 0 <= j < |e| && Metrics.DrawdownAt(initial, e, j) == dd;
      assert HasDrawdown(initial, p, Metrics.DrawdownAt(initial, e, j));
    }
  }

  /** One bar appends the capital to the curve and at most one trade, whose net result moved it. */
  lemma {:induction false} StepShape(m: Engine.Rules, f: Engine.Strategy, bars: seq<Bar>, i: nat, st: Engine.State)
    requires i < |bars| && Engine.Step(m, f, bars, i, st).Ok?
    ensures var st' := Engine.Step(m, f, bars, i, st).value;
            && st'.equity == st.equity + [st'.capital]
            && ((st'.trades == st.trades && st'.capital == st.capital)
                || (exists t: Trade :: st'.trades == st.trades + [t] && st'.capital == st.capital + t.netPnl))
  {
    if st.open.Some? && Engine.Exits(st.open.value, bars[i]) {
      var t := Engine.Record(m, st.open.value, Engine.Touched(st.open.value, bars[i]).value, i);
      assert Engine.ExitStep(m, bars, i, st).trades == st.trades + [t];
    }
  }

  /** The capital path an account follows when the trades' net results are recorded one by one. */
  function TradePath(a: Risk.Account, trades: seq<Trade>): seq<real> {
    Risk.CapitalPath(a, NetPnls(trades))
  }

  lemma {:induction false} PathGrows(a: Risk.Account, trades: seq<Trade>, t: Trade)
    ensures TradePath(a, trades + [t])
            == TradePath(a, trades) + [Risk.AfterPnls(a, NetPnls(trades)).capital + t.netPnl]
  {
    assert NetPnls(trades + [t])[..|trades|] == NetPnls(trades);
  }

  lemma {:induction false} PathEnds(a: Risk.Account, pnls: seq<real>)
    ensures Risk.CapitalPath(a, pnls)[|pnls|] == Risk.AfterPnls(a, pnls).capital
  {
  }

  lemma {:induction false} StepMatchesPath(a: Risk.Account, before: Engine.State, after: Engine.State)
    requires a.capital > 0.0 && before.equity != [] && before.equity[|before.equity| - 1] == before.capital
    requires SameDrawdowns(a.capital, before.equity, TradePath(a, before.trades))
    requires after.equity == before.equity + [after.capital]
    requires || (after.trades == before.trades && after.capital == before.capital)
             || (exists t: Trade :: after.trades == before.trades + [t] && after.capital == before.capital + t.netPnl)
    ensures SameDrawdowns(a.capital, after.equity, TradePath(a, after.trades))
  {
    if after.trades == before.trades && after.capital == before.capital {
      RepeatedPoint(a.capital, before.equity, TradePath(a, before.trades));
    } else {
      var t: Trade :| after.trades == before.trades + [t] && after.capital == before.capital + t.netPnl;
      PathEnds(a, NetPnls(before.trades));
      PathGrows(a, before.trades, t);
      BothGrow(a.capital, before.equity, TradePath(a, before.trades), after.capital);
    }
  }

  /** The engine's equity curve, one point per bar, and the account's capital path, one point per
      trade, have the same drawdowns. */
  lemma {:induction false} CurveMatchesPath(m: Engine.Rules, f: Engine.Strategy, bars: seq<Bar>, n: nat,
      a: Risk.Account)
    requires 1 <= n && (n <= |bars| || n == 1)
    requires m.initialCapital == a.capital > 0.0
    requires Engine.RunTo(m, f, bars, n).Ok?
    ensures var st := Engine.RunTo(m, f, bars, n).value;
            st.equity != [] && st.equity[|st.equity| - 1] == st.capital
            && SameDrawdowns(a.capital, st.equity, TradePath(a, st.trades))
  {
    if n == 1 {
      assert TradePath(a, []) == [a.capital];
    } else {
      CurveMatchesPath(m, f, bars, n - 1, a);
      var before := Engine.RunTo(m, f, bars, n - 1).value;
      var after := Engine.RunTo(m, f, bars, n).value;
      StepShape(m, f, bars, n - 1, before);
      StepMatchesPath(a, before, after);
    }
  }

  /** Across engine, metrics and risk manager: the drawdown check of an account that starts with
      the backtest's capital passes after every trade exactly when the maximum drawdown reported
      for the backtest is below the limit. */
  lemma {:induction false} DrawdownBreakerMatchesReport(m: Engine.Rules, f: Engine.Strategy, bars: seq<Bar>,
      st: Engine.State, maxDd: real, limits: Risk.RiskLimits, a: Risk.Account)
    requires m.initialCapital == a.capital == a.peakCapital > 0.0 && limits.maxDrawdownPct > 0.0
    requires Engine.RunTo(m, f, bars, Engine.PointCount(bars)) == Ok(st)
    requires Metrics.IsMaxDrawdown(m.initialCapital, st.equity, maxDd)
    ensures maxDd < limits.maxDrawdownPct <==>
      forall j :: 0 <= j <= |st.trades| ==>
        var b := Risk.AfterPnls(a, NetPnls(st.trades)[..j]);
        b.peakCapital != 0.0 && !Risk.DrawdownHit(limits, b)
  {
    CurveMatchesPath(m, f, bars, Engine.PointCount(bars), a);
    SameMaxDrawdown(a.capital, st.equity, TradePath(a, st.trades), maxDd);
    Risk.DrawdownCheckBoundsMetrics(limits, a, NetPnls(st.trades), maxDd);
  }

  // ---------------------------------------------------------------- losing streak

  /** Runs depend only on which results are positive. */
  lemma {:induction false} SameSignsSameRuns(a: seq<real>, b: seq<real>, n: nat, win: bool)
    requires |a| == |b| && forall k :: 0 <= k < |a| ==> (a[k] > 0.0 <==> b[k] > 0.0)
    requires Metrics.IsLongestRun(a, n, win)
    ensures Metrics.IsLongestRun(b, n, win)
  {
    var i: nat :| Metrics.IsRun(a, i, n, win);
    assert Metrics.IsRun(b, i, n, win);
    forall m: nat | m > n
      ensures !Metrics.HasRun(b, m, win)
    {
      if j: nat :| Metrics.IsRun(b, j, m, win) {
        assert Metrics.IsRun(a, j, m, win);
        assert Metrics.HasRun(a, m, win);
      }
    }
  }

  /** Across engine, metrics and kill switch: a kill switch fed the net results of a backtest over
      positive entry prices, none of them zero, meets its losing-streak condition at some trade
      exactly when the reported longest losing streak is at least N. */
  lemma {:induction false} StreakBreakerMatchesReport(cfg: Engine.BacktestConfig, trades: seq<Trade>, longest: nat,
                                   kill: KillSwitch.KillSwitchConfig)
    requires kill.consecutiveLossHalt >= 1
    requires forall k :: 0 <= k < |trades| ==>
      Engine.IsSettled(cfg, trades[k]) && trades[k].entry.entryPrice > 0.0 && trades[k].netPnl != 0.0
    requires Metrics.IsLongestRun(Returns(trades), longest, false)
    ensures KillSwitch.StreakTrips(kill, NetPnls(trades)) <==> longest >= kill.consecutiveLossHalt
  {
    forall k | 0 <= k < |trades|
      ensures Returns(trades)[k] > 0.0 <==> NetPnls(trades)[k] > 0.0
    {
      Engine.WinsBeyondBreakeven(cfg, trades[k].entry, trades[k].exitPrice);
      assert Engine.IsSettled(cfg, trades[k]);
    }
    SameSignsSameRuns(Returns(trades), NetPnls(trades), longest, false);
    KillSwitch.StreakTripsIffLongestLosingRun(kill, NetPnls(trades), longest);
  }
}
