/** `PerformanceMetrics.calculate`: one-pass statistics over the trades and the equity curve. */
module Metrics {
  import opened Common
  import opened BacktestTypes

  // ---------------------------------------------------------------- drawdown

  /** The running peak after the first `n` points of the curve, starting from the initial capital. */
  function PeakTo(initial: real, equity: seq<real>, n: nat): real
    requires n <= |equity|
  {
    if n == 0 then initial else Max(equity[n - 1], PeakTo(initial, equity, n - 1))
  }

  lemma {:induction false} PeakIsMaximum(initial: real, equity: seq<real>, n: nat)
    requires n <= |equity|
    ensures PeakTo(initial, equity, n) >= initial
    ensures forall i :: 0 <= i < n ==> equity[i] <= PeakTo(initial, equity, n)
    ensures PeakTo(initial, equity, n) == initial || exists i :: 0 <= i < n && equity[i] == PeakTo(initial, equity, n)
  {
    if n == 0 {
    } else {
      PeakIsMaximum(initial, equity, n - 1);
    }
  }

  function DropFrom(peak: real, value: real): real
    requires peak != 0.0
  {
    (peak - value) / peak * 100.0
  }

  /** Percentage by which point `j` lies below the peak up to and including `j`. */
  function DrawdownAt(initial: real, equity: seq<real>, j: nat): real
    requires j < |equity| && initial > 0.0
  {
    PeakIsMaximum(initial, equity, j + 1);
    DropFrom(PeakTo(initial, equity, j + 1), equity[j])
  }

  ghost predicate IsMaxDrawdown(initial: real, equity: seq<real>, dd: real)
    requires initial > 0.0
  {
    && dd >= 0.0
    && (forall j :: 0 <= j < |equity| ==> DrawdownAt(initial, equity, j) <= dd)
    && (dd == 0.0 || exists j :: 0 <= j < |equity| && DrawdownAt(initial, equity, j) == dd)
  }

  method MaxDrawdown(initial: real, equity: seq<real>) returns (maxDd: real)
    requires initial > 0.0
    ensures IsMaxDrawdown(initial, equity, maxDd)
  {
    var peak := initial;
    maxDd := 0.0;
    for j := 0 to |equity|
      invariant peak == PeakTo(initial, equity, j)
      invariant maxDd >= 0.0
      invariant forall k :: 0 <= k < j ==> DrawdownAt(initial, equity, k) <= maxDd
      invariant maxDd == 0.0 || exists k :: 0 <= k < j && DrawdownAt(initial, equity, k) == maxDd
    {
      var eq := equity[j];
      if eq > peak {
        peak := eq;
      }
      PeakIsMaximum(initial, equity, j + 1);
      var dd := (peak - eq) / peak * 100.0;
      assert dd == DrawdownAt(initial, equity, j);
      if dd > maxDd {
        maxDd := dd;
      }
    }
  }

  /** Loss in percent from point `i` to a later point `j` of the curve. */
  function PairLoss(equity: seq<real>, i: nat, j: nat): real
    requires i < |equity| && j < |equity| && equity[i] > 0.0
  {
    (equity[i] - equity[j]) / equity[i] * 100.0
  }

  /** `dd` is the largest loss from any point of the curve to the same or a later point. */
  ghost predicate IsWorstPair(curve: seq<real>, dd: real) {
    && (forall i, j :: 0 <= i <= j < |curve| && curve[i] > 0.0 ==> PairLoss(curve, i, j) <= dd)
    && (exists i, j :: 0 <= i <= j < |curve| && curve[i] > 0.0 && PairLoss(curve, i, j) == dd)
  }

  lemma {:induction false} FractionOrder(a: real, p: real, e: real, x: real, y: real)
    requires 0.0 < a <= p && e >= 0.0
    requires x * a == e && y * p == e
    ensures y <= x
  {
  }

  /** Falling to `e >= 0` costs a larger share of a higher starting value. */
  lemma {:induction false} LossGrowsWithBase(a: real, p: real, e: real)
    requires 0.0 < a <= p && e >= 0.0
    ensures (a - e) / a * 100.0 <= (p - e) / p * 100.0
  {
    var x, y := e / a, e / p;
    FractionOrder(a, p, e, x, y);
    QuotientIs(a - e, a, 1.0 - x);
    QuotientIs(p - e, p, 1.0 - y);
  }

  /** The peak at point `j` of the curve is the initial capital or a point no later than `j`. */
  lemma {:induction false} PeakIsEarlierPoint(initial: real, equity: seq<real>, j: nat)
    requires j < |equity|
    ensures var curve := [initial] + equity;
            (forall i :: 0 <= i <= j + 1 ==> curve[i] <= PeakTo(initial, equity, j + 1))
            && (exists i :: 0 <= i <= j + 1 && curve[i] == PeakTo(initial, equity, j + 1))
  {
    var curve := [initial] + equity;
    PeakIsMaximum(initial, equity, j + 1);
    assert forall i :: 0 < i <= j + 1 ==> curve[i] == equity[i - 1];
    assert curve[0] == initial;
    if i :| 0 <= i < j + 1 && equity[i] == PeakTo(initial, equity, j + 1) {
      assert curve[i + 1] == equity[i];
    }
  }

  /** A pair of the curve loses no more than the drawdown at its later point. */
  lemma {:induction false} PairWithinDrawdown(initial: real, equity: seq<real>, i: nat, j: nat)
    requires initial > 0.0 && i <= j + 1 && j < |equity| && equity[j] >= 0.0
    requires ([initial] + equity)[i] > 0.0
    ensures PairLoss([initial] + equity, i, j + 1) <= DrawdownAt(initial, equity, j)
  {
    var curve := [initial] + equity;
    assert curve[j + 1] == equity[j];
    PeakIsEarlierPoint(initial, equity, j);
    LossGrowsWithBase(curve[i], PeakTo(initial, equity, j + 1), equity[j]);
  }

  lemma {:induction false} DropWithinWhole(peak: real, value: real)
    requires peak > 0.0
    ensures DropFrom(peak, value) <= 100.0 <==> value >= 0.0
  {
    var q := (peak - value) / peak;
    assert q * peak == peak - value;
    OrderScales(1.0, q, peak);
  }

  /** The maximum drawdown lies in [0, 100] exactly when the curve never falls below zero. */
  lemma {:induction false} DrawdownWithinWholeIff(initial: real, equity: seq<real>, dd: real)
    requires initial > 0.0 && IsMaxDrawdown(initial, equity, dd)
    ensures 0.0 <= dd <= 100.0 <==> forall k :: 0 <= k < |equity| ==> equity[k] >= 0.0
  {
    forall k | 0 <= k < |equity|
      ensures DrawdownAt(initial, equity, k) <= 100.0 <==> equity[k] >= 0.0
    {
      PeakIsMaximum(initial, equity, k + 1);
      DropWithinWhole(PeakTo(initial, equity, k + 1), equity[k]);
    }
  }

  /** The one-pass result is the maximum over all pairs i <= j of the percentage lost from point i
      to point j, the initial capital counting as the first point. */
  lemma {:induction false} DrawdownIsWorstPair(initial: real, equity: seq<real>, dd: real)
    requires initial > 0.0
    requires forall k :: 0 <= k < |equity| ==> equity[k] >= 0.0
    requires IsMaxDrawdown(initial, equity, dd)
    ensures 0.0 <= dd <= 100.0
    ensures IsWorstPair([initial] + equity, dd)
  {
    var curve := [initial] + equity;
    DrawdownWithinWholeIff(initial, equity, dd);
    assert forall k :: 0 < k < |curve| ==> curve[k] == equity[k - 1];
    forall i, j | 0 <= i <= j < |curve| && curve[i] > 0.0
      ensures PairLoss(curve, i, j) <= dd
    {
      if j > 0 {
        PairWithinDrawdown(initial, equity, i, j - 1);
        assert DrawdownAt(initial, equity, j - 1) <= dd;
      }
    }
    if dd == 0.0 {
      assert PairLoss(curve, 0, 0) == dd;
    } else {
      var j :| 0 <= j < |equity| && DrawdownAt(initial, equity, j) == dd;
      PeakIsMaximum(initial, equity, j + 1);
      PeakIsEarlierPoint(initial, equity, j);
      var i :| 0 <= i <= j + 1 && curve[i] == PeakTo(initial, equity, j + 1);
      assert PairLoss(curve, i, j + 1) == dd;
    }
  }

  /** A first point that repeats the initial capital adds no new pair. */
  lemma {:induction false} WorstPairOfCurve(initial: real, equity: seq<real>, dd: real)
    requires equity != [] && equity[0] == initial && IsWorstPair([initial] + equity, dd)
    ensures IsWorstPair(equity, dd)
  {
    var curve := [initial] + equity;
    forall i, j | 0 <= i <= j < |equity| && equity[i] > 0.0
      ensures PairLoss(equity, i, j) <= dd
    {
      assert PairLoss(equity, i, j) == PairLoss(curve, i + 1, j + 1);
    }
    var i, j :| 0 <= i <= j < |curve| && curve[i] > 0.0 && PairLoss(curve, i, j) == dd;
    var i', j' := if i == 0 then 0 else i - 1, if j == 0 then 0 else j - 1;
    assert curve[i] == equity[i'] && curve[j] == equity[j'];
    assert PairLoss(equity, i', j') == dd;
  }

  // ---------------------------------------------------------------- profit and loss

  function GrossProfit(pnls: seq<real>): (g: real)
    ensures g >= 0.0
  {
    if pnls == [] then 0.0 else
      GrossProfit(pnls[..|pnls| - 1]) + (if pnls[|pnls| - 1] > 0.0 then pnls[|pnls| - 1] else 0.0)
  }

  /** The size of all negative results together. */
  function GrossLoss(pnls: seq<real>): (g: real)
    ensures g >= 0.0
  {
    if pnls == [] then 0.0 else
      GrossLoss(pnls[..|pnls| - 1]) + (if pnls[|pnls| - 1] < 0.0 then -pnls[|pnls| - 1] else 0.0)
  }

  function Wins(rs: seq<real>): seq<real> {
    if rs == [] then [] else Wins(rs[..|rs| - 1]) + (if rs[|rs| - 1] > 0.0 then [rs[|rs| - 1]] else [])
  }

  function Losses(rs: seq<real>): seq<real> {
    if rs == [] then [] else Losses(rs[..|rs| - 1]) + (if rs[|rs| - 1] <= 0.0 then [rs[|rs| - 1]] else [])
  }

  lemma {:induction false} ProfitIsSumOfWins(pnls: seq<real>)
    ensures GrossProfit(pnls) == Sum(Wins(pnls))
  {
    if pnls == [] {
    } else {
      var init, x := pnls[..|pnls| - 1], pnls[|pnls| - 1];
      ProfitIsSumOfWins(init);
      SumAppend(Wins(init), x);
      assert Wins(init) + [] == Wins(init);
    }
  }

  lemma {:induction false} LossIsSumOfLosses(pnls: seq<real>)
    ensures GrossLoss(pnls) == -Sum(Losses(pnls))
  {
    if pnls == [] {
    } else {
      var init, x := pnls[..|pnls| - 1], pnls[|pnls| - 1];
      LossIsSumOfLosses(init);
      SumAppend(Losses(init), x);
      assert Losses(init) + [] == Losses(init);
    }
  }

  lemma {:induction false} GrossFiguresBalance(pnls: seq<real>)
    ensures GrossProfit(pnls) - GrossLoss(pnls) == Sum(pnls)
  {
    if pnls == [] {
    } else {
      GrossFiguresBalance(pnls[..|pnls| - 1]);
    }
  }

  /** Gross profit and loss are the sums of the results on either side of zero. */
  lemma {:induction false} ProfitMinusLoss(pnls: seq<real>)
    ensures GrossProfit(pnls) - GrossLoss(pnls) == Sum(pnls)
    ensures GrossProfit(pnls) == Sum(Wins(pnls)) && GrossLoss(pnls) == -Sum(Losses(pnls))
  {
    ProfitIsSumOfWins(pnls);
    LossIsSumOfLosses(pnls);
    GrossFiguresBalance(pnls);
  }

  lemma {:induction false} NoLossNoGrossLoss(pnls: seq<real>)
    ensures GrossLoss(pnls) == 0.0 <==> forall k :: 0 <= k < |pnls| ==> pnls[k] >= 0.0
  {
    if pnls == [] {
    } else {
      NoLossNoGrossLoss(pnls[..|pnls| - 1]);
      assert forall k :: 0 <= k < |pnls| - 1 ==> pnls[..|pnls| - 1][k] == pnls[k];
    }
  }

  // ---------------------------------------------------------------- averages

  /** The mean, and 0 for an empty list. */
  function MeanOrZero(s: seq<real>): real {
    if s == [] then 0.0 else Sum(s) / |s| as real
  }

  lemma {:induction false} SplitAtZero(wins: seq<real>, losses: seq<real>, r: real)
    ensures multiset(wins + (if r > 0.0 then [r] else [])) + multiset(losses + (if r <= 0.0 then [r] else []))
            == multiset(wins) + multiset(losses) + multiset{r}
  {
  }

  lemma {:induction false} WinsArePositive(rs: seq<real>)
    ensures forall w :: w in Wins(rs) ==> w > 0.0
    ensures forall l :: l in Losses(rs) ==> l <= 0.0
  {
    if rs == [] {
    } else {
      WinsArePositive(rs[..|rs| - 1]);
    }
  }

  /** Wins and losses together are the returns, split at zero. */
  lemma {:induction false} WinsAndLossesAreReturns(rs: seq<real>)
    ensures multiset(Wins(rs)) + multiset(Losses(rs)) == multiset(rs)
    ensures (forall w :: w in Wins(rs) ==> w > 0.0) && (forall l :: l in Losses(rs) ==> l <= 0.0)
  {
    WinsArePositive(rs);
    if rs == [] {
    } else {
      var init, r := rs[..|rs| - 1], rs[|rs| - 1];
      WinsAndLossesAreReturns(init);
      SplitAtZero(Wins(init), Losses(init), r);
      assert rs == init + [r];
    }
  }

  lemma {:induction false} WinsAndLossesPartition(rs: seq<real>)
    ensures |Wins(rs)| + |Losses(rs)| == |rs|
    ensures Sum(Wins(rs)) + Sum(Losses(rs)) == Sum(rs)
  {
    if rs == [] {
    } else {
      var init, r := rs[..|rs| - 1], rs[|rs| - 1];
      WinsAndLossesPartition(init);
      SumAppend(Wins(init), r);
      SumAppend(Losses(init), r);
      assert Wins(init) + [] == Wins(init) && Losses(init) + [] == Losses(init);
    }
  }

  // ---------------------------------------------------------------- streaks

  predicate IsRun(rs: seq<real>, i: nat, n: nat, win: bool) {
    i + n <= |rs| && forall k :: i <= k < i + n ==> (rs[k] > 0.0) == win
  }

  /** Some window of `n` successive returns consists of losses (`win` false) or wins only. */
  ghost predicate HasRun(rs: seq<real>, n: nat, win: bool) {
    exists i: nat :: IsRun(rs, i, n, win)
  }

  ghost predicate IsLongestRun(rs: seq<real>, n: nat, win: bool) {
    HasRun(rs, n, win) && forall m: nat :: m > n ==> !HasRun(rs, m, win)
  }

  /** Length of the run of losses (or wins) that the list ends with. */
  function TrailingRun(rs: seq<real>, win: bool): (n: nat)
    ensures n <= |rs|
  {
    if rs == [] || (rs[|rs| - 1] > 0.0) != win then 0 else TrailingRun(rs[..|rs| - 1], win) + 1
  }

  lemma {:induction false} TrailingRunIsLongestSuffix(rs: seq<real>, win: bool, n: nat)
    ensures n <= TrailingRun(rs, win) <==> n <= |rs| && IsRun(rs, |rs| - n, n, win)
  {
    if rs != [] && (rs[|rs| - 1] > 0.0) == win && 0 < n <= |rs| {
      var init := rs[..|rs| - 1];
      TrailingRunIsLongestSuffix(init, win, n - 1);
      assert forall k :: 0 <= k < |init| ==> init[k] == rs[k];
      assert IsRun(init, |init| - (n - 1), n - 1, win) <==> IsRun(rs, |rs| - n, n, win);
    } else if 0 < n <= |rs| {
      assert !IsRun(rs, |rs| - n, n, win) by { assert (rs[|rs| - 1] > 0.0) != win; }
    }
  }

  /** A run of the longer list either lies in the shorter one or is the trailing run. */
  lemma {:induction false} LongestRunExtends(rs: seq<real>, win: bool)
    requires rs != []
    ensures forall m: nat :: HasRun(rs, m, win) <==> HasRun(rs[..|rs| - 1], m, win) || m <= TrailingRun(rs, win)
  {
    var init := rs[..|rs| - 1];
    forall m: nat
      ensures HasRun(rs, m, win) <==> HasRun(init, m, win) || m <= TrailingRun(rs, win)
    {
      TrailingRunIsLongestSuffix(rs, win, m);
      if i: nat :| IsRun(rs, i, m, win) {
        if i + m < |rs| {
          assert IsRun(init, i, m, win);
        }
      }
      if i: nat :| IsRun(init, i, m, win) {
        assert forall k :: i <= k < i + m ==> init[k] == rs[k];
        assert IsRun(rs, i, m, win);
      }
    }
  }

  method Streaks(rs: seq<real>) returns (maxWins: nat, maxLosses: nat)
    ensures IsLongestRun(rs, maxWins, true)
    ensures IsLongestRun(rs, maxLosses, false)
  {
    maxWins, maxLosses := 0, 0;
    var curW, curL := 0, 0;
    assert IsRun(rs[..0], 0, 0, true) && IsRun(rs[..0], 0, 0, false);
    for i := 0 to |rs|
      invariant curW == TrailingRun(rs[..i], true) && curL == TrailingRun(rs[..i], false)
      invariant IsLongestRun(rs[..i], maxWins, true)
      invariant IsLongestRun(rs[..i], maxLosses, false)
    {
      assert rs[..i + 1][..i] == rs[..i];
      if rs[i] > 0.0 {
        curW := curW + 1;
        curL := 0;
        maxWins := if maxWins > curW then maxWins else curW;
      } else {
        curL := curL + 1;
        curW := 0;
        maxLosses := if maxLosses > curL then maxLosses else curL;
      }
      LongestRunExtends(rs[..i + 1], true);
      LongestRunExtends(rs[..i + 1], false);
    }
    assert rs[..|rs|] == rs;
  }

  // ---------------------------------------------------------------- the whole report

  function FactorOf(profit: real, loss: real): ProfitFactor {
    if loss != 0.0 then Ratio(profit / loss) else Infinite
  }

  /** Profit per unit of loss, infinite when nothing was lost. */
  predicate IsFactor(f: ProfitFactor, profit: real, loss: real) {
    if loss == 0.0 then f == Infinite else f.Ratio? && f.value * loss == profit
  }

  predicate IsPercentage(pct: real, part: nat, whole: nat) { pct * whole as real == 100.0 * part as real }

  predicate IsMean(m: real, s: seq<real>) {
    if s == [] then m == 0.0 else m * |s| as real == Sum(s)
  }

  predicate HasReturnFigures(r: BacktestResult, trades: seq<Trade>, equity: seq<real>, initial: real)
    requires initial > 0.0 && equity != []
  {
    && r.totalReturnPct == (equity[|equity| - 1] - initial) / initial * 100.0
    && IsFactor(r.profitFactor, GrossProfit(NetPnls(trades)), GrossLoss(NetPnls(trades)))
  }

  function EmptyReport(equity: seq<real>): BacktestResult {
    BacktestResult(0.0, 0.0, 0.0, Ratio(0.0), 0, 0.0, 0.0, 0.0, 0, 0, [], equity)
  }

  ghost predicate IsReport(r: BacktestResult, trades: seq<Trade>, equity: seq<real>, initial: real)
    requires initial > 0.0
  {
    && (trades == [] || equity == [] ==>
          r == BacktestResult(0.0, 0.0, 0.0, Ratio(0.0), 0, 0.0, 0.0, 0.0, 0, 0, [], equity))
    && (trades != [] && equity != [] ==>
          var rs := Returns(trades);
          && r.trades == trades && r.equityCurve == equity && r.totalTrades == |trades|
          && HasReturnFigures(r, trades, equity, initial)
          && IsMaxDrawdown(initial, equity, r.maxDrawdownPct)
          && IsPercentage(r.winRatePct, |Wins(rs)|, |rs|)
          && IsMean(r.avgTradeReturnPct, rs)
          && IsMean(r.avgWinPct, Wins(rs))
          && IsMean(r.avgLossPct, Losses(rs))
          && IsLongestRun(rs, r.maxConsecutiveWins, true)
          && IsLongestRun(rs, r.maxConsecutiveLosses, false))
  }

  lemma {:induction false} FactorIs(profit: real, loss: real)
    ensures IsFactor(FactorOf(profit, loss), profit, loss)
  {
    if loss != 0.0 {
      var q := profit / loss;
      assert q * loss == profit;
    }
  }

  lemma {:induction false} MeanIs(s: seq<real>)
    ensures IsMean(MeanOrZero(s), s)
  {
    if s != [] {
      var q := Sum(s) / |s| as real;
      assert q * |s| as real == Sum(s);
    }
  }

  function PercentOf(part: nat, whole: nat): real
    requires whole > 0
  {
    part as real / whole as real * 100.0
  }

  lemma {:induction false} PercentIs(part: nat, whole: nat)
    requires whole > 0
    ensures IsPercentage(PercentOf(part, whole), part, whole)
  {
    var q := part as real / whole as real;
    assert q * whole as real == part as real;
  }

  /** The total return divides by the initial capital, so a run with trades on no capital raises. */
  method Calculate(trades: seq<Trade>, equity: seq<real>, initial: real) returns (r: Result<BacktestResult>)
    requires initial >= 0.0
    ensures r.Raised? <==> trades != [] && equity != [] && initial == 0.0
    ensures r.Ok? && initial > 0.0 ==> IsReport(r.value, trades, equity, initial)
    ensures r.Ok? && initial == 0.0 ==> r.value == EmptyReport(equity)
  {
    if trades == [] || equity == [] {
      return Ok(EmptyReport(equity));
    }
    if initial == 0.0 {
      return Raised;
    }
    var finalCapital := equity[|equity| - 1];
    var totalReturn := (finalCapital - initial) / initial * 100.0;
    var maxDd := MaxDrawdown(initial, equity);
    var rs := Returns(trades);
    var wins := Wins(rs);
    var losses := Losses(rs);
    var winRate := PercentOf(|wins|, |rs|);
    var pnls := NetPnls(trades);
    var profit := GrossProfit(pnls);
    var loss := GrossLoss(pnls);
    var maxWins, maxLosses := Streaks(rs);
    FactorIs(profit, loss);
    PercentIs(|wins|, |rs|);
    MeanIs(rs);
    MeanIs(wins);
    MeanIs(losses);
    r := Ok(BacktestResult(
              totalReturn, maxDd, winRate, FactorOf(profit, loss), |trades|, MeanOrZero(rs),
              MeanOrZero(wins), MeanOrZero(losses), maxWins, maxLosses, trades, equity));
  }
}
