/** `TechnicalAnalysisAgent._supertrend_signal`: a trailing line that ratchets behind the close
    and flips sides when the close reaches it. */
module Supertrend {
  import opened Common
  import opened BacktestTypes

  // ---------------------------------------------------------------- bands

  /** The widest of the bar's range and its gaps to the previous close; the first bar has no
      previous close and only its range counts. */
  function TrueRange(df: seq<Bar>, i: nat): real
    requires i < |df|
  {
    var range := df[i].high - df[i].low;
    if i == 0 then range else
      Max(range, Max(Abs(df[i].high - df[i - 1].close), Abs(df[i].low - df[i - 1].close)))
  }

  /** For a proper bar the true range is the height of the bar stretched to the previous close. */
  lemma {:induction false} TrueRangeIsHull(df: seq<Bar>, i: nat)
    requires 0 < i < |df| && df[i].low <= df[i].high
    ensures TrueRange(df, i) == Max(df[i].high, df[i - 1].close) - Min(df[i].low, df[i - 1].close)
  {
  }

  /** The true range is the largest of the bar's height and the distances of high and low from the
      previous close. */
  lemma {:induction false} TrueRangeIsWidest(df: seq<Bar>, i: nat)
    requires 0 < i < |df|
    ensures var high, low, last, tr := df[i].high, df[i].low, df[i - 1].close, TrueRange(df, i);
            && tr >= high - low && tr >= high - last && tr >= last - high && tr >= low - last && tr >= last - low
            && tr in {high - low, high - last, last - high, low - last, last - low}
  {
  }

  function RangeSum(df: seq<Bar>, i: nat, count: nat): real
    requires count <= i + 1 && i < |df|
  {
    if count == 0 then 0.0 else RangeSum(df, i, count - 1) + TrueRange(df, i + 1 - count)
  }

  /** Mean of the last `period` true ranges. */
  function AverageRange(df: seq<Bar>, period: Positive, i: nat): real
    requires period <= i < |df|
  {
    RangeSum(df, i, period) / period as real
  }

  function UpperBand(df: seq<Bar>, period: Positive, multiplier: real, i: nat): real
    requires period <= i < |df|
  {
    (df[i].high + df[i].low) / 2.0 + multiplier * AverageRange(df, period, i)
  }

  function LowerBand(df: seq<Bar>, period: Positive, multiplier: real, i: nat): real
    requires period <= i < |df|
  {
    (df[i].high + df[i].low) / 2.0 - multiplier * AverageRange(df, period, i)
  }

  lemma {:induction false} RangeSumNonnegative(df: seq<Bar>, i: nat, count: nat)
    requires count <= i + 1 && i < |df|
    requires forall j :: 0 <= j < |df| ==> df[j].low <= df[j].high
    ensures RangeSum(df, i, count) >= 0.0
  {
    if count == 0 {
    } else {
      RangeSumNonnegative(df, i, count - 1);
    }
  }

  function Repeated(x: real, n: nat): real
  {
    if n == 0 then 0.0 else Repeated(x, n - 1) + x
  }

  lemma {:induction false} OneMore(n: real, n': real, x: real)
    requires n' == n + 1.0
    ensures n' * x == n * x + x
  {
  }

  lemma {:induction false} RepeatedIsProduct(x: real, n: nat)
    ensures Repeated(x, n) == n as real * x
  {
    if n == 0 {
    } else {
      RepeatedIsProduct(x, n - 1);
      OneMore((n - 1) as real, n as real, x);
    }
  }

  lemma {:induction false} RangeSumBounds(df: seq<Bar>, i: nat, count: nat, lo: real, hi: real)
    requires count <= i + 1 && i < |df|
    requires forall j :: i + 1 - count <= j <= i ==> lo <= TrueRange(df, j) <= hi
    ensures Repeated(lo, count) <= RangeSum(df, i, count) <= Repeated(hi, count)
  {
    if count == 0 {
    } else {
      RangeSumBounds(df, i, count - 1, lo, hi);
    }
  }

  lemma {:induction false} MeanBounds(total: real, n: real, lo: real, hi: real)
    requires n > 0.0 && n * lo <= total <= n * hi
    ensures lo <= total / n <= hi
  {
    var q := total / n;
    assert q * n == total;
    OrderScales(q, lo, n);
    OrderScales(hi, q, n);
  }

  lemma {:induction false} RepeatedMean(total: real, n: Positive, lo: real, hi: real)
    requires Repeated(lo, n) <= total <= Repeated(hi, n)
    ensures lo <= total / n as real <= hi
  {
    RepeatedIsProduct(lo, n);
    RepeatedIsProduct(hi, n);
    MeanBounds(total, n as real, lo, hi);
  }

  /** The average lies between the smallest and the largest of the last `period` true ranges. */
  lemma {:induction false} AverageWithinWindow(df: seq<Bar>, period: Positive, i: nat, lo: real, hi: real)
    requires period <= i < |df|
    requires forall j :: i + 1 - period <= j <= i ==> lo <= TrueRange(df, j) <= hi
    ensures lo <= AverageRange(df, period, i) <= hi
  {
    RangeSumBounds(df, i, period, lo, hi);
    RepeatedMean(RangeSum(df, i, period), period, lo, hi);
  }

  lemma {:induction false} WindowSlides(df: seq<Bar>, i: nat, count: nat)
    requires 0 < count <= i + 1 && i + 1 < |df|
    ensures RangeSum(df, i + 1, count) == RangeSum(df, i, count) - TrueRange(df, i + 1 - count) + TrueRange(df, i + 1)
  {
    if count == 1 {
    } else {
      WindowSlides(df, i, count - 1);
    }
  }

  lemma {:induction false} MeanOfSlide(older: real, out: real, entering: real, n: real)
    requires n > 0.0
    ensures (older - out + entering) / n == older / n + (entering - out) / n
  {
    var x, y := older / n, (entering - out) / n;
    assert x * n == older && y * n == entering - out;
    QuotientIs(older - out + entering, n, x + y);
  }

  /** From one bar to the next the average gains the new true range's part and drops the oldest's. */
  lemma {:induction false} AverageSlides(df: seq<Bar>, period: Positive, i: nat)
    requires period <= i && i + 1 < |df|
    ensures AverageRange(df, period, i + 1) ==
      AverageRange(df, period, i) + (TrueRange(df, i + 1) - TrueRange(df, i + 1 - period)) / period as real
  {
    WindowSlides(df, i, period);
    MeanOfSlide(RangeSum(df, i, period), TrueRange(df, i + 1 - period), TrueRange(df, i + 1), period as real);
  }

  /** For proper bars and a nonnegative multiplier the bands enclose the bar's midpoint. */
  lemma {:induction false} BandsEncloseMidpoint(df: seq<Bar>, period: Positive, multiplier: real, i: nat)
    requires period <= i < |df| && multiplier >= 0.0
    requires forall j :: 0 <= j < |df| ==> df[j].low <= df[j].high
    ensures LowerBand(df, period, multiplier, i) <= (df[i].high + df[i].low) / 2.0
            <= UpperBand(df, period, multiplier, i)
    ensures LowerBand(df, period, multiplier, i) + UpperBand(df, period, multiplier, i) == df[i].high + df[i].low
    ensures UpperBand(df, period, multiplier, i) - LowerBand(df, period, multiplier, i) ==
      2.0 * (multiplier * AverageRange(df, period, i))
  {
    RangeSumNonnegative(df, i, period);
    ScaleLe(0.0, AverageRange(df, period, i), multiplier);
  }

  // ---------------------------------------------------------------- the recurrence

  /** What the recurrence reads: the series of closes and of both bands, from index `start` on. */
  datatype Series = Series(start: nat, close: seq<real>, upper: seq<real>, lower: seq<real>) {
    ghost predicate Valid() { |close| == |upper| == |lower| }
  }

  datatype Trend = Trend(line: real, up: bool)

  function TrendAt(s: Series, i: nat): Trend
    requires s.Valid() && s.start <= i < |s.close|
  {
    if i == s.start then Trend(s.lower[i], true) else
      var prev := TrendAt(s, i - 1);
      if prev.up then
        var line := Max(s.lower[i], prev.line);
        Trend(line, s.close[i] > line)
      else
        var line := Min(s.upper[i], prev.line);
        Trend(line, !(s.close[i] < line))
  }

  function SeriesOf(df: seq<Bar>, period: Positive, multiplier: real): (s: Series)
    ensures s.Valid() && s.start == period && |s.close| == |df|
  {
    Series(period,
           seq(|df|, i requires 0 <= i < |df| => df[i].close),
           seq(|df|, i requires 0 <= i < |df| => if i < period then 0.0 else UpperBand(df, period, multiplier, i)),
           seq(|df|, i requires 0 <= i < |df| => if i < period then 0.0 else LowerBand(df, period, multiplier, i)))
  }

  /** Line and direction of the frame at bar `i`. */
  function TrendOf(df: seq<Bar>, period: Positive, multiplier: real, i: nat): Trend
    requires period <= i < |df|
  {
    TrendAt(SeriesOf(df, period, multiplier), i)
  }

  /** Fills both arrays from `start` on; the entries before it stay unassigned. */
  method FillSupertrend(s: Series, supertrend: array<real>, direction: array<int>)
    requires s.Valid() && supertrend.Length == direction.Length == |s.close|
    modifies supertrend, direction
    ensures forall i :: s.start <= i < |s.close| ==>
      supertrend[i] == TrendAt(s, i).line && direction[i] == (if TrendAt(s, i).up then 1 else -1)
    ensures forall i :: 0 <= i < s.start && i < |s.close| ==>
      supertrend[i] == old(supertrend[i]) && direction[i] == old(direction[i])
  {
    var i := s.start;
    while i < |s.close|
      invariant s.start <= i
      invariant forall j :: s.start <= j < i && j < |s.close| ==>
        supertrend[j] == TrendAt(s, j).line && direction[j] == (if TrendAt(s, j).up then 1 else -1)
      invariant forall j :: 0 <= j < s.start && j < |s.close| ==>
        supertrend[j] == old(supertrend[j]) && direction[j] == old(direction[j])
    {
      if i == s.start {
        supertrend[i] := s.lower[i];
        direction[i] := 1;
      } else {
        var prevSt := supertrend[i - 1];
        var prevDir := direction[i - 1];
        if prevDir == 1 {
          supertrend[i] := Max(s.lower[i], prevSt);
          direction[i] := if s.close[i] > supertrend[i] then 1 else -1;
        } else {
          supertrend[i] := Min(s.upper[i], prevSt);
          direction[i] := if s.close[i] < supertrend[i] then -1 else 1;
        }
      }
      i := i + 1;
    }
  }

  /** A direction entry the loop never wrote: not a number, so `int()` of it raises. */
  const UNASSIGNED := 0

  /** Score of the last two directions: a full point on a flip, half a point otherwise. */
  function ScoreOf(cur: Trend, prev: Trend): real {
    if cur.up && !prev.up then 1.0
    else if !cur.up && prev.up then -1.0
    else if cur.up then 0.5
    else -0.5
  }

  /** With exactly `period + 1` bars only one direction was assigned, and reading the one before
      it raises although the length guard let the frame pass. */
  method SupertrendSignal(df: seq<Bar>, period: Positive, multiplier: real) returns (r: Result<real>)
    ensures |df| < period + 1 ==> r == Ok(0.0)
    ensures |df| == period + 1 ==> r.Raised?
    ensures |df| > period + 1 ==>
      r == Ok(ScoreOf(TrendOf(df, period, multiplier, |df| - 1), TrendOf(df, period, multiplier, |df| - 2)))
  {
    if |df| < period + 1 {
      return Ok(0.0);
    }
    var s := SeriesOf(df, period, multiplier);
    var supertrend := new real[|df|](_ => 0.0);
    var direction := new int[|df|](_ => UNASSIGNED);
    FillSupertrend(s, supertrend, direction);
    var currDir := direction[|df| - 1];
    var prevDir := direction[|df| - 2];
    if prevDir == UNASSIGNED {
      return Raised;
    }
    if currDir == 1 && prevDir == -1 {
      r := Ok(1.0);
    } else if currDir == -1 && prevDir == 1 {
      r := Ok(-1.0);
    } else if currDir == 1 {
      r := Ok(0.5);
    } else {
      r := Ok(-0.5);
    }
  }

  // ---------------------------------------------------------------- closed form

  /** The direction is `up` at every bar from `a` up to but not including `b`. */
  ghost predicate StaysFrom(s: Series, a: nat, b: nat, up: bool)
    requires s.Valid() && s.start <= a <= b <= |s.close|
  {
    forall j :: a <= j < b ==> TrendAt(s, j).up == up
  }

  /** `m` is the largest of the line at `a` and the lower bands after `a`, up to `b`. */
  ghost predicate IsHighestSupport(s: Series, a: nat, b: nat, m: real)
    requires s.Valid() && s.start <= a <= b < |s.close|
  {
    && m >= TrendAt(s, a).line
    && (forall j :: a < j <= b ==> m >= s.lower[j])
    && (m == TrendAt(s, a).line || exists j :: a < j <= b && m == s.lower[j])
  }

  /** `m` is the smallest of the line at `a` and the upper bands after `a`, up to `b`. */
  ghost predicate IsLowestResistance(s: Series, a: nat, b: nat, m: real)
    requires s.Valid() && s.start <= a <= b < |s.close|
  {
    && m <= TrendAt(s, a).line
    && (forall j :: a < j <= b ==> m <= s.upper[j])
    && (m == TrendAt(s, a).line || exists j :: a < j <= b && m == s.upper[j])
  }

  /** While the direction stays up, the line is the highest support since; while it stays down,
      the lowest resistance since. */
  lemma {:induction false} LineIsRunningExtreme(s: Series, a: nat, i: nat, up: bool)
    requires s.Valid() && s.start <= a <= i < |s.close|
    requires StaysFrom(s, a, i, up)
    ensures up ==> IsHighestSupport(s, a, i, TrendAt(s, i).line)
    ensures !up ==> IsLowestResistance(s, a, i, TrendAt(s, i).line)
  {
    if a == i {
    } else {
      LineIsRunningExtreme(s, a, i - 1, up);
      assert TrendAt(s, i - 1).up == up;
    }
  }

  /** An up-run ends at the first bar whose close does not exceed every support since its start,
      and a down-run at the first whose close does not stay below every resistance. */
  lemma {:induction false} FlipsAtFirstBreach(s: Series, a: nat, i: nat, up: bool)
    requires s.Valid() && s.start <= a < i < |s.close|
    requires StaysFrom(s, a, i, up)
    ensures up ==> (TrendAt(s, i).up <==>
      s.close[i] > TrendAt(s, a).line && forall j :: a < j <= i ==> s.close[i] > s.lower[j])
    ensures !up ==> (!TrendAt(s, i).up <==>
      s.close[i] < TrendAt(s, a).line && forall j :: a < j <= i ==> s.close[i] < s.upper[j])
  {
    LineIsRunningExtreme(s, a, i, up);
    assert TrendAt(s, i - 1).up == up;
  }

  /** After the first bar the close is never on the wrong side of the line, and strictly on its
      side unless the direction has just flipped. */
  lemma {:induction false} CloseOnItsSide(s: Series, i: nat)
    requires s.Valid() && s.start < i < |s.close|
    ensures TrendAt(s, i).up ==> s.close[i] >= TrendAt(s, i).line
    ensures !TrendAt(s, i).up ==> s.close[i] <= TrendAt(s, i).line
    ensures TrendAt(s, i).up == TrendAt(s, i - 1).up ==> s.close[i] != TrendAt(s, i).line
  {
  }

  /** The line only moves towards the price: up to the next flip it never falls under an up
      direction and never rises under a down direction. */
  lemma {:induction false} LineRatchets(s: Series, a: nat, i: nat, up: bool)
    requires s.Valid() && s.start <= a <= i < |s.close|
    requires StaysFrom(s, a, i, up)
    ensures up ==> forall j :: a <= j <= i ==> TrendAt(s, j).line <= TrendAt(s, i).line
    ensures !up ==> forall j :: a <= j <= i ==> TrendAt(s, j).line >= TrendAt(s, i).line
  {
    if a == i {
    } else {
      LineRatchets(s, a, i - 1, up);
      assert TrendAt(s, i - 1).up == up;
    }
  }

  /** The score is +1 or -1 exactly when the close of the last bar breached the previous line,
      tightened by that bar's band. */
  lemma {:induction false} FullScoreIffBreach(s: Series)
    requires s.Valid() && s.start + 1 < |s.close|
    ensures var i := |s.close| - 1;
            var prev := TrendAt(s, i - 1);
            var score := ScoreOf(TrendAt(s, i), prev);
            && (score == 1.0 || score == 0.5 || score == -0.5 || score == -1.0)
            && (score == -1.0 <==> prev.up && (s.close[i] <= prev.line || s.close[i] <= s.lower[i]))
            && (score == 1.0 <==> !prev.up && (s.close[i] >= prev.line || s.close[i] >= s.upper[i]))
            && (score > 0.0 <==> TrendAt(s, i).up)
  {
    CloseOnItsSide(s, |s.close| - 1);
  }

  // ---------------------------------------------------------------- the same on a data frame

  /** The true ranges of `count` successive bars from index `from` on. */
  function TrueRanges(df: seq<Bar>, from: nat, count: nat): seq<real>
    requires from + count <= |df|
  {
    seq(count, k requires 0 <= k < count => TrueRange(df, from + k))
  }

  lemma {:induction false} SumPrepend(x: real, s: seq<real>)
    ensures Sum([x] + s) == x + Sum(s)
  {
    if s == [] {
      assert [x] + s == [x];
      assert [x][..0] == [];
    } else {
      SumPrepend(x, s[..|s| - 1]);
      assert ([x] + s)[..|s|] == [x] + s[..|s| - 1];
    }
  }

  lemma {:induction false} RangeSumIsSum(df: seq<Bar>, i: nat, count: nat)
    requires count <= i + 1 && i < |df|
    ensures RangeSum(df, i, count) == Sum(TrueRanges(df, i + 1 - count, count))
  {
    if count == 0 {
    } else {
      RangeSumIsSum(df, i, count - 1);
      var rest := TrueRanges(df, i + 2 - count, count - 1);
      assert TrueRanges(df, i + 1 - count, count) == [TrueRange(df, i + 1 - count)] + rest;
      SumPrepend(TrueRange(df, i + 1 - count), rest);
    }
  }

  /** The average range is the mean of the last `period` true ranges. */
  lemma {:induction false} AverageIsMean(df: seq<Bar>, period: Positive, i: nat)
    requires period <= i < |df|
    ensures AverageRange(df, period, i) == Sum(TrueRanges(df, i + 1 - period, period)) / period as real
  {
    RangeSumIsSum(df, i, period);
  }

  /** What the bands of a bar are: its midpoint and, on either side, the multiple of the mean of the
      last `period` true ranges. */
  predicate AreBands(df: seq<Bar>, period: Positive, multiplier: real, i: nat, lower: real, upper: real)
    requires period <= i < |df|
  {
    var mean := Sum(TrueRanges(df, i + 1 - period, period)) / period as real;
    && upper == (df[i].high + df[i].low) / 2.0 + multiplier * mean
    && lower == (df[i].high + df[i].low) / 2.0 - multiplier * mean
  }

  /** The series that the signal runs on are the closes and the two bands of the frame. */
  lemma {:induction false} SeriesOfFrame(df: seq<Bar>, period: Positive, multiplier: real, i: nat)
    requires period <= i < |df|
    ensures var s := SeriesOf(df, period, multiplier);
            s.close[i] == df[i].close && AreBands(df, period, multiplier, i, s.lower[i], s.upper[i])
  {
    AverageIsMean(df, period, i);
  }

  /** The trend of a frame from bar to bar: it starts upward on the lower band; an up-trend raises
      its line to the lower band and goes on while the close is above it; a down-trend lowers its
      line to the upper band and goes on while the close is below it. */
  lemma {:induction false} FrameTrend(df: seq<Bar>, period: Positive, multiplier: real, i: nat)
      returns (lower: real, upper: real)
    requires period <= i < |df|
    ensures AreBands(df, period, multiplier, i, lower, upper)
    ensures var t := TrendOf(df, period, multiplier, i);
            if i == period then t.up && t.line == lower
            else
              var prev := TrendOf(df, period, multiplier, i - 1);
              if prev.up then
                t.line == (if lower > prev.line then lower else prev.line) && (t.up <==> df[i].close > t.line)
              else
                t.line == (if upper < prev.line then upper else prev.line) && (!t.up <==> df[i].close < t.line)
  {
    SeriesOfFrame(df, period, multiplier, i);
    lower, upper := LowerBand(df, period, multiplier, i), UpperBand(df, period, multiplier, i);
  }

  /** The signal of a frame long enough: a full point on a flip at the last bar, half a point
      otherwise, positive in an up-trend. */
  lemma {:induction false} FrameScore(df: seq<Bar>, period: Positive, multiplier: real)
    requires |df| > period + 1
    ensures var t, prev := TrendOf(df, period, multiplier, |df| - 1), TrendOf(df, period, multiplier, |df| - 2);
            ScoreOf(t, prev) == (if t.up == prev.up then 0.5 else 1.0) * (if t.up then 1.0 else -1.0)
  {
  }

  lemma {:induction false} BandsOfSeries(df: seq<Bar>, period: Positive, multiplier: real)
    ensures var s := SeriesOf(df, period, multiplier);
            && (forall j :: period <= j < |df| ==> s.lower[j] == LowerBand(df, period, multiplier, j))
            && (forall j :: period <= j < |df| ==> s.upper[j] == UpperBand(df, period, multiplier, j))
            && (forall j :: period <= j < |df| ==> s.close[j] == df[j].close)
  {
  }

  /** While a frame stays in one trend from bar `a` on, its line at bar `i` is the highest of the
      line at `a` and the lower bands since, or the lowest of it and the upper bands since. */
  lemma {:induction false} FrameLineIsRunningExtreme(df: seq<Bar>, period: Positive, multiplier: real,
      a: nat, i: nat, up: bool)
    requires period <= a <= i < |df|
    requires forall j :: a <= j < i ==> TrendOf(df, period, multiplier, j).up == up
    ensures var m := TrendOf(df, period, multiplier, i).line;
            var start := TrendOf(df, period, multiplier, a).line;
            && (up ==> m >= start && (forall j :: a < j <= i ==> m >= LowerBand(df, period, multiplier, j))
                       && (m == start || exists j :: a < j <= i && m == LowerBand(df, period, multiplier, j)))
            && (!up ==> m <= start && (forall j :: a < j <= i ==> m <= UpperBand(df, period, multiplier, j))
                        && (m == start || exists j :: a < j <= i && m == UpperBand(df, period, multiplier, j)))
  {
    var s := SeriesOf(df, period, multiplier);
    assert StaysFrom(s, a, i, up) by {
      assert forall j :: a <= j < i ==> TrendAt(s, j) == TrendOf(df, period, multiplier, j);
    }
    LineIsRunningExtreme(s, a, i, up);
    BandsOfSeries(df, period, multiplier);
  }

  /** A frame's up-trend goes on exactly while the close exceeds every support since its start, and
      its down-trend while the close stays below every resistance. */
  lemma {:induction false} FrameFlipsAtFirstBreach(df: seq<Bar>, period: Positive, multiplier: real,
      a: nat, i: nat, up: bool)
    requires period <= a < i < |df|
    requires forall j :: a <= j < i ==> TrendOf(df, period, multiplier, j).up == up
    ensures var start := TrendOf(df, period, multiplier, a).line;
            var close := df[i].close;
            var t := TrendOf(df, period, multiplier, i);
            && (up ==> (t.up <==>
                  close > start && forall j :: a < j <= i ==> close > LowerBand(df, period, multiplier, j)))
            && (!up ==> (!t.up <==>
                  close < start && forall j :: a < j <= i ==> close < UpperBand(df, period, multiplier, j)))
  {
    var s := SeriesOf(df, period, multiplier);
    assert StaysFrom(s, a, i, up) by {
      assert forall j :: a <= j < i ==> TrendAt(s, j) == TrendOf(df, period, multiplier, j);
    }
    FlipsAtFirstBreach(s, a, i, up);
    BandsOfSeries(df, period, multiplier);
  }
}
