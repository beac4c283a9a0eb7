/** `WalkForwardOptimizer`: anchored train/test windows and the grid search over parameters. */
module WalkForward {
  import opened Common

  const DEFAULT_SPLITS: nat := 5
  const DEFAULT_TRAIN_RATIO: real := 0.70
  /** A window is kept only when its test part has more rows than this. */
  const MIN_TEST_ROWS: nat := 10

  datatype Fold<T> = Fold(train: seq<T>, test: seq<T>)

  // ---------------------------------------------------------------- windows

  lemma {:induction false} ProductGrows(a: nat, b: nat, m: nat)
    requires a <= b
    ensures a * m <= b * m
  {
  }

  lemma {:induction false} SplitFits(rows: nat, splits: nat, i: nat)
    requires i < splits
    ensures (i + 1) * (rows / splits) <= rows
  {
    var w := rows / splits;
    assert rows == w * splits + rows % splits;
    ProductGrows(i + 1, splits, w);
  }

  function FoldEnd(rows: nat, splits: nat, i: nat): (end: nat)
    requires i < splits
    ensures end <= rows
  {
    var w := rows / splits;
    SplitFits(rows, splits, i);
    (i + 1) * w
  }

  lemma {:induction false} CutWithin(end: nat, ratio: real)
    requires 0.0 <= ratio <= 1.0
    ensures 0.0 <= end as real * ratio <= end as real
  {
    ScaleLe(0.0, ratio, end as real);
    ScaleLe(ratio, 1.0, end as real);
  }

  /** Rows before the cut. Outside the ratios from 0 to 1 the cut lies outside the window. */
  function TrainRows(end: nat, ratio: real): (n: int)
    ensures 0.0 <= ratio <= 1.0 ==> 0 <= n <= end && n == (end as real * ratio).Floor
  {
    assert 0.0 <= ratio <= 1.0 ==> 0.0 <= end as real * ratio <= end as real by {
      if 0.0 <= ratio <= 1.0 { CutWithin(end, ratio); }
    }
    Truncate(end as real * ratio)
  }

  /** A slice bound: negative ones count from the end, and all are cut to the list. */
  function Bound(i: int, length: nat): (b: nat)
    ensures b <= length
  {
    if i < 0 then (if length + i > 0 then length + i else 0) else if i < length then i else length
  }

  /** The rows of a frame between two bounds, none when they are in the wrong order. */
  function Rows<T>(df: seq<T>, lo: int, hi: int): seq<T> {
    var a, b := Bound(lo, |df|), Bound(hi, |df|);
    if a <= b then df[a..b] else []
  }

  /** The window of fold `i`: rows [0, end) cut into training rows and the test rows after them. */
  function WindowOf<T>(df: seq<T>, splits: nat, ratio: real, i: nat): Fold<T>
    requires i < splits
  {
    var end := FoldEnd(|df|, splits, i);
    var cut := TrainRows(end, ratio);
    Fold(Rows(df, 0, cut), Rows(df, cut, end))
  }

  lemma {:induction false} WindowIsCut<T>(df: seq<T>, splits: nat, ratio: real, i: nat)
    requires i < splits && 0.0 <= ratio <= 1.0
    ensures var end := FoldEnd(|df|, splits, i);
            var cut := TrainRows(end, ratio);
            WindowOf(df, splits, ratio, i) == Fold(df[..cut], df[cut..end])
  {
  }

  predicate Kept<T>(f: Fold<T>) { |f.test| > MIN_TEST_ROWS }

  /** The kept windows of the first `n` folds, in order. */
  function KeptWindows<T>(df: seq<T>, splits: nat, ratio: real, n: nat): seq<Fold<T>>
    requires n <= splits
  {
    if n == 0 then [] else
      var f := WindowOf(df, splits, ratio, n - 1);
      KeptWindows(df, splits, ratio, n - 1) + (if Kept(f) then [f] else [])
  }

  /** The end of the training rows of a window. */
  function CutAt(start: int, end: int, ratio: real): int {
    Truncate(start as real + (end - start) as real * ratio)
  }

  lemma {:induction false} CutPoints<T>(df: seq<T>, splits: nat, ratio: real, i: nat, end: int)
    requires i < splits && end == (i + 1) * (|df| / splits)
    ensures var cut := CutAt(0, end, ratio);
            WindowOf(df, splits, ratio, i) == Fold(Rows(df, 0, cut), Rows(df, cut, end))
  {
    assert end == FoldEnd(|df|, splits, i);
    assert CutAt(0, end, ratio) == TrainRows(end, ratio);
  }

  /** For any number of splits and any ratio; a negative number of splits gives no fold. */
  method CreateWindows<T>(df: seq<T>, splits: int, ratio: real) returns (r: Result<seq<Fold<T>>>)
    ensures r.Raised? <==> splits == 0
    ensures splits < 0 ==> r == Ok([])
    ensures splits > 0 ==> r == Ok(KeptWindows(df, splits, ratio, splits))
  {
    if splits == 0 {
      return Raised;
    }
    var n := |df|;
    var windowSize := n / splits;
    var windows := [];
    var i := 0;
    while i < splits
      invariant 0 <= i && (splits > 0 ==> i <= splits)
      invariant windows == if splits > 0 then KeptWindows(df, splits, ratio, i) else []
    {
      var end := (i + 1) * windowSize;
      var start := 0;
      var trainEnd := CutAt(start, end, ratio);
      var train := Rows(df, start, trainEnd);
      var test := Rows(df, trainEnd, end);
      CutPoints(df, splits, ratio, i, end);
      if |test| > MIN_TEST_ROWS {
        windows := windows + [Fold(train, test)];
      }
      i := i + 1;
    }
    r := Ok(windows);
  }

  /** Of the folds before `n`, the kept windows are exactly those from fold `first` onwards. */
  ghost predicate KeptUpTo<T>(windows: seq<Fold<T>>, df: seq<T>, splits: nat, ratio: real, first: nat, n: nat)
    requires n <= splits
  {
    && first <= n
    && |windows| == n - first
    && (forall i :: 0 <= i < first ==> |WindowOf(df, splits, ratio, i).test| <= 10)
    && (forall k :: 0 <= k < |windows| ==>
          windows[k] == WindowOf(df, splits, ratio, first + k) && |windows[k].test| > 10)
  }

  ghost predicate IsKeptSuffix<T>(windows: seq<Fold<T>>, df: seq<T>, splits: nat, ratio: real, first: nat)
  {
    KeptUpTo(windows, df, splits, ratio, first, splits)
  }

  /** Growing the window by some rows grows its training part by no more than those rows. */
  lemma {:induction false} TrainRowsGrow(end: nat, more: nat, ratio: real)
    requires 0.0 <= ratio <= 1.0
    ensures TrainRows(end, ratio) <= TrainRows(end + more, ratio) <= TrainRows(end, ratio) + more
  {
    var extra := more as real * ratio;
    ScaleLe(ratio, 1.0, more as real);
    ScaleLe(0.0, more as real, ratio);
    assert 0.0 <= extra <= more as real;
    assert (end + more) as real * ratio == end as real * ratio + extra;
  }

  /** Test parts never shrink from one fold to a later one. */
  lemma {:induction false} TestRowsGrow<T>(df: seq<T>, splits: nat, ratio: real, i: nat, j: nat)
    requires i <= j < splits && 0.0 <= ratio <= 1.0
    ensures |WindowOf(df, splits, ratio, i).test| <= |WindowOf(df, splits, ratio, j).test|
  {
    var w := |df| / splits;
    assert (j + 1) * w == (i + 1) * w + (j - i) * w;
    TrainRowsGrow((i + 1) * w, (j - i) * w, ratio);
    WindowIsCut(df, splits, ratio, i);
    WindowIsCut(df, splits, ratio, j);
  }

  /** A window is only ever dropped while none has been kept yet. */
  lemma {:induction false} NextWindow<T>(windows: seq<Fold<T>>, df: seq<T>, splits: nat, ratio: real,
      first: nat, i: nat, f: Fold<T>)
    requires i < splits && 0.0 <= ratio <= 1.0
    requires KeptUpTo(windows, df, splits, ratio, first, i)
    requires f == WindowOf(df, splits, ratio, i)
    ensures Kept(f) ==> KeptUpTo(windows + [f], df, splits, ratio, first, i + 1)
    ensures !Kept(f) ==> KeptUpTo(windows, df, splits, ratio, i + 1, i + 1)
  {
    if !Kept(f) && windows != [] {
      assert windows[|windows| - 1] == WindowOf(df, splits, ratio, i - 1);
      TestRowsGrow(df, splits, ratio, i - 1, i);
    }
  }

  /** For every ratio from 0 to 1 the kept windows are exactly the folds from some fold on. */
  lemma {:induction false} KeptFoldsAreSuffix<T>(df: seq<T>, splits: nat, ratio: real, n: nat) returns (first: nat)
    requires n <= splits && 0.0 <= ratio <= 1.0
    ensures KeptUpTo(KeptWindows(df, splits, ratio, n), df, splits, ratio, first, n)
  {
    if n == 0 {
      first := 0;
    } else {
      first := KeptFoldsAreSuffix(df, splits, ratio, n - 1);
      var f := WindowOf(df, splits, ratio, n - 1);
      NextWindow(KeptWindows(df, splits, ratio, n - 1), df, splits, ratio, first, n - 1, f);
      first := if Kept(f) then first else n;
    }
  }

  lemma {:induction false} CutBeyond(end: nat, cut: real)
    requires cut >= end as real
    ensures Truncate(cut) >= end
  {
  }

  lemma {:induction false} WholeRatioKeepsNone<T>(df: seq<T>, splits: nat, ratio: real, i: nat)
    requires i < splits && ratio >= 1.0
    ensures WindowOf(df, splits, ratio, i).test == []
  {
    var end := FoldEnd(|df|, splits, i);
    ScaleLe(1.0, ratio, end as real);
    CutBeyond(end, end as real * ratio);
  }

  /** From a ratio of 1 on no test rows are left, so nothing is kept. */
  lemma {:induction false} WholeRatioKeepsNothing<T>(df: seq<T>, splits: nat, ratio: real, n: nat)
    requires n <= splits && ratio >= 1.0
    ensures KeptWindows(df, splits, ratio, n) == []
  {
    if n == 0 {
    } else {
      WholeRatioKeepsNothing(df, splits, ratio, n - 1);
      WholeRatioKeepsNone(df, splits, ratio, n - 1);
    }
  }

  /** The training part is the whole number of rows in the ratio's share of the window. */
  lemma {:induction false} TrainIsShare<T>(df: seq<T>, splits: nat, ratio: real, i: nat)
    requires i < splits && 0.0 <= ratio <= 1.0
    ensures var rows := |WindowOf(df, splits, ratio, i).train| as real;
            rows <= ((i + 1) * (|df| / splits)) as real * ratio < rows + 1.0
  {
    WindowIsCut(df, splits, ratio, i);
  }

  /** Slice bounds: within the frame they select its rows from the first bound up to the second, a
      negative bound counts from the end, and bounds beyond an end select up to that end. */
  lemma {:induction false} RowsAreSlice<T>(df: seq<T>, lo: int, hi: int)
    ensures 0 <= lo <= hi <= |df| ==> Rows(df, lo, hi) == df[lo..hi]
    ensures lo < 0 <= |df| + lo ==> Rows(df, lo, hi) == Rows(df, |df| + lo, hi)
    ensures hi < 0 <= |df| + hi ==> Rows(df, lo, hi) == Rows(df, lo, |df| + hi)
    ensures |df| + lo < 0 ==> Rows(df, lo, hi) == Rows(df, 0, hi)
    ensures |df| + hi < 0 || lo > |df| ==> Rows(df, lo, hi) == []
    ensures hi > |df| ==> Rows(df, lo, hi) == Rows(df, lo, |df|)
    ensures 0 <= hi < lo ==> Rows(df, lo, hi) == []
  {
  }

  /** Train and test tile [0, end) without gap or overlap, and training parts are nested prefixes. */
  lemma {:induction false} WindowsAreAnchored<T>(df: seq<T>, splits: nat, ratio: real, i: nat, j: nat)
    requires i <= j < splits && 0.0 <= ratio <= 1.0
    ensures var f := WindowOf(df, splits, ratio, i);
            f.train + f.test == df[..(i + 1) * (|df| / splits)] <= df
    ensures WindowOf(df, splits, ratio, i).train <= WindowOf(df, splits, ratio, j).train <= df
  {
    var w := |df| / splits;
    assert (j + 1) * w == (i + 1) * w + (j - i) * w;
    TrainRowsGrow((i + 1) * w, (j - i) * w, ratio);
    SplitFits(|df|, splits, i);
    WindowIsCut(df, splits, ratio, i);
    WindowIsCut(df, splits, ratio, j);
  }

  /** With the default configuration some window survives exactly when there are at least 35 rows;
      below that, `run` divides its averages by an empty result list. */
  lemma {:induction false} DefaultWindowsExist<T>(df: seq<T>, windows: seq<Fold<T>>, first: nat)
    requires IsKeptSuffix(windows, df, DEFAULT_SPLITS, DEFAULT_TRAIN_RATIO, first)
    ensures windows != [] <==> |df| >= 35
  {
    var w := |df| / 5;
    var last := WindowOf(df, DEFAULT_SPLITS, DEFAULT_TRAIN_RATIO, 4);
    assert FoldEnd(|df|, DEFAULT_SPLITS, 4) == 5 * w;
    assert (5 * w) as real * 0.70 == 3.5 * w as real;
    assert Kept(last) <==> w >= 7;
    if windows != [] {
      assert windows[|windows| - 1] == last;
    } else {
      assert first == DEFAULT_SPLITS;
    }
  }

  /** Test rows of successive default folds are not disjoint: folds i and i + 1 share rows
      exactly from the third fold on. */
  lemma {:induction false} DefaultTestRangesOverlap(rows: nat, i: nat)
    requires rows >= 5 && i + 1 < DEFAULT_SPLITS
    ensures i >= 2 <==>
      TrainRows(FoldEnd(rows, DEFAULT_SPLITS, i + 1), DEFAULT_TRAIN_RATIO) < FoldEnd(rows, DEFAULT_SPLITS, i)
  {
    var w := rows / 5;
    assert FoldEnd(rows, DEFAULT_SPLITS, i) == (i + 1) * w;
    assert FoldEnd(rows, DEFAULT_SPLITS, i + 1) == (i + 2) * w;
    if i == 0 {
      assert (2 * w) as real * 0.70 >= w as real;
    } else if i == 1 {
      assert (3 * w) as real * 0.70 >= (2 * w) as real;
    } else if i == 2 {
      assert (4 * w) as real * 0.70 < (3 * w) as real;
    } else {
      assert (5 * w) as real * 0.70 < (4 * w) as real;
    }
  }

  // ---------------------------------------------------------------- grid search

  function Prefixed<V>(heads: seq<V>, tails: seq<seq<V>>): seq<seq<V>>
  {
    if heads == [] then [] else
      seq(|tails|, j requires 0 <= j < |tails| => [heads[0]] + tails[j]) + Prefixed(heads[1..], tails)
  }

  /** `itertools.product`: the last list varies fastest. */
  function Product<V>(vals: seq<seq<V>>): seq<seq<V>>
  {
    if vals == [] then [[]] else Prefixed(vals[0], Product(vals[1..]))
  }

  function CombinationCount<V>(vals: seq<seq<V>>): nat
  {
    if vals == [] then 1 else |vals[0]| * CombinationCount(vals[1..])
  }

  /** One position per list: the choice a combination makes in each dimension. */
  predicate IsChoice<V>(vals: seq<seq<V>>, choice: seq<nat>) {
    |choice| == |vals| && forall k :: 0 <= k < |vals| ==> choice[k] < |vals[k]|
  }

  function Pick<V>(vals: seq<seq<V>>, choice: seq<nat>): seq<V>
    requires IsChoice(vals, choice)
  {
    seq(|vals|, k requires 0 <= k < |vals| => vals[k][choice[k]])
  }

  lemma {:induction false} DivModUnique(x: nat, m: nat, q: nat, r: nat)
    requires r < m && x == q * m + r
    ensures x / m == q && x % m == r
  {
    var d := x / m - q;
    assert d * m == r - x % m;
    if d >= 1 {
    } else if d <= -1 {
    }
  }

  lemma {:induction false} MixedRadixBound(high: nat, size: nat, low: nat, m: nat)
    requires high < size && low < m
    ensures high * m + low < size * m
    ensures (high * m + low) / m == high && (high * m + low) % m == low
  {
    assert (high + 1) * m <= size * m;
    DivModUnique(high * m + low, m, high, low);
  }

  /** Position of a choice in product order: a mixed-radix number, first list most significant. */
  function Rank<V>(vals: seq<seq<V>>, choice: seq<nat>): (r: nat)
    requires IsChoice(vals, choice)
    ensures r < CombinationCount(vals)
  {
    if vals == [] then 0 else
      var m := CombinationCount(vals[1..]);
      var low := Rank(vals[1..], choice[1..]);
      MixedRadixBound(choice[0], |vals[0]|, low, m);
      choice[0] * m + low
  }

  lemma {:induction false} PrefixedLength<V>(heads: seq<V>, tails: seq<seq<V>>)
    ensures |Prefixed(heads, tails)| == |heads| * |tails|
  {
    if heads == [] {
    } else {
      PrefixedLength(heads[1..], tails);
      assert |heads| * |tails| == (|heads| - 1) * |tails| + |tails|;
    }
  }

  lemma {:induction false} PrefixedAt<V>(heads: seq<V>, tails: seq<seq<V>>, h: nat, t: nat)
    requires h < |heads| && t < |tails|
    ensures |Prefixed(heads, tails)| == |heads| * |tails|
    ensures h * |tails| + t < |heads| * |tails|
    ensures Prefixed(heads, tails)[h * |tails| + t] == [heads[h]] + tails[t]
  {
    PrefixedLength(heads, tails);
    MixedRadixBound(h, |heads|, t, |tails|);
    if h == 0 {
    } else {
      PrefixedAt(heads[1..], tails, h - 1, t);
      assert (h - 1) * |tails| + t + |tails| == h * |tails| + t;
    }
  }

  lemma {:induction false} ProductLength<V>(vals: seq<seq<V>>)
    ensures |Product(vals)| == CombinationCount(vals)
  {
    if vals == [] {
    } else {
      ProductLength(vals[1..]);
      PrefixedLength(vals[0], Product(vals[1..]));
    }
  }

  /** The combination of every choice stands at that choice's rank. */
  lemma {:induction false} ProductAtRank<V>(vals: seq<seq<V>>, choice: seq<nat>)
    requires IsChoice(vals, choice)
    ensures |Product(vals)| == CombinationCount(vals)
    ensures Product(vals)[Rank(vals, choice)] == Pick(vals, choice)
  {
    ProductLength(vals);
    if vals == [] {
    } else {
      var rest := vals[1..];
      ProductAtRank(rest, choice[1..]);
      ProductLength(rest);
      PrefixedAt(vals[0], Product(rest), choice[0], Rank(rest, choice[1..]));
      assert Pick(vals, choice) == [vals[0][choice[0]]] + Pick(rest, choice[1..]);
    }
  }

  /** The two parts of a mixed-radix position. */
  lemma {:induction false} SplitPosition(i: nat, size: nat, m: nat) returns (high: nat, low: nat)
    requires i < size * m
    ensures high < size && low < m && i == high * m + low
  {
    assert m > 0;
    high, low := i / m, i % m;
    assert i == high * m + low;
    if high >= size {
      ProductGrows(size, high, m);
    }
  }

  /** Every position is the rank of some choice. */
  lemma {:induction false} RankIsSurjective<V>(vals: seq<seq<V>>, i: nat) returns (choice: seq<nat>)
    requires i < CombinationCount(vals)
    ensures IsChoice(vals, choice) && Rank(vals, choice) == i
  {
    if vals == [] {
      choice := [];
    } else {
      var high, low := SplitPosition(i, |vals[0]|, CombinationCount(vals[1..]));
      var rest := RankIsSurjective(vals[1..], low);
      choice := [high] + rest;
      assert choice[1..] == rest;
    }
  }

  lemma {:induction false} RankIsInjective<V>(vals: seq<seq<V>>, a: seq<nat>, b: seq<nat>)
    requires IsChoice(vals, a) && IsChoice(vals, b)
    requires Rank(vals, a) == Rank(vals, b)
    ensures a == b
  {
    if vals == [] {
    } else {
      var m := CombinationCount(vals[1..]);
      MixedRadixBound(a[0], |vals[0]|, Rank(vals[1..], a[1..]), m);
      MixedRadixBound(b[0], |vals[0]|, Rank(vals[1..], b[1..]), m);
      RankIsInjective(vals[1..], a[1..], b[1..]);
      assert a == [a[0]] + a[1..] && b == [b[0]] + b[1..];
    }
  }

  /** Position `i` of the search order holds the combination of `choice`. */
  ghost predicate Visits<V>(vals: seq<seq<V>>, i: nat, choice: seq<nat>) {
    IsChoice(vals, choice) && i < |Product(vals)| && i == Rank(vals, choice) && Product(vals)[i] == Pick(vals, choice)
  }

  ghost predicate VisitsSome<V>(vals: seq<seq<V>>, i: nat) {
    exists choice: seq<nat> :: Visits(vals, i, choice)
  }

  /** The search visits every element of the Cartesian product exactly once: each choice is
      visited at its rank, each position visits a choice, and no two choices share a position. */
  lemma {:induction false} EveryCombinationVisitedOnce<V>(vals: seq<seq<V>>)
    ensures forall choice: seq<nat> :: IsChoice(vals, choice) ==> Visits(vals, Rank(vals, choice), choice)
    ensures forall i: nat :: i < |Product(vals)| ==> VisitsSome(vals, i)
    ensures forall i: nat, a: seq<nat>, b: seq<nat> :: Visits(vals, i, a) && Visits(vals, i, b) ==> a == b
  {
    ProductLength(vals);
    forall choice: seq<nat> | IsChoice(vals, choice)
      ensures Visits(vals, Rank(vals, choice), choice)
    {
      ProductAtRank(vals, choice);
    }
    forall i: nat | i < |Product(vals)|
      ensures VisitsSome(vals, i)
    {
      var choice := RankIsSurjective(vals, i);
      assert Visits(vals, i, choice);
    }
    forall i: nat, a: seq<nat>, b: seq<nat> | Visits(vals, i, a) && Visits(vals, i, b)
      ensures a == b
    {
      RankIsInjective(vals, a, b);
    }
  }

  /** A backtest metric: a float, or nothing because factory or run raised. */
  datatype Score = Failed | NotANumber | NegInfinity | Finite(r: real) | PosInfinity {
    predicate IsNumber() { NegInfinity? || Finite? || PosInfinity? }

    /** Float `>`: false whenever a side is not a number. */
    predicate Greater(other: Score) {
      match (this, other)
      case (Finite(a), Finite(b)) => a > b
      case (Finite(_), NegInfinity) => true
      case (PosInfinity, NegInfinity) => true
      case (PosInfinity, Finite(_)) => true
      case _ => false
    }
  }

  /** `i` is the first combination reaching the maximum over all combinations with a score. */
  ghost predicate IsFirstMaximum<P>(combos: seq<P>, score: P -> Score, i: nat) {
    && i < |combos|
    && score(combos[i]).Greater(NegInfinity)
    && (forall j :: 0 <= j < |combos| ==> !score(combos[j]).Greater(score(combos[i])))
    && (forall j :: 0 <= j < i ==> score(combos[j]).IsNumber() ==> score(combos[i]).Greater(score(combos[j])))
  }

  /** In numbers: when some score is the finite maximum, every score that is a number is at most
      that maximum, and every number before it is smaller. */
  lemma {:induction false} FirstMaximumInNumbers<P>(combos: seq<P>, score: P -> Score, i: nat, x: real)
    requires i < |combos| && score(combos[i]) == Finite(x)
    ensures IsFirstMaximum(combos, score, i) <==>
      && (forall j :: 0 <= j < |combos| ==>
            score(combos[j]) != PosInfinity && (score(combos[j]).Finite? ==> score(combos[j]).r <= x))
      && (forall j :: 0 <= j < i && score(combos[j]).Finite? ==> score(combos[j]).r < x)
  {
  }

  method Optimise<V>(vals: seq<seq<V>>, score: seq<V> -> Score) returns (best: Option<seq<V>>, bestScore: Score)
    ensures vals == [] ==> best == None && bestScore == Finite(0.0)
    ensures vals != [] && best.None? ==>
      bestScore == NegInfinity
      && forall i :: 0 <= i < |Product(vals)| ==> !score(Product(vals)[i]).Greater(NegInfinity)
    ensures vals != [] && best.Some? ==>
      exists i: nat :: IsFirstMaximum(Product(vals), score, i)
                  && best.value == Product(vals)[i] && bestScore == score(best.value)
  {
    if vals == [] {
      return None, Finite(0.0);
    }
    var combos := Product(vals);
    best, bestScore := None, NegInfinity;
    ghost var at: nat := 0;
    for i := 0 to |combos|
      invariant bestScore.IsNumber()
      invariant best.None? ==> bestScore == NegInfinity
      invariant best.Some? ==>
        at < i && best.value == combos[at] && bestScore == score(combos[at]) && bestScore.Greater(NegInfinity)
      invariant forall j :: 0 <= j < i ==> !score(combos[j]).Greater(bestScore)
      invariant best.Some? ==> forall j :: 0 <= j < at ==>
        score(combos[j]).IsNumber() ==> bestScore.Greater(score(combos[j]))
    {
      var s := score(combos[i]);
      if s.Greater(bestScore) {
        bestScore := s;
        best := Some(combos[i]);
        at := i;
      }
    }
    if best.Some? {
      assert IsFirstMaximum(combos, score, at);
    }
  }
}
