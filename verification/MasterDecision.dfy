/** The vote of `MasterDecisionMakerAgent.decide`: weighted sums over all agent signals, the
    conflict penalty and the thresholds. */
module MasterDecision {
  import opened Common
  import opened Folds
  import opened SignalSchema
  import opened ConflictDetector
  import SignalBus
  import KillSwitch

  const DECISION_THRESHOLD: real := 0.35
  const STRONG_THRESHOLD: real := 0.55
  const TRADABLE_SYMBOLS: seq<string> := ["NIFTY BANK", "BSE BANKEX"]

  datatype Decision = Decision(
    direction: Direction,
    score: real,
    symbol: string,
    totalAgents: nat,
    bullishAgents: nat,
    bearishAgents: nat,
    neutralAgents: nat,
    bullScore: real,
    bearScore: real,
    analysis: Option<Analysis>)

  const HOLD := Decision(Neutral, 0.0, "", 0, 0, 0, 0, 0.0, 0.0, None)

  // ---------------------------------------------------------------- the vote

  function Share(part: real, total: real): real
    requires total != 0.0
  {
    part / total
  }

  /** A side's share of the total weight after the conflict penalty. */
  function Net(part: real, total: real, penalty: real): real
    requires total != 0.0
  {
    Max(Share(part, total) - penalty, 0.0)
  }

  /** Bullish or bearish conviction, or nothing. The bullish side is asked first. */
  function Conviction(netBull: real, netBear: real): Option<Direction> {
    if netBull >= STRONG_THRESHOLD then Some(Bullish)
    else if netBear >= STRONG_THRESHOLD then Some(Bearish)
    else if netBull >= DECISION_THRESHOLD && netBull > netBear then Some(Bullish)
    else if netBear >= DECISION_THRESHOLD && netBear > netBull then Some(Bearish)
    else None
  }

  predicate IsTradable(s: AgentSignal) { s.symbol in TRADABLE_SYMBOLS }

  /** Symbol of the first signal on the whitelist. */
  function FirstTradable(signals: seq<AgentSignal>): Option<string>
  {
    if signals == [] then None
    else if IsTradable(signals[0]) then Some(signals[0].symbol)
    else FirstTradable(signals[1..])
  }

  /** Everything the vote reads off the signals. */
  datatype Tally = Tally(
    bull: real,
    bear: real,
    total: real,
    agents: nat,
    bullish: nat,
    bearish: nat,
    neutral: nat,
    symbol: Option<string>,
    analysis: Analysis)

  function TallyOf(signals: seq<AgentSignal>): Tally {
    Tally(SumBy(signals, BullStrength), SumBy(signals, BearStrength), SumBy(signals, Weight),
          |signals|, CountBy(signals, IsBullish), CountBy(signals, IsBearish), CountBy(signals, IsNeutral),
          FirstTradable(signals), AnalysisOf(signals))
  }

  /** What one more signal adds to the vote: its weight times its confidence to the side it takes,
      its weight to the total, and one to the count of its side. */
  lemma {:induction false} OneMoreVote(signals: seq<AgentSignal>, s: AgentSignal)
    ensures var t, t' := TallyOf(signals), TallyOf(signals + [s]);
            var vote := s.signalWeight * s.confidence;
            var bullish := s.direction in {Bullish, Buy, StrongBuy};
            var bearish := s.direction in {Bearish, Sell, StrongSell};
            && t'.bull == t.bull + (if bullish then vote else 0.0)
            && t'.bear == t.bear + (if bearish then vote else 0.0)
            && t'.total == t.total + s.signalWeight
            && t'.agents == t.agents + 1
            && t'.bullish == t.bullish + (if bullish then 1 else 0)
            && t'.bearish == t.bearish + (if bearish then 1 else 0)
            && t'.neutral == t.neutral + (if bullish || bearish then 0 else 1)
    ensures var none := TallyOf([]);
            none.bull == none.bear == none.total == 0.0
            && none.agents == none.bullish == none.bearish == none.neutral == 0
  {
    SumByAppend(signals, s, BullStrength);
    SumByAppend(signals, s, BearStrength);
    SumByAppend(signals, s, Weight);
    CountByAppend(signals, s, IsBullish);
    CountByAppend(signals, s, IsBearish);
    CountByAppend(signals, s, IsNeutral);
  }

  function Judge(t: Tally): Decision {
    if t.total == 0.0 then HOLD else
      var netBull := Net(t.bull, t.total, t.analysis.confidencePenalty);
      var netBear := Net(t.bear, t.total, t.analysis.confidencePenalty);
      var conviction := Conviction(netBull, netBear);
      if conviction.None? || t.symbol.None? then HOLD else
        Decision(conviction.value, if conviction.value == Bullish then netBull else netBear, t.symbol.value,
                 t.agents, t.bullish, t.bearish, t.neutral,
                 Share(t.bull, t.total), Share(t.bear, t.total), Some(t.analysis))
  }

  function Verdict(signals: seq<AgentSignal>): Decision {
    if signals == [] then HOLD else Judge(TallyOf(signals))
  }

  /** The whole decision: the kill switch overrules the vote. */
  function Decide(cfg: KillSwitch.KillSwitchConfig, data: KillSwitch.MarketData, signals: seq<AgentSignal>): Decision {
    if KillSwitch.HaltReason(cfg, data).Some? then HOLD else Verdict(signals)
  }

  // ---------------------------------------------------------------- order independence

  lemma {:induction false} TradableIffSome(signals: seq<AgentSignal>)
    ensures FirstTradable(signals).Some? <==>
      exists s :: s in signals && s.symbol in ["NIFTY BANK", "BSE BANKEX"]
  {
    if signals == [] {
    } else {
      TradableIffSome(signals[1..]);
      assert signals == [signals[0]] + signals[1..];
    }
  }

  lemma {:induction false} TradableIgnoresOrder(a: seq<AgentSignal>, b: seq<AgentSignal>)
    requires multiset(a) == multiset(b)
    ensures FirstTradable(a).Some? == FirstTradable(b).Some?
  {
    TradableIffSome(a);
    TradableIffSome(b);
    assert forall s :: s in a <==> s in multiset(a);
    assert forall s :: s in b <==> s in multiset(b);
  }

  lemma {:induction false} TallyIgnoresOrder(a: seq<AgentSignal>, b: seq<AgentSignal>)
    requires IsDict(a) && IsDict(b) && multiset(a) == multiset(b)
    ensures TallyOf(a) == TallyOf(b).(symbol := TallyOf(a).symbol)
    ensures TallyOf(a).symbol.Some? == TallyOf(b).symbol.Some?
  {
    assert |a| == |multiset(a)| == |multiset(b)| == |b|;
    SumByPermutation(a, b, BullStrength);
    SumByPermutation(a, b, BearStrength);
    SumByPermutation(a, b, Weight);
    CountByPermutation(a, b, IsBullish);
    CountByPermutation(a, b, IsBearish);
    CountByPermutation(a, b, IsNeutral);
    DirectionsIgnoreOrder(a, b, LAYER_GROUPS);
    TradableIgnoresOrder(a, b);
  }

  lemma {:induction false} JudgeIgnoresSymbol(a: Tally, b: Tally)
    requires a == b.(symbol := a.symbol) && a.symbol.Some? == b.symbol.Some?
    ensures Judge(a) == Judge(b).(symbol := Judge(a).symbol)
  {
  }

  /** The verdict does not depend on the order in which agents first reported: direction, score,
      counts, shares and conflict analysis agree, and only the reported symbol may differ. */
  lemma {:induction false} VerdictIgnoresOrder(a: seq<AgentSignal>, b: seq<AgentSignal>)
    requires IsDict(a) && IsDict(b) && multiset(a) == multiset(b)
    ensures Verdict(a) == Verdict(b).(symbol := Verdict(a).symbol)
  {
    TallyIgnoresOrder(a, b);
    JudgeIgnoresSymbol(TallyOf(a), TallyOf(b));
    assert |a| == |multiset(a)| == |multiset(b)| == |b|;
  }

  predicate IsFirstTradable(signals: seq<AgentSignal>, i: nat) {
    && i < |signals| && IsTradable(signals[i]) && FirstTradable(signals) == Some(signals[i].symbol)
    && forall j :: 0 <= j < i ==> !IsTradable(signals[j])
  }

  lemma {:induction false} FirstTradableIsFirst(signals: seq<AgentSignal>)
    requires FirstTradable(signals).Some?
    ensures exists i :: 0 <= i < |signals| && IsFirstTradable(signals, i)
  {
    if IsTradable(signals[0]) {
      assert IsFirstTradable(signals, 0);
    } else {
      var rest := signals[1..];
      FirstTradableIsFirst(rest);
      var i :| 0 <= i < |rest| && IsFirstTradable(rest, i);
      assert forall j :: 0 < j < |signals| ==> signals[j] == rest[j - 1];
      assert IsFirstTradable(signals, i + 1);
    }
  }

  /** A decision that is not a hold reports counts that add up to the number of signals, and
      the symbol of the first whitelisted signal in insertion order. */
  lemma {:induction false} CountsAddUp(signals: seq<AgentSignal>)
    ensures var d := Verdict(signals);
            d != HOLD ==>
              && d.totalAgents == |signals|
              && d.bullishAgents + d.bearishAgents + d.neutralAgents == d.totalAgents
              && exists i :: 0 <= i < |signals| && IsFirstTradable(signals, i) && signals[i].symbol == d.symbol
  {
    CountByPartition(signals, IsBullish, IsBearish, IsNeutral);
    if Verdict(signals) != HOLD {
      FirstTradableIsFirst(signals);
    }
  }

  /** The bus summary and the vote weigh the signals alike: the decision's shares are the
      summary's weighted scores over the total weight. */
  lemma {:induction false} SharesMatchBusSummary(signals: seq<AgentSignal>)
    ensures var d := Verdict(signals);
            var summary := SignalBus.Summarise(signals);
            var total := SumBy(signals, Weight);
            d != HOLD ==>
              && total != 0.0 && summary.scores.Some?
              && d.bullScore == summary.scores.value.weightedBull / total
              && d.bearScore == summary.scores.value.weightedBear / total
              && d.totalAgents == summary.total && d.bullishAgents == summary.bullish
              && d.bearishAgents == summary.bearish && d.neutralAgents == summary.neutral
  {
    var t := TallyOf(signals);
    if Verdict(signals) != HOLD {
      assert Judge(t).bullScore == Share(t.bull, t.total) && Judge(t).bearScore == Share(t.bear, t.total);
    }
  }

  // ---------------------------------------------------------------- mirror symmetry

  /** The opposite decision: a hold stays a hold. */
  function MirrorDecision(d: Decision): Decision {
    d.(direction := Twin(d.direction),
       bullishAgents := d.bearishAgents, bearishAgents := d.bullishAgents,
       bullScore := d.bearScore, bearScore := d.bullScore,
       analysis := if d.analysis.Some? then Some(MirrorAnalysis(d.analysis.value)) else None)
  }

  /** Both sides pass the strong threshold after the penalty. */
  predicate BothStrong(t: Tally) {
    && t.total != 0.0
    && Net(t.bull, t.total, t.analysis.confidencePenalty) >= STRONG_THRESHOLD
    && Net(t.bear, t.total, t.analysis.confidencePenalty) >= STRONG_THRESHOLD
  }

  function MirrorTally(t: Tally): Tally {
    t.(bull := t.bear, bear := t.bull, bullish := t.bearish, bearish := t.bullish,
       analysis := MirrorAnalysis(t.analysis))
  }

  lemma {:induction false} JudgeMirrorIff(t: Tally)
    ensures Judge(MirrorTally(t)) == MirrorDecision(Judge(t)) <==> !(BothStrong(t) && t.symbol.Some?)
  {
  }

  lemma {:induction false} TradableMirror(signals: seq<AgentSignal>)
    ensures FirstTradable(MirrorSignals(signals)) == FirstTradable(signals)
  {
    if signals == [] {
    } else {
      TradableMirror(signals[1..]);
      assert MirrorSignals(signals)[1..] == MirrorSignals(signals[1..]);
    }
  }

  lemma {:induction false} SumsMirror(signals: seq<AgentSignal>)
    ensures SumBy(MirrorSignals(signals), BullStrength) == SumBy(signals, BearStrength)
    ensures SumBy(MirrorSignals(signals), BearStrength) == SumBy(signals, BullStrength)
    ensures SumBy(MirrorSignals(signals), Weight) == SumBy(signals, Weight)
  {
    var mirrored := MirrorSignals(signals);
    assert forall i :: 0 <= i < |signals| ==> Strength(mirrored[i]) == Strength(signals[i]);
    SumByPointwise(mirrored, signals, BullStrength, BearStrength);
    SumByPointwise(mirrored, signals, BearStrength, BullStrength);
    SumByPointwise(mirrored, signals, Weight, Weight);
  }

  lemma {:induction false} CountsMirror(signals: seq<AgentSignal>)
    ensures CountBy(MirrorSignals(signals), IsBullish) == CountBy(signals, IsBearish)
    ensures CountBy(MirrorSignals(signals), IsBearish) == CountBy(signals, IsBullish)
    ensures CountBy(MirrorSignals(signals), IsNeutral) == CountBy(signals, IsNeutral)
  {
    var mirrored := MirrorSignals(signals);
    CountByPointwise(mirrored, signals, IsBullish, IsBearish);
    CountByPointwise(mirrored, signals, IsBearish, IsBullish);
    CountByPointwise(mirrored, signals, IsNeutral, IsNeutral);
  }

  lemma {:induction false} TallyMirrors(signals: seq<AgentSignal>)
    ensures TallyOf(MirrorSignals(signals)) == MirrorTally(TallyOf(signals))
  {
    SumsMirror(signals);
    CountsMirror(signals);
    AnalysisMirrors(signals);
    TradableMirror(signals);
  }

  /** The vote is symmetric for any weights and confidences unless both sides are strong at once
      on a tradable symbol: then the order of the tests favours the bullish side. */
  lemma {:induction false} MirrorSymmetryIff(signals: seq<AgentSignal>)
    ensures Verdict(MirrorSignals(signals)) == MirrorDecision(Verdict(signals)) <==>
      !(signals != [] && BothStrong(TallyOf(signals)) && FirstTradable(signals).Some?)
  {
    TallyMirrors(signals);
    JudgeMirrorIff(TallyOf(signals));
  }

  lemma {:induction false} SumOfTwo(a: AgentSignal, b: AgentSignal, f: AgentSignal -> real)
    ensures SumBy([a, b], f) == f(a) + f(b)
  {
    assert [a, b] == [a] + [b] && [a] == [] + [a];
    SumByAppend([a], b, f);
    SumByAppend([], a, f);
  }

  lemma {:induction false} JudgeBothStrong(t: Tally)
    requires t.bull == 2.0 && t.bear == 2.0 && t.total == 2.0 && t.symbol.Some?
    requires 0.0 <= t.analysis.confidencePenalty <= 0.45
    ensures BothStrong(t) && Judge(t).direction == Bullish && Judge(MirrorTally(t)).direction == Bullish
  {
    assert Share(t.bull, t.total) == 1.0 && Share(t.bear, t.total) == 1.0;
  }

  lemma {:induction false} PairTally(a: AgentSignal, b: AgentSignal)
    requires a.direction == Bullish && b.direction == Bearish
    requires a.signalWeight == b.signalWeight == 1.0 && a.confidence == b.confidence == 2.0
    ensures var t := TallyOf([a, b]);
            t.bull == 2.0 && t.bear == 2.0 && t.total == 2.0 && 0.0 <= t.analysis.confidencePenalty <= 0.45
  {
    SumOfTwo(a, b, BullStrength);
    SumOfTwo(a, b, BearStrength);
    SumOfTwo(a, b, Weight);
    ScoreBounds([a, b]);
  }

  lemma {:induction false} OpposedPair(a: AgentSignal, b: AgentSignal)
    requires a.direction == Bullish && b.direction == Bearish && IsTradable(a)
    requires a.signalWeight == b.signalWeight == 1.0 && a.confidence == b.confidence == 2.0
    ensures BothStrong(TallyOf([a, b])) && FirstTradable([a, b]).Some?
    ensures Verdict([a, b]).direction == Bullish && Verdict(MirrorSignals([a, b])).direction == Bullish
  {
    PairTally(a, b);
    TallyMirrors([a, b]);
    JudgeBothStrong(TallyOf([a, b]));
  }

  /** The asymmetric case occurs: with confidences beyond the schema's range both sides are strong,
      and mirroring leaves the verdict bullish. */
  lemma {:induction false} BothStrongIsPossible() returns (signals: seq<AgentSignal>)
    ensures IsDict(signals) && BothStrong(TallyOf(signals)) && FirstTradable(signals).Some?
    ensures Verdict(signals).direction == Bullish && Verdict(MirrorSignals(signals)).direction == Bullish
  {
    var a := AgentSignal("TechnicalAnalysisAgent", Bullish, 2.0, 1.0, "NIFTY BANK");
    var b := AgentSignal("OptionsDerivativesAgent", Bearish, 2.0, 1.0, "NIFTY BANK");
    OpposedPair(a, b);
    signals := [a, b];
  }

  /** The schema's ranges: weights are not negative and confidences lie between 0 and 1. */
  predicate InRange(s: AgentSignal) {
    s.signalWeight >= 0.0 && 0.0 <= s.confidence <= 1.0
  }

  lemma {:induction false} FractionOf(w: real, c: real)
    requires w >= 0.0 && 0.0 <= c <= 1.0
    ensures 0.0 <= w * c <= w
  {
  }

  lemma {:induction false} StrengthAtMostWeight(s: AgentSignal)
    requires InRange(s)
    ensures BullStrength(s) >= 0.0 && BearStrength(s) >= 0.0
    ensures BullStrength(s) + BearStrength(s) <= Weight(s)
  {
    var w, c := s.signalWeight, s.confidence;
    FractionOf(w, c);
    assert Strength(s) == w * c;
  }

  /** For signals in range the total weight is not negative and covers both sides. */
  lemma {:induction false} SidesWithinTotal(signals: seq<AgentSignal>)
    requires forall i :: 0 <= i < |signals| ==> InRange(signals[i])
    ensures var t := TallyOf(signals); t.bull >= 0.0 && t.bear >= 0.0 && t.bull + t.bear <= t.total
  {
    forall i | 0 <= i < |signals|
      ensures BullStrength(signals[i]) >= 0.0 && BearStrength(signals[i]) >= 0.0
      ensures BullStrength(signals[i]) + BearStrength(signals[i]) <= Weight(signals[i])
    {
      StrengthAtMostWeight(signals[i]);
    }
    SumByAtMost(signals, BullStrength, BearStrength, Weight);
  }

  lemma {:induction false} SumOfQuotients(x: real, y: real, total: real, a: real, b: real)
    requires total > 0.0 && x * total == a && y * total == b && a + b <= total
    ensures x + y <= 1.0
  {
  }

  lemma {:induction false} TwoShares(a: real, b: real, total: real)
    requires total > 0.0 && a >= 0.0 && b >= 0.0 && a + b <= total
    ensures Share(a, total) + Share(b, total) <= 1.0
  {
    SumOfQuotients(a / total, b / total, total, a, b);
  }

  /** Then the two shares sum to at most 1 and, the penalty being nonnegative, both sides cannot
      pass the strong threshold. */
  lemma {:induction false} NotBothStrong(t: Tally)
    requires t.bull >= 0.0 && t.bear >= 0.0 && t.bull + t.bear <= t.total
    requires t.analysis.confidencePenalty >= 0.0
    ensures t.total != 0.0 ==> Share(t.bull, t.total) + Share(t.bear, t.total) <= 1.0
    ensures !BothStrong(t)
  {
    if t.total != 0.0 {
      TwoShares(t.bull, t.bear, t.total);
    }
  }

  /** For signals in range the two shares sum to at most 1, so both sides are never strong at once. */
  lemma {:induction false} SharesAtMostOne(signals: seq<AgentSignal>)
    requires forall i :: 0 <= i < |signals| ==> InRange(signals[i])
    ensures var t := TallyOf(signals);
            t.total != 0.0 ==> t.bull / t.total + t.bear / t.total <= 1.0
    ensures !BothStrong(TallyOf(signals))
  {
    SidesWithinTotal(signals);
    ScoreBounds(signals);
    NotBothStrong(TallyOf(signals));
  }

  /** Mirror symmetry on all signals in range: swapping every bullish direction with its bearish
      twin flips the decision, keeps its score and keeps a hold a hold. */
  lemma {:induction false} MirrorSymmetry(signals: seq<AgentSignal>)
    requires forall i :: 0 <= i < |signals| ==> InRange(signals[i])
    ensures Verdict(MirrorSignals(signals)) == MirrorDecision(Verdict(signals))
  {
    SharesAtMostOne(signals);
    MirrorSymmetryIff(signals);
  }

  function NetBull(t: Tally): real
    requires t.total != 0.0
  {
    Net(t.bull, t.total, t.analysis.confidencePenalty)
  }

  function NetBear(t: Tally): real
    requires t.total != 0.0
  {
    Net(t.bear, t.total, t.analysis.confidencePenalty)
  }

  lemma {:induction false} JudgeTakesSideIff(t: Tally)
    requires t.total != 0.0 && t.symbol.Some? && !BothStrong(t)
    ensures Judge(t).direction == Bullish <==> NetBull(t) >= DECISION_THRESHOLD && NetBull(t) > NetBear(t)
    ensures Judge(t).direction == Bearish <==> NetBear(t) >= DECISION_THRESHOLD && NetBear(t) > NetBull(t)
  {
  }

  lemma {:induction false} NetAtLeast(part: real, total: real, penalty: real)
    requires total > 0.0
    ensures Net(part, total, penalty) >= DECISION_THRESHOLD <==> part >= (DECISION_THRESHOLD + penalty) * total
  {
    var q := Share(part, total);
    assert q * total == part;
    OrderScales(q, DECISION_THRESHOLD + penalty, total);
  }

  /** The penalty, being the same for both sides, does not change which of them is ahead. */
  lemma {:induction false} NetKeepsOrder(a: real, b: real, total: real, penalty: real)
    requires total > 0.0 && Net(a, total, penalty) > 0.0
    ensures Net(a, total, penalty) > Net(b, total, penalty) <==> a > b
  {
    var x, y := Share(a, total), Share(b, total);
    assert x * total == a && y * total == b;
    OrderScales(y, x, total);
  }

  /** A side wins when its strength covers the threshold and the penalty on the total weight and
      exceeds the other side's. */
  predicate Wins(side: real, other: real, total: real, penalty: real) {
    side >= (0.35 + penalty) * total && side > other
  }

  lemma {:induction false} NetWins(side: real, other: real, total: real, penalty: real)
    requires total > 0.0
    ensures Wins(side, other, total, penalty) <==>
      Net(side, total, penalty) >= DECISION_THRESHOLD && Net(side, total, penalty) > Net(other, total, penalty)
  {
    NetAtLeast(side, total, penalty);
    if Net(side, total, penalty) >= DECISION_THRESHOLD {
      NetKeepsOrder(side, other, total, penalty);
    }
  }

  lemma {:induction false} WinnerOf(t: Tally)
    requires t.bull >= 0.0 && t.bear >= 0.0 && t.bull + t.bear <= t.total && !BothStrong(t)
    ensures Judge(t).direction == Bullish <==>
      t.symbol.Some? && Wins(t.bull, t.bear, t.total, t.analysis.confidencePenalty)
    ensures Judge(t).direction == Bearish <==>
      t.symbol.Some? && Wins(t.bear, t.bull, t.total, t.analysis.confidencePenalty)
  {
    if t.total > 0.0 && t.symbol.Some? {
      JudgeTakesSideIff(t);
      NetWins(t.bull, t.bear, t.total, t.analysis.confidencePenalty);
      NetWins(t.bear, t.bull, t.total, t.analysis.confidencePenalty);
    }
  }

  /** The whole vote for signals in range: a side is taken exactly when some signal is tradable and
      that side wins after the conflict penalty. The strong tests decide nothing more. */
  lemma {:induction false} TakesSideIff(signals: seq<AgentSignal>)
    requires forall i :: 0 <= i < |signals| ==> InRange(signals[i])
    ensures var bull, bear, total := SumBy(signals, BullStrength), SumBy(signals, BearStrength), SumBy(signals, Weight);
            var penalty := AnalysisOf(signals).confidencePenalty;
            var d := Verdict(signals).direction;
            && (d == Bullish <==> FirstTradable(signals).Some? && Wins(bull, bear, total, penalty))
            && (d == Bearish <==> FirstTradable(signals).Some? && Wins(bear, bull, total, penalty))
  {
    SharesAtMostOne(signals);
    SidesWithinTotal(signals);
    WinnerOf(TallyOf(signals));
  }

  /** The decision itself, kill switch included: it takes a side exactly when no market check fires,
      some signal is tradable and that side wins. */
  lemma {:induction false} DecisionIff(cfg: KillSwitch.KillSwitchConfig, data: KillSwitch.MarketData,
      signals: seq<AgentSignal>)
    requires forall i :: 0 <= i < |signals| ==> InRange(signals[i])
    ensures var bull, bear, total := SumBy(signals, BullStrength), SumBy(signals, BearStrength), SumBy(signals, Weight);
            var penalty := AnalysisOf(signals).confidencePenalty;
            var open := KillSwitch.HaltReason(cfg, data).None? && FirstTradable(signals).Some?;
            var d := Decide(cfg, data, signals);
            && (d.direction == Bullish <==> open && Wins(bull, bear, total, penalty))
            && (d.direction == Bearish <==> open && Wins(bear, bull, total, penalty))
            && (d == HOLD || d == Verdict(signals))
  {
    TakesSideIff(signals);
  }

  /** For signals in range a side is taken only if the bus's net score points its way. */
  lemma {:induction false} NetScoreAgrees(signals: seq<AgentSignal>)
    requires forall i :: 0 <= i < |signals| ==> InRange(signals[i])
    ensures var scores := SignalBus.Summarise(signals).scores;
            && (Verdict(signals).direction == Bullish ==> scores.Some? && scores.value.netScore > 0.0)
            && (Verdict(signals).direction == Bearish ==> scores.Some? && scores.value.netScore < 0.0)
  {
    TakesSideIff(signals);
  }

  lemma {:induction false} JudgeScore(t: Tally)
    ensures var d := Judge(t);
            && (d == HOLD || d.direction == Bullish || d.direction == Bearish)
            && (d != HOLD ==> t.total != 0.0 && d.score >= DECISION_THRESHOLD && d.analysis == Some(t.analysis))
            && (d.direction == Bullish ==> d.score == Share(t.bull, t.total) - t.analysis.confidencePenalty)
            && (d.direction == Bearish ==> d.score == Share(t.bear, t.total) - t.analysis.confidencePenalty)
  {
  }

  /** The score of a side taken is its share of the total weight less the conflict penalty, and it
      reaches the moderate threshold; a hold scores nothing. */
  lemma {:induction false} ScoreIsNetShare(signals: seq<AgentSignal>)
    ensures var bull, bear, total := SumBy(signals, BullStrength), SumBy(signals, BearStrength), SumBy(signals, Weight);
            var penalty := AnalysisOf(signals).confidencePenalty;
            var d := Verdict(signals);
            && (d == HOLD || d.direction == Bullish || d.direction == Bearish)
            && (d != HOLD ==> total != 0.0 && d.score >= 0.35 && d.analysis == Some(AnalysisOf(signals)))
            && (d.direction == Bullish ==> d.score == bull / total - penalty)
            && (d.direction == Bearish ==> d.score == bear / total - penalty)
  {
    if signals != [] {
      JudgeScore(TallyOf(signals));
    }
  }

  // ---------------------------------------------------------------- monotonicity

  /** What a new confidence changes in the signal's vote. */
  function VoteChange(s: AgentSignal, confidence: real): real { s.signalWeight * (confidence - s.confidence) }

  lemma {:induction false} DifferenceScales(w: real, a: real, b: real)
    ensures w * b - w * a == w * (b - a)
  {
  }

  /** A new confidence of one bullish signal moves the bull sum by the change of its vote, and
      neither the bear sum nor the total. */
  lemma {:induction false} ConfidenceMovesSum(signals: seq<AgentSignal>, k: nat, confidence: real)
    requires k < |signals| && IsBullish(signals[k])
    ensures var moved := signals[k := signals[k].(confidence := confidence)];
            && SumBy(moved, BullStrength) ==
               SumBy(signals, BullStrength) + VoteChange(signals[k], confidence)
            && SumBy(moved, BearStrength) == SumBy(signals, BearStrength)
            && SumBy(moved, Weight) == SumBy(signals, Weight)
  {
    var s, s' := signals[k], signals[k].(confidence := confidence);
    SumByUpdate(signals, k, s', BullStrength);
    SumByUpdate(signals, k, s', BearStrength);
    SumByUpdate(signals, k, s', Weight);
    DifferenceScales(s.signalWeight, s.confidence, confidence);
  }

  /** The lists agree up to the confidences. */
  predicate SameDirections(a: seq<AgentSignal>, b: seq<AgentSignal>) {
    |a| == |b| && forall i :: 0 <= i < |a| ==> a[i].agentName == b[i].agentName && a[i].direction == b[i].direction
  }

  lemma {:induction false} FindIgnoresConfidence(a: seq<AgentSignal>, b: seq<AgentSignal>, name: string)
    requires SameDirections(a, b)
    ensures Find(a, name).Some? == Find(b, name).Some?
    ensures Find(a, name).Some? ==> Find(a, name).value.direction == Find(b, name).value.direction
  {
    if a == [] {
    } else {
      FindIgnoresConfidence(a[1..], b[1..], name);
    }
  }

  lemma {:induction false} MembersIgnoreConfidence(a: seq<AgentSignal>, b: seq<AgentSignal>, agents: seq<string>)
    requires SameDirections(a, b)
    ensures |Members(a, agents)| == |Members(b, agents)|
    ensures forall i :: 0 <= i < |Members(a, agents)| ==>
      Members(a, agents)[i].direction == Members(b, agents)[i].direction
  {
    if agents == [] {
    } else {
      MembersIgnoreConfidence(a, b, agents[..|agents| - 1]);
      FindIgnoresConfidence(a, b, agents[|agents| - 1]);
    }
  }

  lemma {:induction false} DirectionsIgnoreConfidence(a: seq<AgentSignal>, b: seq<AgentSignal>, groups: seq<Group>)
    requires SameDirections(a, b)
    ensures GroupDirections(a, groups) == GroupDirections(b, groups)
  {
    if groups == [] {
    } else {
      var agents := groups[|groups| - 1].agents;
      DirectionsIgnoreConfidence(a, b, groups[..|groups| - 1]);
      MembersIgnoreConfidence(a, b, agents);
      CountByPointwise(Members(a, agents), Members(b, agents), IsPlainBull, IsPlainBull);
      CountByPointwise(Members(a, agents), Members(b, agents), IsPlainBear, IsPlainBear);
    }
  }

  lemma {:induction false} AnalysisIgnoresConfidence(signals: seq<AgentSignal>, k: nat, confidence: real)
    requires k < |signals|
    ensures AnalysisOf(signals[k := signals[k].(confidence := confidence)]) == AnalysisOf(signals)
  {
    DirectionsIgnoreConfidence(signals[k := signals[k].(confidence := confidence)], signals, LAYER_GROUPS);
  }

  lemma {:induction false} TradableIgnoresConfidence(signals: seq<AgentSignal>, k: nat, confidence: real)
    requires k < |signals|
    ensures FirstTradable(signals[k := signals[k].(confidence := confidence)]) == FirstTradable(signals)
  {
    var raised := signals[k := signals[k].(confidence := confidence)];
    if k > 0 {
      TradableIgnoresConfidence(signals[1..], k - 1, confidence);
      assert raised[1..] == signals[1..][k - 1 := signals[1..][k - 1].(confidence := confidence)];
    } else {
      assert raised[1..] == signals[1..];
    }
  }

  lemma {:induction false} ConfidenceKeepsCounts(a: seq<AgentSignal>, b: seq<AgentSignal>)
    requires SameDirections(a, b)
    ensures CountBy(a, IsBullish) == CountBy(b, IsBullish)
    ensures CountBy(a, IsBearish) == CountBy(b, IsBearish)
    ensures CountBy(a, IsNeutral) == CountBy(b, IsNeutral)
  {
    CountByPointwise(a, b, IsBullish, IsBullish);
    CountByPointwise(a, b, IsBearish, IsBearish);
    CountByPointwise(a, b, IsNeutral, IsNeutral);
  }

  lemma {:induction false} TallyMoved(signals: seq<AgentSignal>, k: nat, confidence: real)
    requires k < |signals| && IsBullish(signals[k])
    ensures TallyOf(signals[k := signals[k].(confidence := confidence)]) ==
      TallyOf(signals).(bull := TallyOf(signals).bull + VoteChange(signals[k], confidence))
  {
    var moved := signals[k := signals[k].(confidence := confidence)];
    ConfidenceMovesSum(signals, k, confidence);
    ConfidenceKeepsCounts(signals, moved);
    AnalysisIgnoresConfidence(signals, k, confidence);
    TradableIgnoresConfidence(signals, k, confidence);
  }

  lemma {:induction false} QuotientsOrdered(x: real, y: real, total: real, a: real, b: real)
    requires total > 0.0 && x * total == a && y * total == b && a <= b
    ensures x <= y
  {
    var d := x - y;
    assert d * total == a - b;
  }

  lemma {:induction false} ShareGrows(a: real, b: real, total: real)
    requires total > 0.0 && a <= b
    ensures Share(a, total) <= Share(b, total)
  {
    QuotientsOrdered(a / total, b / total, total, a, b);
  }

  lemma {:induction false} VoteGrows(s: AgentSignal, confidence: real)
    requires s.signalWeight >= 0.0 && s.confidence <= confidence
    ensures VoteChange(s, confidence) >= 0.0
  {
    ScaleLe(0.0, confidence - s.confidence, s.signalWeight);
  }

  lemma {:induction false} ShareMoves(a: real, gain: real, total: real)
    requires total > 0.0
    ensures Share(a + gain, total) == Share(a, total) + Share(gain, total)
  {
    var x, y := a / total, gain / total;
    assert x * total == a && y * total == gain;
    QuotientIs(a + gain, total, x + y);
  }

  lemma {:induction false} JudgeRaised(t: Tally, gain: real)
    requires t.total >= 0.0 && gain >= 0.0
    requires Judge(t).direction == Bullish
    ensures t.total > 0.0 && Judge(t.(bull := t.bull + gain)).direction == Bullish
    ensures Judge(t.(bull := t.bull + gain)).score == Judge(t).score + Share(gain, t.total) >= Judge(t).score
  {
    ShareMoves(t.bull, gain, t.total);
    ShareGrows(t.bull, t.bull + gain, t.total);
  }

  /** Raising the confidence of one bullish signal never undoes a bullish verdict, and raises its
      score by the signal's part of the total weight times the change. */
  lemma {:induction false} RaisingBullKeepsBullish(signals: seq<AgentSignal>, k: nat, confidence: real)
    requires k < |signals| && IsBullish(signals[k])
    requires forall i :: 0 <= i < |signals| ==> InRange(signals[i])
    requires signals[k].confidence <= confidence
    ensures var raised := Verdict(signals[k := signals[k].(confidence := confidence)]);
            var total := SumBy(signals, Weight);
            Verdict(signals).direction == Bullish ==>
              && total > 0.0 && raised.direction == Bullish
              && raised.score == Verdict(signals).score + VoteChange(signals[k], confidence) / total
              && raised.score >= Verdict(signals).score
  {
    if Verdict(signals).direction == Bullish {
      VoteGrows(signals[k], confidence);
      TallyMoved(signals, k, confidence);
      SidesWithinTotal(signals);
      JudgeRaised(TallyOf(signals), VoteChange(signals[k], confidence));
    }
  }

  // ---------------------------------------------------------------- undisputed votes

  lemma {:induction false} FoundIsMember(signals: seq<AgentSignal>, name: string)
    ensures Find(signals, name).Some? ==> Find(signals, name).value in signals
  {
    if signals == [] {
    } else {
      FoundIsMember(signals[1..], name);
    }
  }

  lemma {:induction false} NoBearishMember(signals: seq<AgentSignal>, agents: seq<string>)
    requires forall i :: 0 <= i < |signals| ==> IsBullish(signals[i])
    ensures CountBy(Members(signals, agents), IsPlainBear) == 0
  {
    if agents == [] {
    } else {
      var init, name := agents[..|agents| - 1], agents[|agents| - 1];
      NoBearishMember(signals, init);
      FoundIsMember(signals, name);
      if Find(signals, name).Some? {
        CountByAppend(Members(signals, init), Find(signals, name).value, IsPlainBear);
      } else {
        assert Members(signals, agents) == Members(signals, init);
      }
    }
  }

  lemma {:induction false} NoOneAgainst(signals: seq<AgentSignal>, groups: seq<Group>)
    requires forall i :: 0 <= i < |signals| ==> IsBullish(signals[i])
    ensures forall i :: 0 <= i < |GroupDirections(signals, groups)| ==>
      GroupDirections(signals, groups)[i].lean != LeansBear
  {
    if groups == [] {
    } else {
      NoOneAgainst(signals, groups[..|groups| - 1]);
      NoBearishMember(signals, groups[|groups| - 1].agents);
    }
  }

  lemma {:induction false} NoBearStrength(signals: seq<AgentSignal>)
    requires forall i :: 0 <= i < |signals| ==> IsBullish(signals[i])
    ensures SumBy(signals, BearStrength) == 0.0
  {
    if signals == [] {
    } else {
      NoBearStrength(signals[..|signals| - 1]);
    }
  }

  /** When every signal in range is bullish there is no conflict penalty: the verdict is bullish
      exactly when some signal is tradable and the mean confidence, by weight, is at least 0.35,
      and that mean is the score. */
  lemma {:induction false} UnanimousVote(signals: seq<AgentSignal>)
    requires forall i :: 0 <= i < |signals| ==> InRange(signals[i]) && IsBullish(signals[i])
    ensures var bull, total := SumBy(signals, BullStrength), SumBy(signals, Weight);
            && (Verdict(signals).direction == Bullish <==>
                  FirstTradable(signals).Some? && bull > 0.0 && bull >= 0.35 * total)
            && (Verdict(signals).direction == Bullish ==> total > 0.0 && Verdict(signals).score == bull / total)
            && Verdict(signals).direction != Bearish
  {
    NoOneAgainst(signals, LAYER_GROUPS);
    NoBearStrength(signals);
    ScoreBounds(signals);
    assert AnalysisOf(signals).confidencePenalty == AnalysisOf(signals).conflictScore * PENALTY_RATE == 0.0;
    SidesWithinTotal(signals);
    TakesSideIff(signals);
    ScoreIsNetShare(signals);
  }

  lemma {:induction false} LoneSums(s: AgentSignal)
    requires IsBullish(s)
    ensures SumBy([s], BullStrength) == s.signalWeight * s.confidence && SumBy([s], Weight) == s.signalWeight
  {
    assert [s] == [] + [s];
    SumByAppend([], s, BullStrength);
    SumByAppend([], s, Weight);
  }

  lemma {:induction false} PartOfWeight(bull: real, total: real, c: real)
    requires total > 0.0 && bull == c * total
    ensures (bull > 0.0 && bull >= 0.35 * total) <==> c >= 0.35
    ensures bull / total == c
  {
    var d := c - 0.35;
    assert d * total == bull - 0.35 * total;
    if c >= 0.35 {
      ScaleLe(0.35, c, total);
    } else {
      OrderScales(d, 0.0, total);
    }
    QuotientIs(bull, total, c);
  }

  lemma {:induction false} LoneMean(s: AgentSignal)
    requires IsBullish(s) && s.signalWeight > 0.0
    ensures var bull, total := SumBy([s], BullStrength), SumBy([s], Weight);
            total > 0.0 && bull / total == s.confidence && (bull > 0.0 && bull >= 0.35 * total <==> s.confidence >= 0.35)
  {
    LoneSums(s);
    PartOfWeight(SumBy([s], BullStrength), SumBy([s], Weight), s.confidence);
  }

  /** A single bullish signal in range on a tradable symbol decides exactly when its confidence
      is at least 0.35, and its confidence is the score. */
  lemma {:induction false} LoneSignal(s: AgentSignal)
    requires s.direction in {Bullish, Buy, StrongBuy} && s.signalWeight > 0.0 && 0.0 <= s.confidence <= 1.0
    requires s.symbol in ["NIFTY BANK", "BSE BANKEX"]
    ensures Verdict([s]).direction == Bullish <==> s.confidence >= 0.35
    ensures Verdict([s]) == HOLD <==> s.confidence < 0.35
    ensures s.confidence >= 0.35 ==> Verdict([s]).score == s.confidence && Verdict([s]).symbol == s.symbol
  {
    LoneMean(s);
    UnanimousVote([s]);
    ScoreIsNetShare([s]);
    CountsAddUp([s]);
  }
}
