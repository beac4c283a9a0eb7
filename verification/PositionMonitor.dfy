/** `MasterDecisionMakerAgent` as an object: `decide` with its history, and
    `monitor_open_positions`, which turns successive verdicts into exits. */
module PositionMonitor {
  import opened Common
  import opened Folds
  import opened SignalSchema
  import opened MasterDecision
  import ConflictDetector
  import SignalBus
  import KillSwitch

  const PERSISTENCE_THRESHOLD: nat := 2

  datatype OpenPosition = OpenPosition(id: string, symbol: string, side: Side)

  datatype ExitKind = Sustained | KillSwitchHalt

  datatype Exit = Exit(symbol: string, positionId: string, kind: ExitKind)

  /** The dictionary of open positions: keys are distinct. */
  predicate IsBook(positions: seq<OpenPosition>) {
    forall i, j :: 0 <= i < j < |positions| ==> positions[i].id != positions[j].id
  }

  // ---------------------------------------------------------------- one call

  /** A verdict strictly beyond the strong threshold against the position's side. */
  predicate SeesReversal(d: Decision, side: Side) {
    && d.score > STRONG_THRESHOLD
    && ((side == Long && d.direction == Bearish) || (side == Short && d.direction == Bullish))
  }

  function CountOf(counter: map<string, nat>, id: string): nat {
    if id in counter then counter[id] else 0
  }

  function NextCount(d: Decision, counter: map<string, nat>, p: OpenPosition): nat {
    if SeesReversal(d, p.side) then CountOf(counter, p.id) + 1 else 0
  }

  function CountersAfter(d: Decision, counter: map<string, nat>, positions: seq<OpenPosition>): map<string, nat>
  {
    if positions == [] then counter else
      var p := positions[|positions| - 1];
      var c := CountersAfter(d, counter, positions[..|positions| - 1]);
      c[p.id := NextCount(d, c, p)]
  }

  /** Exits for one position whose counter now stands at `count`. */
  function ExitsFor(halted: bool, p: OpenPosition, count: nat): seq<Exit> {
    (if count >= PERSISTENCE_THRESHOLD then [Exit(p.symbol, p.id, Sustained)] else [])
    + (if halted then [Exit(p.symbol, p.id, KillSwitchHalt)] else [])
  }

  function ExitsAfter(d: Decision, halted: bool, counter: map<string, nat>, positions: seq<OpenPosition>): seq<Exit>
  {
    if positions == [] then [] else
      var p := positions[|positions| - 1];
      var rest := positions[..|positions| - 1];
      ExitsAfter(d, halted, counter, rest) + ExitsFor(halted, p, NextCount(d, CountersAfter(d, counter, rest), p))
  }

  /** What one monitor call works from: the verdict, whether the kill switch fires on the same
      market data, and the positions it processes, none when no agent has reported. */
  datatype Reading = Reading(verdict: Decision, halted: bool, positions: seq<OpenPosition>)

  function ReadingOf(cfg: KillSwitch.KillSwitchConfig, data: KillSwitch.MarketData, signals: seq<AgentSignal>,
                     positions: seq<OpenPosition>): Reading {
    Reading(Decide(cfg, data, signals), KillSwitch.HaltReason(cfg, data).Some?,
            if signals == [] then [] else positions)
  }

  /** A side's strength exceeds the strong threshold plus the penalty on the total weight. */
  predicate IsStrongMajority(side: real, total: real, penalty: real) {
    side > (0.55 + penalty) * total
  }

  lemma {:induction false} ScoreBeyondStrong(side: real, total: real, penalty: real, score: real)
    requires total > 0.0 && score == Share(side, total) - penalty
    ensures score > STRONG_THRESHOLD <==> IsStrongMajority(side, total, penalty)
  {
    var q := Share(side, total);
    assert q * total == side;
    OrderScales(STRONG_THRESHOLD + penalty, q, total);
  }

  lemma {:induction false} StrongMajorityWins(side: real, other: real, total: real, penalty: real)
    requires side >= 0.0 && other >= 0.0 && side + other <= total && penalty >= 0.0
    requires IsStrongMajority(side, total, penalty)
    ensures total > 0.0 && Wins(side, other, total, penalty)
  {
    ScaleLe(STRONG_THRESHOLD, STRONG_THRESHOLD + penalty, total);
    ScaleLe(DECISION_THRESHOLD + penalty, STRONG_THRESHOLD + penalty, total);
  }

  /** The same on the figures of a decision. */
  lemma {:induction false} SideIsReversal(d: Decision, bull: real, bear: real, total: real, penalty: real, tradable: bool)
    requires bull >= 0.0 && bear >= 0.0 && bull + bear <= total && penalty >= 0.0
    requires d.direction == Bullish <==> tradable && Wins(bull, bear, total, penalty)
    requires d.direction == Bearish <==> tradable && Wins(bear, bull, total, penalty)
    requires d.direction in {Bullish, Bearish} ==> total > 0.0
    requires d.direction == Bullish ==> d.score == Share(bull, total) - penalty
    requires d.direction == Bearish ==> d.score == Share(bear, total) - penalty
    ensures SeesReversal(d, Long) <==> tradable && IsStrongMajority(bear, total, penalty)
    ensures SeesReversal(d, Short) <==> tradable && IsStrongMajority(bull, total, penalty)
  {
    if d.direction == Bearish {
      ScoreBeyondStrong(bear, total, penalty, d.score);
    }
    if d.direction == Bullish {
      ScoreBeyondStrong(bull, total, penalty, d.score);
    }
    if IsStrongMajority(bear, total, penalty) {
      StrongMajorityWins(bear, bull, total, penalty);
    }
    if IsStrongMajority(bull, total, penalty) {
      StrongMajorityWins(bull, bear, total, penalty);
    }
  }

  /** Across monitor, vote, conflict detector and kill switch: for signals in range a decision sees a
      position's reversal exactly when the market is not halted, some signal is tradable, and the
      opposite side holds more than 55 percent plus the conflict penalty of the total weight. */
  lemma {:induction false} ReversalIffStrongMajority(cfg: KillSwitch.KillSwitchConfig, data: KillSwitch.MarketData,
      signals: seq<AgentSignal>, side: Side)
    requires forall i :: 0 <= i < |signals| ==> InRange(signals[i])
    ensures var bull, bear, total := SumBy(signals, BullStrength), SumBy(signals, BearStrength), SumBy(signals, Weight);
            var penalty := ConflictDetector.AnalysisOf(signals).confidencePenalty;
            SeesReversal(Decide(cfg, data, signals), side) <==>
              && KillSwitch.HaltReason(cfg, data).None? && FirstTradable(signals).Some?
              && ((side == Long && IsStrongMajority(bear, total, penalty))
                  || (side == Short && IsStrongMajority(bull, total, penalty)))
  {
    var bull, bear, total := SumBy(signals, BullStrength), SumBy(signals, BearStrength), SumBy(signals, Weight);
    var penalty := ConflictDetector.AnalysisOf(signals).confidencePenalty;
    var d := Verdict(signals);
    SidesWithinTotal(signals);
    ConflictDetector.ScoreBounds(signals);
    TakesSideIff(signals);
    ScoreIsNetShare(signals);
    SideIsReversal(d, bull, bear, total, penalty, FirstTradable(signals).Some?);
  }

  class MasterDecisionMakerAgent {
    const bus: SignalBus.InterAgentSignalBus
    const killSwitch: KillSwitch.VolatilityKillSwitch
    var decisionHistory: seq<(Direction, real)>
    var reversalCounter: map<string, nat>

    constructor (bus: SignalBus.InterAgentSignalBus, killSwitch: KillSwitch.VolatilityKillSwitch)
      ensures this.bus == bus && this.killSwitch == killSwitch
      ensures decisionHistory == [] && reversalCounter == map[]
    {
      this.bus := bus;
      this.killSwitch := killSwitch;
      decisionHistory, reversalCounter := [], map[];
    }

    method WeighVotes(signals: seq<AgentSignal>) returns (bull: real, bear: real, total: real)
      ensures bull == SumBy(signals, BullStrength)
      ensures bear == SumBy(signals, BearStrength)
      ensures total == SumBy(signals, Weight)
    {
      bull, bear, total := 0.0, 0.0, 0.0;
      for i := 0 to |signals|
        invariant bull == SumBy(signals[..i], BullStrength)
        invariant bear == SumBy(signals[..i], BearStrength)
        invariant total == SumBy(signals[..i], Weight)
      {
        assert signals[..i + 1][..i] == signals[..i];
        var weight := Strength(signals[i]);
        if IsBullish(signals[i]) {
          bull := bull + weight;
        } else if IsBearish(signals[i]) {
          bear := bear + weight;
        }
        total := total + signals[i].signalWeight;
      }
      assert signals[..|signals|] == signals;
    }

    method DecideNow(data: KillSwitch.MarketData) returns (d: Decision)
      modifies this`decisionHistory, killSwitch
      ensures d == Decide(killSwitch.config, data, bus.signals)
      ensures killSwitch.Current() == KillSwitch.Apply(killSwitch.config, old(killSwitch.Current()), KillSwitch.Checked(data))
      ensures decisionHistory == old(decisionHistory) + (if d == HOLD then [] else [(d.direction, d.score)])
    {
      var halted, _ := killSwitch.Check(data);
      if halted {
        return HOLD;
      }
      var signals := bus.GetAllSignals();
      if signals == [] {
        return HOLD;
      }
      var analysis := ConflictDetector.AnalyzeConflicts(signals);
      var bull, bear, total := WeighVotes(signals);
      d := Judge(Tally(bull, bear, total, |signals|, CountBy(signals, IsBullish), CountBy(signals, IsBearish),
                       CountBy(signals, IsNeutral), FirstTradable(signals), analysis));
      if d != HOLD {
        decisionHistory := decisionHistory + [(d.direction, d.score)];
      }
    }

    method DetectReversal(consensus: Decision, side: Side) returns (isReversing: bool)
      ensures isReversing == SeesReversal(consensus, side)
    {
      isReversing := false;
      if side == Long && consensus.direction == Bearish {
        if consensus.score > STRONG_THRESHOLD {
          isReversing := true;
        }
      } else if side == Short && consensus.direction == Bullish {
        if consensus.score > STRONG_THRESHOLD {
          isReversing := true;
        }
      }
    }

    /** The loop of the monitor: counts reversals and re-checks the kill switch per position. */
    method ScanPositions(consensus: Decision, positions: seq<OpenPosition>, data: KillSwitch.MarketData)
      returns (exits: seq<Exit>)
      requires KillSwitch.Apply(killSwitch.config, killSwitch.Current(), KillSwitch.Checked(data)) == killSwitch.Current()
      modifies this`reversalCounter, killSwitch
      ensures reversalCounter == CountersAfter(consensus, old(reversalCounter), positions)
      ensures exits == ExitsAfter(consensus, KillSwitch.HaltReason(killSwitch.config, data).Some?,
                                  old(reversalCounter), positions)
      ensures killSwitch.Current() == old(killSwitch.Current())
    {
      exits := [];
      ghost var halt := KillSwitch.HaltReason(killSwitch.config, data).Some?;
      for i := 0 to |positions|
        invariant reversalCounter == CountersAfter(consensus, old(reversalCounter), positions[..i])
        invariant exits == ExitsAfter(consensus, halt, old(reversalCounter), positions[..i])
        invariant killSwitch.Current() == old(killSwitch.Current())
      {
        assert positions[..i + 1][..i] == positions[..i];
        var pos := positions[i];
        ghost var count := NextCount(consensus, reversalCounter, pos);
        var isReversing := DetectReversal(consensus, pos.side);
        var flagged := [];
        if isReversing {
          reversalCounter := reversalCounter[pos.id := CountOf(reversalCounter, pos.id) + 1];
          if reversalCounter[pos.id] >= PERSISTENCE_THRESHOLD {
            flagged := flagged + [Exit(pos.symbol, pos.id, Sustained)];
          }
        } else {
          reversalCounter := reversalCounter[pos.id := 0];
        }
        var halted, _ := killSwitch.Check(data);
        if halted {
          flagged := flagged + [Exit(pos.symbol, pos.id, KillSwitchHalt)];
        }
        assert flagged == ExitsFor(halt, pos, count);
        exits := exits + flagged;
      }
      assert positions[..|positions|] == positions;
    }

    method MonitorOpenPositions(positions: seq<OpenPosition>, data: KillSwitch.MarketData) returns (exits: seq<Exit>)
      modifies this, killSwitch
      ensures var verdict := Decide(killSwitch.config, data, bus.signals);
              var halted := KillSwitch.HaltReason(killSwitch.config, data).Some?;
              var seen := if bus.signals == [] then [] else positions;
              && exits == ExitsAfter(verdict, halted, old(reversalCounter), seen)
              && reversalCounter == CountersAfter(verdict, old(reversalCounter), seen)
              && decisionHistory == old(decisionHistory)
                                    + (if seen == [] || verdict == HOLD then [] else [(verdict.direction, verdict.score)])
              && killSwitch.Current()
                 == (if seen == [] then old(killSwitch.Current())
                     else KillSwitch.Apply(killSwitch.config, old(killSwitch.Current()), KillSwitch.Checked(data)))
    {
      exits := [];
      var signals := bus.GetAllSignals();
      if signals == [] || positions == [] {
        return;
      }
      KillSwitch.CheckIsIdempotent(killSwitch.config, killSwitch.Current(), data);
      var consensus := DecideNow(data);
      exits := ScanPositions(consensus, positions, data);
    }
  }

  // ---------------------------------------------------------------- one call, position by position

  predicate Holds(positions: seq<OpenPosition>, id: string) {
    exists i :: 0 <= i < |positions| && positions[i].id == id
  }

  lemma {:induction false} OtherCountersKept(d: Decision, counter: map<string, nat>,
      positions: seq<OpenPosition>, id: string)
    requires !Holds(positions, id)
    ensures CountOf(CountersAfter(d, counter, positions), id) == CountOf(counter, id)
  {
    if positions == [] {
    } else {
      OtherCountersKept(d, counter, positions[..|positions| - 1], id);
      assert positions[|positions| - 1].id != id;
    }
  }

  lemma {:induction false} CounterOf(d: Decision, counter: map<string, nat>, positions: seq<OpenPosition>, i: nat)
    requires IsBook(positions) && i < |positions|
    ensures CountOf(CountersAfter(d, counter, positions), positions[i].id) == NextCount(d, counter, positions[i])
  {
    var init, last := positions[..|positions| - 1], positions[|positions| - 1];
    if i < |init| {
      CounterOf(d, counter, init, i);
    } else {
      OtherCountersKept(d, counter, init, last.id);
    }
  }

  /** The last position's exits do not depend on the positions before it. */
  lemma {:induction false} ExitsOfLast(d: Decision, halted: bool, counter: map<string, nat>,
      positions: seq<OpenPosition>)
    requires IsBook(positions) && positions != []
    ensures var last := positions[|positions| - 1];
            ExitsAfter(d, halted, counter, positions)
            == ExitsAfter(d, halted, counter, positions[..|positions| - 1])
               + ExitsFor(halted, last, NextCount(d, counter, last))
  {
    OtherCountersKept(d, counter, positions[..|positions| - 1], positions[|positions| - 1].id);
  }

  predicate ExitsPosition(d: Decision, halted: bool, counter: map<string, nat>, p: OpenPosition, e: Exit) {
    && e.positionId == p.id && e.symbol == p.symbol
    && (if e.kind == Sustained then NextCount(d, counter, p) >= 2 else halted)
  }

  /** The exits of one call, each position looked at on its own. */
  lemma {:induction false} ExitsByPosition(d: Decision, halted: bool, counter: map<string, nat>,
                                           positions: seq<OpenPosition>, e: Exit)
    requires IsBook(positions)
    ensures e in ExitsAfter(d, halted, counter, positions) <==>
      exists i :: 0 <= i < |positions| && ExitsPosition(d, halted, counter, positions[i], e)
  {
    if positions == [] {
    } else {
      var init := positions[..|positions| - 1];
      ExitsByPosition(d, halted, counter, init, e);
      ExitsOfLast(d, halted, counter, positions);
      assert forall i :: 0 <= i < |init| ==> init[i] == positions[i];
    }
  }

  /** No position appears twice. */
  predicate DistinctExits(exits: seq<Exit>) {
    forall i, j :: 0 <= i < j < |exits| ==> exits[i].positionId != exits[j].positionId
  }

  /** One call lists a position at most once: the monitor's verdict and its kill-switch check use
      the same market data, and a halt turns the verdict into a hold, which is no reversal. */
  lemma {:induction false} NoPositionTwice(d: Decision, halted: bool, counter: map<string, nat>,
      positions: seq<OpenPosition>)
    requires IsBook(positions)
    requires halted ==> d == HOLD
    ensures DistinctExits(ExitsAfter(d, halted, counter, positions))
    ensures forall k :: 0 <= k < |ExitsAfter(d, halted, counter, positions)| ==>
      Holds(positions, ExitsAfter(d, halted, counter, positions)[k].positionId)
  {
    if positions == [] {
    } else {
      var init, last := positions[..|positions| - 1], positions[|positions| - 1];
      NoPositionTwice(d, halted, counter, init);
      var before := ExitsAfter(d, halted, counter, init);
      assert |ExitsFor(halted, last, NextCount(d, CountersAfter(d, counter, init), last))| <= 1;
      assert positions[|init|] == last;
      forall k | 0 <= k < |before|
        ensures before[k].positionId != last.id && Holds(positions, before[k].positionId)
      {
        var i :| 0 <= i < |init| && init[i].id == before[k].positionId;
        assert positions[i] == init[i];
      }
    }
  }

  /** When the kill switch fires, every position exits exactly once, in order, and its counter is 0. */
  lemma {:induction false} HaltExitsEveryPosition(counter: map<string, nat>, positions: seq<OpenPosition>)
    requires IsBook(positions)
    ensures var exits := ExitsAfter(HOLD, true, counter, positions);
            && |exits| == |positions|
            && (forall i :: 0 <= i < |positions| ==>
                  exits[i] == Exit(positions[i].symbol, positions[i].id, KillSwitchHalt))
    ensures forall i :: 0 <= i < |positions| ==> CountOf(CountersAfter(HOLD, counter, positions), positions[i].id) == 0
  {
    if positions == [] {
    } else {
      HaltExitsEveryPosition(counter, positions[..|positions| - 1]);
    }
  }

  // ---------------------------------------------------------------- whole runs of the monitor

  /** A call made through the agent never reads a reversal off a halted market. */
  predicate IsConsistent(r: Reading) {
    IsBook(r.positions) && (r.halted ==> r.verdict == HOLD)
  }

  lemma {:induction false} ReadingsAreConsistent(cfg: KillSwitch.KillSwitchConfig, data: KillSwitch.MarketData,
      signals: seq<AgentSignal>,
                              positions: seq<OpenPosition>)
    requires IsBook(positions)
    ensures IsConsistent(ReadingOf(cfg, data, signals, positions))
  {
  }

  /** What the call sees for the position: a strong verdict against its side, or not. */
  predicate Observes(r: Reading, id: string) {
    exists i :: 0 <= i < |r.positions| && r.positions[i].id == id && SeesReversal(r.verdict, r.positions[i].side)
  }

  /** The agent's counters after a sequence of calls. */
  function CountersOver(calls: seq<Reading>): map<string, nat>
  {
    if calls == [] then map[] else
      var r := calls[|calls| - 1];
      CountersAfter(r.verdict, CountersOver(calls[..|calls| - 1]), r.positions)
  }

  /** Exits returned by the call `r` when it follows `calls`. */
  function ExitsOfCall(calls: seq<Reading>, r: Reading): seq<Exit> {
    ExitsAfter(r.verdict, r.halted, CountersOver(calls), r.positions)
  }

  /** What the calls that processed the position observed, in order. */
  function Observations(calls: seq<Reading>, id: string): seq<bool>
  {
    if calls == [] then [] else
      var r := calls[|calls| - 1];
      Observations(calls[..|calls| - 1], id) + (if Holds(r.positions, id) then [Observes(r, id)] else [])
  }

  function TrailingTrue(s: seq<bool>): nat
  {
    if s == [] || !s[|s| - 1] then 0 else TrailingTrue(s[..|s| - 1]) + 1
  }

  lemma {:induction false} TrailingAppend(s: seq<bool>, b: bool)
    ensures TrailingTrue(s + [b]) == if b then TrailingTrue(s) + 1 else 0
  {
    assert (s + [b])[..|s|] == s;
  }

  ghost predicate AllBooks(calls: seq<Reading>) {
    forall k :: 0 <= k < |calls| ==> IsBook(calls[k].positions)
  }

  /** The count after one more call. */
  lemma {:induction false} CountAfterCall(counter: map<string, nat>, r: Reading, id: string)
    requires IsBook(r.positions)
    ensures CountOf(CountersAfter(r.verdict, counter, r.positions), id)
            == (if !Holds(r.positions, id) then CountOf(counter, id)
                else if Observes(r, id) then CountOf(counter, id) + 1
                else 0)
  {
    if i :| 0 <= i < |r.positions| && r.positions[i].id == id {
      CounterOf(r.verdict, counter, r.positions, i);
    } else {
      OtherCountersKept(r.verdict, counter, r.positions, id);
    }
  }

  lemma {:induction false} TrailingStep(counter: map<string, nat>, seen: seq<bool>, r: Reading, id: string)
    requires IsBook(r.positions) && CountOf(counter, id) == TrailingTrue(seen)
    ensures CountOf(CountersAfter(r.verdict, counter, r.positions), id)
            == TrailingTrue(seen + (if Holds(r.positions, id) then [Observes(r, id)] else []))
  {
    CountAfterCall(counter, r, id);
    TrailingAppend(seen, Observes(r, id));
    assert seen + [] == seen;
  }

  /** Over any sequence of calls a position's counter is the number of latest processing calls in
      a row that saw a strong opposite consensus. */
  lemma {:induction false} CounterIsTrailingRun(calls: seq<Reading>, id: string)
    requires AllBooks(calls)
    ensures CountOf(CountersOver(calls), id) == TrailingTrue(Observations(calls, id))
  {
    if calls == [] {
    } else {
      var init, r := calls[..|calls| - 1], calls[|calls| - 1];
      CounterIsTrailingRun(init, id);
      TrailingStep(CountersOver(init), Observations(init, id), r, id);
    }
  }

  lemma {:induction false} TwoInARow(seen: seq<bool>)
    ensures TrailingTrue(seen) >= 2 <==> |seen| >= 2 && seen[|seen| - 1] && seen[|seen| - 2]
  {
    if |seen| >= 1 {
      assert seen[..|seen| - 1] == [] || seen[..|seen| - 1][|seen| - 2] == seen[|seen| - 2];
    }
  }

  lemma {:induction false} SustainedIffCount(d: Decision, halted: bool, counter: map<string, nat>,
      positions: seq<OpenPosition>, id: string)
    requires IsBook(positions)
    ensures (exists symbol :: Exit(symbol, id, Sustained) in ExitsAfter(d, halted, counter, positions)) <==>
      Holds(positions, id) && CountOf(CountersAfter(d, counter, positions), id) >= PERSISTENCE_THRESHOLD
  {
    if symbol :| Exit(symbol, id, Sustained) in ExitsAfter(d, halted, counter, positions) {
      var e := Exit(symbol, id, Sustained);
      ExitsByPosition(d, halted, counter, positions, e);
      var i :| 0 <= i < |positions| && ExitsPosition(d, halted, counter, positions[i], e);
      CounterOf(d, counter, positions, i);
    }
    if i :| 0 <= i < |positions| && positions[i].id == id {
      CounterOf(d, counter, positions, i);
      if NextCount(d, counter, positions[i]) >= PERSISTENCE_THRESHOLD {
        var e := Exit(positions[i].symbol, id, Sustained);
        assert ExitsPosition(d, halted, counter, positions[i], e);
        ExitsByPosition(d, halted, counter, positions, e);
      }
    }
  }

  /** A position is flagged as a sustained reversal exactly when this call processes it and the
      last two calls that processed it, this one included, both saw a strong opposite consensus. */
  lemma {:induction false} SustainedIffTwoInARow(calls: seq<Reading>, r: Reading, id: string)
    requires AllBooks(calls + [r])
    ensures (exists symbol :: Exit(symbol, id, Sustained) in ExitsOfCall(calls, r)) <==>
      var seen := Observations(calls + [r], id);
      Holds(r.positions, id) && |seen| >= 2 && seen[|seen| - 1] && seen[|seen| - 2]
  {
    var all := calls + [r];
    assert all[..|calls|] == calls && all[|calls|] == r;
    var count := CountOf(CountersOver(all), id);
    assert count == TrailingTrue(Observations(all, id)) by {
      CounterIsTrailingRun(all, id);
    }
    TwoInARow(Observations(all, id));
    SustainedIffCount(r.verdict, r.halted, CountersOver(calls), r.positions, id);
  }

  /** In every run no call lists a position twice, and a call whose market data fires the kill
      switch exits every processed position exactly once and leaves its counter at 0. */
  lemma {:induction false} EachCallExitsOnce(calls: seq<Reading>, r: Reading)
    requires IsConsistent(r)
    ensures DistinctExits(ExitsOfCall(calls, r))
    ensures r.halted ==>
      var exits := ExitsOfCall(calls, r);
      && |exits| == |r.positions|
      && forall i :: 0 <= i < |exits| ==>
           exits[i] == Exit(r.positions[i].symbol, r.positions[i].id, KillSwitchHalt)
           && CountOf(CountersOver(calls + [r]), r.positions[i].id) == 0
  {
    assert (calls + [r])[..|calls|] == calls;
    NoPositionTwice(r.verdict, r.halted, CountersOver(calls), r.positions);
    HaltExitsEveryPosition(CountersOver(calls), r.positions);
  }
}
