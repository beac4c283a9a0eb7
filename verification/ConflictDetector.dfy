/** `ConflictDetectionEngine`: group directions, opposing pairs and the confidence penalty. */
module ConflictDetector {
  import opened Common
  import opened Folds
  import opened SignalSchema

  datatype Group = Group(name: string, agents: seq<string>)

  const LAYER_GROUPS: seq<Group> := [
    Group("technical", ["TechnicalAnalysisAgent", "AlgoStrategyAgent", "MarketRegimeAgent"]),
    Group("quant", ["OptionsDerivativesAgent", "ZeroDTEExpiryAgent", "SGXPreMarketAgent"]),
    Group("data", ["IndianMarketDataAgent", "GlobalMarketDataAgent", "CommoditiesAgent"]),
    Group("fundamental", ["FundamentalAnalysisAgent", "FIIDIIFlowAgent", "RBIMacroAgent", "GlobalMacroAgent"]),
    Group("sentiment", ["IndianNewsEventsAgent", "GlobalNewsAgent", "SentimentPositioningAgent"])]

  const PENALTY_RATE: real := 0.30

  datatype Lean = LeansBull | LeansBear | LeansNeither

  datatype GroupDirection = GroupDirection(group: string, lean: Lean)

  datatype Analysis = Analysis(
    groupDirections: seq<GroupDirection>,
    conflicts: seq<(string, string)>,
    conflictScore: real,
    confidencePenalty: real,
    highConflict: bool)

  // ---------------------------------------------------------------- group directions

  /** Signals of the named agents that have reported. */
  function Members(signals: seq<AgentSignal>, agents: seq<string>): seq<AgentSignal>
  {
    if agents == [] then [] else
      var found := Find(signals, agents[|agents| - 1]);
      Members(signals, agents[..|agents| - 1]) + (if found.Some? then [found.value] else [])
  }

  /** Only the plain directions count here; BUY or STRONG_SELL do not. */
  predicate IsPlainBull(s: AgentSignal) { s.direction == Bullish }

  predicate IsPlainBear(s: AgentSignal) { s.direction == Bearish }

  function LeanOf(members: seq<AgentSignal>): Lean {
    var bull, bear := CountBy(members, IsPlainBull), CountBy(members, IsPlainBear);
    if bull > bear then LeansBull else if bear > bull then LeansBear else LeansNeither
  }

  function GroupDirections(signals: seq<AgentSignal>, groups: seq<Group>): seq<GroupDirection>
  {
    if groups == [] then [] else
      var g := groups[|groups| - 1];
      var members := Members(signals, g.agents);
      GroupDirections(signals, groups[..|groups| - 1])
      + (if members == [] then [] else [GroupDirection(g.name, LeanOf(members))])
  }

  method GetGroupDirections(signals: seq<AgentSignal>) returns (dirs: seq<GroupDirection>)
    ensures dirs == GroupDirections(signals, LAYER_GROUPS)
  {
    dirs := [];
    var groups := LAYER_GROUPS;
    for g := 0 to |groups|
      invariant dirs == GroupDirections(signals, groups[..g])
    {
      var members := [];
      var agents := groups[g].agents;
      for a := 0 to |agents|
        invariant members == Members(signals, agents[..a])
      {
        var found := Find(signals, agents[a]);
        assert agents[..a + 1][..a] == agents[..a];
        members := members + (if found.Some? then [found.value] else []);
      }
      assert agents[..|agents|] == agents;
      assert groups[..g + 1][..g] == groups[..g];
      if members != [] {
        dirs := dirs + [GroupDirection(groups[g].name, LeanOf(members))];
      }
    }
    assert groups[..|groups|] == groups;
  }

  /** The agents whose last signal has the direction. */
  function Voters(signals: seq<AgentSignal>, agents: seq<string>, direction: Direction): set<string> {
    set a | a in agents && Find(signals, a).Some? && Find(signals, a).value.direction == direction
  }

  predicate AreDistinct(agents: seq<string>) {
    forall i, j :: 0 <= i < j < |agents| ==> agents[i] != agents[j]
  }

  lemma {:induction false} NextVoter(signals: seq<AgentSignal>, init: seq<string>, name: string, direction: Direction)
    requires name !in init
    ensures |Voters(signals, init + [name], direction)| == |Voters(signals, init, direction)|
            + (if Find(signals, name).Some? && Find(signals, name).value.direction == direction then 1 else 0)
  {
    var before, after := Voters(signals, init, direction), Voters(signals, init + [name], direction);
    if Find(signals, name).Some? && Find(signals, name).value.direction == direction {
      assert after == before + {name};
    } else {
      assert after == before;
    }
  }

  lemma {:induction false} CountIsVoters(signals: seq<AgentSignal>, agents: seq<string>, direction: Direction,
      p: AgentSignal -> bool)
    requires AreDistinct(agents) && forall s: AgentSignal :: p(s) <==> s.direction == direction
    ensures CountBy(Members(signals, agents), p) == |Voters(signals, agents, direction)|
  {
    if agents == [] {
    } else {
      var init, name := agents[..|agents| - 1], agents[|agents| - 1];
      CountIsVoters(signals, init, direction, p);
      var found := Find(signals, name);
      if found.Some? {
        CountByAppend(Members(signals, init), found.value, p);
      } else {
        assert Members(signals, agents) == Members(signals, init);
      }
      assert agents == init + [name];
      NextVoter(signals, init, name, direction);
    }
  }

  /** The direction of a group of which some agent has reported: that of the more numerous side
      among the agents with a plain direction, and neither on a tie. */
  predicate IsDirectionOf(signals: seq<AgentSignal>, g: Group, d: GroupDirection) {
    var bulls, bears := |Voters(signals, g.agents, Bullish)|, |Voters(signals, g.agents, Bearish)|;
    && (exists a :: a in g.agents && Find(signals, a).Some?)
    && d.group == g.name
    && (d.lean == LeansBull <==> bulls > bears)
    && (d.lean == LeansBear <==> bears > bulls)
  }

  lemma {:induction false} MembersReported(signals: seq<AgentSignal>, agents: seq<string>)
    ensures Members(signals, agents) != [] <==> exists a :: a in agents && Find(signals, a).Some?
  {
    if agents == [] {
    } else {
      var init, name := agents[..|agents| - 1], agents[|agents| - 1];
      MembersReported(signals, init);
      assert agents == init + [name];
      assert name in agents;
    }
  }

  lemma {:induction false} LeanIsMajority(signals: seq<AgentSignal>, g: Group, d: GroupDirection)
    requires AreDistinct(g.agents)
    ensures IsDirectionOf(signals, g, d) <==>
      Members(signals, g.agents) != [] && d == GroupDirection(g.name, LeanOf(Members(signals, g.agents)))
  {
    MembersReported(signals, g.agents);
    CountIsVoters(signals, g.agents, Bullish, IsPlainBull);
    CountIsVoters(signals, g.agents, Bearish, IsPlainBear);
  }

  /** The group directions are exactly the directions of the groups that have reported. */
  lemma {:induction false} DirectionsAreMajorities(signals: seq<AgentSignal>, groups: seq<Group>, d: GroupDirection)
    requires forall k :: 0 <= k < |groups| ==> AreDistinct(groups[k].agents)
    ensures d in GroupDirections(signals, groups) <==>
      exists k :: 0 <= k < |groups| && IsDirectionOf(signals, groups[k], d)
  {
    if groups == [] {
    } else {
      var init, g := groups[..|groups| - 1], groups[|groups| - 1];
      DirectionsAreMajorities(signals, init, d);
      LeanIsMajority(signals, g, d);
      assert forall k :: 0 <= k < |init| ==> init[k] == groups[k];
      assert groups[|init|] == g;
    }
  }

  /** No group of the program lists an agent twice. */
  lemma {:induction false} LayerGroupsAreDistinct()
    ensures forall k :: 0 <= k < |LAYER_GROUPS| ==> AreDistinct(LAYER_GROUPS[k].agents)
  {
    assert LAYER_GROUPS[0].agents[1][0] == 'A' && LAYER_GROUPS[0].agents[2][0] == 'M';
    assert LAYER_GROUPS[2].agents[0][0] == 'I' && LAYER_GROUPS[2].agents[1][0] == 'G';
  }

  // ---------------------------------------------------------------- opposing pairs

  predicate Opposed(a: GroupDirection, b: GroupDirection) {
    a.lean != LeansNeither && b.lean != LeansNeither && a.lean != b.lean
  }

  /** Pairs of `d` with the groups of `rest` that oppose it, in order. */
  function PairsWith(d: GroupDirection, rest: seq<GroupDirection>): seq<(string, string)>
  {
    if rest == [] then [] else
      (if Opposed(d, rest[0]) then [(d.group, rest[0].group)] else []) + PairsWith(d, rest[1..])
  }

  /** Every opposing pair once, the earlier group first. */
  function ConflictPairs(dirs: seq<GroupDirection>): seq<(string, string)>
  {
    if dirs == [] then [] else PairsWith(dirs[0], dirs[1..]) + ConflictPairs(dirs[1..])
  }

  lemma {:induction false} NextPair(d: GroupDirection, dirs: seq<GroupDirection>, j: nat, found: seq<(string, string)>)
    requires j < |dirs|
    ensures found + PairsWith(d, dirs[j..]) ==
      (if Opposed(d, dirs[j]) then found + [(d.group, dirs[j].group)] else found) + PairsWith(d, dirs[j + 1..])
  {
    assert dirs[j..][1..] == dirs[j + 1..];
  }

  lemma {:induction false} NextRow(dirs: seq<GroupDirection>, i: nat, found: seq<(string, string)>)
    requires i < |dirs|
    ensures found + ConflictPairs(dirs[i..]) ==
      (found + PairsWith(dirs[i], dirs[i + 1..])) + ConflictPairs(dirs[i + 1..])
  {
    assert dirs[i..][1..] == dirs[i + 1..];
  }

  method FindConflicts(dirs: seq<GroupDirection>) returns (conflicts: seq<(string, string)>)
    ensures conflicts == ConflictPairs(dirs)
  {
    conflicts := [];
    for i := 0 to |dirs|
      invariant conflicts + ConflictPairs(dirs[i..]) == ConflictPairs(dirs)
    {
      NextRow(dirs, i, conflicts);
      ghost var row := conflicts + PairsWith(dirs[i], dirs[i + 1..]);
      for j := i + 1 to |dirs|
        invariant conflicts + PairsWith(dirs[i], dirs[j..]) == row
      {
        NextPair(dirs[i], dirs, j, conflicts);
        if Opposed(dirs[i], dirs[j]) {
          conflicts := conflicts + [(dirs[i].group, dirs[j].group)];
        }
      }
      assert conflicts == row;
    }
  }

  lemma {:induction false} PairsWithMembers(d: GroupDirection, rest: seq<GroupDirection>, pair: (string, string))
    ensures pair in PairsWith(d, rest) <==>
      exists j :: 0 <= j < |rest| && Opposed(d, rest[j]) && pair == (d.group, rest[j].group)
  {
    if rest == [] {
    } else {
      PairsWithMembers(d, rest[1..], pair);
      assert forall j :: 0 <= j < |rest| - 1 ==> rest[1..][j] == rest[j + 1];
      assert forall j :: 0 < j < |rest| ==> rest[j] == rest[1..][j - 1];
    }
  }

  /** `i` and `j` are positions of opposing groups, `i` first, whose names make up the pair. */
  predicate IsConflict(dirs: seq<GroupDirection>, i: nat, j: nat, pair: (string, string)) {
    i < j < |dirs| && Opposed(dirs[i], dirs[j]) && pair == (dirs[i].group, dirs[j].group)
  }

  /** The list holds exactly the pairs of opposing groups, the earlier group named first. */
  lemma {:induction false} ConflictsAreOpposingPairs(dirs: seq<GroupDirection>, pair: (string, string))
    ensures pair in ConflictPairs(dirs) <==> exists i: nat, j: nat :: IsConflict(dirs, i, j, pair)
  {
    if dirs == [] {
    } else {
      var rest := dirs[1..];
      ConflictsAreOpposingPairs(rest, pair);
      PairsWithMembers(dirs[0], rest, pair);
      if j :| 0 <= j < |rest| && Opposed(dirs[0], rest[j]) && pair == (dirs[0].group, rest[j].group) {
        assert IsConflict(dirs, 0, j + 1, pair);
      }
      if i: nat, j: nat :| IsConflict(rest, i, j, pair) {
        assert IsConflict(dirs, i + 1, j + 1, pair);
      }
      if i: nat, j: nat :| IsConflict(dirs, i, j, pair) {
        if i == 0 {
          assert rest[j - 1] == dirs[j];
        } else {
          assert IsConflict(rest, i - 1, j - 1, pair);
        }
      }
    }
  }

  function BullGroups(dirs: seq<GroupDirection>): nat
  {
    if dirs == [] then 0 else (if dirs[0].lean == LeansBull then 1 else 0) + BullGroups(dirs[1..])
  }

  function BearGroups(dirs: seq<GroupDirection>): nat
  {
    if dirs == [] then 0 else (if dirs[0].lean == LeansBear then 1 else 0) + BearGroups(dirs[1..])
  }

  lemma {:induction false} PairsWithCount(d: GroupDirection, rest: seq<GroupDirection>)
    ensures |PairsWith(d, rest)|
            == (if d.lean == LeansBull then BearGroups(rest) else if d.lean == LeansBear then BullGroups(rest) else 0)
  {
    if rest == [] {
    } else {
      PairsWithCount(d, rest[1..]);
    }
  }

  /** One more group adds a pair with each group opposing it. */
  lemma {:induction false} ProductStep(lean: Lean, bulls: nat, bears: nat)
    ensures ((if lean == LeansBull then 1 else 0) + bulls) * ((if lean == LeansBear then 1 else 0) + bears)
            == (if lean == LeansBull then bears else if lean == LeansBear then bulls else 0) + bulls * bears
  {
    if lean == LeansBull {
      assert (1 + bulls) * bears == bears + bulls * bears;
    } else if lean == LeansBear {
      assert bulls * (1 + bears) == bulls + bulls * bears;
    }
  }

  /** The nested loop finds (bullish groups) * (bearish groups) pairs. */
  lemma {:induction false} PairCountIsProduct(dirs: seq<GroupDirection>)
    ensures |ConflictPairs(dirs)| == BullGroups(dirs) * BearGroups(dirs)
  {
    if dirs == [] {
    } else {
      PairCountIsProduct(dirs[1..]);
      PairsWithCount(dirs[0], dirs[1..]);
      ProductStep(dirs[0].lean, BullGroups(dirs[1..]), BearGroups(dirs[1..]));
    }
  }

  lemma {:induction false} GroupsAtMost(dirs: seq<GroupDirection>)
    ensures BullGroups(dirs) + BearGroups(dirs) <= |dirs|
    ensures BullGroups(dirs) + BearGroups(dirs) == |dirs| <==>
      forall i :: 0 <= i < |dirs| ==> dirs[i].lean != LeansNeither
  {
    if dirs == [] {
    } else {
      GroupsAtMost(dirs[1..]);
      assert forall i :: 0 < i < |dirs| ==> dirs[i] == dirs[1..][i - 1];
    }
  }

  lemma {:induction false} BullGroupsPositive(dirs: seq<GroupDirection>)
    ensures BullGroups(dirs) > 0 <==> exists i :: 0 <= i < |dirs| && dirs[i].lean == LeansBull
    ensures BearGroups(dirs) > 0 <==> exists i :: 0 <= i < |dirs| && dirs[i].lean == LeansBear
  {
    if dirs == [] {
    } else {
      BullGroupsPositive(dirs[1..]);
      assert forall i :: 0 < i < |dirs| ==> dirs[i] == dirs[1..][i - 1];
      assert forall i :: 0 <= i < |dirs| - 1 ==> dirs[1..][i] == dirs[i + 1];
    }
  }

  // ---------------------------------------------------------------- the analysis

  function OtherGroups(dirs: seq<GroupDirection>): nat { if |dirs| > 2 then |dirs| - 1 else 1 }

  function ScoreOf(dirs: seq<GroupDirection>): real {
    |ConflictPairs(dirs)| as real / OtherGroups(dirs) as real
  }

  function AnalysisFrom(dirs: seq<GroupDirection>): Analysis {
    var score := ScoreOf(dirs);
    Analysis(dirs, ConflictPairs(dirs), score, score * PENALTY_RATE, score > 0.5)
  }

  function AnalysisOf(signals: seq<AgentSignal>): Analysis {
    AnalysisFrom(GroupDirections(signals, LAYER_GROUPS))
  }

  method AnalyzeConflicts(signals: seq<AgentSignal>) returns (r: Analysis)
    ensures r == AnalysisOf(signals)
  {
    var dirs := GetGroupDirections(signals);
    var conflicts := FindConflicts(dirs);
    var others := if |dirs| - 1 > 1 then |dirs| - 1 else 1;
    var score := |conflicts| as real / others as real;
    r := Analysis(dirs, conflicts, score, score * PENALTY_RATE, score > 0.5);
  }

  lemma {:induction false} DirectionsAtMostGroups(signals: seq<AgentSignal>, groups: seq<Group>)
    ensures |GroupDirections(signals, groups)| <= |groups|
  {
    if groups == [] {
    } else {
      DirectionsAtMostGroups(signals, groups[..|groups| - 1]);
    }
  }

  lemma {:induction false} ScoreTimes(pairs: nat, others: nat)
    requires others > 0
    ensures pairs as real / others as real * others as real == pairs as real
    ensures pairs as real / others as real > 0.5 <==> 2 * pairs > others
  {
    var q := pairs as real / others as real;
    assert q * others as real == pairs as real;
    OrderScales(0.5, q, others as real);
  }

  /** The analysis in terms of the group directions it is made from: the number of conflicts is
      the product of the two sides' groups; the score is that number over the other groups, at
      least one; the penalty is 30 percent of the score, and beyond one half it counts as high. */
  predicate IsAnalysis(a: Analysis, dirs: seq<GroupDirection>) {
    var others := if |dirs| > 2 then |dirs| - 1 else 1;
    && a.groupDirections == dirs
    && |a.conflicts| == BullGroups(dirs) * BearGroups(dirs)
    && a.conflictScore * others as real == |a.conflicts| as real
    && a.confidencePenalty == 0.30 * a.conflictScore
    && (a.highConflict <==> 2 * |a.conflicts| > others)
  }

  lemma {:induction false} AnalysisFromGroups(dirs: seq<GroupDirection>)
    ensures IsAnalysis(AnalysisFrom(dirs), dirs)
  {
    PairCountIsProduct(dirs);
    ScoreTimes(|ConflictPairs(dirs)|, OtherGroups(dirs));
  }

  lemma {:induction false} ScoreInGroups(signals: seq<AgentSignal>)
    ensures IsAnalysis(AnalysisOf(signals), GroupDirections(signals, LAYER_GROUPS))
  {
    AnalysisFromGroups(GroupDirections(signals, LAYER_GROUPS));
  }

  lemma {:induction false} SmallProduct(bulls: nat, bears: nat, g: nat)
    requires bulls + bears <= g <= 5
    ensures 2 * (bulls * bears) <= 3 * (if g > 2 then g - 1 else 1)
    ensures bulls * bears == 0 <==> bulls == 0 || bears == 0
    ensures bulls * bears > (if g > 2 then g - 1 else 1) <==> bulls >= 2 && bears >= 2 && bulls + bears == g
  {
    if bulls == 0 {
    } else if bulls == 1 {
    } else if bulls == 2 {
    } else if bulls == 3 {
    } else if bulls == 4 {
    }
  }

  /** What the score is made of, for at most five groups. */
  lemma {:induction false} PairCounts(signals: seq<AgentSignal>)
    ensures var dirs := GroupDirections(signals, LAYER_GROUPS);
            var pairs := |ConflictPairs(dirs)|;
            && 2 * pairs <= 3 * OtherGroups(dirs)
            && (pairs == 0 <==> BullGroups(dirs) == 0 || BearGroups(dirs) == 0)
            && (pairs > OtherGroups(dirs) <==>
                  BullGroups(dirs) >= 2 && BearGroups(dirs) >= 2
                  && forall i :: 0 <= i < |dirs| ==> dirs[i].lean != LeansNeither)
  {
    var dirs := GroupDirections(signals, LAYER_GROUPS);
    DirectionsAtMostGroups(signals, LAYER_GROUPS);
    PairCountIsProduct(dirs);
    GroupsAtMost(dirs);
    SmallProduct(BullGroups(dirs), BearGroups(dirs), |dirs|);
  }

  lemma {:induction false} AboveOne(p: real, o: real, q: real)
    requires o > 0.0 && q * o == p
    ensures q > 1.0 <==> p > o
  {
    var d := q - 1.0;
    assert d * o == p - o;
  }

  lemma {:induction false} RatioBounds(p: real, o: real, q: real)
    requires o > 0.0 && p >= 0.0 && 2.0 * p <= 3.0 * o && q == p / o
    ensures 0.0 <= q <= 1.5
    ensures q == 0.0 <==> p == 0.0
    ensures q > 1.0 <==> p > o
  {
    assert q * o == p;
    AboveOne(p, o, q);
    OrderScales(1.5, q, o);
    OrderScales(q, 0.0, o);
    OrderScales(0.0, q, o);
  }

  lemma {:induction false} QuotientBounds(pairs: nat, others: nat)
    requires others > 0 && 2 * pairs <= 3 * others
    ensures 0.0 <= pairs as real / others as real <= 1.5
    ensures pairs as real / others as real == 0.0 <==> pairs == 0
    ensures pairs as real / others as real > 1.0 <==> pairs > others
  {
    RatioBounds(pairs as real, others as real, pairs as real / others as real);
  }

  /** The score lies in [0, 1.5] and the penalty in [0, 0.45], and the score is zero exactly when
      no two groups oppose each other. */
  lemma {:induction false} ScoreBounds(signals: seq<AgentSignal>)
    ensures var a := AnalysisOf(signals);
            var dirs := a.groupDirections;
            && 0.0 <= a.conflictScore <= 1.5 && 0.0 <= a.confidencePenalty <= 0.45
            && (a.conflictScore == 0.0 <==>
                  forall i, j :: 0 <= i < |dirs| && 0 <= j < |dirs| ==> !Opposed(dirs[i], dirs[j]))
  {
    var dirs := GroupDirections(signals, LAYER_GROUPS);
    PairCounts(signals);
    BullGroupsPositive(dirs);
    QuotientBounds(|ConflictPairs(dirs)|, OtherGroups(dirs));
    if BullGroups(dirs) > 0 && BearGroups(dirs) > 0 {
      var i :| 0 <= i < |dirs| && dirs[i].lean == LeansBull;
      var j :| 0 <= j < |dirs| && dirs[j].lean == LeansBear;
      assert Opposed(dirs[i], dirs[j]);
    }
  }

  /** The documentation gives the score's range as 0 to 1. The code exceeds 1 exactly when no
      reporting group is neutral and at least two stand on each side. */
  lemma {:induction false} DocumentedRangeHoldsIff(signals: seq<AgentSignal>)
    ensures var dirs := GroupDirections(signals, LAYER_GROUPS);
            AnalysisOf(signals).conflictScore <= 1.0 <==>
              !(BullGroups(dirs) >= 2 && BearGroups(dirs) >= 2
                && forall i :: 0 <= i < |dirs| ==> dirs[i].lean != LeansNeither)
  {
    var dirs := GroupDirections(signals, LAYER_GROUPS);
    PairCounts(signals);
    QuotientBounds(|ConflictPairs(dirs)|, OtherGroups(dirs));
  }

  lemma {:induction false} NoMembers(signals: seq<AgentSignal>, agents: seq<string>)
    requires forall i :: 0 <= i < |agents| ==> Find(signals, agents[i]).None?
    ensures Members(signals, agents) == []
  {
    if agents == [] {
    } else {
      NoMembers(signals, agents[..|agents| - 1]);
    }
  }

  /** A group of which a single agent has reported. */
  lemma {:induction false} OneMember(signals: seq<AgentSignal>, agents: seq<string>, k: nat)
    requires k < |agents|
    requires forall i :: 0 <= i < |agents| ==> (Find(signals, agents[i]).Some? <==> i == k)
    ensures Members(signals, agents) == [Find(signals, agents[k]).value]
  {
    var init := agents[..|agents| - 1];
    if k == |agents| - 1 {
      NoMembers(signals, init);
    } else {
      OneMember(signals, init, k);
    }
  }

  lemma {:induction false} OneMemberLean(s: AgentSignal)
    ensures s.direction == Bullish ==> LeanOf([s]) == LeansBull
    ensures s.direction == Bearish ==> LeanOf([s]) == LeansBear
  {
    assert [s] == [] + [s];
    CountByAppend([], s, IsPlainBull);
    CountByAppend([], s, IsPlainBear);
  }

  function From(agent: string, direction: Direction): AgentSignal {
    AgentSignal(agent, direction, 0.5, 1.0, "NIFTY BANK")
  }

  /** One agent of each of four groups, two of them bullish and two bearish. */
  function TwoAgainstTwo(): seq<AgentSignal> {
    [From("TechnicalAnalysisAgent", Bullish), From("OptionsDerivativesAgent", Bullish),
     From("IndianMarketDataAgent", Bearish), From("IndianNewsEventsAgent", Bearish)]
  }

  lemma {:induction false} TwoAgainstTwoIsDict()
    ensures IsDict(TwoAgainstTwo())
  {
    assert LAYER_GROUPS[2].agents[0][0] == 'I' && LAYER_GROUPS[2].agents[0][6] == 'M';
    assert LAYER_GROUPS[4].agents[0][0] == 'I' && LAYER_GROUPS[4].agents[0][6] == 'N';
  }

  lemma {:induction false} Reports(signals: seq<AgentSignal>, i: nat, agents: seq<string>)
    requires IsDict(signals) && i < |signals| && agents != [] && signals[i].agentName == agents[0]
    requires forall k, j :: 0 < k < |agents| && 0 <= j < |signals| ==> signals[j].agentName != agents[k]
    ensures Members(signals, agents) == [signals[i]]
  {
    FindIffMember(signals, agents[0], signals[i]);
    forall k | 0 < k < |agents|
      ensures Find(signals, agents[k]).None?
    {
      NotFound(signals, agents[k]);
    }
    OneMember(signals, agents, 0);
  }

  lemma {:induction false} BullishMembers()
    ensures var s := TwoAgainstTwo();
            Members(s, LAYER_GROUPS[0].agents) == [s[0]] && Members(s, LAYER_GROUPS[1].agents) == [s[1]]
  {
    var s := TwoAgainstTwo();
    TwoAgainstTwoIsDict();
    Reports(s, 0, LAYER_GROUPS[0].agents);
    Reports(s, 1, LAYER_GROUPS[1].agents);
  }

  lemma {:induction false} BearishMembers()
    ensures var s := TwoAgainstTwo();
            Members(s, LAYER_GROUPS[2].agents) == [s[2]] && Members(s, LAYER_GROUPS[4].agents) == [s[3]]
  {
    var s := TwoAgainstTwo();
    TwoAgainstTwoIsDict();
    assert s[2].agentName[0] == 'I' && LAYER_GROUPS[2].agents[1][0] == 'G';
    Reports(s, 2, LAYER_GROUPS[2].agents);
    Reports(s, 3, LAYER_GROUPS[4].agents);
  }

  lemma {:induction false} SilentMembers()
    ensures Members(TwoAgainstTwo(), LAYER_GROUPS[3].agents) == []
  {
    var s := TwoAgainstTwo();
    forall k | 0 <= k < 4
      ensures Find(s, LAYER_GROUPS[3].agents[k]).None?
    {
      NotFound(s, LAYER_GROUPS[3].agents[k]);
    }
    NoMembers(s, LAYER_GROUPS[3].agents);
  }

  lemma {:induction false} NextGroup(signals: seq<AgentSignal>, groups: seq<Group>, n: nat)
    requires n < |groups|
    ensures var members := Members(signals, groups[n].agents);
            GroupDirections(signals, groups[..n + 1]) ==
            GroupDirections(signals, groups[..n])
            + (if members == [] then [] else [GroupDirection(groups[n].name, LeanOf(members))])
  {
    assert groups[..n + 1][..n] == groups[..n];
  }

  predicate LeansAre(dirs: seq<GroupDirection>, leans: seq<Lean>) {
    |dirs| == |leans| && forall i :: 0 <= i < |leans| ==> dirs[i].lean == leans[i]
  }

  lemma {:induction false} NextLean(signals: seq<AgentSignal>, groups: seq<Group>, n: nat, s: AgentSignal,
      leans: seq<Lean>, lean: Lean)
    requires n < |groups| && Members(signals, groups[n].agents) == [s]
    requires s.direction == (if lean == LeansBull then Bullish else Bearish) && lean != LeansNeither
    requires LeansAre(GroupDirections(signals, groups[..n]), leans)
    ensures LeansAre(GroupDirections(signals, groups[..n + 1]), leans + [lean])
  {
    NextGroup(signals, groups, n);
    OneMemberLean(s);
  }

  lemma {:induction false} TwoBullishLeans(signals: seq<AgentSignal>, groups: seq<Group>)
    requires |groups| >= 2 && |signals| >= 2
    requires Members(signals, groups[0].agents) == [signals[0]] && signals[0].direction == Bullish
    requires Members(signals, groups[1].agents) == [signals[1]] && signals[1].direction == Bullish
    ensures LeansAre(GroupDirections(signals, groups[..2]), [LeansBull, LeansBull])
  {
    assert LeansAre(GroupDirections(signals, groups[..0]), []);
    NextLean(signals, groups, 0, signals[0], [], LeansBull);
    NextLean(signals, groups, 1, signals[1], [LeansBull], LeansBull);
  }

  lemma {:induction false} TwoAgainstTwoLeans(signals: seq<AgentSignal>, groups: seq<Group>)
    requires |groups| == 5 && |signals| == 4
    requires Members(signals, groups[0].agents) == [signals[0]] && signals[0].direction == Bullish
    requires Members(signals, groups[1].agents) == [signals[1]] && signals[1].direction == Bullish
    requires Members(signals, groups[2].agents) == [signals[2]] && signals[2].direction == Bearish
    requires Members(signals, groups[3].agents) == []
    requires Members(signals, groups[4].agents) == [signals[3]] && signals[3].direction == Bearish
    ensures LeansAre(GroupDirections(signals, groups), [LeansBull, LeansBull, LeansBear, LeansBear])
  {
    TwoBullishLeans(signals, groups);
    NextLean(signals, groups, 2, signals[2], [LeansBull, LeansBull], LeansBear);
    NextGroup(signals, groups, 3);
    NextLean(signals, groups, 4, signals[3], [LeansBull, LeansBull, LeansBear], LeansBear);
    assert groups[..5] == groups;
  }

  lemma {:induction false} CountLeans(dirs: seq<GroupDirection>)
    requires LeansAre(dirs, [LeansBull, LeansBull, LeansBear, LeansBear])
    ensures BullGroups(dirs) == 2 && BearGroups(dirs) == 2
  {
    assert dirs[1..][1..] == dirs[2..] && dirs[2..][1..] == dirs[3..] && dirs[3..][1..] == [];
    assert BullGroups(dirs[3..]) == 0 && BearGroups(dirs[3..]) == 1;
    assert BullGroups(dirs[2..]) == 0 && BearGroups(dirs[2..]) == 2;
    assert BullGroups(dirs[1..]) == 1 && BearGroups(dirs[1..]) == 2;
  }

  /** Two bullish against two bearish groups already score 4/3. */
  lemma {:induction false} FourGroupsExceedDocumentedRange()
    ensures IsDict(TwoAgainstTwo())
    ensures AnalysisOf(TwoAgainstTwo()).conflictScore == 4.0 / 3.0
  {
    TwoAgainstTwoIsDict();
    BullishMembers();
    BearishMembers();
    SilentMembers();
    TwoAgainstTwoLeans(TwoAgainstTwo(), LAYER_GROUPS);
    var dirs := GroupDirections(TwoAgainstTwo(), LAYER_GROUPS);
    CountLeans(dirs);
    PairCountIsProduct(dirs);
  }

  // ---------------------------------------------------------------- order and mirror laws

  lemma {:induction false} MembersIgnoreOrder(a: seq<AgentSignal>, b: seq<AgentSignal>, agents: seq<string>)
    requires IsDict(a) && IsDict(b) && multiset(a) == multiset(b)
    ensures Members(a, agents) == Members(b, agents)
  {
    if agents == [] {
    } else {
      MembersIgnoreOrder(a, b, agents[..|agents| - 1]);
      FindIgnoresOrder(a, b, agents[|agents| - 1]);
    }
  }

  /** Group directions, and with them the whole analysis, do not depend on the signals' order. */
  lemma {:induction false} DirectionsIgnoreOrder(a: seq<AgentSignal>, b: seq<AgentSignal>, groups: seq<Group>)
    requires IsDict(a) && IsDict(b) && multiset(a) == multiset(b)
    ensures GroupDirections(a, groups) == GroupDirections(b, groups)
  {
    if groups == [] {
    } else {
      DirectionsIgnoreOrder(a, b, groups[..|groups| - 1]);
      MembersIgnoreOrder(a, b, groups[|groups| - 1].agents);
    }
  }

  function Twin(d: Direction): Direction {
    match d
    case Bullish => Bearish
    case Bearish => Bullish
    case StrongBuy => StrongSell
    case StrongSell => StrongBuy
    case Buy => Sell
    case Sell => Buy
    case Neutral => Neutral
    case NoSignal => NoSignal
  }

  function MirrorSignal(s: AgentSignal): AgentSignal { s.(direction := Twin(s.direction)) }

  /** Every bullish direction replaced by its bearish twin and the other way round. */
  function MirrorSignals(signals: seq<AgentSignal>): seq<AgentSignal> {
    seq(|signals|, i requires 0 <= i < |signals| => MirrorSignal(signals[i]))
  }

  function MirrorLean(l: Lean): Lean {
    match l
    case LeansBull => LeansBear
    case LeansBear => LeansBull
    case LeansNeither => LeansNeither
  }

  function MirrorDirections(dirs: seq<GroupDirection>): seq<GroupDirection> {
    seq(|dirs|, i requires 0 <= i < |dirs| => GroupDirection(dirs[i].group, MirrorLean(dirs[i].lean)))
  }

  lemma {:induction false} FindMirror(signals: seq<AgentSignal>, name: string)
    ensures Find(MirrorSignals(signals), name)
            == (if Find(signals, name).Some? then Some(MirrorSignal(Find(signals, name).value)) else None)
  {
    if signals == [] {
    } else {
      FindMirror(signals[1..], name);
      assert MirrorSignals(signals)[1..] == MirrorSignals(signals[1..]);
    }
  }

  lemma {:induction false} MembersMirror(signals: seq<AgentSignal>, agents: seq<string>)
    ensures Members(MirrorSignals(signals), agents) == MirrorSignals(Members(signals, agents))
  {
    if agents == [] {
    } else {
      MembersMirror(signals, agents[..|agents| - 1]);
      FindMirror(signals, agents[|agents| - 1]);
    }
  }

  lemma {:induction false} LeanMirror(members: seq<AgentSignal>)
    ensures LeanOf(MirrorSignals(members)) == MirrorLean(LeanOf(members))
  {
    CountByPointwise(MirrorSignals(members), members, IsPlainBull, IsPlainBear);
    CountByPointwise(MirrorSignals(members), members, IsPlainBear, IsPlainBull);
  }

  lemma {:induction false} DirectionsMirror(signals: seq<AgentSignal>, groups: seq<Group>)
    ensures GroupDirections(MirrorSignals(signals), groups) == MirrorDirections(GroupDirections(signals, groups))
  {
    if groups == [] {
    } else {
      DirectionsMirror(signals, groups[..|groups| - 1]);
      MembersMirror(signals, groups[|groups| - 1].agents);
      LeanMirror(Members(signals, groups[|groups| - 1].agents));
    }
  }

  lemma {:induction false} PairsWithMirror(d: GroupDirection, rest: seq<GroupDirection>)
    ensures PairsWith(GroupDirection(d.group, MirrorLean(d.lean)), MirrorDirections(rest)) == PairsWith(d, rest)
  {
    if rest == [] {
    } else {
      PairsWithMirror(d, rest[1..]);
      assert MirrorDirections(rest)[1..] == MirrorDirections(rest[1..]);
    }
  }

  lemma {:induction false} PairsMirror(dirs: seq<GroupDirection>)
    ensures ConflictPairs(MirrorDirections(dirs)) == ConflictPairs(dirs)
  {
    if dirs == [] {
    } else {
      PairsMirror(dirs[1..]);
      PairsWithMirror(dirs[0], dirs[1..]);
      assert MirrorDirections(dirs)[1..] == MirrorDirections(dirs[1..]);
    }
  }

  function MirrorAnalysis(a: Analysis): Analysis {
    a.(groupDirections := MirrorDirections(a.groupDirections))
  }

  /** Mirroring the signals mirrors the group directions and keeps every conflict, the score and
      the penalty. */
  lemma {:induction false} AnalysisMirrors(signals: seq<AgentSignal>)
    ensures AnalysisOf(MirrorSignals(signals)) == MirrorAnalysis(AnalysisOf(signals))
  {
    DirectionsMirror(signals, LAYER_GROUPS);
    PairsMirror(GroupDirections(signals, LAYER_GROUPS));
  }
}
