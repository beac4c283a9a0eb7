/** `InterAgentSignalBus`: the latest signal of each agent and a bounded history. */
module SignalBus {
  import opened Common
  import opened Folds
  import opened SignalSchema

  const HISTORY_LIMIT: nat := 1000
  const HISTORY_KEPT: nat := 500

  datatype HistoryEntry = HistoryEntry(agent: string, direction: Direction, confidence: real)

  datatype Scores = Scores(weightedBull: real, weightedBear: real, netScore: real, agentsReporting: seq<string>)

  /** The summary of an empty bus has counts only. */
  datatype Summary = Summary(total: nat, bullish: nat, bearish: nat, neutral: nat, scores: Option<Scores>)

  /** Stores the signal under its agent's name; an agent that reported before keeps its place. */
  function Store(signals: seq<AgentSignal>, signal: AgentSignal): seq<AgentSignal>
  {
    if signals == [] then [signal]
    else if signals[0].agentName == signal.agentName then [signal] + signals[1..]
    else [signals[0]] + Store(signals[1..], signal)
  }

  function EntryOf(s: AgentSignal): HistoryEntry { HistoryEntry(s.agentName, s.direction, s.confidence) }

  function Remember(history: seq<HistoryEntry>, s: AgentSignal): seq<HistoryEntry> {
    var longer := history + [EntryOf(s)];
    if |longer| > HISTORY_LIMIT then longer[|longer| - HISTORY_KEPT..] else longer
  }

  lemma {:induction false} StoreFinds(signals: seq<AgentSignal>, signal: AgentSignal, name: string)
    ensures Find(Store(signals, signal), name)
            == (if name == signal.agentName then Some(signal) else Find(signals, name))
  {
    if signals != [] && signals[0].agentName != signal.agentName {
      StoreFinds(signals[1..], signal, name);
      assert Store(signals, signal)[1..] == Store(signals[1..], signal);
    }
  }

  /** A store keeps every agent's place; an agent that has not reported before comes last. */
  lemma {:induction false} StoreKeepsPlaces(signals: seq<AgentSignal>, signal: AgentSignal)
    ensures var stored := Store(signals, signal);
            && (if Find(signals, signal.agentName).Some? then |stored| == |signals|
                else stored == signals + [signal])
            && forall i :: 0 <= i < |signals| ==>
                 stored[i].agentName == signals[i].agentName
                 && (signals[i].agentName != signal.agentName ==> stored[i] == signals[i])
  {
    if signals == [] {
    } else if signals[0].agentName != signal.agentName {
      var rest := signals[1..];
      StoreKeepsPlaces(rest, signal);
      assert Store(signals, signal) == [signals[0]] + Store(rest, signal);
      assert forall i :: 0 < i < |signals| ==> signals[i] == rest[i - 1];
      assert signals == [signals[0]] + rest;
    }
  }

  lemma {:induction false} StoreKeepsDict(signals: seq<AgentSignal>, signal: AgentSignal)
    requires IsDict(signals)
    ensures IsDict(Store(signals, signal))
    ensures forall i :: 0 <= i < |Store(signals, signal)| ==>
      Store(signals, signal)[i].agentName == signal.agentName
      || exists j :: 0 <= j < |signals| && signals[j].agentName == Store(signals, signal)[i].agentName
  {
    if signals != [] && signals[0].agentName != signal.agentName {
      var rest := signals[1..];
      StoreKeepsDict(rest, signal);
      var stored := Store(rest, signal);
      forall i | 0 <= i < |stored|
        ensures stored[i].agentName != signals[0].agentName
        ensures stored[i].agentName == signal.agentName
                || exists j :: 0 <= j < |signals| && signals[j].agentName == stored[i].agentName
      {
        if stored[i].agentName != signal.agentName {
          var j :| 0 <= j < |rest| && rest[j].agentName == stored[i].agentName;
          assert signals[j + 1] == rest[j];
        }
      }
    }
  }

  function ScoresOf(signals: seq<AgentSignal>): Scores {
    var bull := SumBy(signals, BullStrength);
    var bear := SumBy(signals, BearStrength);
    Scores(bull, bear, bull - bear, seq(|signals|, i requires 0 <= i < |signals| => signals[i].agentName))
  }

  function Summarise(signals: seq<AgentSignal>): Summary {
    Summary(|signals|, CountBy(signals, IsBullish), CountBy(signals, IsBearish), CountBy(signals, IsNeutral),
            if signals == [] then None else Some(ScoresOf(signals)))
  }

  class InterAgentSignalBus {
    var signals: seq<AgentSignal>
    var signalHistory: seq<HistoryEntry>

    predicate Valid()
      reads this
    {
      IsDict(signals)
    }

    constructor ()
      ensures Valid() && signals == [] && signalHistory == []
    {
      signals, signalHistory := [], [];
    }

    method Publish(signal: AgentSignal)
      requires Valid()
      modifies this
      ensures Valid()
      ensures signals == Store(old(signals), signal)
      ensures signalHistory == Remember(old(signalHistory), signal)
    {
      StoreKeepsDict(signals, signal);
      signals := Store(signals, signal);
      signalHistory := signalHistory + [EntryOf(signal)];
      if |signalHistory| > HISTORY_LIMIT {
        signalHistory := signalHistory[|signalHistory| - HISTORY_KEPT..];
      }
    }

    method GetAllSignals() returns (r: seq<AgentSignal>)
      ensures r == signals
    {
      r := signals;
    }

    method GetSignalSummary() returns (r: Summary)
      ensures r == Summarise(signals)
      ensures r.scores.Some? <==> signals != []
      ensures r.scores.Some? ==>
        && r.scores.value.netScore == r.scores.value.weightedBull - r.scores.value.weightedBear
        && |r.scores.value.agentsReporting| == |signals|
        && forall i :: 0 <= i < |signals| ==> r.scores.value.agentsReporting[i] == signals[i].agentName
      ensures r.total == |signals|
      ensures r.bullish + r.bearish + r.neutral == r.total
    {
      CountByPartition(signals, IsBullish, IsBearish, IsNeutral);
      r := Summarise(signals);
    }

    method Clear()
      requires Valid()
      modifies this`signals
      ensures Valid() && signals == []
    {
      signals := [];
    }
  }

  // ---------------------------------------------------------------- whole histories of the bus

  datatype Event = Published(signal: AgentSignal) | Cleared

  function SignalsAfter(events: seq<Event>): seq<AgentSignal>
  {
    if events == [] then [] else
      match events[|events| - 1]
      case Published(s) => Store(SignalsAfter(events[..|events| - 1]), s)
      case Cleared => []
  }

  /** Event `i` published `name`'s signal `s`, and nothing later replaced or cleared it. */
  predicate IsLatest(events: seq<Event>, name: string, s: AgentSignal, i: nat) {
    && i < |events|
    && events[i] == Published(s) && s.agentName == name
    && forall j :: i < j < |events| ==> events[j].Published? && events[j].signal.agentName != name
  }

  lemma {:induction false} LatestAfterOneMore(events: seq<Event>, e: Event, name: string, s: AgentSignal)
    ensures (exists i: nat :: IsLatest(events + [e], name, s, i)) <==>
      if e.Published? && e.signal.agentName == name then e.signal == s
      else e.Published? && exists i: nat :: IsLatest(events, name, s, i)
  {
    var longer := events + [e];
    if i: nat :| IsLatest(events, name, s, i) && e.Published? && e.signal.agentName != name {
      assert IsLatest(longer, name, s, i);
    }
    if i: nat :| IsLatest(longer, name, s, i) && i < |events| {
      assert longer[|events|] == e;
      assert forall j :: 0 <= j < |events| ==> events[j] == longer[j];
      assert IsLatest(events, name, s, i);
    }
    if e == Published(s) && s.agentName == name {
      assert IsLatest(longer, name, s, |events|);
    }
  }

  /** After any history the bus holds for an agent exactly the last signal it published since the
      last clear, and nothing for an agent that published none. */
  lemma {:induction false} BusHoldsLatest(events: seq<Event>, name: string, s: AgentSignal)
    ensures Find(SignalsAfter(events), name) == Some(s) <==> exists i: nat :: IsLatest(events, name, s, i)
  {
    if events == [] {
    } else {
      var init, last := events[..|events| - 1], events[|events| - 1];
      BusHoldsLatest(init, name, s);
      if last.Published? {
        StoreFinds(SignalsAfter(init), last.signal, name);
      }
      LatestAfterOneMore(init, last, name, s);
      assert events == init + [last];
    }
  }

  function HistoryAfter(published: seq<AgentSignal>): seq<HistoryEntry>
  {
    if published == [] then [] else
      Remember(HistoryAfter(published[..|published| - 1]), published[|published| - 1])
  }

  /** How many entries the history holds after `n` publications. */
  function HistoryLength(n: nat): nat {
    if n <= 1000 then n else 500 + (n - 1001) % 501
  }

  lemma {:induction false} NextRemainder(m: nat)
    ensures (m + 1) % 501 == if m % 501 == 500 then 0 else m % 501 + 1
  {
    var q, r := m / 501, m % 501;
    assert m + 1 == (if r == 500 then (q + 1) * 501 else q * 501 + (r + 1));
  }

  lemma {:induction false} HistoryLengthNext(n: nat)
    ensures HistoryLength(n + 1) == if HistoryLength(n) == 1000 then 500 else HistoryLength(n) + 1
    ensures HistoryLength(n) <= n && HistoryLength(n) <= 1000
  {
    if n > 1000 {
      NextRemainder(n - 1001);
    }
  }

  /** What the history keeps of a publication. */
  predicate Tells(entry: HistoryEntry, s: AgentSignal) {
    entry.agent == s.agentName && entry.direction == s.direction && entry.confidence == s.confidence
  }

  /** `history` is the last entries of `published`, in order. */
  predicate IsRecentTail(history: seq<HistoryEntry>, published: seq<AgentSignal>) {
    && |history| <= |published|
    && forall k :: 0 <= k < |history| ==> Tells(history[k], published[|published| - |history| + k])
  }

  lemma {:induction false} RememberKeepsTail(history: seq<HistoryEntry>, published: seq<AgentSignal>, s: AgentSignal)
    requires IsRecentTail(history, published) && |history| <= HISTORY_LIMIT
    ensures IsRecentTail(Remember(history, s), published + [s])
    ensures |Remember(history, s)| == if |history| == HISTORY_LIMIT then HISTORY_KEPT else |history| + 1
  {
    var longer, all := history + [EntryOf(s)], published + [s];
    forall k | 0 <= k < |longer|
      ensures Tells(longer[k], all[|all| - |longer| + k])
    {
      if k < |history| {
        assert Tells(history[k], published[|published| - |history| + k]);
      }
    }
  }

  lemma {:induction false} HistoryHasLength(published: seq<AgentSignal>)
    ensures |HistoryAfter(published)| == HistoryLength(|published|)
  {
    if published == [] {
    } else {
      HistoryHasLength(published[..|published| - 1]);
      HistoryLengthNext(|published| - 1);
    }
  }

  /** The history is always the most recent publications, in order: all of them up to 1000, and
      beyond that between 500 and 1000, cycling with period 501. */
  lemma {:induction false} HistoryIsRecentTail(published: seq<AgentSignal>)
    ensures IsRecentTail(HistoryAfter(published), published)
    ensures |HistoryAfter(published)| == HistoryLength(|published|)
  {
    HistoryHasLength(published);
    if published == [] {
    } else {
      var init := published[..|published| - 1];
      HistoryIsRecentTail(init);
      HistoryLengthNext(|init|);
      RememberKeepsTail(HistoryAfter(init), init, published[|init|]);
      assert published == init + [published[|init|]];
    }
  }
}
