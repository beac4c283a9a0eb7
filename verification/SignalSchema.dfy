/** `core/signal_schema.py`: the parts of an agent signal that the decision kernel reads. */
module SignalSchema {
  import opened Common

  datatype Direction = Bullish | Bearish | StrongBuy | Buy | Neutral | Sell | StrongSell | NoSignal

  datatype AgentSignal = AgentSignal(
    agentName: string, direction: Direction, confidence: real, signalWeight: real, symbol: string)

  predicate IsBullish(s: AgentSignal) { s.direction.Bullish? || s.direction.Buy? || s.direction.StrongBuy? }

  predicate IsBearish(s: AgentSignal) { s.direction.Bearish? || s.direction.Sell? || s.direction.StrongSell? }

  predicate IsNeutral(s: AgentSignal) { s.direction.Neutral? || s.direction.NoSignal? }

  function Strength(s: AgentSignal): real { s.signalWeight * s.confidence }

  function BullStrength(s: AgentSignal): real { if IsBullish(s) then Strength(s) else 0.0 }

  function BearStrength(s: AgentSignal): real { if IsBearish(s) then Strength(s) else 0.0 }

  function Weight(s: AgentSignal): real { s.signalWeight }

  /** A dictionary from agent name to signal, in insertion order. */
  predicate IsDict(signals: seq<AgentSignal>) {
    forall i, j :: 0 <= i < j < |signals| ==> signals[i].agentName != signals[j].agentName
  }

  function Find(signals: seq<AgentSignal>, name: string): Option<AgentSignal>
  {
    if signals == [] then None
    else if signals[0].agentName == name then Some(signals[0])
    else Find(signals[1..], name)
  }

  lemma {:induction false} NotFound(signals: seq<AgentSignal>, name: string)
    requires forall i :: 0 <= i < |signals| ==> signals[i].agentName != name
    ensures Find(signals, name).None?
  {
    if signals == [] {
    } else {
      NotFound(signals[1..], name);
    }
  }

  lemma {:induction false} FindIffMember(signals: seq<AgentSignal>, name: string, s: AgentSignal)
    requires IsDict(signals)
    ensures Find(signals, name) == Some(s) <==> s in signals && s.agentName == name
  {
    if signals == [] {
    } else {
      var rest := signals[1..];
      assert signals == [signals[0]] + rest;
      assert forall i :: 0 <= i < |rest| ==> rest[i].agentName != signals[0].agentName;
      FindIffMember(rest, name, s);
    }
  }

  /** Lookups in two dictionaries with the same entries agree whatever the insertion order. */
  lemma {:induction false} FindIgnoresOrder(a: seq<AgentSignal>, b: seq<AgentSignal>, name: string)
    requires IsDict(a) && IsDict(b) && multiset(a) == multiset(b)
    ensures Find(a, name) == Find(b, name)
  {
    assert forall s :: s in a <==> s in multiset(a);
    assert forall s :: s in b <==> s in multiset(b);
    if Find(a, name).Some? {
      FindIffMember(a, name, Find(a, name).value);
      FindIffMember(b, name, Find(a, name).value);
    } else if Find(b, name).Some? {
      FindIffMember(b, name, Find(b, name).value);
      FindIffMember(a, name, Find(b, name).value);
    }
  }
}
