/** `PortfolioManagementAgent`: open positions, realised results and the concentration limit. */
module PortfolioManager {
  import opened Common
  import opened Folds

  const MAX_SECTOR_CONCENTRATION: real := 0.40
  const MAX_POSITIONS: nat := 6

  // ---------------------------------------------------------------- positions

  /** What a position object shows at one moment. */
  datatype PositionView = PositionView(
    id: string, symbol: string, side: Side, entryPrice: real, currentPrice: real, quantity: int, sector: string)

  function UnrealisedPnl(p: PositionView): real {
    Multiplier(p.side) * (p.currentPrice - p.entryPrice) * p.quantity as real
  }

  function PnlPct(p: PositionView): real {
    if p.entryPrice == 0.0 then 0.0 else (p.currentPrice - p.entryPrice) / p.entryPrice * 100.0
  }

  function Notional(p: PositionView): real { p.currentPrice * p.quantity as real }

  /** A position's notional if it belongs to the sector. */
  function InSector(sector: string): PositionView -> real {
    (p: PositionView) => if p.sector == sector then Notional(p) else 0.0
  }

  /** The open result is the change of the notional since entry, with the sign of the side. */
  lemma {:induction false} ResultIsNotionalGain(p: PositionView)
    ensures UnrealisedPnl(p) == Multiplier(p.side) * (Notional(p) - Notional(p.(currentPrice := p.entryPrice)))
  {
    var current, entry, qty := p.currentPrice, p.entryPrice, p.quantity as real;
    assert (current - entry) * qty == current * qty - entry * qty;
    assert (-1.0 * (current - entry)) * qty == -(current * qty - entry * qty);
  }

  lemma {:induction false} SignOfScaled(move: real, qty: real, entry: real)
    requires qty > 0.0 && entry > 0.0
    ensures move > 0.0 <==> move * qty > 0.0
    ensures move > 0.0 <==> move / entry * 100.0 > 0.0
  {
    var q := move / entry;
    assert q * entry == move;
    OrderScales(0.0, move, qty);
    OrderScales(0.0, q, entry);
  }

  /** The percentage is the price's change relative to the entry, and 0 for an entry at 0. */
  lemma {:induction false} PctIsRelativeMove(p: PositionView)
    ensures PnlPct(p) * p.entryPrice == (if p.entryPrice == 0.0 then 0.0 else (p.currentPrice - p.entryPrice) * 100.0)
    ensures p.entryPrice == 0.0 ==> PnlPct(p) == 0.0
  {
    if p.entryPrice != 0.0 {
      var q := (p.currentPrice - p.entryPrice) / p.entryPrice;
      assert q * p.entryPrice == p.currentPrice - p.entryPrice;
      assert (q * 100.0) * p.entryPrice == (p.currentPrice - p.entryPrice) * 100.0;
    }
  }

  /** The percentage figure ignores the side: for a position that is not LONG its sign is the
      opposite of the result's. */
  lemma {:induction false} PctSignMatchesOnlyLongs(p: PositionView)
    requires p.entryPrice > 0.0 && p.quantity > 0
    ensures p.side == Long ==> (PnlPct(p) > 0.0 <==> UnrealisedPnl(p) > 0.0)
    ensures p.side != Long ==> (PnlPct(p) > 0.0 <==> UnrealisedPnl(p) < 0.0)
  {
    var move, qty := p.currentPrice - p.entryPrice, p.quantity as real;
    SignOfScaled(move, qty, p.entryPrice);
    assert (-1.0 * move) * qty == -(move * qty);
  }

  class Position {
    const id: string
    const symbol: string
    const side: Side
    const entryPrice: real
    const quantity: int
    const sector: string
    var currentPrice: real

    function View(): PositionView
      reads this
    {
      PositionView(id, symbol, side, entryPrice, currentPrice, quantity, sector)
    }

    constructor (v: PositionView)
      ensures View() == v
    {
      id, symbol, side := v.id, v.symbol, v.side;
      entryPrice, quantity, sector := v.entryPrice, v.quantity, v.sector;
      currentPrice := v.currentPrice;
    }
  }

  // ---------------------------------------------------------------- the state on values

  datatype ClosedTrade = ClosedTrade(position: PositionView, pnl: real, pnlPct: real)

  /** `book` is the dictionary of open positions in insertion order. */
  datatype State = State(
    capital: real, book: seq<PositionView>, closed: seq<ClosedTrade>, realisedPnl: real, lastResetDate: int)

  function Initial(capital: real, today: int): State { State(capital, [], [], 0.0, today) }

  function Ids(book: seq<PositionView>): seq<string> {
    seq(|book|, i requires 0 <= i < |book| => book[i].id)
  }

  /** First index of the key, or the length when it is missing. */
  function Slot(ids: seq<string>, id: string): (i: nat)
    ensures i <= |ids|
    ensures i < |ids| ==> ids[i] == id
    ensures forall j :: 0 <= j < i ==> ids[j] != id
  {
    if ids == [] || ids[0] == id then 0 else 1 + Slot(ids[1..], id)
  }

  /** Dictionary assignment: an existing key keeps its place. */
  function Put(book: seq<PositionView>, v: PositionView): seq<PositionView> {
    var i := Slot(Ids(book), v.id);
    if i < |book| then book[i := v] else book + [v]
  }

  /** When the stored configuration asks for daily paper resets and the day has changed, the book
      and the realised figure are cleared; capital and closed trades are not. */
  function ResetIfNeeded(s: State, resetDaily: bool, today: int): State {
    if resetDaily && today != s.lastResetDate then s.(book := [], realisedPnl := 0.0, lastResetDate := today) else s
  }

  datatype AddOutcome = Added(id: string) | TooMany | TooConcentrated

  function TotalNotional(book: seq<PositionView>): real { SumBy(book, Notional) }

  function SectorNotional(book: seq<PositionView>, sector: string): real { SumBy(book, InSector(sector)) }

  /** What concentration is measured against: the book's notional, or the capital if that is zero. */
  function ConcentrationBase(s: State): real {
    if TotalNotional(s.book) != 0.0 then TotalNotional(s.book) else s.capital
  }

  predicate ExceedsSector(s: State, v: PositionView)
    requires ConcentrationBase(s) != 0.0
  {
    (SectorNotional(s.book, v.sector) + Notional(v)) / ConcentrationBase(s) > MAX_SECTOR_CONCENTRATION
  }

  /** Raises when neither the book nor the capital gives a nonzero base. */
  function AddResult(s: State, v: PositionView): Result<AddOutcome> {
    if |s.book| >= MAX_POSITIONS then Ok(TooMany)
    else if ConcentrationBase(s) == 0.0 then Raised
    else if ExceedsSector(s, v) then Ok(TooConcentrated)
    else Ok(Added(v.id))
  }

  function AfterAdd(s: State, v: PositionView): State {
    if AddResult(s, v) == Ok(Added(v.id)) then s.(book := Put(s.book, v)) else s
  }

  function RecordOf(v: PositionView): ClosedTrade { ClosedTrade(v, UnrealisedPnl(v), PnlPct(v)) }

  /** The trade record of a position closed at `exitPrice`. */
  function CloseRecord(v: PositionView, exitPrice: real): ClosedTrade {
    RecordOf(v.(currentPrice := exitPrice))
  }

  /** What closing returns: the record, or nothing for an unknown id. */
  function ClosedBy(s: State, id: string, exitPrice: real): Option<ClosedTrade> {
    var i := Slot(Ids(s.book), id);
    if i == |s.book| then None else Some(CloseRecord(s.book[i], exitPrice))
  }

  function AfterClose(s: State, id: string, exitPrice: real): State {
    var i := Slot(Ids(s.book), id);
    if i == |s.book| then s else
      var t := CloseRecord(s.book[i], exitPrice);
      State(s.capital + t.pnl, s.book[..i] + s.book[i + 1..], s.closed + [t], s.realisedPnl + t.pnl, s.lastResetDate)
  }

  function Reprice(v: PositionView, updates: map<string, real>): PositionView {
    if v.symbol in updates then v.(currentPrice := updates[v.symbol]) else v
  }

  function AfterReprice(s: State, updates: map<string, real>): State {
    s.(book := seq(|s.book|, i requires 0 <= i < |s.book| => Reprice(s.book[i], updates)))
  }

  // ---------------------------------------------------------------- the agent

  function Views(ps: seq<Position>): (v: seq<PositionView>)
    reads ps
    ensures |v| == |ps|
    ensures forall i :: 0 <= i < |ps| ==> v[i] == ps[i].View()
  {
    seq(|ps|, i requires 0 <= i < |ps| reads ps => ps[i].View())
  }

  lemma {:induction false} ViewsAre(ps: seq<Position>, v: seq<PositionView>)
    requires |v| == |ps| && forall i :: 0 <= i < |ps| ==> v[i] == ps[i].View()
    ensures Views(ps) == v
  {
  }

  class PortfolioManagementAgent {
    var capital: real
    var positions: seq<Position>
    var closedTrades: seq<ClosedTrade>
    var realisedPnl: real
    var lastResetDate: int

    /** The dictionary's keys are distinct, so no position object is stored twice. */
    predicate Valid()
      reads this
    {
      forall i, j :: 0 <= i < j < |positions| ==> positions[i].id != positions[j].id
    }

    function Current(): State
      reads this, positions
    {
      State(capital, Views(positions), closedTrades, realisedPnl, lastResetDate)
    }

    constructor (initialCapital: real, today: int)
      ensures Valid() && Current() == Initial(initialCapital, today)
    {
      capital := initialCapital;
      positions, closedTrades, realisedPnl, lastResetDate := [], [], 0.0, today;
    }

    method ResetIfConfigured(resetDaily: bool, today: int)
      requires Valid()
      modifies this
      ensures Valid() && Current() == ResetIfNeeded(old(Current()), resetDaily, today)
      ensures forall p :: p in positions ==> p in old(positions)
    {
      if resetDaily && today != lastResetDate {
        positions := [];
        realisedPnl := 0.0;
        lastResetDate := today;
      }
    }

    method CheckSectorConcentration(newPos: Position) returns (passed: Result<bool>)
      ensures passed.Raised? <==> ConcentrationBase(Current()) == 0.0
      ensures passed.Ok? ==> passed.value == !ExceedsSector(Current(), newPos.View())
    {
      var book := Views(positions);
      var sectorNotional := SectorNotional(book, newPos.sector);
      var total := TotalNotional(book);
      if total == 0.0 {
        total := capital;
      }
      if total == 0.0 {
        return Raised;
      }
      var newNotional := Notional(newPos.View());
      passed := Ok(!((sectorNotional + newNotional) / total > MAX_SECTOR_CONCENTRATION));
    }

    /** Stores the position under its id, in the place of one that has the id already. */
    method StoreObject(pos: Position)
      requires Valid()
      modifies this`positions
      ensures Valid() && Views(positions) == Put(old(Views(positions)), pos.View())
    {
      ghost var book := Views(positions);
      var i := Slot(Ids(Views(positions)), pos.id);
      assert forall j :: 0 <= j < i ==> Ids(book)[j] == positions[j].id;
      if i < |positions| {
        positions := positions[i := pos];
        ViewsAre(positions, book[i := pos.View()]);
      } else {
        positions := positions + [pos];
        ViewsAre(positions, book + [pos.View()]);
      }
    }

    method AddPosition(pos: Position, resetDaily: bool, today: int) returns (r: Result<AddOutcome>)
      requires Valid()
      modifies this
      ensures Valid()
      ensures var s := ResetIfNeeded(old(Current()), resetDaily, today);
              r == AddResult(s, pos.View()) && Current() == AfterAdd(s, pos.View())
    {
      ResetIfConfigured(resetDaily, today);
      if |positions| >= MAX_POSITIONS {
        return Ok(TooMany);
      }
      var passed := CheckSectorConcentration(pos);
      if passed.Raised? {
        return Raised;
      }
      if !passed.value {
        return Ok(TooConcentrated);
      }
      StoreObject(pos);
      return Ok(Added(pos.id));
    }

    /** Takes the position at index `i` out of the dictionary. */
    method TakeOut(i: nat) returns (pos: Position)
      requires Valid() && i < |positions|
      modifies this`positions
      ensures Valid() && pos == old(positions)[i] && pos !in positions
      ensures positions == old(positions)[..i] + old(positions)[i + 1..]
      ensures Views(positions) == old(Views(positions))[..i] + old(Views(positions))[i + 1..]
    {
      ghost var book := Views(positions);
      pos := positions[i];
      positions := positions[..i] + positions[i + 1..];
      ViewsAre(positions, book[..i] + book[i + 1..]);
    }

    /** Books the result of a position that has left the dictionary. */
    method Realise(pos: Position) returns (record: ClosedTrade)
      modifies this`realisedPnl, this`capital, this`closedTrades
      ensures record == RecordOf(pos.View())
      ensures capital == old(capital) + record.pnl && realisedPnl == old(realisedPnl) + record.pnl
      ensures closedTrades == old(closedTrades) + [record]
    {
      record := RecordOf(pos.View());
      realisedPnl := realisedPnl + record.pnl;
      capital := capital + record.pnl;
      closedTrades := closedTrades + [record];
    }

    method ClosePosition(id: string, exitPrice: real) returns (r: Option<ClosedTrade>)
      requires Valid()
      modifies this, positions
      ensures Valid() && Current() == AfterClose(old(Current()), id, exitPrice)
      ensures r == ClosedBy(old(Current()), id, exitPrice)
    {
      var i := Slot(Ids(Views(positions)), id);
      if i == |positions| {
        return None;
      }
      var pos := TakeOut(i);
      ghost var left := Views(positions);
      pos.currentPrice := exitPrice;
      assert Views(positions) == left;
      var record := Realise(pos);
      return Some(record);
    }

    method UpdatePrices(updates: map<string, real>)
      requires Valid()
      modifies positions
      ensures Valid() && Current() == AfterReprice(old(Current()), updates)
    {
      for i := 0 to |positions|
        invariant forall k :: 0 <= k < i ==> positions[k].View() == Reprice(old(positions[k].View()), updates)
        invariant forall k :: i <= k < |positions| ==> positions[k].View() == old(positions[k].View())
      {
        if positions[i].symbol in updates {
          positions[i].currentPrice := updates[positions[i].symbol];
        }
      }
    }
  }

  // ---------------------------------------------------------------- whole histories

  datatype Event =
    | Add(position: PositionView, resetDaily: bool, today: int)
    | Close(id: string, exitPrice: real)
    | Update(updates: map<string, real>)

  function Apply(s: State, e: Event): State {
    match e
    case Add(v, resetDaily, today) => AfterAdd(ResetIfNeeded(s, resetDaily, today), v)
    case Close(id, exitPrice) => AfterClose(s, id, exitPrice)
    case Update(updates) => AfterReprice(s, updates)
  }

  function After(s: State, events: seq<Event>): State
  {
    if events == [] then s else Apply(After(s, events[..|events| - 1]), events[|events| - 1])
  }

  function ClosedPnl(t: ClosedTrade): real { t.pnl }

  predicate KeysDistinct(book: seq<PositionView>) {
    forall i, j :: 0 <= i < j < |book| ==> book[i].id != book[j].id
  }

  /** The event is an addition that finds a new day and a configuration that asks for resets. */
  predicate Resets(s: State, e: Event) {
    e.Add? && e.resetDaily && e.today != s.lastResetDate
  }

  /** Number of trades that were closed when the last reset took effect, 0 without a reset. */
  function ClosedAtReset(s: State, events: seq<Event>): nat
  {
    if events == [] then 0 else
      var init, e := events[..|events| - 1], events[|events| - 1];
      if Resets(After(s, init), e) then |After(s, init).closed| else ClosedAtReset(s, init)
  }

  /** Capital is what the run started with plus every closed result, whatever resets happened;
      the realised figure covers the trades closed after the first `n`. */
  predicate Accounts(initial: real, s: State, n: nat) {
    && |s.book| <= 6
    && KeysDistinct(s.book)
    && s.capital == initial + SumBy(s.closed, ClosedPnl)
    && n <= |s.closed|
    && s.realisedPnl == SumBy(s.closed[n..], ClosedPnl)
  }

  lemma {:induction false} PutKeepsKeys(book: seq<PositionView>, v: PositionView)
    requires KeysDistinct(book)
    ensures KeysDistinct(Put(book, v))
    ensures |Put(book, v)| <= |book| + 1
  {
    var i := Slot(Ids(book), v.id);
    assert forall j :: 0 <= j < |book| ==> Ids(book)[j] == book[j].id;
  }

  lemma {:induction false} CloseKeepsAccounts(initial: real, s: State, n: nat, id: string, exitPrice: real)
    requires Accounts(initial, s, n)
    ensures Accounts(initial, AfterClose(s, id, exitPrice), n)
  {
    var s' := AfterClose(s, id, exitPrice);
    if Slot(Ids(s.book), id) < |s.book| {
      var t := CloseRecord(s.book[Slot(Ids(s.book), id)], exitPrice);
      assert s'.closed == s.closed + [t];
      SumByAppend(s.closed, t, ClosedPnl);
      SumByAppend(s.closed[n..], t, ClosedPnl);
      assert s'.closed[n..] == s.closed[n..] + [t];
    }
  }

  lemma {:induction false} ApplyKeepsAccounts(initial: real, s: State, n: nat, e: Event)
    requires Accounts(initial, s, n)
    ensures Accounts(initial, Apply(s, e), if Resets(s, e) then |s.closed| else n)
  {
    match e
    case Add(v, resetDaily, today) =>
      var r := ResetIfNeeded(s, resetDaily, today);
      assert s.closed[|s.closed|..] == [];
      PutKeepsKeys(r.book, v);
    case Close(id, exitPrice) => CloseKeepsAccounts(initial, s, n, id, exitPrice);
    case Update(updates) =>
  }

  /** Over every history: at most six open positions, conservation of capital, and a realised figure
      that covers exactly the trades closed since the last reset. */
  lemma {:induction false} CapitalIsConserved(capital: real, today: int, events: seq<Event>)
    ensures var start := Initial(capital, today);
            Accounts(capital, After(start, events), ClosedAtReset(start, events))
  {
    var start := Initial(capital, today);
    if events == [] {
      assert start.closed[0..] == [];
    } else {
      var init := events[..|events| - 1];
      CapitalIsConserved(capital, today, init);
      ApplyKeepsAccounts(capital, After(start, init), ClosedAtReset(start, init), events[|events| - 1]);
    }
  }

  /** Closing at the current price turns unrealised into realised result and creates none. */
  lemma {:induction false} ClosingAtMarketKeepsTotal(s: State, id: string)
    requires Slot(Ids(s.book), id) < |s.book|
    ensures var s' := AfterClose(s, id, s.book[Slot(Ids(s.book), id)].currentPrice);
            s'.realisedPnl + SumBy(s'.book, UnrealisedPnl) == s.realisedPnl + SumBy(s.book, UnrealisedPnl)
  {
    var i := Slot(Ids(s.book), id);
    SumByRemove(s.book, i, UnrealisedPnl);
    assert s.book[i].(currentPrice := s.book[i].currentPrice) == s.book[i];
  }

  lemma {:induction false} ResultInPrices(v: PositionView)
    ensures UnrealisedPnl(v) ==
      (if v.side == Long then v.currentPrice - v.entryPrice else v.entryPrice - v.currentPrice) * v.quantity as real
  {
  }

  /** Closing a position of the book at a price: the position leaves, the move in its favour on its
      quantity is added to capital and realised figure, and the record is appended. */
  lemma {:induction false} ClosingInPrices(s: State, i: nat, exitPrice: real)
    requires KeysDistinct(s.book) && i < |s.book|
    ensures var p := s.book[i];
            var s' := AfterClose(s, p.id, exitPrice);
            var result := (if p.side == Long then exitPrice - p.entryPrice else p.entryPrice - exitPrice) * p.quantity as real;
            && s'.book == s.book[..i] + s.book[i + 1..]
            && s'.capital == s.capital + result && s'.realisedPnl == s.realisedPnl + result
            && |s'.closed| == |s.closed| + 1 && s'.closed[..|s.closed|] == s.closed
            && s'.closed[|s.closed|].position == p.(currentPrice := exitPrice)
            && s'.closed[|s.closed|].pnl == result
            && ClosedBy(s, p.id, exitPrice) == Some(s'.closed[|s.closed|])
  {
    var p := s.book[i];
    assert Ids(s.book)[i] == p.id;
    assert forall j :: 0 <= j < |s.book| ==> Ids(s.book)[j] == s.book[j].id;
    assert Slot(Ids(s.book), p.id) == i;
    ResultInPrices(p.(currentPrice := exitPrice));
  }

  /** An unknown id changes nothing and returns nothing. */
  lemma {:induction false} ClosingUnknown(s: State, id: string, exitPrice: real)
    requires forall i :: 0 <= i < |s.book| ==> s.book[i].id != id
    ensures AfterClose(s, id, exitPrice) == s && ClosedBy(s, id, exitPrice) == None
  {
    assert forall j :: 0 <= j < |s.book| ==> Ids(s.book)[j] == s.book[j].id;
  }

  /** New prices reach exactly the positions whose symbol they name, and nothing else changes. */
  lemma {:induction false} PricesReachSymbols(s: State, updates: map<string, real>)
    ensures var s' := AfterReprice(s, updates);
            && s' == s.(book := s'.book) && |s'.book| == |s.book|
            && forall i :: 0 <= i < |s.book| ==>
                 s'.book[i] == s.book[i].(currentPrice :=
                   if s.book[i].symbol in updates then updates[s.book[i].symbol] else s.book[i].currentPrice)
  {
  }

  // ---------------------------------------------------------------- which positions are open

  /** The event is an addition that the limits accept, after the reset it may bring. */
  predicate Accepts(s: State, e: Event) {
    e.Add? && AddResult(ResetIfNeeded(s, e.resetDaily, e.today), e.position) == Ok(Added(e.position.id))
  }

  /** The event takes the position with this id out of the book: a reset, its closing, or another
      accepted position under the same id. */
  predicate Removes(s: State, e: Event, id: string) {
    Resets(s, e) || (e.Close? && e.id == id) || (Accepts(s, e) && e.position.id == id)
  }

  /** The position under the price updates among the events. */
  function Repriced(v: PositionView, events: seq<Event>): PositionView
  {
    if events == [] then v else
      var before, e := Repriced(v, events[..|events| - 1]), events[|events| - 1];
      if e.Update? && before.symbol in e.updates then before.(currentPrice := e.updates[before.symbol]) else before
  }

  /** Event `i` accepted the position, no later event removed it, and its price is the latest. */
  predicate IsOpened(start: State, events: seq<Event>, p: PositionView, i: nat) {
    && i < |events|
    && Accepts(After(start, events[..i]), events[i])
    && p == Repriced(events[i].position, events[i + 1..])
    && forall j :: i < j < |events| ==> !Removes(After(start, events[..j]), events[j], p.id)
  }

  lemma {:induction false} RepricedKeepsId(v: PositionView, events: seq<Event>)
    ensures Repriced(v, events) == v.(currentPrice := Repriced(v, events).currentPrice)
  {
    if events == [] {
    } else {
      RepricedKeepsId(v, events[..|events| - 1]);
    }
  }

  /** The last event accepts the position, or keeps an earlier one that it then reprices. */
  predicate KeepsOrOpens(s: State, e: Event, p: PositionView) {
    || (Accepts(s, e) && p == e.position)
    || (!Removes(s, e, p.id)
        && exists v :: v in s.book && p == (if e.Update? then Reprice(v, e.updates) else v))
  }

  lemma {:induction false} OpenAfterAdd(s: State, v: PositionView, p: PositionView)
    requires KeysDistinct(s.book)
    ensures p in AfterAdd(s, v).book <==>
      if AddResult(s, v) == Ok(Added(v.id)) then p == v || (p in s.book && p.id != v.id) else p in s.book
  {
    var book := s.book;
    var i := Slot(Ids(book), v.id);
    assert forall j :: 0 <= j < |book| ==> Ids(book)[j] == book[j].id;
    if i < |book| {
      assert book[i := v][i] == v;
      assert forall j :: 0 <= j < |book| && j != i ==> book[i := v][j] == book[j];
    }
  }

  lemma {:induction false} LeftAfterRemoval(book: seq<PositionView>, i: nat, p: PositionView)
    requires KeysDistinct(book) && i < |book|
    ensures p in book[..i] + book[i + 1..] <==> p in book && p.id != book[i].id
  {
    assert book == book[..i] + [book[i]] + book[i + 1..];
    if p in book[..i] {
      var j :| 0 <= j < i && book[j] == p;
    }
    if p in book[i + 1..] {
      var j :| i < j < |book| && book[j] == p;
    }
  }

  lemma {:induction false} OpenAfterClose(s: State, id: string, exitPrice: real, p: PositionView)
    requires KeysDistinct(s.book)
    ensures p in AfterClose(s, id, exitPrice).book <==> p in s.book && p.id != id
  {
    var i := Slot(Ids(s.book), id);
    assert forall j :: 0 <= j < |s.book| ==> Ids(s.book)[j] == s.book[j].id;
    if i < |s.book| {
      LeftAfterRemoval(s.book, i, p);
    }
  }

  lemma {:induction false} OpenAfterUpdate(s: State, updates: map<string, real>, p: PositionView)
    ensures p in AfterReprice(s, updates).book <==> exists v :: v in s.book && p == Reprice(v, updates)
  {
    var book := AfterReprice(s, updates).book;
    assert forall i :: 0 <= i < |s.book| ==> book[i] == Reprice(s.book[i], updates);
  }

  lemma {:induction false} OpenAfterEvent(s: State, e: Event, p: PositionView)
    requires KeysDistinct(s.book)
    ensures p in Apply(s, e).book <==> KeepsOrOpens(s, e, p)
  {
    match e
    case Add(v, resetDaily, today) => OpenAfterAdd(ResetIfNeeded(s, resetDaily, today), v, p);
    case Close(id, exitPrice) => OpenAfterClose(s, id, exitPrice, p);
    case Update(updates) => OpenAfterUpdate(s, updates, p);
  }

  lemma {:induction false} OpenedBefore(start: State, init: seq<Event>, e: Event, v: PositionView, p: PositionView, i: nat)
    requires IsOpened(start, init, v, i)
    requires !Removes(After(start, init), e, v.id)
    requires p == (if e.Update? then Reprice(v, e.updates) else v)
    ensures IsOpened(start, init + [e], p, i)
  {
    var events := init + [e];
    assert events[..i] == init[..i];
    assert events[i + 1..] == init[i + 1..] + [e];
    assert (init[i + 1..] + [e])[..|init| - i - 1] == init[i + 1..];
    forall j | i < j < |events|
      ensures !Removes(After(start, events[..j]), events[j], p.id)
    {
      assert events[..j] == init[..j];
      if j == |init| { assert init[..j] == init; }
    }
  }

  lemma {:induction false} OpenedEarlier(start: State, init: seq<Event>, e: Event, p: PositionView, i: nat)
      returns (v: PositionView)
    requires IsOpened(start, init + [e], p, i) && i < |init|
    ensures IsOpened(start, init, v, i) && !Removes(After(start, init), e, p.id) && v.id == p.id
    ensures p == (if e.Update? then Reprice(v, e.updates) else v)
  {
    var events := init + [e];
    v := Repriced(events[i].position, init[i + 1..]);
    RepricedKeepsId(events[i].position, init[i + 1..]);
    assert events[..i] == init[..i];
    assert events[i + 1..] == init[i + 1..] + [e];
    assert (init[i + 1..] + [e])[..|init| - i - 1] == init[i + 1..];
    assert events[..|init|] == init && events[|init|] == e;
    forall j | i < j < |init|
      ensures !Removes(After(start, init[..j]), init[j], v.id)
    {
      assert events[..j] == init[..j] && events[j] == init[j];
    }
  }

  lemma {:induction false} OpenedByLast(start: State, init: seq<Event>, e: Event, p: PositionView)
    ensures IsOpened(start, init + [e], p, |init|) <==> Accepts(After(start, init), e) && p == e.position
  {
    var events := init + [e];
    assert events[..|init|] == init;
    assert events[|init| + 1..] == [];
  }

  /** Over every history the book holds exactly the positions that some event accepted and no later
      event removed, each at its latest price; a reset removes all positions accepted before it. */
  lemma {:induction false} BookHoldsOpened(capital: real, today: int, events: seq<Event>, p: PositionView)
    ensures var start := Initial(capital, today);
            p in After(start, events).book <==> exists i: nat :: IsOpened(start, events, p, i)
  {
    var start := Initial(capital, today);
    if events == [] {
    } else {
      var init, e := events[..|events| - 1], events[|events| - 1];
      assert events == init + [e];
      CapitalIsConserved(capital, today, init);
      OpenAfterEvent(After(start, init), e, p);
      OpenedByLast(start, init, e, p);
      if v :| v in After(start, init).book && !Removes(After(start, init), e, p.id)
              && p == (if e.Update? then Reprice(v, e.updates) else v) {
        BookHoldsOpened(capital, today, init, v);
        var i: nat :| IsOpened(start, init, v, i);
        OpenedBefore(start, init, e, v, p, i);
      }
      if i: nat :| IsOpened(start, events, p, i) && i < |init| {
        var v := OpenedEarlier(start, init, e, p, i);
        BookHoldsOpened(capital, today, init, v);
      }
    }
  }

  /** An addition that brings a reset finds an empty book: it is never one too many, and afterwards
      the book holds the added position at most. */
  lemma {:induction false} ResetEmptiesBook(s: State, v: PositionView, resetDaily: bool, today: int)
    requires resetDaily && today != s.lastResetDate
    ensures AddResult(ResetIfNeeded(s, resetDaily, today), v) != Ok(TooMany)
    ensures var s' := Apply(s, Add(v, resetDaily, today));
            && (s'.book == [] || s'.book == [v])
            && s'.realisedPnl == 0.0 && s'.capital == s.capital && s'.closed == s.closed && s'.lastResetDate == today
  {
  }

  // ---------------------------------------------------------------- concentration

  predicate NotionalsNonnegative(book: seq<PositionView>) {
    forall i :: 0 <= i < |book| ==> Notional(book[i]) >= 0.0
  }

  lemma {:induction false} ShareLimit(part: real, base: real)
    requires base > 0.0
    ensures part / base > MAX_SECTOR_CONCENTRATION <==> part > 0.40 * base
  {
    var q := part / base;
    assert q * base == part;
    OrderScales(MAX_SECTOR_CONCENTRATION, q, base);
  }

  lemma {:induction false} SectorWithinTotal(book: seq<PositionView>, sector: string)
    requires NotionalsNonnegative(book)
    ensures 0.0 <= SectorNotional(book, sector) <= TotalNotional(book)
  {
    if book == [] {
    } else {
      SectorWithinTotal(book[..|book| - 1], sector);
    }
  }

  lemma {:induction false} PutTotals(book: seq<PositionView>, v: PositionView, f: PositionView -> real)
    ensures Slot(Ids(book), v.id) == |book| ==> SumBy(Put(book, v), f) == SumBy(book, f) + f(v)
    ensures Slot(Ids(book), v.id) < |book| ==>
      SumBy(Put(book, v), f) == SumBy(book, f) - f(book[Slot(Ids(book), v.id)]) + f(v)
  {
    var i := Slot(Ids(book), v.id);
    if i < |book| {
      SumByUpdate(book, i, v, f);
    } else {
      SumByAppend(book, v, f);
    }
  }

  /** An accepted position under a new id leaves its sector with at most 40% of the new total,
      although the test divides by the total without the new position. */
  lemma {:induction false} AcceptedSectorShare(s: State, v: PositionView)
    requires NotionalsNonnegative(s.book) && Notional(v) >= 0.0 && TotalNotional(s.book) != 0.0
    requires Slot(Ids(s.book), v.id) == |s.book| && AddResult(s, v) == Ok(Added(v.id))
    ensures var book := AfterAdd(s, v).book;
            SectorNotional(book, v.sector) <= 0.40 * TotalNotional(book)
  {
    SectorWithinTotal(s.book, v.sector);
    ShareLimit(SectorNotional(s.book, v.sector) + Notional(v), TotalNotional(s.book));
    PutTotals(s.book, v, Notional);
    PutTotals(s.book, v, InSector(v.sector));
  }

  lemma {:induction false} ShareBeyond(part: real, base: real)
    requires base != 0.0
    ensures part / base > MAX_SECTOR_CONCENTRATION <==> (if base > 0.0 then part > 0.40 * base else part < 0.40 * base)
  {
    var q := part / base;
    assert q * base == part;
    if base > 0.0 {
      OrderScales(0.40, q, base);
    } else {
      OrderScales(0.40, q, -base);
    }
  }

  /** What one more position adds to the figures the test looks at. */
  lemma {:induction false} NotionalsAdd(book: seq<PositionView>, v: PositionView, sector: string)
    ensures TotalNotional(book + [v]) == TotalNotional(book) + v.currentPrice * v.quantity as real
    ensures SectorNotional(book + [v], sector) ==
      SectorNotional(book, sector) + (if v.sector == sector then v.currentPrice * v.quantity as real else 0.0)
    ensures TotalNotional([]) == SectorNotional([], sector) == 0.0
  {
    SumByAppend(book, v, Notional);
    SumByAppend(book, v, InSector(sector));
  }

  /** Acceptance in terms of amounts: at six positions the addition is one too many; otherwise the
      base is the book's notional, or the capital for a notional of zero; without a base the test
      raises, and with one the position is accepted exactly when its sector with it stays within
      40 percent of a positive base, or at 40 percent of a negative one or above. */
  lemma {:induction false} AcceptedIff(s: State, v: PositionView)
    ensures var base := if TotalNotional(s.book) != 0.0 then TotalNotional(s.book) else s.capital;
            var sector := SectorNotional(s.book, v.sector) + v.currentPrice * v.quantity as real;
            AddResult(s, v) ==
              if |s.book| >= 6 then Ok(TooMany)
              else if base == 0.0 then Raised
              else if (if base > 0.0 then sector <= 0.40 * base else sector >= 0.40 * base) then Ok(Added(v.id))
              else Ok(TooConcentrated)
  {
    if ConcentrationBase(s) != 0.0 {
      ShareBeyond(SectorNotional(s.book, v.sector) + Notional(v), ConcentrationBase(s));
    }
  }

  lemma {:induction false} FlatTradeEarnsNothing(p: PositionView)
    requires p.currentPrice == p.entryPrice
    ensures UnrealisedPnl(p) == 0.0
  {
  }

  /** Round trip: a position accepted under a new id and closed at its entry price leaves the book,
      the capital and the realised figure as they were. */
  lemma {:induction false} AddThenCloseAtEntry(s: State, v: PositionView)
    requires Slot(Ids(s.book), v.id) == |s.book| && AddResult(s, v) == Ok(Added(v.id))
    ensures var s' := AfterClose(AfterAdd(s, v), v.id, v.entryPrice);
            && s'.book == s.book && s'.capital == s.capital && s'.realisedPnl == s.realisedPnl
            && s'.closed == s.closed + [CloseRecord(v, v.entryPrice)]
  {
    var mid := AfterAdd(s, v);
    assert mid.book == s.book + [v];
    assert forall j :: 0 <= j < |s.book| ==> Ids(mid.book)[j] == Ids(s.book)[j];
    assert Ids(mid.book)[|s.book|] == v.id;
    assert Slot(Ids(mid.book), v.id) == |s.book|;
    FlatTradeEarnsNothing(v.(currentPrice := v.entryPrice));
    assert mid.book[..|s.book|] + mid.book[|s.book| + 1..] == s.book;
  }

  /** For the same reason a book held in one sector accepts nothing more of that sector. */
  lemma {:induction false} SingleSectorIsClosed(s: State, v: PositionView)
    requires NotionalsNonnegative(s.book) && Notional(v) >= 0.0 && TotalNotional(s.book) != 0.0
    requires SectorNotional(s.book, v.sector) == TotalNotional(s.book)
    ensures AddResult(s, v) == Ok(TooMany) || AddResult(s, v) == Ok(TooConcentrated)
  {
    SectorWithinTotal(s.book, v.sector);
    ShareLimit(SectorNotional(s.book, v.sector) + Notional(v), TotalNotional(s.book));
  }

  function AfterAdds(s: State, adds: seq<PositionView>): State
  {
    if adds == [] then s else AfterAdd(AfterAdds(s, adds[..|adds| - 1]), adds[|adds| - 1])
  }

  /** How many of the positions were accepted. */
  function AcceptedCount(s: State, adds: seq<PositionView>): nat
  {
    if adds == [] then 0 else
      var before := AfterAdds(s, adds[..|adds| - 1]);
      var v := adds[|adds| - 1];
      AcceptedCount(s, adds[..|adds| - 1]) + (if AddResult(before, v) == Ok(Added(v.id)) then 1 else 0)
  }

  /** 0.4 * capital * 1.4^(k-1), and nothing before the first position. */
  function GrowthCap(capital: real, k: nat): real
  {
    if k == 0 then 0.0 else if k == 1 then 0.40 * capital else 1.40 * GrowthCap(capital, k - 1)
  }

  lemma {:induction false} GrowthCapGrows(capital: real, k: nat)
    requires capital > 0.0
    ensures GrowthCap(capital, k) <= GrowthCap(capital, k + 1) && GrowthCap(capital, k + 1) >= 0.40 * capital
  {
    if k == 0 {
    } else {
      GrowthCapGrows(capital, k - 1);
    }
  }

  /** One accepted position multiplies a nonzero total by at most 1.4, and starts an empty one at
      no more than 40% of the capital. */
  lemma {:induction false} AcceptedGrowth(s: State, v: PositionView)
    requires s.capital > 0.0 && NotionalsNonnegative(s.book) && Notional(v) >= 0.0
    requires AddResult(s, v) == Ok(Added(v.id))
    ensures NotionalsNonnegative(AfterAdd(s, v).book)
    ensures TotalNotional(AfterAdd(s, v).book) <= TotalNotional(s.book) + 0.40 * ConcentrationBase(s)
  {
    SectorWithinTotal(s.book, v.sector);
    ShareLimit(SectorNotional(s.book, v.sector) + Notional(v), ConcentrationBase(s));
    PutTotals(s.book, v, Notional);
  }

  lemma {:induction false} AddKeepsBound(s: State, v: PositionView, k: nat)
    requires s.capital > 0.0 && NotionalsNonnegative(s.book) && Notional(v) >= 0.0
    requires TotalNotional(s.book) <= GrowthCap(s.capital, k)
    ensures var s' := AfterAdd(s, v);
            && s'.capital == s.capital && NotionalsNonnegative(s'.book)
            && TotalNotional(s'.book)
               <= GrowthCap(s.capital, k + (if AddResult(s, v) == Ok(Added(v.id)) then 1 else 0))
  {
    if AddResult(s, v) == Ok(Added(v.id)) {
      AcceptedGrowth(s, v);
      GrowthCapGrows(s.capital, k);
      SectorWithinTotal(s.book, v.sector);
    }
  }

  /** In a run of adds alone, with fixed nonnegative notionals, the total notional after k accepted
      positions is at most 0.4 * capital * 1.4^(k-1). */
  lemma {:induction false} AddsAreBounded(s: State, adds: seq<PositionView>)
    requires s.capital > 0.0 && s.book == []
    requires forall i :: 0 <= i < |adds| ==> Notional(adds[i]) >= 0.0
    ensures var s' := AfterAdds(s, adds);
            && s'.capital == s.capital && NotionalsNonnegative(s'.book)
            && TotalNotional(s'.book) <= GrowthCap(s.capital, AcceptedCount(s, adds))
  {
    if adds == [] {
    } else {
      var init, v := adds[..|adds| - 1], adds[|adds| - 1];
      AddsAreBounded(s, init);
      var before := AfterAdds(s, init);
      AddKeepsBound(before, v, AcceptedCount(s, init));
    }
  }

  lemma {:induction false} AcceptedStay(s: State, adds: seq<PositionView>)
    requires s.book == []
    requires forall i, j :: 0 <= i < j < |adds| ==> adds[i].id != adds[j].id
    ensures |AfterAdds(s, adds).book| == AcceptedCount(s, adds) <= MAX_POSITIONS
    ensures forall i :: 0 <= i < |AfterAdds(s, adds).book| ==>
      exists j :: 0 <= j < |adds| && adds[j].id == AfterAdds(s, adds).book[i].id
  {
    if adds == [] {
    } else {
      var init, v := adds[..|adds| - 1], adds[|adds| - 1];
      AcceptedStay(s, init);
      var book := AfterAdds(s, init).book;
      forall i | 0 <= i < |book|
        ensures Ids(book)[i] != v.id
        ensures exists j :: 0 <= j < |adds| && adds[j].id == book[i].id
      {
        var j :| 0 <= j < |init| && init[j].id == book[i].id;
        assert adds[j] == init[j];
      }
    }
  }

  lemma {:induction false} GrowthCapMonotone(capital: real, k: nat, n: nat)
    requires capital > 0.0 && k <= n
    ensures GrowthCap(capital, k) <= GrowthCap(capital, n)
  {
    if k == n {
    } else {
      GrowthCapMonotone(capital, k, n - 1);
      GrowthCapGrows(capital, n - 1);
    }
  }

  /** Under distinct ids every accepted position stays in the book, so at the limit of six the
      total notional is below 2.16 times the capital. */
  lemma {:induction false} FullBookNotional(s: State, adds: seq<PositionView>)
    requires s.capital > 0.0 && s.book == []
    requires forall i :: 0 <= i < |adds| ==> Notional(adds[i]) >= 0.0
    requires forall i, j :: 0 <= i < j < |adds| ==> adds[i].id != adds[j].id
    ensures TotalNotional(AfterAdds(s, adds).book) < 2.16 * s.capital
  {
    AddsAreBounded(s, adds);
    AcceptedStay(s, adds);
    var k := AcceptedCount(s, adds);
    GrowthCapMonotone(s.capital, k, 6);
    assert GrowthCap(s.capital, 2) == 0.56 * s.capital;
    assert GrowthCap(s.capital, 4) == 1.40 * (1.40 * (0.56 * s.capital));
    assert GrowthCap(s.capital, 6) == 1.40 * (1.40 * GrowthCap(s.capital, 4));
  }
}
