/** `VolatilityKillSwitch`: market checks and loss counters feeding one latch. */
module KillSwitch {
  import opened Common
  import Metrics

  datatype KillSwitchConfig = KillSwitchConfig(
    indiaVixHaltThreshold: real,
    niftyGapHaltPct: real,
    intradayMoveHaltPct: real,
    consecutiveLossHalt: int,
    hourlyLossPctHalt: real,
    circuitBreakerHalt: bool,
    usMarketCrashHaltPct: real)

  /** Entries of the market-data dictionary that the checks read. */
  datatype MarketData = MarketData(
    indiaVix: Option<real>,
    openingGapPct: Option<real>,
    intradayHigh: Option<real>,
    intradayLow: Option<real>,
    prevClose: Option<real>,
    nseCircuitBreaker: Option<bool>,
    sp500ChangePct: Option<real>)

  datatype Reason =
    | IndiaVix(vix: real)
    | OpeningGap(gapPct: real)
    | IntradayRange(rangePct: real)
    | CircuitBreaker
    | UsCrash(changePct: real)
    | LossStreak(losses: nat)
    | HourlyLoss(lossPct: real)

  /** A missing entry reads as zero. */
  function Get(entry: Option<real>): real { if entry.Some? then entry.value else 0.0 }

  function CheckIndiaVix(cfg: KillSwitchConfig, d: MarketData): Option<Reason> {
    var vix := Get(d.indiaVix);
    if vix > cfg.indiaVixHaltThreshold then Some(IndiaVix(vix)) else None
  }

  function CheckOpeningGap(cfg: KillSwitchConfig, d: MarketData): Option<Reason> {
    var gap := Abs(Get(d.openingGapPct));
    if gap > cfg.niftyGapHaltPct then Some(OpeningGap(gap)) else None
  }

  /** Zero or missing prices switch the range check off. */
  function CheckIntradayRange(cfg: KillSwitchConfig, d: MarketData): Option<Reason> {
    var high, low, ref := Get(d.intradayHigh), Get(d.intradayLow), Get(d.prevClose);
    if ref != 0.0 && high != 0.0 && low != 0.0 then
      var rangePct := (high - low) / ref * 100.0;
      if rangePct > cfg.intradayMoveHaltPct then Some(IntradayRange(rangePct)) else None
    else None
  }

  function CheckCircuitBreaker(cfg: KillSwitchConfig, d: MarketData): Option<Reason> {
    if cfg.circuitBreakerHalt && d.nseCircuitBreaker == Some(true) then Some(CircuitBreaker) else None
  }

  function CheckUsCrash(cfg: KillSwitchConfig, d: MarketData): Option<Reason> {
    var change := Get(d.sp500ChangePct);
    if change < -cfg.usMarketCrashHaltPct then Some(UsCrash(change)) else None
  }

  function Checks(cfg: KillSwitchConfig, d: MarketData): seq<Option<Reason>> {
    [CheckIndiaVix(cfg, d), CheckOpeningGap(cfg, d), CheckIntradayRange(cfg, d), CheckCircuitBreaker(cfg, d),
     CheckUsCrash(cfg, d)]
  }

  function FirstFired(checks: seq<Option<Reason>>): Option<Reason>
  {
    if checks == [] then None else if checks[0].Some? then checks[0] else FirstFired(checks[1..])
  }

  /** The first check that fires, in the order of the list. The latch is not consulted. */
  function HaltReason(cfg: KillSwitchConfig, d: MarketData): Option<Reason> {
    FirstFired(Checks(cfg, d))
  }

  /** A halt names the earliest firing check of the list; without a halt none fires. */
  lemma {:induction false} HaltIsFirstFired(checks: seq<Option<Reason>>)
    ensures FirstFired(checks).None? <==> forall i :: 0 <= i < |checks| ==> checks[i].None?
    ensures FirstFired(checks).Some? ==>
      exists i :: 0 <= i < |checks| && checks[i] == FirstFired(checks) && forall j :: 0 <= j < i ==> checks[j].None?
  {
    if checks != [] && checks[0].None? {
      HaltIsFirstFired(checks[1..]);
      assert forall i :: 0 < i < |checks| ==> checks[i] == checks[1..][i - 1];
      if FirstFired(checks).Some? {
        var i :| 0 <= i < |checks| - 1 && checks[1..][i] == FirstFired(checks)
                 && forall j :: 0 <= j < i ==> checks[1..][j].None?;
        assert checks[i + 1] == FirstFired(checks);
      }
    }
  }

  /** The day's range exceeds the percentage of the reference price; a zero or missing price
      switches the test off. */
  predicate MovedTooFar(high: real, low: real, ref: real, limitPct: real) {
    && high != 0.0 && low != 0.0
    && ((ref > 0.0 && (high - low) * 100.0 > limitPct * ref) || (ref < 0.0 && (high - low) * 100.0 < limitPct * ref))
  }

  lemma {:induction false} PercentExceeds(part: real, whole: real, limitPct: real)
    requires whole != 0.0
    ensures part / whole * 100.0 > limitPct <==>
      (if whole > 0.0 then part * 100.0 > limitPct * whole else part * 100.0 < limitPct * whole)
  {
    var q := part / whole;
    assert q * whole == part;
    if whole > 0.0 {
      OrderScales(limitPct, q * 100.0, whole);
    } else {
      OrderScales(limitPct, q * 100.0, -whole);
    }
    assert (q * 100.0) * whole == part * 100.0;
  }

  /** The market is halted exactly when volatility, the gap in either direction, the day's range,
      an enabled circuit breaker or a fall of the US market is beyond its limit. */
  lemma {:induction false} HaltsIff(cfg: KillSwitchConfig, d: MarketData)
    ensures HaltReason(cfg, d).Some? <==>
      || Get(d.indiaVix) > cfg.indiaVixHaltThreshold
      || Get(d.openingGapPct) > cfg.niftyGapHaltPct || -Get(d.openingGapPct) > cfg.niftyGapHaltPct
      || MovedTooFar(Get(d.intradayHigh), Get(d.intradayLow), Get(d.prevClose), cfg.intradayMoveHaltPct)
      || (cfg.circuitBreakerHalt && d.nseCircuitBreaker == Some(true))
      || Get(d.sp500ChangePct) + cfg.usMarketCrashHaltPct < 0.0
  {
    var checks := Checks(cfg, d);
    HaltIsFirstFired(checks);
    assert HaltReason(cfg, d).Some? <==>
      checks[0].Some? || checks[1].Some? || checks[2].Some? || checks[3].Some? || checks[4].Some?;
    if Get(d.prevClose) != 0.0 {
      PercentExceeds(Get(d.intradayHigh) - Get(d.intradayLow), Get(d.prevClose), cfg.intradayMoveHaltPct);
    }
  }

  lemma {:induction false} FirstOfFive(a: Option<Reason>, b: Option<Reason>, c: Option<Reason>, d: Option<Reason>,
      e: Option<Reason>)
    ensures FirstFired([a, b, c, d, e]) ==
      if a.Some? then a else if b.Some? then b else if c.Some? then c else if d.Some? then d else e
  {
    assert [a, b, c, d, e][1..] == [b, c, d, e] && [b, c, d, e][1..] == [c, d, e];
    assert [c, d, e][1..] == [d, e] && [d, e][1..] == [e] && [e][1..] == [];
    assert FirstFired([e]) == e;
    assert FirstFired([d, e]) == if d.Some? then d else e;
    assert FirstFired([c, d, e]) == if c.Some? then c else FirstFired([d, e]);
    assert FirstFired([b, c, d, e]) == if b.Some? then b else FirstFired([c, d, e]);
  }

  lemma {:induction false} PercentTimes(part: real, whole: real)
    requires whole != 0.0
    ensures part / whole * 100.0 * whole == part * 100.0
  {
    var q := part / whole;
    assert q * whole == part;
  }

  lemma {:induction false} RangeCheckIs(cfg: KillSwitchConfig, d: MarketData)
    ensures var high, low, ref := Get(d.intradayHigh), Get(d.intradayLow), Get(d.prevClose);
            var fired := CheckIntradayRange(cfg, d);
            if MovedTooFar(high, low, ref, cfg.intradayMoveHaltPct) then
              fired.Some? && fired.value.IntradayRange? && fired.value.rangePct * ref == (high - low) * 100.0
            else fired == None
  {
    if Get(d.prevClose) != 0.0 {
      PercentExceeds(Get(d.intradayHigh) - Get(d.intradayLow), Get(d.prevClose), cfg.intradayMoveHaltPct);
      PercentTimes(Get(d.intradayHigh) - Get(d.intradayLow), Get(d.prevClose));
    }
  }

  /** The reason names the first limit that is exceeded, in the order volatility, gap, range, circuit
      breaker, US market, with the figure that exceeded it. */
  lemma {:induction false} ReasonNamesFirstLimit(cfg: KillSwitchConfig, d: MarketData)
    ensures var vix, gap, us := Get(d.indiaVix), Abs(Get(d.openingGapPct)), Get(d.sp500ChangePct);
            var high, low, ref := Get(d.intradayHigh), Get(d.intradayLow), Get(d.prevClose);
            var reason := HaltReason(cfg, d);
            if vix > cfg.indiaVixHaltThreshold then reason == Some(IndiaVix(vix))
            else if gap > cfg.niftyGapHaltPct then reason == Some(OpeningGap(gap))
            else if MovedTooFar(high, low, ref, cfg.intradayMoveHaltPct) then
              reason.Some? && reason.value.IntradayRange? && reason.value.rangePct * ref == (high - low) * 100.0
            else if cfg.circuitBreakerHalt && d.nseCircuitBreaker == Some(true) then reason == Some(CircuitBreaker)
            else if us + cfg.usMarketCrashHaltPct < 0.0 then reason == Some(UsCrash(us))
            else reason == None
  {
    FirstOfFive(CheckIndiaVix(cfg, d), CheckOpeningGap(cfg, d), CheckIntradayRange(cfg, d),
                CheckCircuitBreaker(cfg, d), CheckUsCrash(cfg, d));
    RangeCheckIs(cfg, d);
  }

  /** Missing market data never halts, for limits that are not negative. */
  lemma {:induction false} MissingDataNeverHalts(cfg: KillSwitchConfig)
    requires cfg.indiaVixHaltThreshold >= 0.0 && cfg.niftyGapHaltPct >= 0.0
    requires cfg.intradayMoveHaltPct >= 0.0 && cfg.usMarketCrashHaltPct >= 0.0
    ensures HaltReason(cfg, MarketData(None, None, None, None, None, None, None)) == None
  {
    HaltsIff(cfg, MarketData(None, None, None, None, None, None, None));
  }

  datatype State = State(isActive: bool, triggerReason: Option<Reason>, losses: nat, hourlyPnl: real)

  const FRESH := State(false, None, 0, 0.0)

  datatype Event = Checked(data: MarketData) | Recorded(pnl: real, capital: real) | WasReset

  function Activate(s: State, reason: Reason): State {
    if s.isActive then s else s.(isActive := true, triggerReason := Some(reason))
  }

  function LossPct(hourlyPnl: real, capital: real): real
    requires capital != 0.0
  {
    Abs(hourlyPnl) / capital * 100.0
  }

  /** Recording a loss against zero capital raises after the counters have moved. */
  function Apply(cfg: KillSwitchConfig, s: State, e: Event): State {
    match e
    case Checked(data) =>
      if HaltReason(cfg, data).Some? then Activate(s, HaltReason(cfg, data).value) else s
    case WasReset => FRESH
    case Recorded(pnl, capital) =>
      if pnl < 0.0 then
        var counted := s.(losses := s.losses + 1, hourlyPnl := s.hourlyPnl + pnl);
        if capital == 0.0 then counted else
          var afterStreak :=
            if counted.losses >= cfg.consecutiveLossHalt then Activate(counted, LossStreak(counted.losses)) else counted;
          var pct := LossPct(counted.hourlyPnl, capital);
          if pct >= cfg.hourlyLossPctHalt then Activate(afterStreak, HourlyLoss(pct)) else afterStreak
      else s.(losses := 0)
  }

  /** Checking the same market data again changes nothing more. */
  lemma {:induction false} CheckIsIdempotent(cfg: KillSwitchConfig, s: State, data: MarketData)
    ensures Apply(cfg, Apply(cfg, s, Checked(data)), Checked(data)) == Apply(cfg, s, Checked(data))
  {
  }

  function Replay(cfg: KillSwitchConfig, h: seq<Event>): State
  {
    if h == [] then FRESH else Apply(cfg, Replay(cfg, h[..|h| - 1]), h[|h| - 1])
  }

  class VolatilityKillSwitch {
    const config: KillSwitchConfig
    var isActive: bool
    var triggerReason: Option<Reason>
    var consecutiveLosses: nat
    var hourlyPnl: real

    function Current(): State
      reads this
    {
      State(isActive, triggerReason, consecutiveLosses, hourlyPnl)
    }

    constructor (config: KillSwitchConfig)
      ensures Current() == FRESH && this.config == config
    {
      this.config := config;
      isActive, triggerReason, consecutiveLosses, hourlyPnl := false, None, 0, 0.0;
    }

    method ActivateSwitch(reason: Reason)
      modifies this`isActive, this`triggerReason
      ensures Current() == Activate(old(Current()), reason)
    {
      if !isActive {
        isActive := true;
        triggerReason := Some(reason);
      }
    }

    method Check(data: MarketData) returns (halted: bool, reason: Option<Reason>)
      modifies this
      ensures Current() == Apply(config, old(Current()), Checked(data))
      ensures halted == reason.Some? && reason == HaltReason(config, data)
    {
      var checks := Checks(config, data);
      for i := 0 to |checks|
        invariant Current() == old(Current())
        invariant FirstFired(checks[i..]) == FirstFired(checks)
      {
        if checks[i].Some? {
          ActivateSwitch(checks[i].value);
          return true, checks[i];
        }
      }
      return false, None;
    }

    method RecordTradeLoss(pnl: real, capital: real) returns (r: Result<()>)
      modifies this
      ensures Current() == Apply(config, old(Current()), Recorded(pnl, capital))
      ensures r.Raised? <==> pnl < 0.0 && capital == 0.0
    {
      if pnl < 0.0 {
        consecutiveLosses := consecutiveLosses + 1;
        hourlyPnl := hourlyPnl + pnl;
        if capital == 0.0 {
          return Raised;
        }
        var hourlyLossPct := LossPct(hourlyPnl, capital);
        if consecutiveLosses >= config.consecutiveLossHalt {
          ActivateSwitch(LossStreak(consecutiveLosses));
        }
        if hourlyLossPct >= config.hourlyLossPctHalt {
          ActivateSwitch(HourlyLoss(hourlyLossPct));
        }
      } else {
        consecutiveLosses := 0;
      }
      return Ok(());
    }

    method Reset()
      modifies this
      ensures Current() == Apply(config, old(Current()), WasReset)
    {
      isActive := false;
      triggerReason := None;
      consecutiveLosses := 0;
      hourlyPnl := 0.0;
    }
  }

  // ---------------------------------------------------------------- the history behind the state

  /** Results recorded since the last reset. */
  function ResultsOf(h: seq<Event>): seq<real>
  {
    if h == [] then [] else
      match h[|h| - 1]
      case WasReset => []
      case Recorded(pnl, _) => ResultsOf(h[..|h| - 1]) + [pnl]
      case Checked(_) => ResultsOf(h[..|h| - 1])
  }

  /** The last `n` results are all losses. */
  predicate EndsInLosses(results: seq<real>, n: nat) {
    n <= |results| && forall k :: |results| - n <= k < |results| ==> results[k] < 0.0
  }

  /** Length of the run of losses the results end with. */
  function TrailingLosses(results: seq<real>): nat
  {
    if results == [] || results[|results| - 1] >= 0.0 then 0 else TrailingLosses(results[..|results| - 1]) + 1
  }

  lemma {:induction false} TrailingLossesIsLongest(results: seq<real>, n: nat)
    ensures n <= TrailingLosses(results) <==> EndsInLosses(results, n)
  {
    if results != [] && results[|results| - 1] < 0.0 && n > 0 {
      var init := results[..|results| - 1];
      TrailingLossesIsLongest(init, n - 1);
      assert forall k :: 0 <= k < |init| ==> init[k] == results[k];
    }
  }

  /** What event `e` trips, given all results since the last reset including its own: a market
      check, a losing run of at least N, or accumulated losses of the limit share of capital. */
  function TripOf(cfg: KillSwitchConfig, e: Event, results: seq<real>): Option<Reason> {
    match e
    case Checked(data) => HaltReason(cfg, data)
    case WasReset => None
    case Recorded(pnl, capital) =>
      if pnl >= 0.0 || capital == 0.0 then None
      else if TrailingLosses(results) >= cfg.consecutiveLossHalt then Some(LossStreak(TrailingLosses(results)))
      else
        var pct := LossPct(Metrics.GrossLoss(results), capital);
        if pct >= cfg.hourlyLossPctHalt then Some(HourlyLoss(pct)) else None
  }

  lemma {:induction false} LossReaches(lost: real, capital: real, limitPct: real)
    requires capital > 0.0 && lost >= 0.0
    ensures LossPct(lost, capital) >= limitPct <==> lost * 100.0 >= limitPct * capital
    ensures LossPct(lost, capital) * capital == lost * 100.0
  {
    var q := lost / capital;
    assert q * capital == lost;
    PercentTimes(lost, capital);
    OrderScales(q * 100.0, limitPct, capital);
    assert (q * 100.0) * capital == lost * 100.0;
  }

  /** What a recorded loss trips, in amounts: a losing run of at least N comes first, then losses
      that reach the limit share of the capital. */
  lemma {:induction false} LossTripsIff(cfg: KillSwitchConfig, pnl: real, capital: real, results: seq<real>)
    requires pnl < 0.0 && capital > 0.0
    ensures var trip := TripOf(cfg, Recorded(pnl, capital), results);
            var lost := Metrics.GrossLoss(results);
            if TrailingLosses(results) >= cfg.consecutiveLossHalt then trip == Some(LossStreak(TrailingLosses(results)))
            else if lost * 100.0 >= cfg.hourlyLossPctHalt * capital then
              trip.Some? && trip.value.HourlyLoss? && trip.value.lossPct * capital == lost * 100.0
            else trip == None
  {
    var lost := Metrics.GrossLoss(results);
    LossReaches(lost, capital, cfg.hourlyLossPctHalt);
  }

  /** No reset at or after event `i`. */
  predicate SinceReset(h: seq<Event>, i: nat) {
    i < |h| && forall j :: i <= j < |h| ==> h[j] != WasReset
  }

  function TripAt(cfg: KillSwitchConfig, h: seq<Event>, i: nat): Option<Reason>
    requires i < |h|
  {
    TripOf(cfg, h[i], ResultsOf(h[..i + 1]))
  }

  /** Event `i` lies after the last reset and trips the switch. */
  predicate Trips(cfg: KillSwitchConfig, h: seq<Event>, i: nat) {
    SinceReset(h, i) && TripAt(cfg, h, i).Some?
  }

  ghost predicate IsFirstTrip(cfg: KillSwitchConfig, h: seq<Event>, i: nat) {
    Trips(cfg, h, i) && forall j: nat :: j < i ==> !Trips(cfg, h, j)
  }

  /** The counters hold the trailing losing run and the accumulated losses. */
  predicate Counts(s: State, results: seq<real>) {
    s.losses == TrailingLosses(results) && s.hourlyPnl == -Metrics.GrossLoss(results)
  }

  lemma {:induction false} CountsAppend(results: seq<real>, x: real)
    ensures TrailingLosses(results + [x]) == if x < 0.0 then TrailingLosses(results) + 1 else 0
    ensures Metrics.GrossLoss(results + [x]) == Metrics.GrossLoss(results) + (if x < 0.0 then -x else 0.0)
  {
    assert (results + [x])[..|results|] == results;
  }

  lemma {:induction false} StepCounts(cfg: KillSwitchConfig, s: State, results: seq<real>, e: Event)
    requires Counts(s, results)
    ensures Counts(Apply(cfg, s, e), if e.Recorded? then results + [e.pnl] else if e.WasReset? then [] else results)
  {
    if e.Recorded? {
      CountsAppend(results, e.pnl);
    }
  }

  lemma {:induction false} CountersFollowResults(cfg: KillSwitchConfig, h: seq<Event>)
    ensures Counts(Replay(cfg, h), ResultsOf(h))
  {
    if h == [] {
    } else {
      var init, e := h[..|h| - 1], h[|h| - 1];
      CountersFollowResults(cfg, init);
      StepCounts(cfg, Replay(cfg, init), ResultsOf(init), e);
    }
  }

  lemma {:induction false} EarlierTrips(cfg: KillSwitchConfig, h: seq<Event>, i: nat)
    requires h != [] && h[|h| - 1] != WasReset && i < |h| - 1
    ensures TripAt(cfg, h, i) == TripAt(cfg, h[..|h| - 1], i)
    ensures Trips(cfg, h, i) <==> Trips(cfg, h[..|h| - 1], i)
  {
    var init := h[..|h| - 1];
    assert h[..i + 1] == init[..i + 1];
    assert forall j :: 0 <= j < |init| ==> init[j] == h[j];
    if SinceReset(init, i) {
      assert forall j :: i <= j < |h| ==> (j < |init| ==> h[j] == init[j]);
    }
  }

  lemma {:induction false} ApplyTrips(cfg: KillSwitchConfig, before: State, e: Event, results: seq<real>)
    requires !e.WasReset? && Counts(Apply(cfg, before, e), results)
    ensures var after := Apply(cfg, before, e);
            var trip := TripOf(cfg, e, results);
            && after.isActive == (before.isActive || trip.Some?)
            && after.triggerReason == (if before.isActive || trip.None? then before.triggerReason else trip)
  {
    if e.Recorded? && e.pnl < 0.0 && e.capital != 0.0 {
      assert LossPct(Apply(cfg, before, e).hourlyPnl, e.capital) == LossPct(Metrics.GrossLoss(results), e.capital);
    }
  }

  /** What the last event does to the latch, unless it is a reset. */
  lemma {:induction false} LastEventTrips(cfg: KillSwitchConfig, h: seq<Event>)
    requires h != [] && h[|h| - 1] != WasReset
    ensures var before := Replay(cfg, h[..|h| - 1]);
            var after := Replay(cfg, h);
            && after.isActive == (before.isActive || TripAt(cfg, h, |h| - 1).Some?)
            && after.triggerReason == (if before.isActive || !after.isActive then before.triggerReason
                                       else TripAt(cfg, h, |h| - 1))
  {
    assert h[..|h|] == h;
    CountersFollowResults(cfg, h);
    ApplyTrips(cfg, Replay(cfg, h[..|h| - 1]), h[|h| - 1], ResultsOf(h));
  }

  lemma {:induction false} ActiveIffTripped(cfg: KillSwitchConfig, h: seq<Event>)
    ensures Replay(cfg, h).isActive <==> exists i: nat :: Trips(cfg, h, i)
  {
    if h == [] {
    } else if h[|h| - 1] == WasReset {
      assert forall i: nat :: i < |h| ==> !SinceReset(h, i);
    } else {
      var init := h[..|h| - 1];
      ActiveIffTripped(cfg, init);
      LastEventTrips(cfg, h);
      if i: nat :| Trips(cfg, h, i) && i < |h| - 1 {
        EarlierTrips(cfg, h, i);
      }
      if i: nat :| Trips(cfg, init, i) {
        EarlierTrips(cfg, h, i);
      }
      assert Trips(cfg, h, |h| - 1) <==> TripAt(cfg, h, |h| - 1).Some?;
    }
  }

  lemma {:induction false} ReasonIsFirstTrip(cfg: KillSwitchConfig, h: seq<Event>, i: nat)
    requires IsFirstTrip(cfg, h, i)
    ensures Replay(cfg, h).triggerReason == TripAt(cfg, h, i)
  {
    var init := h[..|h| - 1];
    LastEventTrips(cfg, h);
    ActiveIffTripped(cfg, h);
    ActiveIffTripped(cfg, init);
    if i < |h| - 1 {
      EarlierTrips(cfg, h, i);
      forall j: nat | j < i
        ensures !Trips(cfg, init, j)
      {
        EarlierTrips(cfg, h, j);
      }
      ReasonIsFirstTrip(cfg, init, i);
    } else if j: nat :| Trips(cfg, init, j) {
      EarlierTrips(cfg, h, j);
    }
  }

  lemma {:induction false} FirstTripExists(cfg: KillSwitchConfig, h: seq<Event>, i: nat) returns (first: nat)
    requires Trips(cfg, h, i)
    ensures IsFirstTrip(cfg, h, first)
  {
    if j: nat :| j < i && Trips(cfg, h, j) {
      first := FirstTripExists(cfg, h, j);
    } else {
      first := i;
    }
  }

  /** The latch is a function of the history: it is set exactly when some event since the last
      reset trips the switch, and the stored reason is that of the first such event. */
  lemma {:induction false} LatchFollowsHistory(cfg: KillSwitchConfig, h: seq<Event>)
    ensures !Replay(cfg, h).isActive ==> forall i: nat :: !Trips(cfg, h, i)
    ensures Replay(cfg, h).isActive ==>
      exists i: nat :: IsFirstTrip(cfg, h, i) && Replay(cfg, h).triggerReason == TripAt(cfg, h, i)
  {
    ActiveIffTripped(cfg, h);
    if i: nat :| Trips(cfg, h, i) {
      var first := FirstTripExists(cfg, h, i);
      ReasonIsFirstTrip(cfg, h, first);
    }
  }

  // ---------------------------------------------------------------- loss streaks against the metrics

  /** The history that only records results. */
  function Recordings(pnls: seq<real>, capital: real): seq<Event> {
    seq(|pnls|, k requires 0 <= k < |pnls| => Recorded(pnls[k], capital))
  }

  lemma {:induction false} ResultsOfRecordings(pnls: seq<real>, capital: real)
    ensures ResultsOf(Recordings(pnls, capital)) == pnls
  {
    if pnls == [] {
    } else {
      var init := pnls[..|pnls| - 1];
      ResultsOfRecordings(init, capital);
      assert Recordings(pnls, capital)[..|pnls| - 1] == Recordings(init, capital);
    }
  }

  /** Some recorded loss completes a run of at least N losses. */
  ghost predicate StreakTrips(cfg: KillSwitchConfig, pnls: seq<real>) {
    exists i :: 0 <= i < |pnls| && pnls[i] < 0.0 && TrailingLosses(pnls[..i + 1]) >= cfg.consecutiveLossHalt
  }

  /** On nonzero results the streak condition is met at some point exactly when the longest
      losing streak that the metrics report over the same results is at least N. The metrics
      count a zero result as a loss and the switch does not. */
  lemma {:induction false} StreakTripsIffLongestLosingRun(cfg: KillSwitchConfig, pnls: seq<real>, longest: nat)
    requires cfg.consecutiveLossHalt >= 1
    requires forall k :: 0 <= k < |pnls| ==> pnls[k] != 0.0
    requires Metrics.IsLongestRun(pnls, longest, false)
    ensures StreakTrips(cfg, pnls) <==> longest >= cfg.consecutiveLossHalt
  {
    var n := cfg.consecutiveLossHalt;
    if i :| 0 <= i < |pnls| && pnls[i] < 0.0 && TrailingLosses(pnls[..i + 1]) >= n {
      var m := TrailingLosses(pnls[..i + 1]);
      TrailingLossesIsLongest(pnls[..i + 1], m);
      assert forall k :: 0 <= k <= i ==> pnls[..i + 1][k] == pnls[k];
      assert Metrics.IsRun(pnls, i + 1 - m, m, false);
      assert Metrics.HasRun(pnls, m, false);
    }
    if longest >= n {
      var a: nat :| Metrics.IsRun(pnls, a, longest, false);
      var i := a + longest - 1;
      assert forall k :: 0 <= k <= i ==> pnls[..i + 1][k] == pnls[k];
      assert EndsInLosses(pnls[..i + 1], longest);
      TrailingLossesIsLongest(pnls[..i + 1], longest);
    }
  }

  /** So a switch fed only the results of a run, against a nonzero capital, is active at the end
      if that run's longest losing streak reaches N. */
  lemma {:induction false} LongStreakActivates(cfg: KillSwitchConfig, pnls: seq<real>, capital: real, longest: nat)
    requires cfg.consecutiveLossHalt >= 1 && capital != 0.0
    requires forall k :: 0 <= k < |pnls| ==> pnls[k] != 0.0
    requires Metrics.IsLongestRun(pnls, longest, false)
    requires longest >= cfg.consecutiveLossHalt
    ensures Replay(cfg, Recordings(pnls, capital)).isActive
  {
    var h := Recordings(pnls, capital);
    StreakTripsIffLongestLosingRun(cfg, pnls, longest);
    var i :| 0 <= i < |pnls| && pnls[i] < 0.0 && TrailingLosses(pnls[..i + 1]) >= cfg.consecutiveLossHalt;
    ResultsOfRecordings(pnls[..i + 1], capital);
    assert h[..i + 1] == Recordings(pnls[..i + 1], capital);
    assert Trips(cfg, h, i);
    LatchFollowsHistory(cfg, h);
  }
}
