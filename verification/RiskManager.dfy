/** `RiskManagementAgent`: loss breakers over the running account, and position sizing. */
module RiskManager {
  import opened Common
  import opened BacktestTypes
  import Metrics

  datatype RiskLimits = RiskLimits(
    maxPortfolioRiskPct: real,
    maxSingleTradeRiskPct: real,
    maxDailyLossPct: real,
    maxWeeklyLossPct: real,
    maxDrawdownPct: real,
    maxPositionCount: int,
    minRewardRiskRatio: real)

  const DEFAULT_LIMITS := RiskLimits(2.0, 0.5, 1.5, 3.0, 8.0, 6, 1.5)

  const STARTING_CAPITAL: real := 1_000_000.0

  datatype Account = Account(
    capital: real,
    dailyPnl: real,
    weeklyPnl: real,
    peakCapital: real,
    openPositions: nat,
    dailyTrades: nat,
    lastResetDate: int)

  function Fresh(today: int): Account {
    Account(STARTING_CAPITAL, 0.0, 0.0, STARTING_CAPITAL, 0, 0, today)
  }

  datatype Proposal = Proposal(symbol: string, entryPrice: Option<real>, stopLoss: Option<real>, targetPrice: Option<real>)

  function GetOr(entry: Option<real>, default: real): real { if entry.Some? then entry.value else default }

  // ---------------------------------------------------------------- checks

  datatype Rejection = DailyLossLimit | WeeklyLossLimit | MaxDrawdown | PositionCount | StopLossNotSet | RewardRiskTooLow

  function LossPct(pnl: real, capital: real): real
    requires capital != 0.0
  {
    Abs(Min(pnl, 0.0)) / capital * 100.0
  }

  function DrawdownPct(a: Account): real
    requires a.peakCapital != 0.0
  {
    Metrics.DropFrom(a.peakCapital, a.capital)
  }

  predicate DailyHit(limits: RiskLimits, a: Account)
    requires a.capital != 0.0
  {
    LossPct(a.dailyPnl, a.capital) >= limits.maxDailyLossPct
  }

  predicate WeeklyHit(limits: RiskLimits, a: Account)
    requires a.capital != 0.0
  {
    LossPct(a.weeklyPnl, a.capital) >= limits.maxWeeklyLossPct
  }

  predicate DrawdownHit(limits: RiskLimits, a: Account)
    requires a.peakCapital != 0.0
  {
    DrawdownPct(a) >= limits.maxDrawdownPct
  }

  /** The reward/risk check; the missing-key defaults are those of the dictionary lookups. */
  function RewardRiskRejection(limits: RiskLimits, p: Proposal): Option<Rejection> {
    var entry := GetOr(p.entryPrice, 1.0);
    var sl := Abs(GetOr(p.stopLoss, 0.0) - entry);
    var tp := Abs(GetOr(p.targetPrice, 0.0) - entry);
    if sl == 0.0 then Some(StopLossNotSet)
    else if tp / sl < limits.minRewardRiskRatio then Some(RewardRiskTooLow)
    else None
  }

  /** All checks are evaluated before the first result is looked at, so a zero divisor raises
      whatever the other checks say. */
  function Screen(limits: RiskLimits, a: Account, p: Proposal): Result<Option<Rejection>> {
    if a.capital == 0.0 || a.peakCapital == 0.0 then Raised else
      Ok(if DailyHit(limits, a) then Some(DailyLossLimit)
         else if WeeklyHit(limits, a) then Some(WeeklyLossLimit)
         else if DrawdownHit(limits, a) then Some(MaxDrawdown)
         else if a.openPositions >= limits.maxPositionCount then Some(PositionCount)
         else RewardRiskRejection(limits, p))
  }

  function ResetDaily(a: Account, today: int): Account {
    if today != a.lastResetDate then a.(dailyPnl := 0.0, dailyTrades := 0, lastResetDate := today) else a
  }

  function AddPnl(a: Account, pnl: real): Account {
    var capital := a.capital + pnl;
    a.(dailyPnl := a.dailyPnl + pnl, weeklyPnl := a.weeklyPnl + pnl, capital := capital,
       peakCapital := if capital > a.peakCapital then capital else a.peakCapital)
  }

  // ---------------------------------------------------------------- sizing

  /** What the sizing reads from outside: the lot size, the Kelly fraction and, with an executor,
      the available funds. */
  datatype Market = Market(lotSize: Positive, kelly: real, funds: Option<real>)

  function UpperChar(c: char): char {
    if 'a' <= c <= 'z' then c - 'a' + 'A' else c
  }

  /** The symbol contains "BANK" in any mixture of cases. */
  predicate IsBankSymbol(symbol: string) {
    exists i :: 0 <= i <= |symbol| - 4
                && UpperChar(symbol[i]) == 'B' && UpperChar(symbol[i + 1]) == 'A'
                && UpperChar(symbol[i + 2]) == 'N' && UpperChar(symbol[i + 3]) == 'K'
  }

  /** Share of the capital put at risk: the Kelly-scaled trade limit under the portfolio cap. */
  function RiskShare(limits: RiskLimits, a: Account, kelly: real): real {
    Min(limits.maxSingleTradeRiskPct * kelly / 100.0,
        limits.maxPortfolioRiskPct / 100.0 / (if a.openPositions > 1 then a.openPositions else 1) as real)
  }

  function RiskBudget(limits: RiskLimits, a: Account, kelly: real): real {
    a.capital * RiskShare(limits, a, kelly)
  }

  /** Risk of one unit: the stop distance, at least 1. */
  function UnitRisk(p: Proposal): (r: real)
    ensures r >= 1.0
  {
    Max(Abs(GetOr(p.entryPrice, 1.0) - GetOr(p.stopLoss, 0.0)), 1.0)
  }

  /** Loss of the whole quantity at the stop. */
  function RiskTaken(p: Proposal, quantity: int): real { quantity as real * UnitRisk(p) }

  function CalculatedQty(limits: RiskLimits, a: Account, m: Market, p: Proposal): int {
    Truncate(RiskBudget(limits, a, m.kelly) / UnitRisk(p))
  }

  function BankQuantity(calculated: int, lot: Positive): int {
    if calculated >= lot * 2 then lot * 2
    else if calculated >= lot then lot
    else if calculated > 0 then lot
    else 0
  }

  function WholeLots(calculated: int, lot: Positive): int { calculated / lot * lot }

  /** Quantity before the funds check. */
  function RiskQuantity(limits: RiskLimits, a: Account, m: Market, p: Proposal): int {
    var calculated := CalculatedQty(limits, a, m, p);
    if IsBankSymbol(p.symbol) then BankQuantity(calculated, m.lotSize) else WholeLots(calculated, m.lotSize)
  }

  function Outlay(price: real, quantity: int): real { price * quantity as real }

  /** With an executor an unaffordable quantity falls back to one lot, or to none. */
  function FundsCheck(quantity: int, lot: Positive, price: real, funds: Option<real>): int {
    if funds.Some? && quantity > 0 && Outlay(price, quantity) > funds.value then
      if funds.value >= Outlay(price, lot) then lot else 0
    else quantity
  }

  function SizePosition(limits: RiskLimits, a: Account, m: Market, p: Proposal): int {
    FundsCheck(RiskQuantity(limits, a, m, p), m.lotSize, GetOr(p.entryPrice, 0.0), m.funds)
  }

  // ---------------------------------------------------------------- the agent

  datatype Verdict = Approved(quantity: int) | Rejected(reason: Rejection)

  function Validate(limits: RiskLimits, a: Account, m: Market, p: Proposal): Result<Verdict> {
    match Screen(limits, a, p)
    case Raised => Raised
    case Ok(rejection) =>
      Ok(if rejection.Some? then Rejected(rejection.value) else Approved(SizePosition(limits, a, m, p)))
  }

  class RiskManagementAgent {
    const limits: RiskLimits
    var capital: real
    var dailyPnl: real
    var weeklyPnl: real
    var peakCapital: real
    var openPositions: nat
    var dailyTrades: nat
    var lastResetDate: int

    function State(): Account
      reads this
    {
      Account(capital, dailyPnl, weeklyPnl, peakCapital, openPositions, dailyTrades, lastResetDate)
    }

    constructor (limits: RiskLimits, today: int)
      ensures this.limits == limits && State() == Fresh(today)
    {
      this.limits := limits;
      capital, dailyPnl, weeklyPnl, peakCapital := STARTING_CAPITAL, 0.0, 0.0, STARTING_CAPITAL;
      openPositions, dailyTrades, lastResetDate := 0, 0, today;
    }

    method ResetDailyIfNeeded(today: int)
      modifies this`dailyPnl, this`dailyTrades, this`lastResetDate
      ensures State() == ResetDaily(old(State()), today)
    {
      if today != lastResetDate {
        dailyPnl := 0.0;
        dailyTrades := 0;
        lastResetDate := today;
      }
    }

    method ValidateSignal(p: Proposal, m: Market, today: int) returns (r: Result<Verdict>)
      modifies this
      ensures State() == ResetDaily(old(State()), today)
      ensures r == Validate(limits, State(), m, p)
    {
      ResetDailyIfNeeded(today);
      r := Validate(limits, State(), m, p);
    }

    method AddRealisedPnl(pnl: real)
      modifies this`dailyPnl, this`weeklyPnl, this`capital, this`peakCapital
      ensures State() == AddPnl(old(State()), pnl)
    {
      dailyPnl := dailyPnl + pnl;
      weeklyPnl := weeklyPnl + pnl;
      capital := capital + pnl;
      if capital > peakCapital {
        peakCapital := capital;
      }
    }
  }

  // ---------------------------------------------------------------- the breakers latch under losses

  /** Some loss breaker rejects. */
  predicate BreakerHit(limits: RiskLimits, a: Account)
    requires a.capital != 0.0 && a.peakCapital != 0.0
  {
    DailyHit(limits, a) || WeeklyHit(limits, a) || DrawdownHit(limits, a)
  }

  predicate LossAtLeast(pnl: real, capital: real, limitPct: real) {
    capital > 0.0 && -Min(pnl, 0.0) * 100.0 >= limitPct * capital
  }

  predicate FallAtLeast(a: Account, limitPct: real) {
    (a.peakCapital - a.capital) * 100.0 >= limitPct * a.peakCapital
  }

  /** The breakers without division, so that zero capital is no exception. */
  predicate Tripped(limits: RiskLimits, a: Account) {
    || LossAtLeast(a.dailyPnl, a.capital, limits.maxDailyLossPct)
    || LossAtLeast(a.weeklyPnl, a.capital, limits.maxWeeklyLossPct)
    || FallAtLeast(a, limits.maxDrawdownPct)
  }

  predicate PositiveLimits(limits: RiskLimits) {
    limits.maxDailyLossPct > 0.0 && limits.maxWeeklyLossPct > 0.0 && limits.maxDrawdownPct > 0.0
  }

  /** The configurations the latch holds for: positive limits, and a drawdown limit that losing
      everything reaches. */
  predicate ProperLimits(limits: RiskLimits) {
    PositiveLimits(limits) && limits.maxDrawdownPct <= 100.0
  }

  predicate Sane(a: Account) { a.peakCapital > 0.0 && a.capital <= a.peakCapital }

  lemma {:induction false} QuotientAtLeast(x: real, d: real, limit: real)
    requires d > 0.0
    ensures x / d * 100.0 >= limit <==> x * 100.0 >= limit * d
  {
    var q := x / d;
    assert q * d == x;
    OrderScales(q * 100.0, limit, d);
    assert (q * 100.0) * d == x * 100.0;
  }

  lemma {:induction false} LossHitIff(pnl: real, capital: real, limit: real)
    requires capital != 0.0 && limit > 0.0
    ensures LossPct(pnl, capital) >= limit <==> LossAtLeast(pnl, capital, limit)
  {
    var loss := Abs(Min(pnl, 0.0));
    if capital > 0.0 {
      QuotientAtLeast(loss, capital, limit);
    } else {
      var q := loss / capital;
      assert q * capital == loss;
      OrderScales(0.0, q, -capital);
    }
  }

  lemma {:induction false} BreakerIffTripped(limits: RiskLimits, a: Account)
    requires PositiveLimits(limits) && Sane(a) && a.capital != 0.0
    ensures BreakerHit(limits, a) <==> Tripped(limits, a)
  {
    LossHitIff(a.dailyPnl, a.capital, limits.maxDailyLossPct);
    LossHitIff(a.weeklyPnl, a.capital, limits.maxWeeklyLossPct);
    QuotientAtLeast(a.peakCapital - a.capital, a.peakCapital, limits.maxDrawdownPct);
  }

  function AfterPnls(a: Account, pnls: seq<real>): Account
  {
    if pnls == [] then a else AddPnl(AfterPnls(a, pnls[..|pnls| - 1]), pnls[|pnls| - 1])
  }

  lemma {:induction false} LossGrows(pnl: real, capital: real, loss: real, limitPct: real)
    requires limitPct > 0.0 && loss <= 0.0 && capital + loss > 0.0
    requires LossAtLeast(pnl, capital, limitPct)
    ensures LossAtLeast(pnl + loss, capital + loss, limitPct)
  {
    ScaleLe(capital + loss, capital, limitPct);
  }

  lemma {:induction false} WipedOutFalls(a: Account, limitPct: real)
    requires a.peakCapital > 0.0 && a.capital <= 0.0 && limitPct <= 100.0
    ensures FallAtLeast(a, limitPct)
  {
    ScaleLe(limitPct, 100.0, a.peakCapital);
  }

  /** One more loss keeps a tripped account tripped, even past zero capital, where the loss
      ratios change sign but the fall from the peak exceeds 100 percent. */
  lemma {:induction false} LossKeepsTripped(limits: RiskLimits, a: Account, loss: real)
    requires ProperLimits(limits) && Sane(a) && loss <= 0.0
    requires Tripped(limits, a)
    ensures Sane(AddPnl(a, loss)) && Tripped(limits, AddPnl(a, loss))
  {
    var b := AddPnl(a, loss);
    if b.capital <= 0.0 {
      WipedOutFalls(b, limits.maxDrawdownPct);
    } else if LossAtLeast(a.dailyPnl, a.capital, limits.maxDailyLossPct) {
      LossGrows(a.dailyPnl, a.capital, loss, limits.maxDailyLossPct);
    } else if LossAtLeast(a.weeklyPnl, a.capital, limits.maxWeeklyLossPct) {
      LossGrows(a.weeklyPnl, a.capital, loss, limits.maxWeeklyLossPct);
    }
  }

  lemma {:induction false} LossesKeepTripped(limits: RiskLimits, a: Account, losses: seq<real>)
    requires ProperLimits(limits) && Sane(a) && Tripped(limits, a)
    requires forall k :: 0 <= k < |losses| ==> losses[k] <= 0.0
    ensures Sane(AfterPnls(a, losses)) && Tripped(limits, AfterPnls(a, losses))
    ensures AfterPnls(a, losses).lastResetDate == a.lastResetDate
  {
    if losses == [] {
    } else {
      LossesKeepTripped(limits, a, losses[..|losses| - 1]);
      LossKeepsTripped(limits, AfterPnls(a, losses[..|losses| - 1]), losses[|losses| - 1]);
    }
  }

  /** Once the daily, weekly or drawdown breaker rejects, any further losses on the same day keep
      it so: no signal is approved, and unless the capital is exactly zero, when the check
      raises, the rejection names a loss breaker. */
  lemma {:induction false} BreakersLatchUnderLosses(limits: RiskLimits, a: Account, losses: seq<real>,
      m: Market, p: Proposal)
    requires ProperLimits(limits) && Sane(a) && a.capital != 0.0
    requires BreakerHit(limits, a)
    requires forall k :: 0 <= k < |losses| ==> losses[k] <= 0.0
    ensures var b := ResetDaily(AfterPnls(a, losses), a.lastResetDate);
            var verdict := Validate(limits, b, m, p);
            && (verdict.Raised? <==> b.capital == 0.0)
            && (verdict.Ok? ==> verdict.value.Rejected?
                                && verdict.value.reason in {DailyLossLimit, WeeklyLossLimit, MaxDrawdown})
  {
    BreakerIffTripped(limits, a);
    LossesKeepTripped(limits, a, losses);
    var b := AfterPnls(a, losses);
    if b.capital != 0.0 {
      BreakerIffTripped(limits, b);
    }
  }

  function RiskOf(p: Proposal): real { Abs(GetOr(p.stopLoss, 0.0) - GetOr(p.entryPrice, 1.0)) }

  function RewardOf(p: Proposal): real { Abs(GetOr(p.targetPrice, 0.0) - GetOr(p.entryPrice, 1.0)) }

  function RequiredReward(limits: RiskLimits, p: Proposal): real { limits.minRewardRiskRatio * RiskOf(p) }

  lemma {:induction false} RatioBelow(reward: real, risk: real, ratio: real)
    requires risk > 0.0
    ensures reward / risk < ratio <==> reward < ratio * risk
  {
    var q := reward / risk;
    assert q * risk == reward;
    OrderScales(q, ratio, risk);
  }

  lemma {:induction false} RewardRiskIff(limits: RiskLimits, p: Proposal)
    ensures RewardRiskRejection(limits, p) == None <==> RiskOf(p) != 0.0 && RewardOf(p) >= RequiredReward(limits, p)
  {
    if RiskOf(p) != 0.0 {
      RatioBelow(RewardOf(p), RiskOf(p), limits.minRewardRiskRatio);
    }
  }

  /** The screen in terms of amounts: a signal passes exactly when no loss or fall reaches its
      limit, a position slot is free, a stop is set, and the reward is at least the required
      multiple of the risk. */
  lemma {:induction false} PassesIff(limits: RiskLimits, a: Account, p: Proposal)
    requires PositiveLimits(limits) && Sane(a) && a.capital != 0.0
    ensures Screen(limits, a, p) == Ok(None) <==>
      && !Tripped(limits, a)
      && a.openPositions < limits.maxPositionCount
      && RiskOf(p) != 0.0 && RewardOf(p) >= RequiredReward(limits, p)
  {
    BreakerIffTripped(limits, a);
    RewardRiskIff(limits, p);
  }

  /** A day change lifts the daily breaker, and only that one. */
  lemma {:induction false} NewDayLiftsDailyBreaker(limits: RiskLimits, a: Account, today: int)
    requires PositiveLimits(limits) && Sane(a) && a.capital != 0.0 && today != a.lastResetDate
    ensures var b := ResetDaily(a, today);
            && !DailyHit(limits, b)
            && (WeeklyHit(limits, b) <==> WeeklyHit(limits, a))
            && (DrawdownHit(limits, b) <==> DrawdownHit(limits, a))
  {
    LossHitIff(0.0, a.capital, limits.maxDailyLossPct);
    ScaleLe(0.0, limits.maxDailyLossPct, Abs(a.capital));
    if a.capital > 0.0 {
      OrderScales(0.0, limits.maxDailyLossPct, a.capital);
    }
  }

  // ---------------------------------------------------------------- whole histories of the account

  datatype Event = Realised(pnl: real) | DayChecked(today: int)

  function Next(a: Account, e: Event): Account {
    match e
    case Realised(pnl) => AddPnl(a, pnl)
    case DayChecked(today) => ResetDaily(a, today)
  }

  function AccountAfter(start: int, events: seq<Event>): Account
  {
    if events == [] then Fresh(start) else
      Next(AccountAfter(start, events[..|events| - 1]), events[|events| - 1])
  }

  lemma {:induction false} AccountAfterNext(start: int, events: seq<Event>, e: Event)
    ensures AccountAfter(start, events + [e]) == Next(AccountAfter(start, events), e)
  {
    assert (events + [e])[..|events|] == events;
  }

  /** Over every history the account stays sane and the weekly figure is the whole change of
      capital: no reset ever clears it, so the weekly limit acts on the lifetime loss. */
  lemma {:induction false} WeeklyIsLifetime(start: int, events: seq<Event>)
    ensures var a := AccountAfter(start, events);
            Sane(a) && a.peakCapital >= 1_000_000.0 && a.weeklyPnl == a.capital - 1_000_000.0
  {
    if events == [] {
    } else {
      WeeklyIsLifetime(start, events[..|events| - 1]);
    }
  }

  predicate BreakerRejects(limits: RiskLimits, a: Account) {
    a.capital != 0.0 && a.peakCapital != 0.0 && BreakerHit(limits, a)
  }

  /** If a loss breaker rejects the account it still does after the losses, unless they leave a
      capital of zero, for which the check raises. */
  predicate StaysRejected(limits: RiskLimits, a: Account, losses: seq<real>) {
    BreakerRejects(limits, a) && (forall k :: 0 <= k < |losses| ==> losses[k] <= 0.0)
    && AfterPnls(a, losses).capital != 0.0
    ==> BreakerRejects(limits, AfterPnls(a, losses))
  }

  /** No losses of the same day ever lift a breaker hit in the course of some history. */
  ghost predicate Latches(limits: RiskLimits) {
    forall start: int, events: seq<Event>, losses: seq<real> ::
      StaysRejected(limits, AccountAfter(start, events), losses)
  }

  lemma {:induction false} DailyShare(pct: real, share: real)
    requires pct > 0.0 && share * (100.0 + pct) == pct
    ensures 0.0 < share < 1.0 && share * 100.0 == pct * (1.0 - share)
  {
  }

  /** The history that takes the daily limit off the starting capital, and a loss beyond all of it
      that stays short of the drawdown limit. */
  lemma {:induction false} LatchNeedsReachableDrawdown(limits: RiskLimits, start: int) returns (events: seq<Event>, loss: real)
    requires PositiveLimits(limits) && limits.maxDrawdownPct > 100.0
    ensures loss <= 0.0 && BreakerRejects(limits, AccountAfter(start, events))
    ensures var b := AddPnl(AccountAfter(start, events), loss);
            b.capital < 0.0 && b.peakCapital != 0.0 && !BreakerHit(limits, b)
  {
    var share := limits.maxDailyLossPct / (100.0 + limits.maxDailyLossPct);
    assert share * (100.0 + limits.maxDailyLossPct) == limits.maxDailyLossPct;
    DailyShare(limits.maxDailyLossPct, share);
    var lost := STARTING_CAPITAL * share;
    events := [Realised(-lost)];
    var a := AccountAfter(start, events);
    AccountAfterNext(start, [], Realised(-lost));
    assert a == AddPnl(Fresh(start), -lost) by { assert [] + events == events; }
    assert LossAtLeast(a.dailyPnl, a.capital, limits.maxDailyLossPct);
    BreakerIffTripped(limits, a);
    var beyond := STARTING_CAPITAL * (limits.maxDrawdownPct - 100.0) / 200.0;
    loss := -a.capital - beyond;
    var b := AddPnl(a, loss);
    BreakerIffTripped(limits, b);
  }

  lemma {:induction false} SaneStaysRejected(limits: RiskLimits, a: Account, losses: seq<real>)
    requires ProperLimits(limits) && Sane(a)
    ensures StaysRejected(limits, a, losses)
  {
    if BreakerRejects(limits, a) && (forall k :: 0 <= k < |losses| ==> losses[k] <= 0.0)
       && AfterPnls(a, losses).capital != 0.0 {
      BreakerIffTripped(limits, a);
      LossesKeepTripped(limits, a, losses);
      BreakerIffTripped(limits, AfterPnls(a, losses));
    }
  }

  lemma {:induction false} ReachableLimitsLatch(limits: RiskLimits)
    requires ProperLimits(limits)
    ensures Latches(limits)
  {
    forall start: int, events: seq<Event>, losses: seq<real>
      ensures StaysRejected(limits, AccountAfter(start, events), losses)
    {
      WeeklyIsLifetime(start, events);
      SaneStaysRejected(limits, AccountAfter(start, events), losses);
    }
  }

  /** For positive limits the loss breakers latch over every history exactly when the drawdown limit
      is one that losing everything reaches; the program's defaults are such limits. */
  lemma {:induction false} LatchesIff(limits: RiskLimits)
    requires PositiveLimits(limits)
    ensures Latches(limits) <==> limits.maxDrawdownPct <= 100.0
    ensures Latches(DEFAULT_LIMITS)
  {
    ReachableLimitsLatch(DEFAULT_LIMITS);
    if limits.maxDrawdownPct <= 100.0 {
      ReachableLimitsLatch(limits);
    } else {
      var events, loss := LatchNeedsReachableDrawdown(limits, 0);
      var a := AccountAfter(0, events);
      assert [loss][..0] == [];
      assert AfterPnls(a, [loss]) == AddPnl(a, loss);
      assert !StaysRejected(limits, a, [loss]);
    }
  }

  /** The date of the last check, or of the start. */
  function LastDay(start: int, events: seq<Event>): int
  {
    if events == [] then start else
      match events[|events| - 1]
      case Realised(_) => LastDay(start, events[..|events| - 1])
      case DayChecked(today) => today
  }

  /** The results recorded since the date last changed. */
  function ResultsOfDay(start: int, events: seq<Event>): seq<real>
  {
    if events == [] then [] else
      var init, e := events[..|events| - 1], events[|events| - 1];
      match e
      case Realised(pnl) => ResultsOfDay(start, init) + [pnl]
      case DayChecked(today) => if today == LastDay(start, init) then ResultsOfDay(start, init) else []
  }

  /** Over every history the daily figure is the sum of the results since the date last changed. */
  lemma {:induction false} DailyIsSinceDayChange(start: int, events: seq<Event>)
    ensures AccountAfter(start, events).dailyPnl == Sum(ResultsOfDay(start, events))
    ensures AccountAfter(start, events).lastResetDate == LastDay(start, events)
  {
    if events == [] {
    } else {
      var init := events[..|events| - 1];
      DailyIsSinceDayChange(start, init);
      if events[|events| - 1].Realised? {
        SumAppend(ResultsOfDay(start, init), events[|events| - 1].pnl);
      }
    }
  }

  /** A breaker is hit that a day change does not lift. */
  predicate TrippedForGood(limits: RiskLimits, a: Account) {
    LossAtLeast(a.weeklyPnl, a.capital, limits.maxWeeklyLossPct) || FallAtLeast(a, limits.maxDrawdownPct)
  }

  lemma {:induction false} StaysTrippedForGood(limits: RiskLimits, a: Account, e: Event)
    requires ProperLimits(limits) && Sane(a) && TrippedForGood(limits, a)
    requires e.Realised? ==> e.pnl <= 0.0
    ensures TrippedForGood(limits, Next(a, e))
  {
    var loss := if e.Realised? then e.pnl else 0.0;
    var b := Next(a, e);
    if b.capital <= 0.0 {
      WipedOutFalls(b, limits.maxDrawdownPct);
    } else if LossAtLeast(a.weeklyPnl, a.capital, limits.maxWeeklyLossPct) {
      LossGrows(a.weeklyPnl, a.capital, loss, limits.maxWeeklyLossPct);
    }
  }

  /** The weekly and drawdown breakers stay hit under losses across day changes too. */
  lemma {:induction false} WeeklyAndDrawdownSurviveDays(limits: RiskLimits, start: int, events: seq<Event>,
      more: seq<Event>)
    requires ProperLimits(limits) && TrippedForGood(limits, AccountAfter(start, events))
    requires forall k :: 0 <= k < |more| && more[k].Realised? ==> more[k].pnl <= 0.0
    ensures TrippedForGood(limits, AccountAfter(start, events + more))
  {
    if more == [] {
      assert events + more == events;
    } else {
      var init, last := more[..|more| - 1], more[|more| - 1];
      WeeklyAndDrawdownSurviveDays(limits, start, events, init);
      WeeklyIsLifetime(start, events + init);
      StaysTrippedForGood(limits, AccountAfter(start, events + init), last);
      assert events + more == (events + init) + [last];
      AccountAfterNext(start, events + init, last);
    }
  }

  // ---------------------------------------------------------------- drawdown against the metrics

  /** The capital before and after each recorded result. */
  function CapitalPath(a: Account, pnls: seq<real>): (path: seq<real>)
    ensures |path| == |pnls| + 1
  {
    if pnls == [] then [a.capital] else
      CapitalPath(a, pnls[..|pnls| - 1]) + [AfterPnls(a, pnls).capital]
  }

  lemma {:induction false} PeakOfPrefix(initial: real, path: seq<real>, more: seq<real>, n: nat)
    requires n <= |path|
    ensures Metrics.PeakTo(initial, path + more, n) == Metrics.PeakTo(initial, path, n)
  {
    if n == 0 {
    } else {
      PeakOfPrefix(initial, path, more, n - 1);
    }
  }

  /** The account's peak is the running peak of the metrics over the capital path. */
  lemma {:induction false} PeakIsRunningPeak(a: Account, pnls: seq<real>)
    requires a.peakCapital == a.capital
    ensures CapitalPath(a, pnls)[|pnls|] == AfterPnls(a, pnls).capital
    ensures Metrics.PeakTo(a.capital, CapitalPath(a, pnls), |pnls| + 1) == AfterPnls(a, pnls).peakCapital
  {
    if pnls == [] {
    } else {
      var init := pnls[..|pnls| - 1];
      PeakIsRunningPeak(a, init);
      PeakOfPrefix(a.capital, CapitalPath(a, init), [AfterPnls(a, pnls).capital], |pnls|);
    }
  }

  lemma {:induction false} PathOfPrefix(a: Account, pnls: seq<real>, j: nat)
    requires j <= |pnls|
    ensures CapitalPath(a, pnls)[..j + 1] == CapitalPath(a, pnls[..j])
  {
    if j < |pnls| {
      PathOfPrefix(a, pnls[..|pnls| - 1], j);
      assert pnls[..|pnls| - 1][..j] == pnls[..j];
    } else {
      assert pnls[..j] == pnls;
    }
  }

  /** The drawdown figure of the metrics at point `j` is the one the risk check computes there. */
  lemma {:induction false} DrawdownsAgree(a: Account, pnls: seq<real>, j: nat)
    requires a.peakCapital == a.capital > 0.0 && j <= |pnls|
    ensures AfterPnls(a, pnls[..j]).peakCapital > 0.0
    ensures Metrics.DrawdownAt(a.capital, CapitalPath(a, pnls), j) == DrawdownPct(AfterPnls(a, pnls[..j]))
  {
    var path := CapitalPath(a, pnls);
    PathOfPrefix(a, pnls, j);
    PeakIsRunningPeak(a, pnls[..j]);
    assert path == path[..j + 1] + path[j + 1..];
    PeakOfPrefix(a.capital, path[..j + 1], path[j + 1..], j + 1);
    Metrics.PeakIsMaximum(a.capital, path, j + 1);
    assert path[j] == path[..j + 1][j];
  }

  /** The drawdown check passes after every recorded result, and at the start, exactly when the
      maximum drawdown that the metrics report for the capital path is below the limit. */
  lemma {:induction false} DrawdownCheckBoundsMetrics(limits: RiskLimits, a: Account, pnls: seq<real>, maxDd: real)
    requires limits.maxDrawdownPct > 0.0 && a.peakCapital == a.capital > 0.0
    requires Metrics.IsMaxDrawdown(a.capital, CapitalPath(a, pnls), maxDd)
    ensures maxDd < limits.maxDrawdownPct <==>
      forall j :: 0 <= j <= |pnls| ==>
        AfterPnls(a, pnls[..j]).peakCapital != 0.0 && !DrawdownHit(limits, AfterPnls(a, pnls[..j]))
  {
    forall j | 0 <= j <= |pnls|
      ensures AfterPnls(a, pnls[..j]).peakCapital > 0.0
      ensures Metrics.DrawdownAt(a.capital, CapitalPath(a, pnls), j) == DrawdownPct(AfterPnls(a, pnls[..j]))
    {
      DrawdownsAgree(a, pnls, j);
    }
  }

  // ---------------------------------------------------------------- sizing bounds

  lemma {:induction false} NonnegativeQuotient(x: real, d: real)
    requires x >= 0.0 && d > 0.0
    ensures x / d >= 0.0
  {
  }

  lemma {:induction false} BudgetNonnegative(limits: RiskLimits, a: Account, kelly: real)
    requires limits.maxSingleTradeRiskPct >= 0.0 && limits.maxPortfolioRiskPct >= 0.0
    requires kelly >= 0.0 && a.capital >= 0.0
    ensures RiskBudget(limits, a, kelly) >= 0.0
  {
    ScaleLe(0.0, limits.maxSingleTradeRiskPct, kelly);
    var n := (if a.openPositions > 1 then a.openPositions else 1) as real;
    NonnegativeQuotient(limits.maxPortfolioRiskPct / 100.0, n);
    ScaleLe(0.0, RiskShare(limits, a, kelly), a.capital);
  }

  lemma {:induction false} LotsBracket(calculated: int, lot: Positive)
    ensures WholeLots(calculated, lot) <= calculated < WholeLots(calculated, lot) + lot
    ensures WholeLots(calculated, lot) % lot == 0
    ensures calculated >= 0 ==> WholeLots(calculated, lot) >= 0
  {
    var q := calculated / lot;
    assert calculated == q * lot + calculated % lot;
    MultipleOf(q, lot);
  }

  lemma {:induction false} TimesUnit(low: real, x: real, high: real, unit: real, budget: real)
    requires unit > 0.0 && x * unit == budget && low <= x < high
    ensures low * unit <= budget < high * unit
  {
    OrderScales(x, low, unit);
    OrderScales(x, high, unit);
  }

  /** Rounding the quotient down keeps within the budget, and one more lot would exceed it. */
  lemma {:induction false} WholeLotsFit(budget: real, unit: real, calculated: int, lot: Positive)
    requires budget >= 0.0 && unit >= 1.0 && calculated == Truncate(budget / unit)
    ensures calculated >= 0
    ensures WholeLots(calculated, lot) as real * unit <= budget
    ensures (WholeLots(calculated, lot) + lot) as real * unit > budget
  {
    var x := budget / unit;
    NonnegativeQuotient(budget, unit);
    assert x * unit == budget;
    var low := WholeLots(calculated, lot);
    LotsBracket(calculated, lot);
    TimesUnit(low as real, x, (low + lot) as real, unit, budget);
  }

  lemma {:induction false} CoversOneUnit(budget: real, unit: real)
    requires budget >= 0.0 && unit >= 1.0
    ensures Truncate(budget / unit) <= 0 <==> budget < unit
  {
    var x := budget / unit;
    NonnegativeQuotient(budget, unit);
    assert x * unit == budget;
    var d := 1.0 - x;
    assert d * unit == unit - budget;
    if d > 0.0 { assert d * unit > 0.0; }
  }

  /** Sizing before the funds check. Other symbols get the largest whole number of lots whose
      risk fits the budget; BANK symbols get none, one or two lots, none exactly when the budget
      does not cover the risk of a single unit, and less than one lot beyond the calculated
      quantity. */
  lemma {:induction false} RiskQuantityBounds(limits: RiskLimits, a: Account, m: Market, p: Proposal)
    requires limits.maxSingleTradeRiskPct >= 0.0 && limits.maxPortfolioRiskPct >= 0.0
    requires m.kelly >= 0.0 && a.capital >= 0.0
    ensures var q := RiskQuantity(limits, a, m, p);
            var budget := RiskBudget(limits, a, m.kelly);
            && q >= 0 && q % m.lotSize == 0
            && (!IsBankSymbol(p.symbol) ==>
                  RiskTaken(p, q) <= budget < RiskTaken(p, q + m.lotSize))
            && (IsBankSymbol(p.symbol) ==>
                  && (q == 0 || q == m.lotSize || q == 2 * m.lotSize)
                  && (q == 2 * m.lotSize <==> CalculatedQty(limits, a, m, p) >= 2 * m.lotSize)
                  && (q == 0 <==> budget < UnitRisk(p))
                  && (q > 0 ==> q < CalculatedQty(limits, a, m, p) + m.lotSize))
  {
    var budget := RiskBudget(limits, a, m.kelly);
    var calculated := CalculatedQty(limits, a, m, p);
    BudgetNonnegative(limits, a, m.kelly);
    WholeLotsFit(budget, UnitRisk(p), calculated, m.lotSize);
    LotsBracket(calculated, m.lotSize);
    CoversOneUnit(budget, UnitRisk(p));
    MultipleOf(1, m.lotSize);
    MultipleOf(2, m.lotSize);
  }

  /** An amount within the Kelly-scaled cap on one trade and, taken once for every open position,
      within the cap on the portfolio. */
  predicate WithinCaps(limits: RiskLimits, a: Account, kelly: real, amount: real) {
    && amount * 100.0 <= a.capital * (limits.maxSingleTradeRiskPct * kelly)
    && amount * 100.0 * Max(a.openPositions as real, 1.0) <= a.capital * limits.maxPortfolioRiskPct
  }

  lemma {:induction false} MinScales(c: real, u: real, v: real)
    requires c >= 0.0
    ensures c * Min(u, v) == Min(c * u, c * v)
  {
    if u < v { ScaleLe(u, v, c); } else { ScaleLe(v, u, c); }
  }

  lemma {:induction false} PartOfHundred(c: real, u: real, pct: real)
    requires u * 100.0 == pct
    ensures c * u * 100.0 == c * pct
  {
  }

  lemma {:induction false} PartPerPosition(c: real, u: real, pct: real, n: real, x: real)
    requires n > 0.0 && u == pct / 100.0 / n
    ensures x <= c * u <==> x * 100.0 * n <= c * pct
  {
    assert u * n == pct / 100.0;
    var total := c * u * 100.0;
    assert total * n == c * ((u * n) * 100.0) == c * pct;
    OrderScales(total, x * 100.0, n);
  }

  /** The risk budget is the largest amount within both caps: the Kelly-scaled share of the capital
      for one trade, and the portfolio's share split over the open positions. */
  lemma {:induction false} BudgetIsLargestWithinCaps(limits: RiskLimits, a: Account, kelly: real, x: real)
    requires a.capital >= 0.0
    ensures x <= RiskBudget(limits, a, kelly) <==> WithinCaps(limits, a, kelly, x)
  {
    var n := Max(a.openPositions as real, 1.0);
    var perTrade := limits.maxSingleTradeRiskPct * kelly / 100.0;
    var perPosition := limits.maxPortfolioRiskPct / 100.0 / n;
    assert RiskShare(limits, a, kelly) == Min(perTrade, perPosition);
    MinScales(a.capital, perTrade, perPosition);
    assert perTrade * 100.0 == limits.maxSingleTradeRiskPct * kelly;
    PartOfHundred(a.capital, perTrade, limits.maxSingleTradeRiskPct * kelly);
    PartPerPosition(a.capital, perPosition, limits.maxPortfolioRiskPct, n, x);
  }

  /** The funds check never increases a whole number of lots, keeps it whole, and leaves a
      quantity that is zero or affordable. */
  lemma {:induction false} FundsCheckBounds(quantity: int, lot: Positive, price: real, available: real)
    requires quantity >= 0 && quantity % lot == 0
    ensures var q := FundsCheck(quantity, lot, price, Some(available));
            && 0 <= q <= quantity && q % lot == 0
            && (q == 0 || Outlay(price, q) <= available)
            && (Outlay(price, quantity) <= available ==> q == quantity)
            && (quantity > 0 && Outlay(price, quantity) > available ==>
                  q == (if Outlay(price, lot) <= available then lot else 0))
  {
    assert quantity < lot ==> quantity % lot == quantity;
  }

  lemma {:induction false} SmallerRisk(p: Proposal, q: int, larger: int)
    requires q <= larger
    ensures RiskTaken(p, q) <= RiskTaken(p, larger)
  {
    ScaleLe(q as real, larger as real, UnitRisk(p));
  }

  /** An approved trade, with or without an executor: a nonnegative multiple of the lot that never
      exceeds the risk quantity, and affordable when there is an executor. */
  lemma {:induction false} SizedTradeIsSafe(limits: RiskLimits, a: Account, m: Market, p: Proposal)
    requires limits.maxSingleTradeRiskPct >= 0.0 && limits.maxPortfolioRiskPct >= 0.0
    requires m.kelly >= 0.0 && a.capital >= 0.0
    ensures var q := SizePosition(limits, a, m, p);
            && 0 <= q <= RiskQuantity(limits, a, m, p) && q % m.lotSize == 0
            && (m.funds.Some? ==> q == 0 || Outlay(GetOr(p.entryPrice, 0.0), q) <= m.funds.value)
            && (!IsBankSymbol(p.symbol) ==> RiskTaken(p, q) <= RiskBudget(limits, a, m.kelly))
  {
    RiskQuantityBounds(limits, a, m, p);
    if m.funds.Some? {
      FundsCheckBounds(RiskQuantity(limits, a, m, p), m.lotSize, GetOr(p.entryPrice, 0.0), m.funds.value);
    }
    SmallerRisk(p, SizePosition(limits, a, m, p), RiskQuantity(limits, a, m, p));
  }

  /** In figures of the configuration: a trade in any other than a BANK symbol that is stopped out
      loses no more than either cap allows. */
  lemma {:induction false} StoppedOutWithinCaps(limits: RiskLimits, a: Account, m: Market, p: Proposal)
    requires limits.maxSingleTradeRiskPct >= 0.0 && limits.maxPortfolioRiskPct >= 0.0
    requires m.kelly >= 0.0 && a.capital >= 0.0 && !IsBankSymbol(p.symbol)
    ensures var distance := Abs(GetOr(p.entryPrice, 1.0) - GetOr(p.stopLoss, 0.0));
            WithinCaps(limits, a, m.kelly, SizePosition(limits, a, m, p) as real * Max(distance, 1.0))
  {
    var loss := RiskTaken(p, SizePosition(limits, a, m, p));
    SizedTradeIsSafe(limits, a, m, p);
    BudgetIsLargestWithinCaps(limits, a, m.kelly, loss);
  }

  // ---------------------------------------------------------------- the answer to a proposal

  /** Stopped out, the quantity stays within both caps, counting at least one point a unit. */
  predicate Fits(limits: RiskLimits, a: Account, kelly: real, p: Proposal, quantity: int) {
    WithinCaps(limits, a, kelly, quantity as real * Max(Abs(GetOr(p.entryPrice, 1.0) - GetOr(p.stopLoss, 0.0)), 1.0))
  }

  /** The quantity the risk limits alone allow: the largest whole number of lots that fits; for a
      BANK symbol two lots, one lot or none, one as soon as a single unit fits. */
  predicate IsRiskQuantity(limits: RiskLimits, a: Account, m: Market, p: Proposal, q: int) {
    && q >= 0 && q % m.lotSize == 0
    && if IsBankSymbol(p.symbol) then
         q == (if Fits(limits, a, m.kelly, p, 2 * m.lotSize) then 2 * m.lotSize
               else if Fits(limits, a, m.kelly, p, 1) then m.lotSize
               else 0)
       else
         Fits(limits, a, m.kelly, p, q) && !Fits(limits, a, m.kelly, p, q + m.lotSize)
  }

  /** What the available funds leave of the quantity: all of it when affordable, otherwise one lot
      when that is affordable, otherwise none. Without an executor nothing is checked. */
  predicate IsAfterFunds(m: Market, p: Proposal, quantity: int, q: int) {
    var price := GetOr(p.entryPrice, 0.0);
    q == (if m.funds.None? || quantity == 0 || price * quantity as real <= m.funds.value then quantity
          else if price * m.lotSize as real <= m.funds.value then m.lotSize
          else 0)
  }

  lemma {:induction false} FitsIffBudget(limits: RiskLimits, a: Account, kelly: real, p: Proposal, quantity: int)
    requires a.capital >= 0.0
    ensures Fits(limits, a, kelly, p, quantity) <==> RiskTaken(p, quantity) <= RiskBudget(limits, a, kelly)
  {
    BudgetIsLargestWithinCaps(limits, a, kelly, RiskTaken(p, quantity));
  }

  lemma {:induction false} CoversIff(budget: real, unit: real, quantity: int)
    requires budget >= 0.0 && unit >= 1.0 && quantity >= 0
    ensures Truncate(budget / unit) >= quantity <==> quantity as real * unit <= budget
  {
    var x := budget / unit;
    NonnegativeQuotient(budget, unit);
    assert x * unit == budget;
    OrderScales(x, quantity as real, unit);
  }

  lemma {:induction false} CalculatedIff(limits: RiskLimits, a: Account, m: Market, p: Proposal, quantity: nat)
    requires limits.maxSingleTradeRiskPct >= 0.0 && limits.maxPortfolioRiskPct >= 0.0
    requires m.kelly >= 0.0 && a.capital >= 0.0
    ensures CalculatedQty(limits, a, m, p) >= quantity <==> Fits(limits, a, m.kelly, p, quantity)
  {
    BudgetNonnegative(limits, a, m.kelly);
    CoversIff(RiskBudget(limits, a, m.kelly), UnitRisk(p), quantity);
    FitsIffBudget(limits, a, m.kelly, p, quantity);
  }

  lemma {:induction false} RiskQuantityIs(limits: RiskLimits, a: Account, m: Market, p: Proposal)
    requires limits.maxSingleTradeRiskPct >= 0.0 && limits.maxPortfolioRiskPct >= 0.0
    requires m.kelly >= 0.0 && a.capital >= 0.0
    ensures IsRiskQuantity(limits, a, m, p, RiskQuantity(limits, a, m, p))
  {
    var q := RiskQuantity(limits, a, m, p);
    CalculatedIff(limits, a, m, p, 0);
    CalculatedIff(limits, a, m, p, 1);
    CalculatedIff(limits, a, m, p, 2 * m.lotSize);
    RiskQuantityBounds(limits, a, m, p);
    LotsBracket(CalculatedQty(limits, a, m, p), m.lotSize);
    if !IsBankSymbol(p.symbol) {
      CalculatedIff(limits, a, m, p, q);
      CalculatedIff(limits, a, m, p, q + m.lotSize);
    }
  }

  lemma {:induction false} SizedIsAfterFunds(limits: RiskLimits, a: Account, m: Market, p: Proposal)
    requires limits.maxSingleTradeRiskPct >= 0.0 && limits.maxPortfolioRiskPct >= 0.0
    requires m.kelly >= 0.0 && a.capital >= 0.0
    ensures IsAfterFunds(m, p, RiskQuantity(limits, a, m, p), SizePosition(limits, a, m, p))
  {
    RiskQuantityBounds(limits, a, m, p);
  }

  /** Why the screen rejects: the first of daily loss, weekly loss, fall from the peak, number of
      positions, missing stop and reward that is beyond its limit, all in amounts. */
  predicate IsFirstObjection(limits: RiskLimits, a: Account, p: Proposal, r: Rejection) {
    r == if LossAtLeast(a.dailyPnl, a.capital, limits.maxDailyLossPct) then DailyLossLimit
         else if LossAtLeast(a.weeklyPnl, a.capital, limits.maxWeeklyLossPct) then WeeklyLossLimit
         else if FallAtLeast(a, limits.maxDrawdownPct) then MaxDrawdown
         else if a.openPositions >= limits.maxPositionCount then PositionCount
         else if RiskOf(p) == 0.0 then StopLossNotSet
         else RewardRiskTooLow
  }

  lemma {:induction false} RejectionIsFirst(limits: RiskLimits, a: Account, p: Proposal)
    requires PositiveLimits(limits) && Sane(a) && a.capital != 0.0
    ensures Screen(limits, a, p).Ok?
    ensures Screen(limits, a, p).value.Some? ==> IsFirstObjection(limits, a, p, Screen(limits, a, p).value.value)
  {
    LossHitIff(a.dailyPnl, a.capital, limits.maxDailyLossPct);
    LossHitIff(a.weeklyPnl, a.capital, limits.maxWeeklyLossPct);
    QuotientAtLeast(a.peakCapital - a.capital, a.peakCapital, limits.maxDrawdownPct);
    RewardRiskIff(limits, p);
  }

  /** The answer to a proposal. It is approved exactly when no limit is reached, a slot is free, a
      stop is set and the reward covers the required multiple of the risk; a rejection names the
      first objection; and an approved quantity is what the funds leave of the risk quantity. */
  lemma {:induction false} AnswerIs(limits: RiskLimits, a: Account, m: Market, p: Proposal)
    requires PositiveLimits(limits) && Sane(a) && a.capital != 0.0
    ensures Validate(limits, a, m, p).Ok?
    ensures var answer := Validate(limits, a, m, p).value;
            && (answer.Approved? <==>
                  && !Tripped(limits, a)
                  && a.openPositions < limits.maxPositionCount
                  && RiskOf(p) != 0.0 && RewardOf(p) >= RequiredReward(limits, p))
            && (answer.Rejected? ==> IsFirstObjection(limits, a, p, answer.reason))
  {
    PassesIff(limits, a, p);
    RejectionIsFirst(limits, a, p);
  }

  /** Every approved quantity is a whole number of lots, what the funds leave of the quantity that
      the risk limits allow. */
  lemma {:induction false} ApprovedQuantity(limits: RiskLimits, a: Account, m: Market, p: Proposal, q: int)
    requires limits.maxSingleTradeRiskPct >= 0.0 && limits.maxPortfolioRiskPct >= 0.0
    requires m.kelly >= 0.0 && a.capital >= 0.0
    requires Validate(limits, a, m, p) == Ok(Approved(q))
    ensures exists risked :: IsRiskQuantity(limits, a, m, p, risked) && IsAfterFunds(m, p, risked, q) && 0 <= q <= risked
    ensures q % m.lotSize == 0
    ensures m.funds.Some? ==> q == 0 || GetOr(p.entryPrice, 0.0) * q as real <= m.funds.value
  {
    RiskQuantityIs(limits, a, m, p);
    SizedIsAfterFunds(limits, a, m, p);
    SizedTradeIsSafe(limits, a, m, p);
    assert Outlay(GetOr(p.entryPrice, 0.0), q) == GetOr(p.entryPrice, 0.0) * q as real;
  }

  lemma {:induction false} WholeLotsApart(q: int, r: int, lot: Positive)
    requires q < r && q % lot == 0 && r % lot == 0
    ensures q + lot <= r
  {
    var a, b := q / lot, r / lot;
    assert q == a * lot && r == b * lot;
    IntOrderScales(a, b, lot);
    IntOrderScales(b, a + 1, lot);
  }

  lemma {:induction false} LargerLotsBreakCaps(limits: RiskLimits, a: Account, m: Market, p: Proposal, q: int, r: int)
    requires a.capital >= 0.0 && q < r && q % m.lotSize == 0 && r % m.lotSize == 0
    requires Fits(limits, a, m.kelly, p, r)
    ensures Fits(limits, a, m.kelly, p, q + m.lotSize)
  {
    WholeLotsApart(q, r, m.lotSize);
    SmallerRisk(p, q + m.lotSize, r);
    FitsIffBudget(limits, a, m.kelly, p, r);
    FitsIffBudget(limits, a, m.kelly, p, q + m.lotSize);
  }

  /** The risk limits allow a single quantity. */
  lemma {:induction false} RiskQuantityIsUnique(limits: RiskLimits, a: Account, m: Market, p: Proposal, q: int, r: int)
    requires a.capital >= 0.0
    requires IsRiskQuantity(limits, a, m, p, q) && IsRiskQuantity(limits, a, m, p, r)
    ensures q == r
  {
    if !IsBankSymbol(p.symbol) {
      if q < r {
        LargerLotsBreakCaps(limits, a, m, p, q, r);
      } else if r < q {
        LargerLotsBreakCaps(limits, a, m, p, r, q);
      }
    }
  }

  /** A BANK symbol holds the four letters somewhere, each in either case. */
  lemma {:induction false} BankSymbolIff(symbol: string)
    ensures IsBankSymbol(symbol) <==>
      exists i :: 0 <= i <= |symbol| - 4
                  && symbol[i] in "Bb" && symbol[i + 1] in "Aa" && symbol[i + 2] in "Nn" && symbol[i + 3] in "Kk"
  {
    assert forall c: char :: UpperChar(c) == 'B' <==> c in "Bb";
    assert forall c: char :: UpperChar(c) == 'A' <==> c in "Aa";
    assert forall c: char :: UpperChar(c) == 'N' <==> c in "Nn";
    assert forall c: char :: UpperChar(c) == 'K' <==> c in "Kk";
  }
}
