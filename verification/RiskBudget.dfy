/** From account limits to a dispatch preflight: how the daily, open-risk,
    notional and time budgets reach the entry they admit.

    Decimal contexts are exact arithmetic here, instants are microseconds. */
module RiskBudget {
  import opened Options

  const ZERO := 0.0
  const MAX_LEVERAGE := 2.0
  const MAX_PREFLIGHT_AGE := 5_000_000
  const MAINNET_FRACTION := 0.001

  datatype RawLimits = RawLimits(
    account: string, address: string, mainnet: bool,
    dailyLossLimit: real, openRiskLimit: real, maxNotional: real, leverage: real)

  predicate ValidLimits(l: RawLimits) {
    l.dailyLossLimit > ZERO && l.openRiskLimit > ZERO && l.maxNotional > ZERO && ZERO < l.leverage <= MAX_LEVERAGE
  }

  type Limits = l: RawLimits | ValidLimits(l) witness RawLimits("a", "b", false, 1.0, 1.0, 1.0, 1.0)

  datatype Instrument = Instrument(symbol: string, delisted: bool, maxLeverage: real, hash: string)

  datatype Venue = Venue(
    mainnet: bool, address: string, flat: bool, notional: real, marginUsed: real,
    equity: real, withdrawable: real, serverAt: int, receivedAt: int, instrument: Option<Instrument>)

  datatype Account = Account(
    account: string, mainnet: bool, observedAt: int, receivedAt: int, equity: real, available: real,
    dailyRemaining: real, openRemaining: real, maxNotional: real, leverage: real)

  datatype Compiled = Compiled(account: Account) | CompileConflict | CompileInvalid

  function Max(x: real, y: real): real {
    if x >= y then x else y
  }

  function Min(x: real, y: real): real {
    if x <= y then x else y
  }

  /** One flat-account risk snapshot out of venue truth and local budgets. */
  function Compile(v: Venue, l: Limits, dailyUsed: real, openUsed: real): Compiled {
    if v.mainnet != l.mainnet || v.address != l.address || !v.flat then CompileConflict
    else if v.notional != ZERO || v.marginUsed != ZERO then CompileConflict
    else if v.instrument.None? || v.instrument.value.delisted || l.leverage > v.instrument.value.maxLeverage then CompileConflict
    else if dailyUsed < ZERO || openUsed < ZERO then CompileInvalid
    else if v.equity <= ZERO || v.withdrawable <= ZERO then CompileConflict
    else if v.receivedAt < v.serverAt then CompileInvalid
    else
      var available := Min(v.equity, v.withdrawable);
      Compiled(Account(
        l.account, l.mainnet, v.serverAt, v.receivedAt, v.equity, available,
        Max(l.dailyLossLimit - dailyUsed, ZERO), Max(l.openRiskLimit - openUsed, ZERO),
        Min(l.maxNotional, available * l.leverage), l.leverage))
  }

  datatype Policy = Policy(hash: string, riskFraction: real, maxLeverage: real, accountMaxAge: int)

  datatype Entry = Entry(
    account: string, mainnet: bool, instrument: string, buy: bool, quantity: real, priceBound: Option<real>, expiresAt: int)

  datatype RawTicket = RawTicket(
    hash: string, planHash: string, policyHash: string, createdAt: int, expiresAt: int, stressedLoss: real, entry: Entry)

  /** A ticket that carries a plan risks something. */
  predicate ValidTicket(t: RawTicket) {
    t.createdAt < t.expiresAt && t.stressedLoss > ZERO
  }

  type Ticket = t: RawTicket | ValidTicket(t)
    witness RawTicket("t", "p", "q", 0, 1, 1.0, Entry("a", false, "BTC", true, 1.0, None, 1))

  datatype Command = Command(ticketHash: string, planHash: string, claimed: bool)

  datatype Market = Market(
    mainnet: bool, symbol: string, receivedAt: int, consistent: bool, bestBid: real, bestAsk: real,
    askSize: real, askComplete: bool, bidSize: real, bidComplete: bool)

  datatype Reason =
    | TicketPlanMismatch | PolicyMismatch | NotClaimed | TicketInactive | PlanExpired
    | AccountScope | AccountStale | VenueNetwork | CompiledMismatch | AccountNotFlat | SummaryNotFlat
    | MetadataMismatch | InstrumentMismatch | Delisted | LeverageLimit
    | PriceBoundMissing | RiskBudgetExceeded | NotionalExceeded | MainnetFraction
    | MarketScope | MarketStale | MarketInconsistent | Crossed | BoundNotCrossable
    | DepthUnknown | DepthBelowQuantity

  datatype Preflight = Passed(observedAt: int, expiresAt: int) | Denied(reasons: seq<Reason>) | Stale | Malformed

  predicate Fresh(a: Account, at: int, maximumAge: int) {
    a.observedAt <= a.receivedAt <= at && at - a.receivedAt <= maximumAge
  }

  function RiskFor(a: Account, p: Policy): real {
    Min(Min(a.equity * p.riskFraction, a.dailyRemaining), a.openRemaining)
  }

  predicate TicketAdmissible(c: Command, t: Ticket, a: Account, p: Policy, at: int) {
    && c.ticketHash == t.hash && c.planHash == t.planHash && c.claimed
    && t.policyHash == p.hash
    && t.createdAt <= at < t.expiresAt && at < t.entry.expiresAt
    && a.account == t.entry.account && a.mainnet == t.entry.mainnet && Fresh(a, at, p.accountMaxAge)
  }

  predicate AccountAdmissible(t: Ticket, a: Account, v: Venue, m: Instrument, p: Policy) {
    var e := t.entry;
    && v.mainnet == e.mainnet && v.flat && v.notional == ZERO && v.marginUsed == ZERO
    && a.observedAt == v.serverAt && a.receivedAt == v.receivedAt && a.equity == v.equity
    && a.available == Min(v.equity, v.withdrawable)
    && v.instrument.Some? && v.instrument.value.hash == m.hash
    && (e.instrument == m.symbol || e.instrument == m.symbol + "-PERP") && !m.delisted
    && a.leverage <= p.maxLeverage && a.leverage <= m.maxLeverage
    && e.priceBound.Some?
    && t.stressedLoss <= RiskFor(a, p)
    && e.quantity * e.priceBound.value <= a.maxNotional
    && (e.mainnet ==> p.riskFraction <= MAINNET_FRACTION)
  }

  predicate MarketAdmissible(e: Entry, m: Instrument, k: Market, at: int) {
    && k.mainnet == e.mainnet && k.symbol == m.symbol && k.consistent
    && k.receivedAt <= at < k.receivedAt + MAX_PREFLIGHT_AGE
    && k.bestBid <= k.bestAsk
    && (e.priceBound.Some? ==>
          if e.buy then k.bestAsk <= e.priceBound.value else k.bestBid >= e.priceBound.value)
    && (if e.buy then k.askComplete && k.askSize >= e.quantity else k.bidComplete && k.bidSize >= e.quantity)
  }

  /** The economics and freshness a passing preflight has re-established. */
  predicate Admissible(c: Command, t: Ticket, a: Account, v: Venue, m: Instrument, k: Market, p: Policy, at: int) {
    TicketAdmissible(c, t, a, p, at) && AccountAdmissible(t, a, v, m, p) && MarketAdmissible(t.entry, m, k, at)
  }

  /** The reasons that lie in the ticket, the command and their age. */
  method TicketReasons(c: Command, t: Ticket, a: Account, p: Policy, at: int) returns (reasons: seq<Reason>)
    ensures reasons == [] <==> TicketAdmissible(c, t, a, p, at)
  {
    var e := t.entry;
    reasons := [];
    if c.ticketHash != t.hash || c.planHash != t.planHash {
      reasons := reasons + [TicketPlanMismatch];
    }
    if t.policyHash != p.hash {
      reasons := reasons + [PolicyMismatch];
    }
    if !c.claimed {
      reasons := reasons + [NotClaimed];
    }
    if !(t.createdAt <= at < t.expiresAt) {
      reasons := reasons + [TicketInactive];
    }
    if at >= e.expiresAt {
      reasons := reasons + [PlanExpired];
    }
    if a.account != e.account || a.mainnet != e.mainnet {
      reasons := reasons + [AccountScope];
    }
    if !Fresh(a, at, p.accountMaxAge) {
      reasons := reasons + [AccountStale];
    }
  }

  /** The reasons that lie in the account, the instrument and the budgets. */
  method AccountReasons(t: Ticket, a: Account, v: Venue, m: Instrument, p: Policy) returns (reasons: seq<Reason>)
    requires v.instrument.Some?
    ensures reasons == [] <==> AccountAdmissible(t, a, v, m, p)
  {
    var e := t.entry;
    reasons := [];
    if v.mainnet != e.mainnet {
      reasons := reasons + [VenueNetwork];
    }
    if a.observedAt != v.serverAt || a.receivedAt != v.receivedAt || a.equity != v.equity
      || a.available != Min(v.equity, v.withdrawable) {
      reasons := reasons + [CompiledMismatch];
    }
    if !v.flat {
      reasons := reasons + [AccountNotFlat];
    }
    if v.notional != ZERO || v.marginUsed != ZERO {
      reasons := reasons + [SummaryNotFlat];
    }
    if v.instrument.value.hash != m.hash {
      reasons := reasons + [MetadataMismatch];
    }
    if e.instrument != m.symbol && e.instrument != m.symbol + "-PERP" {
      reasons := reasons + [InstrumentMismatch];
    }
    if m.delisted {
      reasons := reasons + [Delisted];
    }
    if a.leverage > p.maxLeverage || a.leverage > m.maxLeverage {
      reasons := reasons + [LeverageLimit];
    }
    if e.priceBound.None? {
      reasons := reasons + [PriceBoundMissing];
    } else {
      if t.stressedLoss > RiskFor(a, p) {
        reasons := reasons + [RiskBudgetExceeded];
      }
      if e.quantity * e.priceBound.value > a.maxNotional {
        reasons := reasons + [NotionalExceeded];
      }
    }
    if e.mainnet && p.riskFraction > MAINNET_FRACTION {
      reasons := reasons + [MainnetFraction];
    }
  }

  /** Denies with every reason that applies, or passes for as long as all five
      pieces of evidence hold. */
  method BuildPreflight(c: Command, t: Ticket, a: Account, v: Venue, m: Instrument, k: Market, p: Policy,
                        at: int, lifetimeSeconds: int) returns (r: Preflight)
    ensures r.Malformed? <==> !(1 <= lifetimeSeconds <= 30) || k.bestBid <= ZERO || k.bestAsk <= ZERO || v.instrument.None?
    ensures r.Denied? <==> !r.Malformed? && !Admissible(c, t, a, v, m, k, p, at)
    ensures r.Denied? ==> r.reasons != []
    ensures r.Passed? ==>
      && r.observedAt == at < r.expiresAt
      && r.expiresAt <= at + lifetimeSeconds * 1_000_000
      && r.expiresAt <= a.receivedAt + MAX_PREFLIGHT_AGE
      && r.expiresAt <= k.receivedAt + MAX_PREFLIGHT_AGE
      && r.expiresAt <= t.expiresAt && r.expiresAt <= t.entry.expiresAt
      && r.expiresAt in {at + lifetimeSeconds * 1_000_000, a.receivedAt + MAX_PREFLIGHT_AGE,
                         k.receivedAt + MAX_PREFLIGHT_AGE, t.expiresAt, t.entry.expiresAt}
    ensures r.Stale? <==>
      !r.Malformed? && Admissible(c, t, a, v, m, k, p, at) && at >= a.receivedAt + MAX_PREFLIGHT_AGE
  {
    if !(1 <= lifetimeSeconds <= 30) || v.instrument.None? {
      return Malformed;
    }
    var e := t.entry;
    var own := TicketReasons(c, t, a, p, at);
    var account := AccountReasons(t, a, v, m, p);
    var marketReasons := MarketReasons(e, m, k, at);
    if k.bestBid <= ZERO || k.bestAsk <= ZERO {
      return Malformed;
    }
    var reasons := own + account + marketReasons;
    if reasons != [] {
      return Denied(reasons);
    }
    var expires := at + lifetimeSeconds * 1_000_000;
    if a.receivedAt + MAX_PREFLIGHT_AGE < expires {
      expires := a.receivedAt + MAX_PREFLIGHT_AGE;
    }
    if k.receivedAt + MAX_PREFLIGHT_AGE < expires {
      expires := k.receivedAt + MAX_PREFLIGHT_AGE;
    }
    if t.expiresAt < expires {
      expires := t.expiresAt;
    }
    if e.expiresAt < expires {
      expires := e.expiresAt;
    }
    if expires <= at {
      return Stale;
    }
    return Passed(at, expires);
  }

  /** The reasons that lie in the market brief. */
  method MarketReasons(e: Entry, m: Instrument, k: Market, at: int) returns (reasons: seq<Reason>)
    ensures reasons == [] <==> MarketAdmissible(e, m, k, at)
  {
    reasons := [];
    if k.mainnet != e.mainnet || k.symbol != m.symbol {
      reasons := reasons + [MarketScope];
    }
    if !(k.receivedAt <= at < k.receivedAt + MAX_PREFLIGHT_AGE) {
      reasons := reasons + [MarketStale];
    }
    if !k.consistent {
      reasons := reasons + [MarketInconsistent];
    }
    if k.bestBid > k.bestAsk {
      reasons := reasons + [Crossed];
    }
    var visible, complete := if e.buy then k.askSize else k.bidSize, if e.buy then k.askComplete else k.bidComplete;
    if e.priceBound.Some? && (if e.buy then k.bestAsk > e.priceBound.value else k.bestBid < e.priceBound.value) {
      reasons := reasons + [BoundNotCrossable];
    }
    if !complete {
      reasons := reasons + [DepthUnknown];
    }
    if visible < e.quantity {
      reasons := reasons + [DepthBelowQuantity];
    }
  }

  // ----- the whole chain -----

  /** Every entry that a preflight admits on a compiled snapshot fits into every
      budget the snapshot was compiled from. */
  lemma BudgetChain(compiledFrom: Venue, l: Limits, dailyUsed: real, openUsed: real,
                    c: Command, t: Ticket, a: Account, v: Venue, m: Instrument, k: Market, p: Policy, at: int)
    requires Compile(compiledFrom, l, dailyUsed, openUsed) == Compiled(a)
    requires Admissible(c, t, a, v, m, k, p, at)
    ensures dailyUsed + t.stressedLoss <= l.dailyLossLimit
    ensures openUsed + t.stressedLoss <= l.openRiskLimit
    ensures t.entry.quantity * t.entry.priceBound.value <= l.maxNotional
    ensures t.entry.quantity * t.entry.priceBound.value <= l.leverage * Min(v.equity, v.withdrawable)
    ensures t.stressedLoss <= v.equity * p.riskFraction
    ensures t.entry.mainnet ==> t.stressedLoss <= v.equity * MAINNET_FRACTION
  {
    LessRisk(v.equity, p.riskFraction, MAINNET_FRACTION);
  }

  lemma LessRisk(equity: real, fraction: real, limit: real)
    ensures equity > ZERO && fraction <= limit ==> equity * fraction <= equity * limit
  {
  }

  /** Once the day or the open risk is used up nothing is admitted any more. */
  lemma ExhaustedAdmitsNothing(compiledFrom: Venue, l: Limits, dailyUsed: real, openUsed: real,
                               c: Command, t: Ticket, a: Account, v: Venue, m: Instrument, k: Market, p: Policy, at: int)
    requires Compile(compiledFrom, l, dailyUsed, openUsed) == Compiled(a)
    requires dailyUsed >= l.dailyLossLimit || openUsed >= l.openRiskLimit
    ensures !Admissible(c, t, a, v, m, k, p, at)
  {
    if Admissible(c, t, a, v, m, k, p, at) {
      BudgetChain(compiledFrom, l, dailyUsed, openUsed, c, t, a, v, m, k, p, at);
    }
  }
}
