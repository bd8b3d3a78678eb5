/** The replay's state machine: what each runtime cycle does to the ledger, tick after tick
    (replay_debug.py, `_run_trading`, `_write_cash_snapshot`, `_run_market_data_check`,
    `_run_rebalance`, `expand_cycles`). */
module Trading {
  import opened Common
  import opened Book
  import opened Orders
  import Rounding
  import RiskAlerts
  import RebalanceSchedule

  datatype Reason = KillSwitch | TradingPaused | TradingDisabled | MaxDrawdownLimit | MaxStrategyDrawdown

  /** The part of a risk snapshot row that says why trading was blocked and what was raised. */
  datatype RiskRow = RiskRow(isBlocked: bool, reasons: seq<Reason>, alerts: seq<RiskAlerts.Alert>)

  datatype Ledger = Ledger(
    book: Book,
    currentPrices: map<Symbol, real>,
    peakEquity: real,
    latestEquity: real,
    lastRebalance: Option<Day>,
    tickIndex: nat,
    equityHistory: seq<real>,
    strategyPeaks: map<StrategyId, real>,
    drawdownAlerted: bool,
    fills: seq<Fill>,
    riskRows: seq<RiskRow>)

  /** What a tick finds: its UTC date, the persisted closes, and the synthetic fallback prices. */
  datatype Tick = Tick(day: Day, bars: map<Symbol, real>, synthetic: map<Symbol, real>)

  predicate ValidTick(cfg: Settings, t: Tick) {
    && t.day >= RebalanceSchedule.FIRST_ISO_DAY
    && (forall s :: s in t.bars ==> t.bars[s] >= 0.0)
    && (forall s :: s in cfg.symbols ==> s in t.synthetic && t.synthetic[s] >= 1.0)
  }

  /** `_prices_for_tick`: a persisted close that is not zero, else the synthetic price. */
  function PricesForTick(cfg: Settings, t: Tick): (prices: map<Symbol, real>)
    requires ValidTick(cfg, t)
    ensures forall s :: s in cfg.symbols <==> s in prices
    ensures forall s :: s in prices ==> prices[s] > 0.0
    ensures forall s :: s in prices && Get(t.bars, s, 0.0) > 0.0 ==> prices[s] == t.bars[s]
  {
    map s | s in cfg.symbols :: if Get(t.bars, s, 0.0) != 0.0 then t.bars[s] else t.synthetic[s]
  }

  datatype Cycle =
    | MarketBackfill
    | Features
    | Trade
    | Rebalance
    | PortfolioSnapshot
    | CorporateActionsCheck
    | Eod
    | RuntimeChecks

  /** A cycle name as configured, trimmed and lower-cased. */
  datatype CycleName = FullRuntimeDay | MarketIngestion | Blank | Named(cycle: Cycle)

  const FULL_RUNTIME_DAY := [MarketBackfill, Features, Trade, Rebalance, PortfolioSnapshot]

  function ExpandCycles(names: seq<CycleName>): seq<Cycle> {
    if names == [] then []
    else
      ExpandCycles(names[..|names| - 1])
      + match names[|names| - 1]
        case FullRuntimeDay => FULL_RUNTIME_DAY
        case MarketIngestion => [MarketBackfill]
        case Blank => []
        case Named(c) => [c]
  }

  /** What one name stands for. */
  lemma ExpansionOfOne(name: CycleName)
    ensures ExpandCycles([name]) ==
            if name.FullRuntimeDay? then [MarketBackfill, Features, Trade, Rebalance, PortfolioSnapshot]
            else if name.MarketIngestion? then [MarketBackfill]
            else if name.Blank? then []
            else [name.cycle]
  {
    assert [name][..0] == [];
  }

  /** The names are expanded one after the other, in order. */
  lemma {:induction false} ExpansionsJoin(xs: seq<CycleName>, ys: seq<CycleName>)
    ensures ExpandCycles(xs + ys) == ExpandCycles(xs) + ExpandCycles(ys)
  {
    hide ExpandCycles;
    if ys == [] {
      assert xs + ys == xs;
      NothingExpands();
    } else {
      var front, last := ys[..|ys| - 1], ys[|ys| - 1];
      ExpansionsJoin(xs, front);
      OneMoreName(front, last);
      OneMoreName(xs + front, last);
      assert ys == front + [last] && xs + ys == xs + front + [last];
    }
  }

  lemma NothingExpands()
    ensures ExpandCycles([]) == []
  {
  }

  lemma OneMoreName(names: seq<CycleName>, name: CycleName)
    ensures ExpandCycles(names + [name]) == ExpandCycles(names) + ExpandCycles([name])
  {
    assert (names + [name])[..|names|] == names && [name][..0] == [];
  }

  /** Opening state of a run, after the first cash snapshot (which marks an empty book). */
  function Opening(cfg: Settings): Ledger {
    Ledger(EmptyBook(cfg.startingCash), map[], cfg.startingCash, cfg.startingCash, None, 0, [], map[], false, [], [])
  }

  // ---------------------------------------------------------------------------
  // One cycle
  // ---------------------------------------------------------------------------

  function TradingOff(cfg: Settings): Option<Reason> {
    if cfg.killSwitch then Some(KillSwitch)
    else if cfg.tradingPaused then Some(TradingPaused)
    else if !cfg.tradingEnabled then Some(TradingDisabled)
    else None
  }

  /** The drawdown gate at the tick's mark. */
  predicate GateBlocks(cfg: Settings, peak: real, equity: real) {
    Abs(DrawdownFrom(peak, equity)) >= cfg.maxDrawdownLimit
  }

  function GateAlerts(cfg: Settings, blocked: bool, alerted: bool, history: seq<real>): seq<RiskAlerts.Alert> {
    if blocked && cfg.notifyDrawdownAlerts && !alerted
    then RiskAlerts.DrawdownBreachAlerts(cfg.maxDrawdownLimit, history) else []
  }

  function RowFor(gateBlocked: bool, breached: bool, alerts: seq<RiskAlerts.Alert>): RiskRow {
    RiskRow(gateBlocked || breached,
            (if gateBlocked then [MaxDrawdownLimit] else []) + (if breached then [MaxStrategyDrawdown] else []),
            alerts)
  }

  /** Before the orders: the opening mark enters the peak and the history, and the gate is asked. */
  ghost function Opened(cfg: Settings, l: Ledger, prices: map<Symbol, real>): Ledger {
    var current := l.currentPrices + prices;
    var equity := Mark(l.book, prices, current);
    var peak := Max(l.peakEquity, equity);
    var history := l.equityHistory + [equity];
    var alerts := GateAlerts(cfg, GateBlocks(cfg, peak, equity), l.drawdownAlerted, history);
    l.(currentPrices := current, latestEquity := equity, peakEquity := peak, equityHistory := history,
       drawdownAlerted := l.drawdownAlerted || alerts != [])
  }

  predicate Blocked(cfg: Settings, atOpen: Ledger) {
    GateBlocks(cfg, atOpen.peakEquity, atOpen.latestEquity)
  }

  /** The orders, sized by what the opening found. */
  function Ordered(cfg: Settings, atOpen: Ledger, prices: map<Symbol, real>): (d: Desk)
    requires forall s :: s in cfg.symbols ==> s in prices && prices[s] > 0.0
    requires atOpen.book.Sound()
    ensures d.book.Sound()
  {
    OrderLoop(EnvFor(cfg, atOpen, prices), Desk(atOpen.book, atOpen.fills, atOpen.strategyPeaks, {}), |cfg.symbols|)
  }

  function EnvFor(cfg: Settings, atOpen: Ledger, prices: map<Symbol, real>): Env {
    Env(cfg, prices, atOpen.tickIndex, atOpen.latestEquity, cfg.volScalar(atOpen.equityHistory), Blocked(cfg, atOpen))
  }

  /** A mark of the book into the latest equity and the peak. */
  ghost function Marked(l: Ledger, prices: map<Symbol, real>): Ledger {
    var equity := Mark(l.book, prices, l.currentPrices);
    l.(latestEquity := equity, peakEquity := Max(l.peakEquity, equity))
  }

  /** A trading cycle that is not switched off. */
  ghost function Traded(cfg: Settings, l: Ledger, t: Tick): (l': Ledger)
    requires ValidTick(cfg, t) && l.book.Sound()
    ensures l'.book.Sound()
  {
    var prices := PricesForTick(cfg, t);
    var atOpen := Opened(cfg, l, prices);
    var d := Ordered(cfg, atOpen, prices);
    var closed := Marked(atOpen.(book := d.book, strategyPeaks := d.strategyPeaks, fills := d.fills), prices);
    var alerts := GateAlerts(cfg, Blocked(cfg, atOpen), l.drawdownAlerted, atOpen.equityHistory);
    closed.(riskRows := l.riskRows + [RowFor(Blocked(cfg, atOpen), d.breaches != {}, alerts)])
  }

  ghost function RunTrading(cfg: Settings, l: Ledger, t: Tick): (l': Ledger)
    requires ValidTick(cfg, t) && l.book.Sound()
    ensures l'.book.Sound()
  {
    match TradingOff(cfg)
    case Some(reason) => l.(riskRows := l.riskRows + [RiskRow(true, [reason], [])])
    case None => Traded(cfg, l, t)
  }

  /** `_write_cash_snapshot`: a mark at the last known prices. */
  ghost function RunPortfolioSnapshot(l: Ledger): Ledger {
    Marked(l, l.currentPrices)
  }

  predicate ValidLastRebalance(l: Ledger) {
    l.lastRebalance.Some? ==> l.lastRebalance.value >= RebalanceSchedule.FIRST_ISO_DAY
  }

  function RunRebalance(f: RebalanceSchedule.Frequency, l: Ledger, t: Tick): Ledger
    requires t.day >= RebalanceSchedule.FIRST_ISO_DAY && ValidLastRebalance(l)
  {
    if RebalanceSchedule.Due(f, l.lastRebalance, t.day) then l.(lastRebalance := Some(t.day)) else l
  }

  /** The run's fixed part: settings, rebalance frequency and cycle list. */
  datatype Plan = Plan(cfg: Settings, frequency: RebalanceSchedule.Frequency, cycles: seq<Cycle>)

  ghost predicate WellFormed(l: Ledger) {
    l.book.Sound() && ValidLastRebalance(l)
  }

  ghost function RunCycle(p: Plan, l: Ledger, c: Cycle, t: Tick): (l': Ledger)
    requires ValidTick(p.cfg, t) && WellFormed(l)
    ensures WellFormed(l')
  {
    match c
    case MarketBackfill => l.(currentPrices := l.currentPrices + t.bars)
    case Trade => RunTrading(p.cfg, l, t)
    case Rebalance => RunRebalance(p.frequency, l, t)
    case PortfolioSnapshot => RunPortfolioSnapshot(l)
    case _ => l
  }

  ghost function RunCycles(p: Plan, l: Ledger, t: Tick, n: nat): (l': Ledger)
    requires ValidTick(p.cfg, t) && WellFormed(l) && n <= |p.cycles|
    ensures WellFormed(l')
  {
    if n == 0 then l else RunCycle(p, RunCycles(p, l, t, n - 1), p.cycles[n - 1], t)
  }

  ghost function RunTick(p: Plan, l: Ledger, t: Tick): (l': Ledger)
    requires ValidTick(p.cfg, t) && WellFormed(l)
    ensures WellFormed(l')
  {
    RunCycles(p, l.(tickIndex := l.tickIndex + 1), t, |p.cycles|)
  }

  predicate ValidTicks(cfg: Settings, ticks: seq<Tick>) {
    forall i :: 0 <= i < |ticks| ==> ValidTick(cfg, ticks[i])
  }

  ghost function Run(p: Plan, ticks: seq<Tick>): (l: Ledger)
    requires ValidTicks(p.cfg, ticks)
    ensures WellFormed(l)
  {
    if ticks == [] then Opening(p.cfg) else RunTick(p, Run(p, ticks[..|ticks| - 1]), ticks[|ticks| - 1])
  }

  // ---------------------------------------------------------------------------
  // Rebalances of a run
  // ---------------------------------------------------------------------------

  function Days(ticks: seq<Tick>): (days: seq<Day>)
    ensures |days| == |ticks| && forall i :: 0 <= i < |ticks| ==> days[i] == ticks[i].day
  {
    seq(|ticks|, i requires 0 <= i < |ticks| => ticks[i].day)
  }

  lemma OnlyRebalanceRebalances(p: Plan, l: Ledger, c: Cycle, t: Tick)
    requires ValidTick(p.cfg, t) && WellFormed(l)
    ensures RunCycle(p, l, c, t).lastRebalance
         == if c == Rebalance then RunRebalance(p.frequency, l, t).lastRebalance else l.lastRebalance
  {
  }

  /** However often a tick checks, it rebalances at most once. */
  lemma {:induction false} CyclesRebalanceOnce(p: Plan, l: Ledger, t: Tick, n: nat)
    requires ValidTick(p.cfg, t) && WellFormed(l) && n <= |p.cycles|
    ensures RunCycles(p, l, t, n).lastRebalance
         == if Rebalance in p.cycles[..n] then RunRebalance(p.frequency, l, t).lastRebalance else l.lastRebalance
  {
    hide RunCycle;
    if n > 0 {
      CyclesRebalanceOnce(p, l, t, n - 1);
      OnlyRebalanceRebalances(p, RunCycles(p, l, t, n - 1), p.cycles[n - 1], t);
      assert p.cycles[..n] == p.cycles[..n - 1] + [p.cycles[n - 1]];
    }
  }

  /** With a rebalance cycle anywhere in the day, a run remembers the date that one check per tick
      would remember, whatever trading does. */
  lemma {:induction false} RunRebalances(p: Plan, ticks: seq<Tick>)
    requires ValidTicks(p.cfg, ticks) && Rebalance in p.cycles
    ensures RebalanceSchedule.ValidDays(Days(ticks))
    ensures Run(p, ticks).lastRebalance == RebalanceSchedule.LastRebalance(p.frequency, Days(ticks))
  {
    hide RunCycles;
    if ticks != [] {
      var front, last := ticks[..|ticks| - 1], ticks[|ticks| - 1];
      var l := Run(p, front);
      RunRebalances(p, front);
      CyclesRebalanceOnce(p, l.(tickIndex := l.tickIndex + 1), last, |p.cycles|);
      assert p.cycles[..|p.cycles|] == p.cycles;
      assert Days(ticks)[..|ticks| - 1] == Days(front);
    }
  }

  // ---------------------------------------------------------------------------
  // The books stay accounted for
  // ---------------------------------------------------------------------------

  lemma TradingAccounted(cfg: Settings, l: Ledger, t: Tick)
    requires ValidTick(cfg, t) && l.book.Sound() && Accounted(cfg, l.book, l.fills)
    ensures Accounted(cfg, RunTrading(cfg, l, t).book, RunTrading(cfg, l, t).fills)
  {
    if TradingOff(cfg).None? {
      var prices := PricesForTick(cfg, t);
      var atOpen := Opened(cfg, l, prices);
      OrderLoopAccounted(EnvFor(cfg, atOpen, prices), Desk(l.book, l.fills, l.strategyPeaks, {}), |cfg.symbols|);
    }
  }

  lemma {:induction false} CyclesAccounted(p: Plan, l: Ledger, t: Tick, n: nat)
    requires ValidTick(p.cfg, t) && WellFormed(l) && n <= |p.cycles|
    requires Accounted(p.cfg, l.book, l.fills)
    ensures Accounted(p.cfg, RunCycles(p, l, t, n).book, RunCycles(p, l, t, n).fills)
  {
    if n > 0 {
      CyclesAccounted(p, l, t, n - 1);
      if p.cycles[n - 1] == Trade {
        TradingAccounted(p.cfg, RunCycles(p, l, t, n - 1), t);
      }
    }
  }

  /** In every reachable state, whatever the cycles and their order, the book is exactly what the
      recorded fills make of the starting cash. */
  lemma {:induction false} RunAccounted(p: Plan, ticks: seq<Tick>)
    requires ValidTicks(p.cfg, ticks)
    ensures Accounted(p.cfg, Run(p, ticks).book, Run(p, ticks).fills)
  {
    if ticks != [] {
      var l := Run(p, ticks[..|ticks| - 1]);
      RunAccounted(p, ticks[..|ticks| - 1]);
      CyclesAccounted(p, l.(tickIndex := l.tickIndex + 1), ticks[|ticks| - 1], |p.cycles|);
    }
  }

  /** Over every run: cash is the starting cash plus the strategies' flows, has its floor, and the
      strategies' equities add up to the portfolio's mark at any prices for the symbols. */
  lemma RunKeepsTheBooks(p: Plan, ticks: seq<Tick>, prices: map<Symbol, real>, current: map<Symbol, real>)
    requires ValidTicks(p.cfg, ticks)
    requires forall s :: s in p.cfg.symbols ==> s in prices
    ensures var l := Run(p, ticks);
      && l.book.cash == p.cfg.startingCash + SumValues(l.book.fillPnl)
      && l.book.cash >= Min(p.cfg.startingCash, -Times(Rounding.HALF_A_TICK, MaxFillPrice(l.fills)))
      && (Distinct(p.cfg.symbols) && Distinct(p.cfg.StrategyIds()) ==>
            TotalStrategyEquity(p.cfg, l.book, prices, |p.cfg.StrategyIds()|) == Mark(l.book, prices, current))
  {
    hide Run, Accounted;
    var l := Run(p, ticks);
    RunAccounted(p, ticks);
    AuditedReplays(p.cfg, l.book, l.fills);
    CashIsStrategyFlows(EmptyBook(p.cfg.startingCash), l.fills);
    CashFloor(p.cfg, l.book, l.fills);
    if Distinct(p.cfg.symbols) && Distinct(p.cfg.StrategyIds()) {
      StrategiesDecomposePortfolio(p.cfg, l.book, l.fills, prices, current);
    }
  }

  /** Over every run the cost of what is held is explained by the fills: cash plus cost basis is the
      starting cash plus what the sales realised, and a held symbol's average cost lies between the
      lowest and highest price paid since its position last opened. */
  lemma RunExplainsCosts(p: Plan, ticks: seq<Tick>, s: Symbol, lo: real, hi: real)
    requires ValidTicks(p.cfg, ticks)
    ensures var l := Run(p, ticks);
      && ValidFills(l.fills) && l.book.Sound()
      && BookValue(l.book) == p.cfg.startingCash + TotalRealized(EmptyBook(p.cfg.startingCash), l.fills)
      && (s in l.book.positions && AllWithin(OpenBuyPrices(EmptyBook(p.cfg.startingCash), l.fills, s), lo, hi) ==>
            lo <= l.book.avgCosts[s] <= hi)
  {
    var l := Run(p, ticks);
    RunAccounted(p, ticks);
    AuditedReplays(p.cfg, l.book, l.fills);
    CostIdentity(EmptyBook(p.cfg.startingCash), l.fills);
    assert Valued(map[], map[]) == map[];
    if AllWithin(OpenBuyPrices(EmptyBook(p.cfg.startingCash), l.fills, s), lo, hi) {
      AverageCostBetweenBuys(p.cfg.startingCash, l.fills, s, lo, hi);
    }
  }
}
