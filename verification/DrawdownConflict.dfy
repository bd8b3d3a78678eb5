/** Where the replay's drawdown gate and the risk service part: a run of two ticks for every cycle list
    that snapshots mixed prices, and with it the exact class of cycle lists on which they agree. */
module DrawdownConflict {
  import opened Common
  import opened Book
  import opened Orders
  import opened Trading
  import opened DrawdownMetrics
  import opened DrawdownGate
  import opened Rounding
  import RiskAlerts
  import RebalanceSchedule

  // ---------------------------------------------------------------------------
  // The run, whatever the seed: A and B, without closes, are bought at their synthetic prices; then, on the
  // same day, a close of A comes in at 200, and B's synthetic price falls by its trend
  // ---------------------------------------------------------------------------

  const A: Symbol := "A"

  const B: Symbol := "B"

  /** `_synthetic_price`, its jitter given. */
  function SyntheticPrice(index: nat, tickIndex: nat, jitter: real): real {
    Max(1.0, 100.0 + (5 * index) as real - 2.25 * (tickIndex as real - 1.0) + jitter)
  }

  /** A jitter lies within 0.35 of nothing and has four places. */
  predicate IsJitter(jitter: real) {
    -0.35 <= jitter <= 0.35 && (jitter * TICKS_PER_SHARE).Floor as real == jitter * TICKS_PER_SHARE
  }

  const DATE: Day := 738893

  const CLOSE_OF_A: real := 200.0

  /** The run's date, 2024-01-08, has one jitter for each symbol. */
  datatype Seed = Seed(jitterA: real, jitterB: real) {
    predicate Valid() {
      IsJitter(jitterA) && IsJitter(jitterB)
    }

    function PriceA(): real {
      100.0 + jitterA
    }

    function PriceB(): real {
      105.0 + jitterB
    }

    /** One symbol's share of the cash: as many shares of each as the other one costs. */
    function Lot(): real {
      Times(PriceB(), PriceA())
    }

    function Cash(): real {
      Lot() + Lot()
    }

    function Cfg(): Settings {
      Settings([A, B], Cash(), false, false, true, 0.005, 1.0, Medium, 1.0, true, [], [], Undamped())
    }

    function First(): Tick {
      Tick(DATE, map[], Priced(SyntheticPrice(0, 1, jitterA), SyntheticPrice(1, 1, jitterB)))
    }

    function Second(): Tick {
      Tick(DATE, map[A := CLOSE_OF_A], Priced(SyntheticPrice(0, 2, jitterA), SyntheticPrice(1, 2, jitterB)))
    }

    function Bought(): map<Symbol, real> {
      Priced(PriceA(), PriceB())
    }

    function Sold(): map<Symbol, real> {
      Priced(CLOSE_OF_A, PriceB() - 2.25)
    }

    /** The mark of A's new close beside B's old price. */
    function Mixed(): real {
      Times(PriceB(), CLOSE_OF_A) + Lot()
    }

    /** The mark at the second tick's trading prices. */
    function Late(): real {
      Times(PriceB(), CLOSE_OF_A) + Times(PriceA(), PriceB() - 2.25)
    }

    function Plan(cycles: seq<Cycle>): Trading.Plan {
      Trading.Plan(Cfg(), RebalanceSchedule.Daily, cycles)
    }
  }

  /** Volatility targeting damps nothing on the first mark, the only one that is traded on with cash. */
  function Undamped(): seq<real> -> real {
    (history: seq<real>) => 1.0
  }

  function Priced(a: real, b: real): map<Symbol, real> {
    map[A := a, B := b]
  }

  lemma TwoSymbols(s: Seed, t: Tick)
    requires t.day >= RebalanceSchedule.FIRST_ISO_DAY && forall x :: x in t.bars ==> t.bars[x] >= 0.0
    requires A in t.synthetic && B in t.synthetic && t.synthetic[A] >= 1.0 && t.synthetic[B] >= 1.0
    ensures ValidTick(s.Cfg(), t)
    ensures PricesForTick(s.Cfg(), t)
         == Priced(if Get(t.bars, A, 0.0) != 0.0 then t.bars[A] else t.synthetic[A],
                   if Get(t.bars, B, 0.0) != 0.0 then t.bars[B] else t.synthetic[B])
  {
    assert forall x :: x in s.Cfg().symbols <==> x == A || x == B;
  }

  lemma LotIsPositive(s: Seed)
    requires s.Valid()
    ensures 10400.0 <= s.Lot() <= 10573.0 && s.Lot() == Times(s.PriceA(), s.PriceB())
    ensures s.PriceA() > 0.0 && s.PriceB() > 0.0
  {
    TimesMonotoneRight(s.PriceB(), s.PriceA(), 100.35);
    TimesMonotoneRight(s.PriceB(), 99.65, s.PriceA());
  }

  /** Both ticks' prices are the source's: the synthetic ones follow its formula, and the tick sees them
      where it has no close. */
  lemma RunIsPossible(s: Seed)
    requires s.Valid()
    ensures Trades(s.Cfg()) && ValidTick(s.Cfg(), s.First()) && ValidTick(s.Cfg(), s.Second())
    ensures ValidTicks(s.Cfg(), [s.First(), s.Second()])
    ensures PricesForTick(s.Cfg(), s.First()) == s.Bought()
    ensures PricesForTick(s.Cfg(), s.Second()) == s.Sold()
    ensures s.First().synthetic[A] == SyntheticPrice(0, 1, s.jitterA)
    ensures s.Second().synthetic[A] == SyntheticPrice(0, 2, s.jitterA)
    ensures s.First().synthetic[B] == SyntheticPrice(1, 1, s.jitterB)
    ensures s.Second().synthetic[B] == SyntheticPrice(1, 2, s.jitterB)
  {
    hide ValidTick, PricesForTick;
    assert A != B;
    LotIsPositive(s);
    TwoSymbols(s, s.First());
    TwoSymbols(s, s.Second());
  }

  /** Everything is invested. */
  ghost predicate Invested(s: Seed, b: Book) {
    b.Sound() && b.cash == 0.0 && b.positions == Priced(s.PriceB(), s.PriceA())
  }

  lemma MarkOfInvested(s: Seed, b: Book, prices: map<Symbol, real>, current: map<Symbol, real>)
    requires Invested(s, b)
    ensures Mark(b, prices, current)
         == Times(s.PriceB(), Get(current + prices, A, 0.0)) + Times(s.PriceA(), Get(current + prices, B, 0.0))
  {
    var unit := current + prices;
    var none: map<Symbol, real> := map[];
    assert Valued(none, unit) == map[];
    WorthOfUpdate(none, unit, A, s.PriceB());
    WorthOfUpdate(none[A := s.PriceB()], unit, B, s.PriceA());
    assert none[A := s.PriceB()][B := s.PriceA()] == b.positions;
    TimesDistributes(0.0, 0.0, Get(unit, A, 0.0));
    TimesDistributes(0.0, 0.0, Get(unit, B, 0.0));
  }

  // ---------------------------------------------------------------------------
  // The first tick
  // ---------------------------------------------------------------------------

  /** Without cash nothing is bought, and only the selling ticks sell. */
  lemma {:induction false} NoCashNoOrders(env: Env, d: Desk, n: nat)
    requires env.Valid() && d.book.Sound() && n <= |env.cfg.symbols|
    requires d.book.cash <= 0.0 && env.tickIndex % SELL_EVERY != 0
    ensures OrderLoop(env, d, n).book == d.book
  {
    hide OrderStep;
    if n > 0 {
      NoCashNoOrders(env, d, n - 1);
      NoCashNoOrder(env, OrderLoop(env, d, n - 1), n - 1);
    }
  }

  lemma NoCashNoOrder(env: Env, d: Desk, i: nat)
    requires env.Valid() && d.book.Sound() && i < |env.cfg.symbols|
    requires d.book.cash <= 0.0 && env.tickIndex % SELL_EVERY != 0
    ensures OrderStep(env, d, i).book == d.book
  {
    var price := env.prices[env.cfg.symbols[i]];
    var notional := NotionalFor(env, d.book.cash, env.cfg.StrategyOf(i));
    TimesQuotient(price, notional);
    if notional / price > 0.0 {
      TimesMonotone(0.0, notional / price, price);
    }
    Quantize4Bounds(notional / price);
  }

  /** The desk's environment in the first tick. */
  ghost predicate OpensFirst(s: Seed, env: Env) {
    && env.cfg == s.Cfg() && env.prices == s.Bought() && env.tickIndex == 1
    && env.latestEquity == s.Cash() && env.volScalar == 1.0 && !env.gateBlocked
  }

  lemma WholeTicksStay(x: real, jitter: real, base: int)
    requires IsJitter(jitter) && x == base as real + jitter
    ensures Quantize4(x) == x
  {
    var ticks := base * 10000 + (jitter * TICKS_PER_SHARE).Floor;
    assert x * TICKS_PER_SHARE == ticks as real;
  }

  lemma LotOver(s: Seed)
    requires s.Valid()
    ensures s.PriceA() > 0.0 && s.PriceB() > 0.0
    ensures Quantize4(s.Lot() / s.PriceA()) == s.PriceB() && Quantize4(s.Lot() / s.PriceB()) == s.PriceA()
  {
    LotIsPositive(s);
    TimesQuotient(s.PriceA(), s.Lot());
    TimesQuotient(s.PriceB(), s.Lot());
    TimesCancels(s.PriceA(), s.Lot() / s.PriceA(), s.PriceB());
    TimesCancels(s.PriceB(), s.Lot() / s.PriceB(), s.PriceA());
    WholeTicksStay(s.PriceB(), s.jitterB, 105);
    WholeTicksStay(s.PriceA(), s.jitterA, 100);
  }

  lemma OneLot(s: Seed, env: Env, cash: real)
    requires s.Valid() && OpensFirst(s, env) && cash >= s.Lot()
    ensures NotionalFor(env, cash, DEFAULT_STRATEGY_ID) == s.Lot()
  {
    assert CapFor(env.cfg, DEFAULT_STRATEGY_ID) == 1.0;
    assert Times(s.Cash(), 1.0) == s.Cash();
    assert SizedFor(env, DEFAULT_STRATEGY_ID) == s.Lot();
    assert Times(s.Lot(), 1.0) == s.Lot();
  }

  lemma OneStrategy(s: Seed, i: nat)
    ensures s.Cfg().StrategyIds() == [DEFAULT_STRATEGY_ID] && s.Cfg().StrategyOf(i) == DEFAULT_STRATEGY_ID
  {
  }

  /** The fill of the `i`-th symbol: a lot of it. */
  function LotOf(s: Seed, i: nat): Fill
    requires i < 2
  {
    if i == 0 then Fill(A, Buy, s.PriceB(), s.PriceA(), Some(DEFAULT_STRATEGY_ID))
    else Fill(B, Buy, s.PriceA(), s.PriceB(), Some(DEFAULT_STRATEGY_ID))
  }

  lemma BuysLot(s: Seed, env: Env, d: Desk, i: nat)
    requires s.Valid() && env.Valid() && OpensFirst(s, env) && d.book.Sound() && i < 2 && d.book.cash >= s.Lot()
    requires d.book.Held(env.cfg.symbols[i]) == 0.0
    requires StrategyEquity(env.cfg, d.book, env.prices, DEFAULT_STRATEGY_ID) > 0.0
    ensures ValidFill(LotOf(s, i)) && OrderStep(env, d, i).book == ApplyFill(d.book, LotOf(s, i))
  {
    hide NotionalFor, StrategyEquity, Times;
    OneStrategy(s, i);
    OneLot(s, env, d.book.cash);
    LotOver(s);
    var equity := StrategyEquity(env.cfg, d.book, env.prices, DEFAULT_STRATEGY_ID);
    var peak := Max(Get(d.strategyPeaks, DEFAULT_STRATEGY_ID, equity), equity);
    DrawdownInShares(peak, equity, 1.0);
    TimesDistributes(peak, 0.0, 1.0);
    TimesOne(peak);
    assert DecisionFor(env.tickIndex, d.book.Held(env.cfg.symbols[i])) == Buy;
  }

  lemma TimesOne(x: real)
    ensures Times(x, 1.0) == x
  {
  }

  lemma EquityOf(s: Seed, b: Book, prices: map<Symbol, real>)
    ensures StrategyEquity(s.Cfg(), b, prices, DEFAULT_STRATEGY_ID)
         == s.Cash() + Get(b.fillPnl, DEFAULT_STRATEGY_ID, 0.0)
            + Times(Get(b.positions, A, 0.0), Get(prices, A, 0.0))
            + Times(Get(b.positions, B, 0.0), Get(prices, B, 0.0))
  {
    var cfg := s.Cfg();
    OneStrategy(s, 0);
    OneStrategy(s, 1);
    assert StrategyValue(cfg, b.positions, prices, DEFAULT_STRATEGY_ID, 0) == 0.0;
    assert StrategyValue(cfg, b.positions, prices, DEFAULT_STRATEGY_ID, 1)
        == Times(Get(b.positions, A, 0.0), Get(prices, A, 0.0));
  }

  lemma FirstLot(s: Seed, env: Env, d: Desk)
    requires s.Valid() && env.Valid() && OpensFirst(s, env) && d.book == EmptyBook(s.Cash())
    ensures ValidFill(LotOf(s, 0)) && OrderLoop(env, d, 1).book == ApplyFill(d.book, LotOf(s, 0))
    ensures OrderLoop(env, d, 1).book.cash == s.Lot() && OrderLoop(env, d, 1).book.positions == map[A := s.PriceB()]
    ensures Get(OrderLoop(env, d, 1).book.fillPnl, DEFAULT_STRATEGY_ID, 0.0) == -s.Lot()
  {
    LotIsPositive(s);
    EquityOf(s, d.book, env.prices);
    TimesDistributes(0.0, 0.0, s.PriceA());
    TimesDistributes(0.0, 0.0, s.PriceB());
    assert OrderLoop(env, d, 0) == d;
    BuysLot(s, env, d, 0);
  }

  lemma OrdersInvest(s: Seed, env: Env, d: Desk)
    requires s.Valid() && env.Valid() && OpensFirst(s, env) && d.book == EmptyBook(s.Cash())
    ensures Invested(s, OrderLoop(env, d, 2).book)
  {
    hide OrderStep, NotionalFor, StrategyEquity;
    LotIsPositive(s);
    FirstLot(s, env, d);
    var d1 := OrderLoop(env, d, 1);
    EquityOf(s, d1.book, env.prices);
    TimesDistributes(0.0, 0.0, s.PriceB());
    BuysLot(s, env, d1, 1);
  }

  /** Every mark so far was the starting cash, and each has its row. */
  predicate Flat(s: Seed, l: Ledger) {
    |l.riskRows| == |l.equityHistory| && forall i :: 0 <= i < |l.equityHistory| ==> l.equityHistory[i] == s.Cash()
  }

  ghost predicate AfterFirst(s: Seed, l: Ledger, traded: bool) {
    && l.book.Sound() && l.peakEquity == s.Cash() && Flat(s, l)
    && (if traded then Invested(s, l.book) && l.currentPrices == s.Bought() && l.equityHistory != []
        else l.book == EmptyBook(s.Cash()) && l.currentPrices == map[])
  }

  lemma NoDrawdown(s: Seed)
    requires s.Valid()
    ensures !GateBlocks(s.Cfg(), s.Cash(), s.Cash())
  {
    LotIsPositive(s);
    DrawdownInShares(s.Cash(), s.Cash(), 0.005);
    assert Times(s.Cash(), 0.005) == 0.005 * s.Cash();
  }

  lemma FirstMark(s: Seed, l: Ledger, traded: bool, prices: map<Symbol, real>, current: map<Symbol, real>)
    requires s.Valid() && AfterFirst(s, l, traded) && (traded ==> current + prices == s.Bought())
    ensures Mark(l.book, prices, current) == s.Cash()
  {
    LotIsPositive(s);
    if traded {
      MarkOfInvested(s, l.book, prices, current);
    } else {
      EmptyBookMark(s.Cash(), prices, current);
    }
  }

  /** The first tick's opening mark is the starting cash, at the tick's own prices. */
  lemma FirstOpening(s: Seed, l: Ledger, traded: bool)
    requires s.Valid() && AfterFirst(s, l, traded) && l.tickIndex == 1
    ensures var atOpen := Opened(s.Cfg(), l, s.Bought());
      && atOpen.currentPrices == s.Bought() && atOpen.equityHistory == l.equityHistory + [s.Cash()]
      && atOpen.peakEquity == s.Cash() && atOpen.book == l.book && atOpen.fills == l.fills
      && OpensFirst(s, EnvFor(s.Cfg(), atOpen, s.Bought())) && EnvFor(s.Cfg(), atOpen, s.Bought()).Valid()
  {
    hide Mark, GateAlerts, GateBlocks;
    var prices := s.Bought();
    assert l.currentPrices + prices == prices && prices + prices == prices;
    LotIsPositive(s);
    FirstMark(s, l, traded, prices, prices);
    NoDrawdown(s);
  }

  lemma FirstOrders(s: Seed, l: Ledger, traded: bool)
    requires s.Valid() && AfterFirst(s, l, traded) && l.tickIndex == 1
    requires (forall x :: x in s.Cfg().symbols ==> x in s.Bought() && s.Bought()[x] > 0.0)
    ensures Invested(s, Ordered(s.Cfg(), Opened(s.Cfg(), l, s.Bought()), s.Bought()).book)
  {
    hide Opened, OrderLoop, OpensFirst;
    var atOpen := Opened(s.Cfg(), l, s.Bought());
    FirstOpening(s, l, traded);
    var env := EnvFor(s.Cfg(), atOpen, s.Bought());
    var d := Desk(atOpen.book, atOpen.fills, atOpen.strategyPeaks, {});
    if traded {
      TickOne(s, env);
      NoCashNoOrders(env, d, 2);
    } else {
      OrdersInvest(s, env, d);
    }
  }

  lemma TickOne(s: Seed, env: Env)
    requires OpensFirst(s, env)
    ensures env.tickIndex % SELL_EVERY != 0
  {
  }

  lemma FirstTrade(s: Seed, l: Ledger, traded: bool)
    requires s.Valid() && AfterFirst(s, l, traded) && l.tickIndex == 1
    ensures ValidTick(s.Cfg(), s.First()) && AfterFirst(s, RunTrading(s.Cfg(), l, s.First()), true)
    ensures RunTrading(s.Cfg(), l, s.First()).tickIndex == 1
  {
    hide OrderLoop, GateAlerts, RowFor, GateBlocks, Mark, PricesForTick, ValidTick;
    RunIsPossible(s);
    LotIsPositive(s);
    FirstOpening(s, l, traded);
    FirstOrders(s, l, traded);
    var prices := s.Bought();
    MarkOfInvested(s, Ordered(s.Cfg(), Opened(s.Cfg(), l, prices), prices).book, prices, prices);
    assert prices + prices == prices;
  }

  lemma FirstCycle(s: Seed, l: Ledger, c: Cycle, cycles: seq<Cycle>, traded: bool)
    requires s.Valid() && AfterFirst(s, l, traded) && l.tickIndex == 1 && WellFormed(l)
    ensures ValidTick(s.Cfg(), s.First())
    ensures AfterFirst(s, RunCycle(s.Plan(cycles), l, c, s.First()), traded || c == Trade)
    ensures RunCycle(s.Plan(cycles), l, c, s.First()).tickIndex == 1
  {
    hide RunTrading, Mark;
    FirstTrade(s, l, traded);
    assert l.currentPrices + s.First().bars == l.currentPrices;
    assert l.currentPrices + l.currentPrices == l.currentPrices;
    if c == PortfolioSnapshot {
      FirstMark(s, l, traded, l.currentPrices, l.currentPrices);
    }
  }

  lemma {:induction false} FirstCycles(s: Seed, l: Ledger, cycles: seq<Cycle>, n: nat)
    requires s.Valid() && AfterFirst(s, l, false) && l.tickIndex == 1 && WellFormed(l) && n <= |cycles|
    ensures ValidTick(s.Cfg(), s.First())
    ensures AfterFirst(s, RunCycles(s.Plan(cycles), l, s.First(), n), Trade in cycles[..n])
    ensures RunCycles(s.Plan(cycles), l, s.First(), n).tickIndex == 1
  {
    hide RunCycle, AfterFirst, ValidTick;
    RunIsPossible(s);
    if n > 0 {
      FirstCycles(s, l, cycles, n - 1);
      FirstCycle(s, RunCycles(s.Plan(cycles), l, s.First(), n - 1), cycles[n - 1], cycles, Trade in cycles[..n - 1]);
      assert cycles[..n] == cycles[..n - 1] + [cycles[n - 1]];
    }
  }

  // ---------------------------------------------------------------------------
  // The second tick, up to its first trading cycle
  // ---------------------------------------------------------------------------

  ghost predicate BeforeSecond(s: Seed, l: Ledger, backfilled: bool, mixed: bool) {
    && Invested(s, l.book) && Flat(s, l) && l.equityHistory != []
    && l.currentPrices == Priced(if backfilled then CLOSE_OF_A else s.PriceA(), s.PriceB())
    && l.peakEquity == (if mixed then s.Mixed() else s.Cash()) && (mixed ==> backfilled)
  }

  /** The mixed mark is a peak, the tick's own mark is a new high, and it lies below that peak by more
      than the limit. */
  lemma MarksOfSecond(s: Seed)
    requires s.Valid()
    ensures s.Cash() < s.Late() < s.Mixed()
    ensures GateBlocks(s.Cfg(), s.Mixed(), s.Late())
  {
    LotIsPositive(s);
    TimesDistributes(s.PriceB(), 2.25, s.PriceA());
    assert Times(s.PriceA(), s.PriceB() - 2.25) == s.Lot() - 2.25 * s.PriceA();
    assert Times(s.PriceB(), CLOSE_OF_A) == 200.0 * s.PriceB();
    DrawdownInShares(s.Mixed(), s.Late(), 0.005);
    assert Times(s.Mixed(), 0.005) == 0.005 * s.Mixed();
  }

  lemma SecondMark(s: Seed, l: Ledger, backfilled: bool, mixed: bool)
    requires s.Valid() && BeforeSecond(s, l, backfilled, mixed)
    ensures Mark(l.book, l.currentPrices, l.currentPrices) == if backfilled then s.Mixed() else s.Cash()
    ensures l.currentPrices + map[A := CLOSE_OF_A] == Priced(CLOSE_OF_A, s.PriceB())
  {
    LotIsPositive(s);
    assert l.currentPrices + l.currentPrices == l.currentPrices;
    MarkOfInvested(s, l.book, l.currentPrices, l.currentPrices);
  }

  lemma SecondCycle(s: Seed, l: Ledger, c: Cycle, cycles: seq<Cycle>, backfilled: bool, mixed: bool)
    requires s.Valid() && BeforeSecond(s, l, backfilled, mixed) && WellFormed(l) && c != Trade
    requires ValidTick(s.Cfg(), s.Second())
    ensures BeforeSecond(s, RunCycle(s.Plan(cycles), l, c, s.Second()), backfilled || c == MarketBackfill,
                         mixed || (c == PortfolioSnapshot && backfilled))
  {
    hide RunTrading, Mark, ValidTick, Invested, Times;
    SecondMark(s, l, backfilled, mixed);
    MarksOfSecond(s);
  }

  predicate SnapshotMixed(cycles: seq<Cycle>, n: nat)
    requires n <= |cycles|
  {
    exists i :: 0 <= i < n && cycles[i] == PortfolioSnapshot && MarketBackfill in cycles[..i]
  }

  lemma {:induction false} SecondCycles(s: Seed, l: Ledger, cycles: seq<Cycle>, n: nat)
    requires s.Valid() && BeforeSecond(s, l, false, false) && WellFormed(l) && n <= |cycles| && Trade !in cycles[..n]
    ensures ValidTick(s.Cfg(), s.Second())
    ensures BeforeSecond(s, RunCycles(s.Plan(cycles), l, s.Second(), n), MarketBackfill in cycles[..n],
                         SnapshotMixed(cycles, n))
  {
    hide RunCycle, BeforeSecond, ValidTick;
    RunIsPossible(s);
    if n > 0 {
      assert cycles[..n] == cycles[..n - 1] + [cycles[n - 1]];
      SecondCycles(s, l, cycles, n - 1);
      SecondCycle(s, RunCycles(s.Plan(cycles), l, s.Second(), n - 1), cycles[n - 1], cycles,
                  MarketBackfill in cycles[..n - 1], SnapshotMixed(cycles, n - 1));
      assert SnapshotMixed(cycles, n) <==>
        SnapshotMixed(cycles, n - 1) || (cycles[n - 1] == PortfolioSnapshot && MarketBackfill in cycles[..n - 1]);
    }
  }

  // ---------------------------------------------------------------------------
  // The gate blocks and the service sees nothing
  // ---------------------------------------------------------------------------

  /** At the `k`-th trading tick the gate blocked without a breach in the history. */
  predicate PartsAt(cfg: Settings, l: Ledger, k: nat) {
    && k < |l.riskRows| && k < |l.equityHistory|
    && GateBlocked(l.riskRows[k])
    && RiskAlerts.DrawdownBreachAlerts(cfg.maxDrawdownLimit, l.equityHistory[..k + 1]) == []
  }

  lemma {:induction false} FlatMax(xs: seq<real>, x: real, i: nat)
    requires i < |xs| && forall k :: 0 <= k < |xs| ==> xs[k] == x
    ensures RunningMax(xs, i) == x
  {
    if i > 0 {
      FlatMax(xs, x, i - 1);
    }
  }

  lemma RiseIsNoBreach(history: seq<real>, x: real, high: real, limit: real)
    requires history != [] && limit > 0.0 && high >= x && forall k :: 0 <= k < |history| ==> history[k] == x
    ensures RiskAlerts.DrawdownBreachAlerts(limit, history + [high]) == []
  {
    FlatMax(history, x, |history| - 1);
    MaxOfAppend(history, high);
  }

  /** The second tick opens at a new high of the history, below the mixed peak. */
  lemma SecondOpening(s: Seed, l: Ledger)
    requires s.Valid() && BeforeSecond(s, l, true, true)
    ensures var atOpen := Opened(s.Cfg(), l, s.Sold());
      && atOpen.equityHistory == l.equityHistory + [s.Late()] && atOpen.peakEquity == s.Mixed()
      && Blocked(s.Cfg(), atOpen)
  {
    hide Mark, GateBlocks, GateAlerts, Times;
    var prices := s.Sold();
    assert l.currentPrices + prices == prices && prices + prices == prices;
    MarkOfInvested(s, l.book, prices, prices);
    MarksOfSecond(s);
  }

  lemma SecondTrade(s: Seed, l: Ledger)
    requires s.Valid() && BeforeSecond(s, l, true, true)
    ensures ValidTick(s.Cfg(), s.Second())
    ensures PartsAt(s.Cfg(), RunTrading(s.Cfg(), l, s.Second()), |l.riskRows|)
  {
    hide OrderLoop, ValidTick, PricesForTick, Mark, Times;
    RunIsPossible(s);
    SecondOpening(s, l);
    MarksOfSecond(s);
    RiseIsNoBreach(l.equityHistory, s.Cash(), s.Late(), s.Cfg().maxDrawdownLimit);
    var l' := RunTrading(s.Cfg(), l, s.Second());
    assert l'.equityHistory[..|l.riskRows| + 1] == l'.equityHistory;
    assert l'.riskRows[|l.riskRows|].reasons[0] == MaxDrawdownLimit;
  }

  /** Rows and marks are only ever added. */
  lemma {:induction false} PartsForGood(p: Plan, l: Ledger, t: Tick, m: nat, n: nat, k: nat)
    requires ValidTick(p.cfg, t) && WellFormed(l) && m <= n <= |p.cycles|
    requires PartsAt(p.cfg, RunCycles(p, l, t, m), k)
    ensures PartsAt(p.cfg, RunCycles(p, l, t, n), k)
    decreases n - m
  {
    hide RunCycle, PartsAt;
    if m < n {
      PartsForGood(p, l, t, m, n - 1, k);
      CycleKeepsRecord(p, RunCycles(p, l, t, n - 1), p.cycles[n - 1], t, k);
    }
  }

  lemma CycleKeepsRecord(p: Plan, l: Ledger, c: Cycle, t: Tick, k: nat)
    requires ValidTick(p.cfg, t) && WellFormed(l) && PartsAt(p.cfg, l, k)
    ensures PartsAt(p.cfg, RunCycle(p, l, c, t), k)
  {
    var l' := RunCycle(p, l, c, t);
    assert l.riskRows <= l'.riskRows && l.equityHistory <= l'.equityHistory;
    assert l'.equityHistory[..k + 1] == l.equityHistory[..k + 1];
  }

  lemma {:induction false} FirstTradingCycle(cycles: seq<Cycle>) returns (j: nat)
    requires Trade in cycles
    ensures j < |cycles| && cycles[j] == Trade && Trade !in cycles[..j]
  {
    var front := cycles[..|cycles| - 1];
    if Trade in front {
      j := FirstTradingCycle(front);
      assert front[..j] == cycles[..j];
    } else {
      j := |front|;
    }
  }

  lemma MixedBeforeTrading(cycles: seq<Cycle>) returns (j: nat)
    requires MixesPrices(cycles)
    ensures j < |cycles| && cycles[j] == Trade && Trade !in cycles[..j]
    ensures MarketBackfill in cycles[..j] && SnapshotMixed(cycles, j)
  {
    j := FirstTradingCycle(cycles);
    var n :| 0 <= n < |cycles| && MarksMixedPrices(cycles, n);
    assert forall i :: 0 <= i < n ==> cycles[..n][i] == cycles[i];
    assert n < j;
    assert cycles[..n] == cycles[..j][..n];
    assert forall c :: c in cycles[..n] ==> c in cycles[..j];
  }

  lemma FirstTickInvests(s: Seed, cycles: seq<Cycle>)
    requires s.Valid() && Trade in cycles
    ensures ValidTicks(s.Cfg(), [s.First()])
    ensures BeforeSecond(s, Run(s.Plan(cycles), [s.First()]), false, false)
  {
    hide ValidTick, RunCycles;
    RunIsPossible(s);
    var p, t := s.Plan(cycles), s.First();
    assert [t][..0] == [];
    var l0 := Run(p, []);
    FirstCycles(s, l0.(tickIndex := 1), cycles, |cycles|);
    assert cycles[..|cycles|] == cycles;
    assert Run(p, [t]) == RunTick(p, l0, t);
  }

  lemma TradePartsAfter(s: Seed, cycles: seq<Cycle>, l0: Ledger, j: nat)
    requires s.Valid() && ValidTick(s.Cfg(), s.Second()) && WellFormed(l0) && j < |cycles| && cycles[j] == Trade
    requires BeforeSecond(s, RunCycles(s.Plan(cycles), l0, s.Second(), j), true, true)
    ensures PartsAt(s.Cfg(), RunCycles(s.Plan(cycles), l0, s.Second(), j + 1),
                    |RunCycles(s.Plan(cycles), l0, s.Second(), j).riskRows|)
  {
    hide RunTrading, ValidTick, BeforeSecond, PartsAt;
    var before := RunCycles(s.Plan(cycles), l0, s.Second(), j);
    SecondTrade(s, before);
    assert RunCycles(s.Plan(cycles), l0, s.Second(), j + 1) == RunTrading(s.Cfg(), before, s.Second());
  }

  lemma SecondTickParts(s: Seed, p: Plan, l0: Ledger, j: nat) returns (k: nat)
    requires s.Valid() && p == s.Plan(p.cycles) && BeforeSecond(s, l0, false, false) && WellFormed(l0)
    requires j < |p.cycles| && p.cycles[j] == Trade && Trade !in p.cycles[..j]
    requires MarketBackfill in p.cycles[..j] && SnapshotMixed(p.cycles, j)
    ensures ValidTick(p.cfg, s.Second())
    ensures PartsAt(p.cfg, RunCycles(p, l0, s.Second(), |p.cycles|), k)
  {
    hide ValidTick, BeforeSecond, PartsAt, RunCycles;
    SecondCycles(s, l0, p.cycles, j);
    TradePartsAfter(s, p.cycles, l0, j);
    k := |RunCycles(p, l0, s.Second(), j).riskRows|;
    PartsForGood(p, l0, s.Second(), j + 1, |p.cycles|, k);
  }

  /** Whatever the seed, every cycle list that snapshots mixed prices has a run at the source's own prices
      in which the gate blocks a tick, on a peak that no trading tick ever saw, while the service's history
      knows no fall at all. */
  lemma MixedPricesPart(s: Seed, cycles: seq<Cycle>)
    requires s.Valid() && MixesPrices(cycles)
    ensures Trades(s.Cfg()) && ValidTicks(s.Cfg(), [s.First(), s.Second()])
    ensures exists k :: PartsAt(s.Cfg(), Run(s.Plan(cycles), [s.First(), s.Second()]), k)
  {
    hide ValidTick, BeforeSecond, PartsAt, RunCycles;
    RunIsPossible(s);
    FirstTickInvests(s, cycles);
    var first, second, p := s.First(), s.Second(), s.Plan(cycles);
    var l := Run(p, [first]);
    var j := MixedBeforeTrading(cycles);
    NextTickKeeps(s, l);
    var k := SecondTickParts(s, p, l.(tickIndex := l.tickIndex + 1), j);
    assert [first, second][..1] == [first] && [first, second][1] == second;
    assert Run(p, [first, second]) == RunTick(p, l, second);
  }

  lemma NextTickKeeps(s: Seed, l: Ledger)
    requires BeforeSecond(s, l, false, false)
    ensures BeforeSecond(s, l.(tickIndex := l.tickIndex + 1), false, false)
  {
  }

  lemma PartingIsNoAgreement(cfg: Settings, l: Ledger, k: nat)
    requires PartsAt(cfg, l, k)
    ensures !RecordAgrees(cfg, l.equityHistory, l.riskRows)
  {
    if |l.riskRows| == |l.equityHistory| {
      assert !RowAgrees(cfg, l.equityHistory, l.riskRows, k);
    }
  }

  /** A run of the plan in which gate and risk service agree at every trading tick. */
  ghost predicate Agrees(p: Plan, ticks: seq<Tick>)
    requires ValidTicks(p.cfg, ticks)
  {
    RecordAgrees(p.cfg, Run(p, ticks).equityHistory, Run(p, ticks).riskRows)
  }

  /** Gate and risk service agree in every run of a cycle list, whatever the configuration and the
      prices, if and only if the list does not snapshot mixed prices. If it does, each seed has a run at
      the source's own prices in which they part. */
  lemma GateAgreesIff(cycles: seq<Cycle>)
    ensures (forall p: Plan, ticks: seq<Tick> | p.cycles == cycles && Trades(p.cfg) && ValidTicks(p.cfg, ticks) ::
               Agrees(p, ticks))
       <==> !MixesPrices(cycles)
    ensures MixesPrices(cycles) ==> forall s: Seed | s.Valid() ::
              ValidTicks(s.Cfg(), [s.First(), s.Second()]) && !Agrees(s.Plan(cycles), [s.First(), s.Second()])
  {
    if MixesPrices(cycles) {
      forall s: Seed | s.Valid()
        ensures Trades(s.Cfg()) && ValidTicks(s.Cfg(), [s.First(), s.Second()])
        ensures !Agrees(s.Plan(cycles), [s.First(), s.Second()])
      {
        MixedPricesPart(s, cycles);
        var l := Run(s.Plan(cycles), [s.First(), s.Second()]);
        var k :| PartsAt(s.Cfg(), l, k);
        PartingIsNoAgreement(s.Cfg(), l, k);
      }
      var plain := Seed(0.0, 0.0);
      assert plain.Valid();
      assert plain.Plan(cycles).cycles == cycles;
    } else {
      forall p: Plan, ticks: seq<Tick> | p.cycles == cycles && Trades(p.cfg) && ValidTicks(p.cfg, ticks)
        ensures Agrees(p, ticks)
      {
        DrawdownComputationsAgree(p, ticks);
      }
    }
  }
}
