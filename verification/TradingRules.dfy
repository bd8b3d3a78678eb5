/** What a trading cycle does, and never does, to the ledger: when it stops, what it sells, what it may
    spend, and what its risk row says (replay_debug.py, `_run_trading`, `_decision_for`). */
module TradingRules {
  import opened Common
  import opened Book
  import opened Orders
  import opened Trading
  import opened DrawdownGate
  import DrawdownMetrics
  import Rounding

  // ---------------------------------------------------------------------------
  // Switched off
  // ---------------------------------------------------------------------------

  /** A kill switch, a pause or trading not enabled stops everything: only a blocked risk row is written,
      with the first of the three as its reason. */
  lemma SwitchesStopTrading(cfg: Settings, l: Ledger, t: Tick)
    requires ValidTick(cfg, t) && l.book.Sound()
    ensures TradingOff(cfg).Some? <==> cfg.killSwitch || cfg.tradingPaused || !cfg.tradingEnabled
    ensures cfg.killSwitch || cfg.tradingPaused || !cfg.tradingEnabled ==>
              var reason := if cfg.killSwitch then KillSwitch
                            else if cfg.tradingPaused then TradingPaused else TradingDisabled;
              RunTrading(cfg, l, t) == l.(riskRows := l.riskRows + [RiskRow(true, [reason], [])])
  {
  }

  lemma {:induction false} CyclesStaySwitchedOff(p: Plan, l: Ledger, t: Tick, n: nat)
    requires ValidTick(p.cfg, t) && WellFormed(l) && n <= |p.cycles|
    requires p.cfg.killSwitch || p.cfg.tradingPaused || !p.cfg.tradingEnabled
    ensures RunCycles(p, l, t, n).book == l.book && RunCycles(p, l, t, n).fills == l.fills
  {
    hide RunTrading, Mark;
    if n > 0 {
      CyclesStaySwitchedOff(p, l, t, n - 1);
      SwitchesStopTrading(p.cfg, RunCycles(p, l, t, n - 1), t);
    }
  }

  /** A run that is switched off never trades. */
  lemma {:induction false} SwitchedOffRunNeverTrades(p: Plan, ticks: seq<Tick>)
    requires ValidTicks(p.cfg, ticks)
    requires p.cfg.killSwitch || p.cfg.tradingPaused || !p.cfg.tradingEnabled
    ensures Run(p, ticks).book == EmptyBook(p.cfg.startingCash) && Run(p, ticks).fills == []
  {
    hide RunCycles;
    if ticks != [] {
      var l := Run(p, ticks[..|ticks| - 1]);
      SwitchedOffRunNeverTrades(p, ticks[..|ticks| - 1]);
      CyclesStaySwitchedOff(p, l.(tickIndex := l.tickIndex + 1), ticks[|ticks| - 1], |p.cycles|);
    }
  }

  // ---------------------------------------------------------------------------
  // The drawdown gate
  // ---------------------------------------------------------------------------

  /** The mark before the orders has fallen by the limit from the peak that includes it. */
  ghost predicate OpensFallen(cfg: Settings, l: Ledger, t: Tick)
    requires ValidTick(cfg, t)
  {
    FallenBy(cfg.maxDrawdownLimit, Max(l.peakEquity, OpeningMark(cfg, l, t)), OpeningMark(cfg, l, t))
  }

  /** What the order loop works with in a trading cycle: the tick's prices and number, the mark before the
      orders, the volatility scalar of the history that this mark ends, and the gate on that mark. */
  ghost function LoopInputs(cfg: Settings, l: Ledger, t: Tick): (env: Env)
    requires ValidTick(cfg, t)
    ensures env.Valid()
  {
    var mark := OpeningMark(cfg, l, t);
    Env(cfg, PricesForTick(cfg, t), l.tickIndex, mark, cfg.volScalar(l.equityHistory + [mark]), OpensFallen(cfg, l, t))
  }

  ghost function DeskAfter(cfg: Settings, l: Ledger, t: Tick, n: nat): (d: Desk)
    requires ValidTick(cfg, t) && l.book.Sound() && n <= |cfg.symbols|
    ensures d.book.Sound()
  {
    OrderLoop(LoopInputs(cfg, l, t), Desk(l.book, l.fills, l.strategyPeaks, {}), n)
  }

  /** A trading cycle is the order loop at the tick's prices and the opening mark, and its row says why it
      blocked: the portfolio's fall, a strategy's, or both. */
  lemma TradingIsTheOrderLoop(cfg: Settings, l: Ledger, t: Tick)
    requires TradingOff(cfg).None? && ValidTick(cfg, t) && l.book.Sound()
    ensures var l', d := RunTrading(cfg, l, t), DeskAfter(cfg, l, t, |cfg.symbols|);
      && l'.book == d.book && l'.fills == d.fills && l'.strategyPeaks == d.strategyPeaks
      && l'.equityHistory == l.equityHistory + [OpeningMark(cfg, l, t)]
      && l'.tickIndex == l.tickIndex && l'.lastRebalance == l.lastRebalance
      && exists row :: l'.riskRows == l.riskRows + [row]
           && (row.isBlocked <==> row.reasons != [])
           && (forall r :: r in row.reasons <==>
                 (r == MaxDrawdownLimit && OpensFallen(cfg, l, t)) || (r == MaxStrategyDrawdown && d.breaches != {}))
  {
    hide OrderLoop, Mark, FallenBy, DrawdownFrom;
    var prices := PricesForTick(cfg, t);
    var mark := OpeningMark(cfg, l, t);
    DrawdownInShares(Max(l.peakEquity, mark), mark, cfg.maxDrawdownLimit);
    assert EnvFor(cfg, Opened(cfg, l, prices), prices) == LoopInputs(cfg, l, t);
    var row := RunTrading(cfg, l, t).riskRows[|l.riskRows|];
    assert RunTrading(cfg, l, t).riskRows == l.riskRows + [row];
  }

  /** At pass `i` the gate is open and the pass's strategy has fallen, by its own limit, from the larger of
      its kept peak and its equity. */
  ghost predicate StrategyFallen(env: Env, d: Desk, i: nat, sid: StrategyId)
    requires env.Valid() && d.book.Sound() && i < |env.cfg.symbols|
  {
    var before := OrderLoop(env, d, i);
    var equity := StrategyEquity(env.cfg, before.book, env.prices, sid);
    && !env.gateBlocked && env.cfg.StrategyOf(i) == sid
    && FallenBy(env.cfg.maxStrategyDrawdown, Max(Get(before.strategyPeaks, sid, equity), equity), equity)
  }

  /** The strategies in breach after a loop are exactly those fallen at one of its passes. */
  lemma {:induction false} BreachIffFallen(env: Env, d: Desk, n: nat, sid: StrategyId)
    requires env.Valid() && d.book.Sound() && n <= |env.cfg.symbols| && d.breaches == {}
    ensures sid in OrderLoop(env, d, n).breaches <==> exists i :: 0 <= i < n && StrategyFallen(env, d, i, sid)
  {
    hide OrderStep, FallenBy, StrategyEquity;
    if n > 0 {
      var mid := OrderLoop(env, d, n - 1);
      BreachIffFallen(env, d, n - 1, sid);
      if env.gateBlocked {
        BlockedGatePlacesNoOrders(env, d, n);
        BlockedGatePlacesNoOrders(env, d, n - 1);
      } else {
        StrategyGate(env, mid, n - 1);
      }
      assert StrategyFallen(env, d, n - 1, sid) || !StrategyFallen(env, d, n - 1, sid);
    }
  }

  /** A mark that opens fallen stops every order of the cycle: book, fills and strategy peaks stay. */
  lemma DrawdownStopsOrders(cfg: Settings, l: Ledger, t: Tick)
    requires TradingOff(cfg).None? && ValidTick(cfg, t) && l.book.Sound()
    requires FallenBy(cfg.maxDrawdownLimit, Max(l.peakEquity, OpeningMark(cfg, l, t)), OpeningMark(cfg, l, t))
    ensures var l' := RunTrading(cfg, l, t);
      l'.book == l.book && l'.fills == l.fills && l'.strategyPeaks == l.strategyPeaks
  {
    hide RunTrading;
    TradingIsTheOrderLoop(cfg, l, t);
    BlockedGatePlacesNoOrders(LoopInputs(cfg, l, t), Desk(l.book, l.fills, l.strategyPeaks, {}), |cfg.symbols|);
  }

  /** The buys of one trading cycle spend at most the larger of its opening mark and the starting cash, and
      the rounding allowance at the tick's prices. */
  lemma TradingSpendIsBounded(cfg: Settings, l: Ledger, t: Tick)
    requires TradingOff(cfg).None? && ValidTick(cfg, t) && l.book.Sound() && cfg.startingCash >= 0.0
    requires 0.0 <= cfg.volScalar(l.equityHistory + [OpeningMark(cfg, l, t)]) <= 1.0
    ensures Bought(RunTrading(cfg, l, t).fills)
         <= Bought(l.fills) + Max(OpeningMark(cfg, l, t), cfg.startingCash)
            + RoundingAllowance(LoopInputs(cfg, l, t), |cfg.symbols|)
  {
    hide RunTrading, Bought, RoundingAllowance, OrderLoop;
    TradingIsTheOrderLoop(cfg, l, t);
    TickSpendIsBounded(LoopInputs(cfg, l, t), Desk(l.book, l.fills, l.strategyPeaks, {}));
  }

  /** The state of a run at its next tick, after the first `n` cycles. */
  ghost function Midway(p: Plan, ticks: seq<Tick>, t: Tick, n: nat): (l: Ledger)
    requires ValidTicks(p.cfg, ticks) && ValidTick(p.cfg, t) && n <= |p.cycles|
    ensures WellFormed(l)
  {
    RunCycles(p, Run(p, ticks).(tickIndex := Run(p, ticks).tickIndex + 1), t, n)
  }

  /** Over every run with trading on whose cycle list does not snapshot mixed prices: at each trading cycle,
      once the mark has fallen by the limit from the highest mark of the history it ends, no order is placed
      and no strategy peak moves. */
  lemma RunStopsOnDrawdown(p: Plan, ticks: seq<Tick>, t: Tick, n: nat)
    requires Trades(p.cfg) && !MixesPrices(p.cycles) && ValidTicks(p.cfg, ticks) && ValidTick(p.cfg, t)
    requires n < |p.cycles| && p.cycles[n] == Trade
    ensures var l, l' := Midway(p, ticks, t, n), Midway(p, ticks, t, n + 1);
      var curve := l'.equityHistory;
      && curve == l.equityHistory + [OpeningMark(p.cfg, l, t)]
      && var top, mark := DrawdownMetrics.MaxOf(curve), OpeningMark(p.cfg, l, t);
         (top > 0.0 && mark <= top - Times(top, p.cfg.maxDrawdownLimit) ==>
            l'.book == l.book && l'.fills == l.fills && l'.strategyPeaks == l.strategyPeaks)
  {
    hide Run, RunCycles, RunTrading, PeakAgrees, RunIsSafe, OpeningMark, FallenBy;
    var l0 := Run(p, ticks).(tickIndex := Run(p, ticks).tickIndex + 1);
    DrawdownComputationsAgree(p, ticks);
    SafeAtStart(p, Run(p, ticks), t);
    CyclesAreSafe(p, l0, t, n);
    var l := Midway(p, ticks, t, n);
    OneMoreCycle(p, l0, t, n);
    TradingIsTheOrderLoop(p.cfg, l, t);
    PeakIsOfHistory(p.cfg, l, t);
    var top, mark := DrawdownMetrics.MaxOf(l.equityHistory + [OpeningMark(p.cfg, l, t)]), OpeningMark(p.cfg, l, t);
    if top > 0.0 && mark <= top - Times(top, p.cfg.maxDrawdownLimit) {
      Fallen(p.cfg.maxDrawdownLimit, top, mark);
      DrawdownStopsOrders(p.cfg, l, t);
    }
  }

  lemma Fallen(limit: real, peak: real, equity: real)
    requires peak > 0.0 && equity <= peak - Times(peak, limit)
    ensures FallenBy(limit, peak, equity)
  {
  }

  lemma OneMoreCycle(p: Plan, l: Ledger, t: Tick, n: nat)
    requires ValidTick(p.cfg, t) && WellFormed(l) && n < |p.cycles| && p.cycles[n] == Trade
    ensures RunCycles(p, l, t, n + 1) == RunTrading(p.cfg, RunCycles(p, l, t, n), t)
  {
  }

  lemma PeakIsOfHistory(cfg: Settings, l: Ledger, t: Tick)
    requires ValidTick(cfg, t) && PeakAgrees(cfg, l)
    ensures Max(l.peakEquity, OpeningMark(cfg, l, t))
         == DrawdownMetrics.MaxOf(l.equityHistory + [OpeningMark(cfg, l, t)])
  {
    var mark := OpeningMark(cfg, l, t);
    DrawdownMetrics.MaxOfAppend(l.equityHistory, mark);
    EmptyBookMark(cfg.startingCash, PricesForTick(cfg, t), l.currentPrices + PricesForTick(cfg, t));
  }

  // ---------------------------------------------------------------------------
  // The fills of a tick
  // ---------------------------------------------------------------------------

  /** The price a tick trades a symbol at. */
  predicate TradesAt(t: Tick, s: Symbol, price: real) {
    if s in t.bars && t.bars[s] > 0.0 then price == t.bars[s] else s in t.synthetic && price == t.synthetic[s]
  }

  /** The `k`-th fill is right for a tick: it is of one of the symbols at that symbol's price, credited to the
      strategy the symbol is assigned to, round robin; and it is a sale exactly when the tick's number is a
      multiple of seven and the earlier fills left the symbol held, and then a sale of all of it. */
  ghost predicate RightFill(cfg: Settings, tickIndex: nat, t: Tick, fills: seq<Fill>, k: nat)
    requires k < |fills|
  {
    var f := fills[k];
    && (exists i :: 0 <= i < |cfg.symbols| && f.symbol == cfg.symbols[i]
          && f.strategyId == Some(cfg.StrategyIds()[i % |cfg.StrategyIds()|]))
    && TradesAt(t, f.symbol, f.price)
    && ValidFills(fills[..k])
    && var held := Replay(EmptyBook(cfg.startingCash), fills[..k]).positions;
       && (f.side.Sell? <==> tickIndex % 7 == 0 && f.symbol in held)
       && (f.side.Sell? ==> f.qty == held[f.symbol])
  }

  /** `fills` extends `before`, and every new fill is right for the tick. */
  ghost predicate RightFills(cfg: Settings, tickIndex: nat, t: Tick, before: seq<Fill>, fills: seq<Fill>) {
    before <= fills && forall k :: |before| <= k < |fills| ==> RightFill(cfg, tickIndex, t, fills, k)
  }

  lemma RightFillOfPrefix(cfg: Settings, tickIndex: nat, t: Tick, fills: seq<Fill>, more: seq<Fill>, k: nat)
    requires k < |fills| && fills <= more && RightFill(cfg, tickIndex, t, fills, k)
    ensures RightFill(cfg, tickIndex, t, more, k)
  {
    assert more[..k] == fills[..k];
  }

  lemma RightFillsGrow(cfg: Settings, tickIndex: nat, t: Tick, before: seq<Fill>, mid: seq<Fill>, fills: seq<Fill>)
    requires RightFills(cfg, tickIndex, t, before, mid) && RightFills(cfg, tickIndex, t, mid, fills)
    ensures RightFills(cfg, tickIndex, t, before, fills)
  {
    hide RightFill;
    forall k | |before| <= k < |fills| ensures RightFill(cfg, tickIndex, t, fills, k) {
      if k < |mid| {
        RightFillOfPrefix(cfg, tickIndex, t, mid, fills, k);
      }
    }
  }

  lemma PriceOfTick(cfg: Settings, t: Tick, s: Symbol)
    requires ValidTick(cfg, t) && s in cfg.symbols
    ensures TradesAt(t, s, PricesForTick(cfg, t)[s])
  {
  }

  lemma PassIsRight(cfg: Settings, env: Env, t: Tick, d: Desk, i: nat)
    requires ValidTick(cfg, t) && env.cfg == cfg && env.prices == PricesForTick(cfg, t)
    requires env.Valid() && i < |cfg.symbols| && d.book.Sound() && Accounted(cfg, d.book, d.fills)
    ensures RightFills(cfg, env.tickIndex, t, d.fills, OrderStep(env, d, i).fills)
  {
    hide OrderStep, Accounted, NotionalFor, TradesAt;
    var fills := OrderStep(env, d, i).fills;
    if fills != d.fills {
      OrderFollowsDecision(env, d, i);
      AuditedReplays(cfg, d.book, d.fills);
      PriceOfTick(cfg, t, cfg.symbols[i]);
      assert RightFill(cfg, env.tickIndex, t, fills, |d.fills|);
    }
  }

  lemma {:induction false} LoopIsRight(cfg: Settings, env: Env, t: Tick, d: Desk, n: nat)
    requires ValidTick(cfg, t) && env.cfg == cfg && env.prices == PricesForTick(cfg, t)
    requires env.Valid() && n <= |cfg.symbols| && d.book.Sound() && Accounted(cfg, d.book, d.fills)
    ensures RightFills(cfg, env.tickIndex, t, d.fills, OrderLoop(env, d, n).fills)
  {
    hide OrderStep, Accounted, RightFill;
    if n > 0 {
      var mid := OrderLoop(env, d, n - 1);
      LoopIsRight(cfg, env, t, d, n - 1);
      OrderLoopAccounted(env, d, n - 1);
      PassIsRight(cfg, env, t, mid, n - 1);
      RightFillsGrow(cfg, env.tickIndex, t, d.fills, mid.fills, OrderStep(env, mid, n - 1).fills);
    }
  }

  lemma TradingIsRight(cfg: Settings, l: Ledger, t: Tick)
    requires ValidTick(cfg, t) && l.book.Sound() && Accounted(cfg, l.book, l.fills)
    ensures RightFills(cfg, l.tickIndex, t, l.fills, RunTrading(cfg, l, t).fills)
  {
    hide OrderLoop, Accounted, RightFill, RunTrading;
    SwitchesStopTrading(cfg, l, t);
    if TradingOff(cfg).None? {
      TradingIsTheOrderLoop(cfg, l, t);
      LoopIsRight(cfg, LoopInputs(cfg, l, t), t, Desk(l.book, l.fills, l.strategyPeaks, {}), |cfg.symbols|);
    }
  }

  lemma {:induction false} CyclesAreRight(p: Plan, l: Ledger, t: Tick, n: nat)
    requires ValidTick(p.cfg, t) && WellFormed(l) && n <= |p.cycles| && Accounted(p.cfg, l.book, l.fills)
    ensures RunCycles(p, l, t, n).tickIndex == l.tickIndex
    ensures RightFills(p.cfg, l.tickIndex, t, l.fills, RunCycles(p, l, t, n).fills)
  {
    hide Accounted, RightFill, RunTrading;
    if n > 0 {
      var mid := RunCycles(p, l, t, n - 1);
      CyclesAreRight(p, l, t, n - 1);
      if p.cycles[n - 1] == Trade {
        CyclesAccounted(p, l, t, n - 1);
        TradingIsRight(p.cfg, mid, t);
        RightFillsGrow(p.cfg, l.tickIndex, t, l.fills, mid.fills, RunTrading(p.cfg, mid, t).fills);
        TradingKeepsTick(p.cfg, mid, t);
      }
    }
  }

  lemma TradingKeepsTick(cfg: Settings, l: Ledger, t: Tick)
    requires ValidTick(cfg, t) && l.book.Sound()
    ensures RunTrading(cfg, l, t).tickIndex == l.tickIndex
  {
  }

  /** Over every run, whatever its cycles: ticks are numbered from one, the record only grows, and every fill
      of a tick is right for it. */
  lemma {:induction false} RunFillsAreRight(p: Plan, ticks: seq<Tick>)
    requires ValidTicks(p.cfg, ticks) && ticks != []
    ensures Run(p, ticks).tickIndex == |ticks|
    ensures RightFills(p.cfg, |ticks|, ticks[|ticks| - 1], Run(p, ticks[..|ticks| - 1]).fills, Run(p, ticks).fills)
    decreases |ticks|
  {
    hide Accounted, RightFills, RunCycles;
    var front := ticks[..|ticks| - 1];
    if front != [] {
      RunFillsAreRight(p, front);
    }
    var l := Run(p, front);
    RunAccounted(p, front);
    CyclesAreRight(p, l.(tickIndex := l.tickIndex + 1), ticks[|ticks| - 1], |p.cycles|);
  }
}
