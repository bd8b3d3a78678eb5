/** The replay's drawdown gate against the risk service's drawdown check, over whole runs. The gate
    compares the latest mark with a running peak kept in the state; the service recomputes the peak
    from the equity history. */
module DrawdownGate {
  import opened Common
  import opened Book
  import opened Orders
  import opened Trading
  import opened DrawdownMetrics
  import RiskAlerts

  predicate GateBlocked(row: RiskRow) {
    MaxDrawdownLimit in row.reasons
  }

  /** A portfolio snapshot at place `n` that marks fresh closes of some symbols beside stale prices of
      others: after a backfill, and with no trading before it in the tick. */
  predicate MarksMixedPrices(cycles: seq<Cycle>, n: nat)
    requires n < |cycles|
  {
    cycles[n] == PortfolioSnapshot && MarketBackfill in cycles[..n] && Trade !in cycles[..n]
  }

  /** A list of cycles that trades, and takes such a snapshot. */
  predicate MixesPrices(cycles: seq<Cycle>) {
    Trade in cycles && exists n :: 0 <= n < |cycles| && MarksMixedPrices(cycles, n)
  }

  lemma FullRuntimeDayDoesNotMixPrices()
    ensures ExpandCycles([FullRuntimeDay]) == FULL_RUNTIME_DAY
    ensures !MixesPrices(FULL_RUNTIME_DAY)
  {
    assert [FullRuntimeDay][..0] == [];
    var c := FULL_RUNTIME_DAY;
    forall n | 0 <= n < |c| && c[n] == PortfolioSnapshot ensures Trade in c[..n] {
      assert n == 4 && c[..n][2] == Trade;
    }
  }

  // ---------------------------------------------------------------------------
  // The record of a run
  // ---------------------------------------------------------------------------

  predicate BlockedBefore(rows: seq<RiskRow>, k: nat)
    requires k <= |rows|
  {
    exists j :: 0 <= j < k && GateBlocked(rows[j])
  }

  /** The `k`-th trading tick: the gate blocked exactly when the risk service sees a breach in the
      history up to then, and one alert was raised exactly if it was the first to block. */
  predicate RowAgrees(cfg: Settings, history: seq<real>, rows: seq<RiskRow>, k: nat)
    requires k < |rows| == |history|
  {
    && (GateBlocked(rows[k]) <==> RiskAlerts.DrawdownBreachAlerts(cfg.maxDrawdownLimit, history[..k + 1]) != [])
    && |rows[k].alerts|
       == (if cfg.notifyDrawdownAlerts && GateBlocked(rows[k]) && !BlockedBefore(rows, k) then 1 else 0)
  }

  predicate RecordAgrees(cfg: Settings, history: seq<real>, rows: seq<RiskRow>) {
    |rows| == |history| && forall k :: 0 <= k < |rows| ==> RowAgrees(cfg, history, rows, k)
  }

  /** The kept peak is the maximum of the history (the starting cash before the first trading tick),
      and the flag remembers whether a blocked tick has been announced. */
  ghost predicate PeakAgrees(cfg: Settings, l: Ledger) {
    && l.peakEquity > 0.0
    && l.peakEquity == (if l.equityHistory == [] then cfg.startingCash else MaxOf(l.equityHistory))
    && (l.equityHistory == [] ==> l.book == EmptyBook(cfg.startingCash))
    && RecordAgrees(cfg, l.equityHistory, l.riskRows)
    && (l.drawdownAlerted <==> cfg.notifyDrawdownAlerts && BlockedBefore(l.riskRows, |l.riskRows|))
  }

  /** What the property needs of a configuration. */
  predicate Trades(cfg: Settings) {
    TradingOff(cfg).None? && cfg.startingCash > 0.0 && cfg.maxDrawdownLimit > 0.0
  }

  /** At a positive peak the gate's test and the service's test are one. */
  lemma GateIsBreach(cfg: Settings, history: seq<real>, peak: real, equity: real)
    requires Trades(cfg) && peak > 0.0 && equity <= peak
    requires peak == MaxOf(history + [equity])
    requires history == [] ==> equity == peak
    ensures GateBlocks(cfg, peak, equity)
       <==> RiskAlerts.DrawdownBreachAlerts(cfg.maxDrawdownLimit, history + [equity]) != []
    ensures |RiskAlerts.DrawdownBreachAlerts(cfg.maxDrawdownLimit, history + [equity])| <= 1
  {
    var fall := (peak - equity) / peak;
    assert DrawdownFrom(peak, equity) == -fall by {
      TimesQuotient(peak, equity - peak);
      TimesQuotient(peak, peak - equity);
      assert Times(peak, DrawdownFrom(peak, equity) + fall) == 0.0;
    }
    assert fall >= 0.0;
    RiskAlerts.DrawdownBreachIff(cfg.maxDrawdownLimit, history + [equity]);
    assert (history + [equity])[|history|] == equity;
  }

  lemma RecordAppend(cfg: Settings, history: seq<real>, rows: seq<RiskRow>, equity: real, row: RiskRow)
    requires RecordAgrees(cfg, history, rows)
    requires GateBlocked(row) <==> RiskAlerts.DrawdownBreachAlerts(cfg.maxDrawdownLimit, history + [equity]) != []
    requires |row.alerts|
          == if cfg.notifyDrawdownAlerts && GateBlocked(row) && !BlockedBefore(rows, |rows|) then 1 else 0
    ensures RecordAgrees(cfg, history + [equity], rows + [row])
    ensures BlockedBefore(rows + [row], |rows| + 1) <==> BlockedBefore(rows, |rows|) || GateBlocked(row)
  {
    var h', r' := history + [equity], rows + [row];
    assert forall j :: 0 <= j < |rows| ==> r'[j] == rows[j];
    assert r'[|rows|] == row;
    forall k | 0 <= k < |r'| ensures RowAgrees(cfg, h', r', k) {
      if k < |rows| {
        assert RowAgrees(cfg, history, rows, k);
        assert h'[..k + 1] == history[..k + 1];
      } else {
        assert h'[..k + 1] == h';
      }
      assert BlockedBefore(r', k) <==> BlockedBefore(rows, k);
    }
  }

  lemma EmptyBookMark(cash: real, prices: map<Symbol, real>, current: map<Symbol, real>)
    ensures Mark(EmptyBook(cash), prices, current) == cash
  {
    assert Valued(map[], current + prices) == map[];
  }

  /** The tick's opening mark. */
  ghost function OpeningMark(cfg: Settings, l: Ledger, t: Tick): real
    requires ValidTick(cfg, t)
  {
    Mark(l.book, PricesForTick(cfg, t), l.currentPrices + PricesForTick(cfg, t))
  }

  /** Orders leave equity where it was, so the closing mark cannot raise the peak. */
  lemma TradingClosesAtItsOpeningMark(cfg: Settings, l: Ledger, t: Tick)
    requires TradingOff(cfg).None? && ValidTick(cfg, t) && l.book.Sound()
    ensures var l' := RunTrading(cfg, l, t);
      && l'.latestEquity == OpeningMark(cfg, l, t)
      && l'.peakEquity == Max(l.peakEquity, OpeningMark(cfg, l, t))
      && Mark(l'.book, l'.currentPrices, l'.currentPrices) == l'.latestEquity
  {
    hide OrderLoop;
    var prices := PricesForTick(cfg, t);
    var atOpen := Opened(cfg, l, prices);
    var current := atOpen.currentPrices;
    OrderLoopKeepsEquity(EnvFor(cfg, atOpen, prices),
                         Desk(atOpen.book, atOpen.fills, atOpen.strategyPeaks, {}), |cfg.symbols|, current);
    assert current + prices == current + current == current;
  }

  lemma TradingKeepsAgreement(cfg: Settings, l: Ledger, t: Tick)
    requires Trades(cfg) && ValidTick(cfg, t) && l.book.Sound() && PeakAgrees(cfg, l)
    ensures PeakAgrees(cfg, RunTrading(cfg, l, t))
    ensures var l' := RunTrading(cfg, l, t);
      Mark(l'.book, l'.currentPrices, l'.currentPrices) == l'.latestEquity <= l'.peakEquity
  {
    var equity := OpeningMark(cfg, l, t);
    var peak := Max(l.peakEquity, equity);
    var blocked := GateBlocks(cfg, peak, equity);
    TradingClosesAtItsOpeningMark(cfg, l, t);
    EmptyBookMark(cfg.startingCash, PricesForTick(cfg, t), l.currentPrices + PricesForTick(cfg, t));
    MaxOfAppend(l.equityHistory, equity);
    GateIsBreach(cfg, l.equityHistory, peak, equity);
    var l' := RunTrading(cfg, l, t);
    var row := l'.riskRows[|l.riskRows|];
    assert l'.riskRows == l.riskRows + [row] && l'.equityHistory == l.equityHistory + [equity];
    assert row.alerts == GateAlerts(cfg, blocked, l.drawdownAlerted, l.equityHistory + [equity]);
    assert GateBlocked(row) <==> blocked;
    RecordAppend(cfg, l.equityHistory, l.riskRows, equity, row);
  }

  /** The book's mark at the prices in force is not above the peak. */
  ghost predicate AtOrBelowPeak(l: Ledger) {
    Mark(l.book, l.currentPrices, l.currentPrices) <= l.peakEquity
  }

  /** The mark at the tick's trading prices is not above the peak, and no price in force is above its
      trading price. */
  ghost predicate CoveredBy(l: Ledger, prices: map<Symbol, real>) {
    && Mark(l.book, prices, l.currentPrices) <= l.peakEquity
    && forall s :: s in l.book.positions ==> s in prices && Get(l.currentPrices, s, 0.0) <= prices[s]
  }

  lemma CoveredIsAtOrBelowPeak(l: Ledger, prices: map<Symbol, real>)
    requires l.book.Sound() && CoveredBy(l, prices)
    ensures AtOrBelowPeak(l)
  {
    assert l.currentPrices + l.currentPrices == l.currentPrices;
    WorthIsMonotone(l.book.positions, l.currentPrices, l.currentPrices + prices);
  }

  lemma HeldIsOwn(cfg: Settings, b: Book, fills: seq<Fill>)
    requires Accounted(cfg, b, fills)
    ensures forall s :: s in b.positions ==> s in cfg.symbols
  {
    AuditedReplays(cfg, b, fills);
    AccountedKeys(cfg, fills);
  }

  lemma TradingCovers(cfg: Settings, l: Ledger, t: Tick)
    requires Trades(cfg) && ValidTick(cfg, t) && l.book.Sound() && PeakAgrees(cfg, l) && Accounted(cfg, l.book, l.fills)
    ensures CoveredBy(RunTrading(cfg, l, t), PricesForTick(cfg, t))
  {
    var l', prices := RunTrading(cfg, l, t), PricesForTick(cfg, t);
    TradingAccounted(cfg, l, t);
    HeldIsOwn(cfg, l'.book, l'.fills);
    TradingKeepsAgreement(cfg, l, t);
    assert l'.currentPrices == l.currentPrices + prices;
    assert l'.currentPrices + prices == l'.currentPrices == l'.currentPrices + l'.currentPrices;
  }

  lemma BackfillKeepsCover(cfg: Settings, l: Ledger, t: Tick)
    requires ValidTick(cfg, t) && CoveredBy(l, PricesForTick(cfg, t)) && Accounted(cfg, l.book, l.fills)
    ensures CoveredBy(l.(currentPrices := l.currentPrices + t.bars), PricesForTick(cfg, t))
  {
    hide Accounted;
    HeldIsOwn(cfg, l.book, l.fills);
    var prices := PricesForTick(cfg, t);
    assert Valued(l.book.positions, l.currentPrices + t.bars + prices)
        == Valued(l.book.positions, l.currentPrices + prices);
  }

  lemma CycleKeepsCover(p: Plan, l: Ledger, c: Cycle, t: Tick)
    requires Trades(p.cfg) && ValidTick(p.cfg, t) && WellFormed(l)
    requires PeakAgrees(p.cfg, l) && Accounted(p.cfg, l.book, l.fills)
    requires c == Trade || CoveredBy(l, PricesForTick(p.cfg, t))
    ensures CoveredBy(RunCycle(p, l, c, t), PricesForTick(p.cfg, t))
  {
    if c == Trade {
      TradingCovers(p.cfg, l, t);
    } else if c == MarketBackfill {
      BackfillKeepsCover(p.cfg, l, t);
    }
  }

  lemma CycleKeepsAgreement(p: Plan, l: Ledger, c: Cycle, t: Tick)
    requires Trades(p.cfg) && ValidTick(p.cfg, t) && WellFormed(l) && PeakAgrees(p.cfg, l)
    requires c == PortfolioSnapshot ==> AtOrBelowPeak(l)
    ensures PeakAgrees(p.cfg, RunCycle(p, l, c, t))
    ensures c != Trade && c != MarketBackfill && AtOrBelowPeak(l) ==> AtOrBelowPeak(RunCycle(p, l, c, t))
    ensures c != Trade && Untraded(p.cfg, l) ==> Untraded(p.cfg, RunCycle(p, l, c, t))
  {
    if c == Trade {
      TradingKeepsAgreement(p.cfg, l, t);
    }
  }

  /** Nothing has been traded yet. */
  predicate Untraded(cfg: Settings, l: Ledger) {
    l.book == EmptyBook(cfg.startingCash) && l.equityHistory == []
  }

  /** What holds after the first `n` cycles of a tick. */
  ghost predicate Safe(p: Plan, l: Ledger, t: Tick, n: nat)
    requires ValidTick(p.cfg, t) && n <= |p.cycles|
  {
    && PeakAgrees(p.cfg, l) && Accounted(p.cfg, l.book, l.fills)
    && (Trade !in p.cycles ==> Untraded(p.cfg, l))
    && (Trade in p.cycles[..n] ==> CoveredBy(l, PricesForTick(p.cfg, t)))
    && (Trade !in p.cycles[..n] && MarketBackfill !in p.cycles[..n] ==> AtOrBelowPeak(l))
  }

  lemma UntradedIsAtPeak(cfg: Settings, l: Ledger)
    requires Untraded(cfg, l) && PeakAgrees(cfg, l)
    ensures AtOrBelowPeak(l)
  {
    EmptyBookMark(cfg.startingCash, l.currentPrices, l.currentPrices);
  }

  lemma SnapshotIsSafe(p: Plan, l: Ledger, t: Tick, n: nat)
    requires ValidTick(p.cfg, t) && WellFormed(l) && n < |p.cycles| && Safe(p, l, t, n)
    requires !MixesPrices(p.cycles) && p.cycles[n] == PortfolioSnapshot
    ensures AtOrBelowPeak(l)
  {
    if Trade in p.cycles[..n] {
      CoveredIsAtOrBelowPeak(l, PricesForTick(p.cfg, t));
    } else if Trade !in p.cycles {
      UntradedIsAtPeak(p.cfg, l);
    } else {
      assert !MarksMixedPrices(p.cycles, n);
    }
  }

  lemma CycleIsSafe(p: Plan, l: Ledger, t: Tick, n: nat)
    requires Trades(p.cfg) && !MixesPrices(p.cycles)
    requires ValidTick(p.cfg, t) && WellFormed(l) && n < |p.cycles| && Safe(p, l, t, n)
    ensures Safe(p, RunCycle(p, l, p.cycles[n], t), t, n + 1)
  {
    var c := p.cycles[n];
    assert p.cycles[..n + 1] == p.cycles[..n] + [c];
    if c == PortfolioSnapshot {
      SnapshotIsSafe(p, l, t, n);
    }
    CycleKeepsAgreement(p, l, c, t);
    if c == Trade {
      TradingAccounted(p.cfg, l, t);
    }
    if Trade in p.cycles[..n + 1] {
      CycleKeepsCover(p, l, c, t);
    }
  }

  lemma {:induction false} CyclesAreSafe(p: Plan, l: Ledger, t: Tick, n: nat)
    requires Trades(p.cfg) && !MixesPrices(p.cycles)
    requires ValidTick(p.cfg, t) && WellFormed(l) && n <= |p.cycles| && Safe(p, l, t, 0)
    ensures Safe(p, RunCycles(p, l, t, n), t, n)
  {
    hide RunCycle, Safe;
    if n > 0 {
      CyclesAreSafe(p, l, t, n - 1);
      CycleIsSafe(p, RunCycles(p, l, t, n - 1), t, n - 1);
    }
  }

  /** What every tick starts from. */
  ghost predicate RunIsSafe(p: Plan, l: Ledger) {
    && PeakAgrees(p.cfg, l) && Accounted(p.cfg, l.book, l.fills)
    && (Trade !in p.cycles ==> Untraded(p.cfg, l))
    && AtOrBelowPeak(l)
  }

  lemma SafeAtStart(p: Plan, l: Ledger, t: Tick)
    requires ValidTick(p.cfg, t) && RunIsSafe(p, l)
    ensures Safe(p, l.(tickIndex := l.tickIndex + 1), t, 0)
  {
  }

  lemma SafeAtEnd(p: Plan, l: Ledger, t: Tick)
    requires ValidTick(p.cfg, t) && WellFormed(l) && Safe(p, l, t, |p.cycles|)
    ensures RunIsSafe(p, l)
  {
    assert p.cycles[..|p.cycles|] == p.cycles;
    if Trade in p.cycles {
      CoveredIsAtOrBelowPeak(l, PricesForTick(p.cfg, t));
    } else {
      UntradedIsAtPeak(p.cfg, l);
    }
  }

  lemma TickIsSafe(p: Plan, l: Ledger, t: Tick)
    requires Trades(p.cfg) && !MixesPrices(p.cycles) && ValidTick(p.cfg, t) && WellFormed(l) && RunIsSafe(p, l)
    ensures RunIsSafe(p, RunTick(p, l, t))
  {
    hide RunIsSafe, Safe, RunCycles;
    var l0 := l.(tickIndex := l.tickIndex + 1);
    SafeAtStart(p, l, t);
    CyclesAreSafe(p, l0, t, |p.cycles|);
    SafeAtEnd(p, RunCycles(p, l0, t, |p.cycles|), t);
  }

  /** Over every run with trading on, positive starting cash and a positive limit, and any cycle list
      that does not snapshot mixed prices: the kept peak is the maximum of the equity history, the gate
      and the risk service agree at every trading tick, and the first blocked tick, and no other,
      raises one alert. */
  lemma {:induction false} DrawdownComputationsAgree(p: Plan, ticks: seq<Tick>)
    requires Trades(p.cfg) && !MixesPrices(p.cycles) && ValidTicks(p.cfg, ticks)
    ensures PeakAgrees(p.cfg, Run(p, ticks)) && RunIsSafe(p, Run(p, ticks))
  {
    if ticks == [] {
      UntradedIsAtPeak(p.cfg, Opening(p.cfg));
    } else {
      DrawdownComputationsAgree(p, ticks[..|ticks| - 1]);
      TickIsSafe(p, Run(p, ticks[..|ticks| - 1]), ticks[|ticks| - 1]);
    }
  }

  function TotalAlerts(rows: seq<RiskRow>): nat {
    if rows == [] then 0 else TotalAlerts(rows[..|rows| - 1]) + |rows[|rows| - 1].alerts|
  }

  lemma {:induction false} AlertsCount(cfg: Settings, history: seq<real>, rows: seq<RiskRow>, n: nat)
    requires RecordAgrees(cfg, history, rows) && n <= |rows|
    ensures TotalAlerts(rows[..n]) == if cfg.notifyDrawdownAlerts && BlockedBefore(rows, n) then 1 else 0
  {
    if n > 0 {
      AlertsCount(cfg, history, rows, n - 1);
      assert rows[..n][..n - 1] == rows[..n - 1];
      assert RowAgrees(cfg, history, rows, n - 1);
      assert BlockedBefore(rows, n) <==> BlockedBefore(rows, n - 1) || GateBlocked(rows[n - 1]);
    } else {
      assert rows[..0] == [];
    }
  }

  /** With the default day's cycles and alerts enabled, a run raises one drawdown alert in all if the
      gate ever blocks, and none otherwise. */
  lemma OneAlertPerRun(p: Plan, ticks: seq<Tick>)
    requires Trades(p.cfg) && p.cfg.notifyDrawdownAlerts && p.cycles == FULL_RUNTIME_DAY && ValidTicks(p.cfg, ticks)
    ensures var rows := Run(p, ticks).riskRows;
      TotalAlerts(rows) == if BlockedBefore(rows, |rows|) then 1 else 0
  {
    FullRuntimeDayDoesNotMixPrices();
    DrawdownComputationsAgree(p, ticks);
    var l := Run(p, ticks);
    AlertsCount(p.cfg, l.equityHistory, l.riskRows, |l.riskRows|);
    assert l.riskRows[..|l.riskRows|] == l.riskRows;
  }
}
