/** The replay runner itself: the mutable execution state, the cycle handlers and the dispatch loop
    (replay_debug.py). Each method is proved against the state machine of `Trading`. */
module ReplayRunner {
  import opened Common
  import opened Book
  import opened Orders
  import opened Trading
  import opened MarketCalendar
  import opened TickSchedule
  import RiskAlerts
  import RebalanceSchedule

  class ReplayExecutionState {
    var cash: real
    var positions: map<Symbol, real>
    var avgCosts: map<Symbol, real>
    var currentPrices: map<Symbol, real>
    var peakEquity: real
    var latestEquity: real
    var lastRebalanceDate: Option<Day>
    var tickIndex: nat
    var equityHistory: seq<real>
    var strategyFillPnl: map<StrategyId, real>
    var strategyPeakEquity: map<StrategyId, real>
    var drawdownAlerted: bool

    constructor (startingCash: real)
      ensures BookView() == EmptyBook(startingCash) && peakEquity == latestEquity == startingCash
      ensures currentPrices == map[] && lastRebalanceDate == None && tickIndex == 0 && equityHistory == []
      ensures strategyPeakEquity == map[] && !drawdownAlerted
    {
      cash, peakEquity, latestEquity := startingCash, startingCash, startingCash;
      positions, avgCosts, currentPrices := map[], map[], map[];
      strategyFillPnl, strategyPeakEquity := map[], map[];
      lastRebalanceDate, tickIndex, equityHistory, drawdownAlerted := None, 0, [], false;
    }

    function BookView(): Book
      reads this
    {
      Book(cash, positions, avgCosts, strategyFillPnl)
    }

    method AddToStrategy(strategyId: Option<StrategyId>, amount: real)
      modifies this`strategyFillPnl
      ensures strategyFillPnl == Credit(old(strategyFillPnl), strategyId, amount)
    {
      if strategyId.Some? {
        var sid := strategyId.value;
        strategyFillPnl := strategyFillPnl[sid := Get(strategyFillPnl, sid, 0.0) + amount];
      }
    }

    /** `_apply_fill`. */
    method FillOrder(f: Fill)
      requires BookView().Sound() && ValidFill(f)
      modifies this`cash, this`positions, this`avgCosts, this`strategyFillPnl
      ensures BookView() == ApplyFill(old(BookView()), f)
    {
      if f.side.Buy? {
        var total := Times(f.qty, f.price);
        var previousQty := Get(positions, f.symbol, 0.0);
        var previousCost := Times(previousQty, Get(avgCosts, f.symbol, 0.0));
        var newQty := previousQty + f.qty;
        positions := positions[f.symbol := newQty];
        avgCosts := avgCosts[f.symbol := (previousCost + total) / newQty];
        cash := cash - total;
        AddToStrategy(f.strategyId, -total);
        return;
      }
      var held := Get(positions, f.symbol, 0.0);
      var sellQty := Min(f.qty, held);
      var proceeds := Times(sellQty, f.price);
      cash := cash + proceeds;
      var remaining := held - sellQty;
      if remaining <= 0.0 {
        positions := positions - {f.symbol};
        avgCosts := avgCosts - {f.symbol};
      } else {
        positions := positions[f.symbol := remaining];
      }
      AddToStrategy(f.strategyId, proceeds);
    }

    /** `_mark_to_market`: one pass over the positions, in any order. */
    method MarkToMarket(prices: map<Symbol, real>) returns (equity: real)
      ensures equity == Mark(BookView(), prices, currentPrices)
    {
      equity := cash;
      var pending := positions.Keys;
      ghost var unit := currentPrices + prices;
      ghost var seen: map<Symbol, real> := map[];
      while pending != {}
        invariant pending <= positions.Keys
        invariant seen == map s | s in positions && s !in pending :: positions[s]
        invariant equity == cash + Worth(seen, unit)
        decreases pending
      {
        var symbol :| symbol in pending;
        WorthOfUpdate(seen, unit, symbol, positions[symbol]);
        TimesDistributes(0.0, 0.0, Get(unit, symbol, 0.0));
        seen := seen[symbol := positions[symbol]];
        equity := equity + Times(positions[symbol], Get(prices, symbol, Get(currentPrices, symbol, 0.0)));
        pending := pending - {symbol};
      }
      assert seen == positions;
    }
  }

  /** One replay: its plan, its state, the rows it has written and the ticks it has dispatched. */
  class ReplayCycleContext {
    const plan: Plan
    const state: ReplayExecutionState
    var fillRows: seq<Fill>
    var riskRows: seq<RiskRow>
    var now: Instant
    var seenTicks: set<Instant>
    var dispatched: seq<Instant>

    constructor (plan: Plan, firstTick: Instant)
      ensures fresh(this) && fresh(state) && this.plan == plan
      ensures View() == Opening(plan.cfg)
      ensures seenTicks == {} && dispatched == []
    {
      this.plan := plan;
      state := new ReplayExecutionState(plan.cfg.startingCash);
      fillRows, riskRows, dispatched := [], [], [];
      now, seenTicks := firstTick, {};
    }

    function View(): Ledger
      reads this, state
    {
      Ledger(state.BookView(), state.currentPrices, state.peakEquity, state.latestEquity, state.lastRebalanceDate,
             state.tickIndex, state.equityHistory, state.strategyPeakEquity, state.drawdownAlerted, fillRows, riskRows)
    }

    function DeskView(breaches: set<StrategyId>): Desk
      reads this, state
    {
      Desk(state.BookView(), fillRows, state.strategyPeakEquity, breaches)
    }

    method RunMarketDataCheck(t: Tick)
      modifies state`currentPrices
      ensures View() == old(View()).(currentPrices := old(state.currentPrices) + t.bars)
    {
      state.currentPrices := state.currentPrices + t.bars;
    }

    method RunTrading(t: Tick)
      requires ValidTick(plan.cfg, t) && WellFormed(View())
      modifies this`fillRows, this`riskRows, state
      ensures View() == Trading.RunTrading(plan.cfg, old(View()), t)
    {
      var off := TradingOff(plan.cfg);
      if off.Some? {
        riskRows := riskRows + [RiskRow(true, [off.value], [])];
      } else {
        RunTradingOn(t);
      }
    }

    method RunTradingOn(t: Tick)
      requires ValidTick(plan.cfg, t) && state.BookView().Sound()
      modifies this`fillRows, this`riskRows, state
      ensures View() == Traded(plan.cfg, old(View()), t)
    {
      hide OrderLoop, Mark, GateAlerts;
      var prices := PricesForTick(plan.cfg, t);
      var alerts := OpenTick(prices);
      var blocked := Blocked(plan.cfg, View());
      var breaches := RunOrders(EnvFor(plan.cfg, View(), prices));
      MarkBook(prices);
      riskRows := riskRows + [RowFor(blocked, breaches != {}, alerts)];
    }

    /** The part of `_run_trading` before the orders: the opening mark and the drawdown gate. */
    method OpenTick(prices: map<Symbol, real>) returns (alerts: seq<RiskAlerts.Alert>)
      modifies state`currentPrices, state`latestEquity, state`peakEquity, state`equityHistory, state`drawdownAlerted
      ensures View() == Opened(plan.cfg, old(View()), prices)
      ensures alerts == GateAlerts(plan.cfg, Blocked(plan.cfg, View()), old(state.drawdownAlerted), state.equityHistory)
    {
      hide Mark;
      state.currentPrices := state.currentPrices + prices;
      var equity := state.MarkToMarket(prices);
      state.latestEquity := equity;
      state.peakEquity := Max(state.peakEquity, equity);
      state.equityHistory := state.equityHistory + [equity];
      var blocked := Abs(DrawdownFrom(state.peakEquity, state.latestEquity)) >= plan.cfg.maxDrawdownLimit;
      alerts := RaiseDrawdownAlerts(blocked);
    }

    /** A mark into the latest equity and the peak. */
    method MarkBook(prices: map<Symbol, real>)
      modifies state`latestEquity, state`peakEquity
      ensures View() == Marked(old(View()), prices)
    {
      var equity := state.MarkToMarket(prices);
      state.latestEquity := equity;
      state.peakEquity := Max(state.peakEquity, equity);
    }

    /** The first blocked tick asks the risk service, and remembers that it answered. */
    method RaiseDrawdownAlerts(blocked: bool) returns (alerts: seq<RiskAlerts.Alert>)
      modifies state`drawdownAlerted
      ensures alerts == GateAlerts(plan.cfg, blocked, old(state.drawdownAlerted), state.equityHistory)
      ensures state.drawdownAlerted == (old(state.drawdownAlerted) || alerts != [])
    {
      alerts := [];
      if blocked && plan.cfg.notifyDrawdownAlerts && !state.drawdownAlerted {
        alerts := RiskAlerts.EvaluateDrawdownBreach(plan.cfg.maxDrawdownLimit, state.latestEquity, state.equityHistory);
        if alerts != [] {
          state.drawdownAlerted := true;
        }
      }
    }

    /** The order loop of `_run_trading`. */
    method RunOrders(env: Env) returns (breaches: set<StrategyId>)
      requires env.Valid() && state.BookView().Sound()
      modifies this`fillRows, state`cash, state`positions, state`avgCosts
      modifies state`strategyFillPnl, state`strategyPeakEquity
      ensures DeskView(breaches) == OrderLoop(env, old(DeskView({})), |env.cfg.symbols|)
    {
      breaches := {};
      ghost var start := DeskView({});
      for i := 0 to |env.cfg.symbols|
        invariant state.BookView().Sound()
        invariant DeskView(breaches) == OrderLoop(env, start, i)
      {
        breaches := RunOrder(env, i, breaches);
      }
    }

    /** The loop's body: the gate, the strategy's own drawdown, the order and its fill. */
    method RunOrder(env: Env, i: nat, found: set<StrategyId>) returns (breaches: set<StrategyId>)
      requires env.Valid() && state.BookView().Sound() && i < |env.cfg.symbols|
      modifies this`fillRows, state`cash, state`positions, state`avgCosts
      modifies state`strategyFillPnl, state`strategyPeakEquity
      ensures DeskView(breaches) == OrderStep(env, old(DeskView(found)), i)
    {
      breaches := found;
      var symbol, sid := env.cfg.symbols[i], env.cfg.StrategyOf(i);
      var price := env.prices[symbol];
      var side := DecisionFor(env.tickIndex, Get(state.positions, symbol, 0.0));
      if env.gateBlocked {
        return;
      }
      var equity := StrategyEquity(env.cfg, state.BookView(), env.prices, sid);
      var peak := Max(Get(state.strategyPeakEquity, sid, equity), equity);
      state.strategyPeakEquity := state.strategyPeakEquity[sid := peak];
      if Abs(DrawdownFrom(peak, equity)) >= env.cfg.maxStrategyDrawdown {
        breaches := breaches + {sid};
        return;
      }
      var qty := QuantityForOrder(env, state.BookView(), symbol, side, price, sid);
      if qty <= 0.0 {
        return;
      }
      var f := Fill(symbol, side, qty, price, Some(sid));
      state.FillOrder(f);
      fillRows := fillRows + [f];
    }

    method RunRebalanceCheck(t: Tick)
      requires t.day >= RebalanceSchedule.FIRST_ISO_DAY && ValidLastRebalance(View())
      modifies state`lastRebalanceDate
      ensures View() == RunRebalance(plan.frequency, old(View()), t)
    {
      if RebalanceSchedule.Due(plan.frequency, state.lastRebalanceDate, t.day) {
        state.lastRebalanceDate := Some(t.day);
      }
    }

    method WriteCashSnapshot()
      modifies state`latestEquity, state`peakEquity
      ensures View() == RunPortfolioSnapshot(old(View()))
    {
      MarkBook(state.currentPrices);
    }

    method RunOneCycle(c: Cycle, t: Tick)
      requires ValidTick(plan.cfg, t) && WellFormed(View())
      modifies this`fillRows, this`riskRows, state
      ensures View() == RunCycle(plan, old(View()), c, t)
    {
      match c
      case MarketBackfill => RunMarketDataCheck(t);
      case Trade => RunTrading(t);
      case Rebalance => RunRebalanceCheck(t);
      case PortfolioSnapshot => WriteCashSnapshot();
      case _ =>
    }

    method RunAllCycles(t: Tick)
      requires ValidTick(plan.cfg, t) && WellFormed(View())
      modifies this`fillRows, this`riskRows, state
      ensures View() == RunCycles(plan, old(View()), t, |plan.cycles|)
    {
      hide RunCycle;
      ghost var start := View();
      for i := 0 to |plan.cycles|
        invariant WellFormed(View()) && View() == RunCycles(plan, start, t, i)
      {
        RunOneCycle(plan.cycles[i], t);
      }
    }

    // -------------------------------------------------------------------------
    // Dispatch
    // -------------------------------------------------------------------------

    /** The state is what the dispatched ticks make of the opening. */
    ghost predicate Tracks(feed: Instant -> Tick)
      requires ValidFeed(plan.cfg, feed)
      reads this, state
    {
      && (forall i :: i in seenTicks <==> i in dispatched)
      && View() == RunOver(plan, feed, dispatched)
    }

    method Dispatch(tick: Instant, feed: Instant -> Tick)
      requires ValidFeed(plan.cfg, feed) && Tracks(feed)
      modifies this, state
      ensures Tracks(feed) && dispatched == old(dispatched) + [tick]
    {
      OneMoreTick(plan, feed, dispatched, tick);
      AdvanceTo(tick);
      RunAllCycles(feed(tick));
    }

    /** The clock moves to a tick, which is counted and remembered. */
    method AdvanceTo(tick: Instant)
      modifies this`now, this`seenTicks, this`dispatched, state`tickIndex
      ensures View() == old(View()).(tickIndex := old(state.tickIndex) + 1)
      ensures now == tick && seenTicks == old(seenTicks) + {tick} && dispatched == old(dispatched) + [tick]
    {
      now := tick;
      state.tickIndex := state.tickIndex + 1;
      seenTicks := seenTicks + {tick};
      dispatched := dispatched + [tick];
    }

    /** `_run_day`. */
    method RunDay(c: Calendar, ghost start: Day, day: Day, interval: int, maxTicks: Option<int>, feed: Instant -> Tick)
      requires ValidFeed(plan.cfg, feed) && Tracks(feed) && Zoned(c) && interval > 0
      requires start <= day && c.isTradingDay(day) && dispatched == AllTicks(c, start, day, interval)
      requires !ReachedCap(|dispatched|, maxTicks)
      modifies this, state
      ensures Tracks(feed)
      ensures dispatched == Capped(AllTicks(c, start, day + 1, interval), maxTicks)
    {
      hide AllTicks, Capped, Tracks;
      NextDayTicks(c, start, day, interval);
      var tick, sessionEnd := c.open(day), c.close(day);
      while tick <= sessionEnd
        invariant Tracks(feed)
        invariant AllTicks(c, start, day + 1, interval) == dispatched + DayTicks(tick, sessionEnd, interval)
        invariant maxTicks.Some? ==> |dispatched| <= maxTicks.value
        decreases sessionEnd - tick
      {
        if ReachedCap(|dispatched|, maxTicks) {
          CappedPrefix(dispatched, DayTicks(tick, sessionEnd, interval), maxTicks);
          return;
        }
        NextOfDay(c, start, day + 1, interval, dispatched, tick, sessionEnd);
        SeenAreDispatched(feed);
        if tick !in seenTicks {
          Dispatch(tick, feed);
        }
        tick := tick + interval;
      }
      assert dispatched + [] == dispatched;
      AllWithinCap(dispatched, maxTicks);
    }

    lemma SeenAreDispatched(feed: Instant -> Tick)
      requires ValidFeed(plan.cfg, feed) && Tracks(feed)
      ensures forall i :: i in seenTicks <==> i in dispatched
    {
    }

    /** `_run_replay`: the dispatched ticks are those the calendar schedules, and the final ledger is
        the state machine's run over them. */
    method RunReplay(c: Calendar, startDate: Day, endDate: Day, interval: int, maxTicks: Option<int>,
                     feed: Instant -> Tick)
      requires ValidFeed(plan.cfg, feed) && Tracks(feed) && dispatched == [] && Zoned(c) && interval > 0
      modifies this, state
      ensures dispatched == Capped(AllTicks(c, startDate, endDate + 1, interval), maxTicks)
      ensures View() == RunOver(plan, feed, dispatched)
    {
      hide AllTicks, Capped, Tracks;
      var day := startDate;
      NoDaysNoTicks(c, startDate, day, interval, maxTicks);
      while day <= endDate
        invariant startDate <= day && (day <= endDate + 1 || day == startDate)
        invariant Tracks(feed)
        invariant dispatched == Capped(AllTicks(c, startDate, day, interval), maxTicks)
        decreases endDate - day
      {
        if c.isTradingDay(day) {
          if ReachedCap(|dispatched|, maxTicks) {
            CapSticks(c, startDate, day, endDate + 1, interval, maxTicks);
            break;
          }
          NotCapped(AllTicks(c, startDate, day, interval), maxTicks);
          RunDay(c, startDate, day, interval, maxTicks, feed);
        } else {
          NextDayTicks(c, startDate, day, interval);
          assert AllTicks(c, startDate, day, interval) + [] == AllTicks(c, startDate, day, interval);
        }
        day := day + 1;
      }
      if endDate + 1 < startDate {
        NoDaysNoTicks(c, startDate, endDate + 1, interval, maxTicks);
      }
      TracksTheRun(feed);
    }

    lemma TracksTheRun(feed: Instant -> Tick)
      requires ValidFeed(plan.cfg, feed) && Tracks(feed)
      ensures View() == RunOver(plan, feed, dispatched)
    {
    }
  }

  lemma NoDaysNoTicks(c: Calendar, start: Day, until: Day, interval: int, cap: Option<int>)
    requires interval > 0 && until <= start
    ensures Capped(AllTicks(c, start, until, interval), cap) == []
  {
  }

  lemma NotCapped(ticks: seq<Instant>, cap: Option<int>)
    requires !ReachedCap(|Capped(ticks, cap)|, cap)
    ensures Capped(ticks, cap) == ticks
  {
  }

  lemma CappedPrefix(done: seq<Instant>, rest: seq<Instant>, cap: Option<int>)
    requires ReachedCap(|done|, cap) && |done| <= cap.value
    ensures Capped(done + rest, cap) == done
  {
  }

  lemma AllWithinCap(ticks: seq<Instant>, cap: Option<int>)
    requires cap.Some? ==> |ticks| <= cap.value
    ensures Capped(ticks, cap) == ticks
  {
  }

  /** Once the cap is reached, later days add nothing. */
  lemma CapSticks(c: Calendar, start: Day, mid: Day, until: Day, interval: int, cap: Option<int>)
    requires interval > 0 && mid <= until
    requires ReachedCap(|Capped(AllTicks(c, start, mid, interval), cap)|, cap)
    ensures Capped(AllTicks(c, start, until, interval), cap) == Capped(AllTicks(c, start, mid, interval), cap)
  {
    PrefixOfLater(c, start, mid, until, interval);
  }

  /** The next tick of a session is new, and the rest of the session follows it. */
  lemma NextOfDay(c: Calendar, start: Day, until: Day, interval: int, done: seq<Instant>, tick: Instant, end: Instant)
    requires Zoned(c) && interval > 0 && tick <= end
    requires AllTicks(c, start, until, interval) == done + DayTicks(tick, end, interval)
    ensures tick !in done
    ensures AllTicks(c, start, until, interval) == done + [tick] + DayTicks(tick + interval, end, interval)
  {
    hide AllTicks, DayTicks;
    var all := AllTicks(c, start, until, interval);
    NextTick(done, tick, end, interval);
    TicksInOrder(c, start, until, interval);
    assert all[|done|] == tick && forall i :: 0 <= i < |done| ==> all[i] == done[i];
  }

  /** What the market shows at every instant is usable. */
  ghost predicate ValidFeed(cfg: Settings, feed: Instant -> Tick) {
    forall i :: ValidTick(cfg, feed(i))
  }

  function Fed(feed: Instant -> Tick, ticks: seq<Instant>): (fed: seq<Tick>)
    ensures |fed| == |ticks|
    ensures forall i :: 0 <= i < |ticks| ==> fed[i] == feed(ticks[i])
  {
    seq(|ticks|, i requires 0 <= i < |ticks| => feed(ticks[i]))
  }

  lemma FedIsValid(cfg: Settings, feed: Instant -> Tick, ticks: seq<Instant>)
    requires ValidFeed(cfg, feed)
    ensures ValidTicks(cfg, Fed(feed, ticks))
  {
    forall i | 0 <= i < |ticks| ensures ValidTick(cfg, Fed(feed, ticks)[i]) {
      var t: Instant := ticks[i];
      assert ValidTick(cfg, feed(t));
    }
  }

  /** The state machine's run over the given instants. */
  ghost function RunOver(plan: Plan, feed: Instant -> Tick, ticks: seq<Instant>): (l: Ledger)
    requires ValidFeed(plan.cfg, feed)
    ensures WellFormed(l)
  {
    FedIsValid(plan.cfg, feed, ticks);
    Run(plan, Fed(feed, ticks))
  }

  lemma OneMoreTick(plan: Plan, feed: Instant -> Tick, ticks: seq<Instant>, t: Instant)
    requires ValidFeed(plan.cfg, feed)
    ensures ValidTick(plan.cfg, feed(t))
    ensures RunOver(plan, feed, ticks + [t]) == RunTick(plan, RunOver(plan, feed, ticks), feed(t))
  {
    var fed := Fed(feed, ticks + [t]);
    var front, before := fed[..|ticks|], Fed(feed, ticks);
    forall i | 0 <= i < |ticks| ensures front[i] == before[i] {
      assert (ticks + [t])[i] == ticks[i];
    }
    assert front == before;
    assert fed[|ticks|] == feed(t);
  }

  /** The ticks' dates do not run backwards. */
  predicate DaysFollowTicks(feed: Instant -> Tick, ticks: seq<Instant>) {
    forall i, j :: 0 <= i < j < |ticks| ==> feed(ticks[i]).day <= feed(ticks[j]).day
  }

  lemma OneMoreDay(feed: Instant -> Tick, ticks: seq<Instant>, k: nat)
    requires k < |ticks|
    ensures Days(Fed(feed, ticks[..k + 1])) == Days(Fed(feed, ticks[..k])) + [feed(ticks[k]).day]
  {
  }

  lemma DaysInOrder(feed: Instant -> Tick, ticks: seq<Instant>, k: nat)
    requires DaysFollowTicks(feed, ticks) && k < |ticks|
    ensures NonDecreasing(Days(Fed(feed, ticks[..k])))
    ensures k > 0 ==> Days(Fed(feed, ticks[..k]))[k - 1] == feed(ticks[k - 1]).day <= feed(ticks[k]).day
  {
  }

  lemma CheckChangesDate(f: RebalanceSchedule.Frequency, days: seq<Day>, today: Day)
    requires RebalanceSchedule.ValidDays(days) && today >= RebalanceSchedule.FIRST_ISO_DAY
    ensures RebalanceSchedule.ValidDays(days + [today])
    ensures (RebalanceSchedule.LastRebalance(f, days + [today]) != RebalanceSchedule.LastRebalance(f, days))
       <==> RebalanceSchedule.Due(f, RebalanceSchedule.LastRebalance(f, days), today)
  {
    assert (days + [today])[..|days|] == days && (days + [today])[|days|] == today;
  }

  lemma RunRebalancesOver(plan: Plan, feed: Instant -> Tick, ticks: seq<Instant>)
    requires ValidFeed(plan.cfg, feed) && Rebalance in plan.cycles
    ensures RebalanceSchedule.ValidDays(Days(Fed(feed, ticks)))
    ensures RunOver(plan, feed, ticks).lastRebalance
         == RebalanceSchedule.LastRebalance(plan.frequency, Days(Fed(feed, ticks)))
  {
    FedIsValid(plan.cfg, feed, ticks);
    RunRebalances(plan, Fed(feed, ticks));
  }

  /** The run up to and including tick `k` remembers another date than the run before it. */
  ghost predicate RebalancesAt(plan: Plan, feed: Instant -> Tick, ticks: seq<Instant>, k: nat)
    requires ValidFeed(plan.cfg, feed) && k < |ticks|
  {
    RunOver(plan, feed, ticks[..k + 1]).lastRebalance != RunOver(plan, feed, ticks[..k]).lastRebalance
  }

  /** Tick `k` is the first one, or falls in another period than the one before it. */
  ghost predicate FirstOfPeriod(plan: Plan, feed: Instant -> Tick, ticks: seq<Instant>, k: nat)
    requires ValidFeed(plan.cfg, feed) && k < |ticks|
  {
    FedIsValid(plan.cfg, feed, ticks);
    assert forall i :: 0 <= i < |ticks| ==> ValidTick(plan.cfg, Fed(feed, ticks)[i]);
    k == 0 || !RebalanceSchedule.SamePeriod(plan.frequency, feed(ticks[k - 1]).day, feed(ticks[k]).day)
  }

  lemma RebalancesWhenDue(plan: Plan, feed: Instant -> Tick, ticks: seq<Instant>, k: nat)
    requires ValidFeed(plan.cfg, feed) && Rebalance in plan.cycles && k < |ticks|
    ensures var days := Days(Fed(feed, ticks[..k]));
      && RebalanceSchedule.ValidDays(days) && feed(ticks[k]).day >= RebalanceSchedule.FIRST_ISO_DAY
      && (RebalancesAt(plan, feed, ticks, k)
          <==> RebalanceSchedule.Due(plan.frequency, RebalanceSchedule.LastRebalance(plan.frequency, days),
                                     feed(ticks[k]).day))
  {
    FedIsValid(plan.cfg, feed, ticks);
    assert ValidTick(plan.cfg, Fed(feed, ticks)[k]);
    RunRebalancesOver(plan, feed, ticks[..k]);
    RunRebalancesOver(plan, feed, ticks[..k + 1]);
    OneMoreDay(feed, ticks, k);
    CheckChangesDate(plan.frequency, Days(Fed(feed, ticks[..k])), feed(ticks[k]).day);
  }

  /** Over dispatched ticks whose dates follow the clock, the remembered date changes exactly at the first
      tick of each period. */
  lemma RebalancesAtFirstTickOfPeriod(plan: Plan, feed: Instant -> Tick, ticks: seq<Instant>, k: nat)
    requires ValidFeed(plan.cfg, feed) && Rebalance in plan.cycles
    requires DaysFollowTicks(feed, ticks) && k < |ticks|
    ensures RebalancesAt(plan, feed, ticks, k) <==> FirstOfPeriod(plan, feed, ticks, k)
  {
    hide RebalancesAt;
    RebalancesWhenDue(plan, feed, ticks, k);
    var days := Days(Fed(feed, ticks[..k]));
    DaysInOrder(feed, ticks, k);
    RebalanceSchedule.RebalancesAtPeriodChanges(plan.frequency, days, feed(ticks[k]).day);
  }

  /** What the schedule's ticks show is dated by their Eastern dates: sessions do not cross midnight. */
  predicate DatedByCalendar(c: Calendar, feed: Instant -> Tick, ticks: seq<Instant>) {
    forall i :: 0 <= i < |ticks| ==> feed(ticks[i]).day == c.etDate(ticks[i])
  }

  lemma CalendarDatesFollowTicks(c: Calendar, feed: Instant -> Tick, ticks: seq<Instant>)
    requires Zoned(c) && DatedByCalendar(c, feed, ticks) && StrictlyIncreasing(ticks)
    ensures DaysFollowTicks(feed, ticks)
  {
    forall i, j | 0 <= i < j < |ticks| ensures feed(ticks[i]).day <= feed(ticks[j]).day {
      assert c.etDate(ticks[i]) <= c.etDate(ticks[j]);
    }
  }

  /** A replay rebalances exactly at the first of its scheduled ticks in each period. */
  lemma ReplayRebalances(plan: Plan, c: Calendar, startDate: Day, endDate: Day, cadence: int, maxTicks: Option<int>,
                         feed: Instant -> Tick, k: nat)
    requires ValidFeed(plan.cfg, feed) && Rebalance in plan.cycles && Zoned(c) && cadence > 0
    requires DatedByCalendar(c, feed, Capped(AllTicks(c, startDate, endDate + 1, cadence), maxTicks))
    requires k < |Capped(AllTicks(c, startDate, endDate + 1, cadence), maxTicks)|
    ensures var ticks := Capped(AllTicks(c, startDate, endDate + 1, cadence), maxTicks);
      RebalancesAt(plan, feed, ticks, k) <==> FirstOfPeriod(plan, feed, ticks, k)
  {
    var ticks := Capped(AllTicks(c, startDate, endDate + 1, cadence), maxTicks);
    TicksInOrder(c, startDate, endDate + 1, cadence);
    CalendarDatesFollowTicks(c, feed, ticks);
    RebalancesAtFirstTickOfPeriod(plan, feed, ticks, k);
  }

  lemma OpeningSnapshotChangesNothing(cfg: Settings)
    ensures RunPortfolioSnapshot(Opening(cfg)) == Opening(cfg)
  {
    assert Valued(map[], map[]) == map[];
  }

  /** A whole replay: it dispatches exactly the ticks the calendar schedules, and leaves the ledger of
      the state machine's run over them. */
  method Replay(plan: Plan, c: Calendar, startDate: Day, endDate: Day, cadence: int, maxTicks: Option<int>,
                feed: Instant -> Tick)
    returns (ctx: ReplayCycleContext)
    requires ValidFeed(plan.cfg, feed) && Zoned(c) && cadence > 0
    ensures ctx.plan == plan
    ensures ctx.dispatched == Capped(AllTicks(c, startDate, endDate + 1, cadence), maxTicks)
    ensures ctx.View() == RunOver(plan, feed, ctx.dispatched)
  {
    ctx := new ReplayCycleContext(plan, c.open(startDate));
    OpeningSnapshotChangesNothing(plan.cfg);
    ctx.WriteCashSnapshot();
    assert Fed(feed, []) == [];
    ctx.RunReplay(c, startDate, endDate, cadence, maxTicks, feed);
  }
}
