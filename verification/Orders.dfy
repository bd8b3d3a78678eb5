/** The order loop of one trading cycle (replay_debug.py, `_run_trading`, `_decision_for`,
    `_quantity_for_order`). */
module Orders {
  import opened Common
  import opened Book
  import opened Rounding

  datatype RiskTolerance = Low | Medium | High | OtherTolerance

  /** `_RISK_TOLERANCE_MULTIPLIERS`, one for anything unknown. */
  function Multiplier(t: RiskTolerance): real {
    match t
    case Low => 0.5
    case High => 1.5
    case _ => 1.0
  }

  datatype StrategyControl = StrategyControl(strategyId: StrategyId, enabled: bool)

  datatype AllocationOverride = AllocationOverride(
    strategyId: StrategyId,
    isActive: bool,
    maxPct: Option<real>,
    maxPositionUsd: Option<real>)

  /** The inputs of a run and the part of the settings snapshot that trading reads. */
  datatype Settings = Settings(
    symbols: seq<Symbol>,
    startingCash: real,
    killSwitch: bool,
    tradingPaused: bool,
    tradingEnabled: bool,
    maxDrawdownLimit: real,
    maxStrategyDrawdown: real,
    riskTolerance: RiskTolerance,
    perStrategyCap: real,
    notifyDrawdownAlerts: bool,
    controls: seq<StrategyControl>,
    overrides: seq<AllocationOverride>,
    volScalar: seq<real> -> real)
  {
    /** At least one, so that the remainder below is defined. */
    function StrategyIds(): (ids: seq<StrategyId>)
      ensures ids != []
    {
      var enabled := EnabledIds(controls);
      if enabled != [] then enabled else [DEFAULT_STRATEGY_ID]
    }

    function StrategyOf(i: nat): StrategyId {
      StrategyIds()[i % |StrategyIds()|]
    }
  }

  const DEFAULT_STRATEGY_ID: StrategyId := "baseline_strategy"

  function EnabledIds(controls: seq<StrategyControl>): seq<StrategyId> {
    if controls == [] then []
    else
      var front, last := EnabledIds(controls[..|controls| - 1]), controls[|controls| - 1];
      if last.enabled then front + [last.strategyId] else front
  }

  /** The first active override of a strategy. */
  function OverrideOf(rows: seq<AllocationOverride>, sid: StrategyId): Option<AllocationOverride> {
    if rows == [] then None
    else if rows[0].strategyId == sid && rows[0].isActive then Some(rows[0])
    else OverrideOf(rows[1..], sid)
  }

  /** What stays fixed while the loop runs. */
  datatype Env = Env(
    cfg: Settings,
    prices: map<Symbol, real>,
    tickIndex: nat,
    latestEquity: real,
    volScalar: real,
    gateBlocked: bool)
  {
    predicate Valid() {
      forall s :: s in cfg.symbols ==> s in prices && prices[s] > 0.0
    }
  }

  /** What the loop updates: the book, the fill rows, the strategies' peaks and their breaches. */
  datatype Desk = Desk(
    book: Book,
    fills: seq<Fill>,
    strategyPeaks: map<StrategyId, real>,
    breaches: set<StrategyId>)

  const SELL_EVERY := 7

  function DecisionFor(tickIndex: nat, held: real): Side {
    if held <= 0.0 then Buy
    else if tickIndex % SELL_EVERY == 0 then Sell
    else Buy
  }

  function AtLeastOne(n: nat): nat {
    if n == 0 then 1 else n
  }

  function CapFor(cfg: Settings, sid: StrategyId): real {
    var cap := Min(Times(cfg.perStrategyCap, Multiplier(cfg.riskTolerance)), 1.0);
    var override := OverrideOf(cfg.overrides, sid);
    if override.Some? && override.value.maxPct.Some? then Min(cap, override.value.maxPct.value) else cap
  }

  /** What sizing starts from. */
  function EquityBase(env: Env): real {
    Max(env.latestEquity, env.cfg.startingCash)
  }

  /** What the strategy's limits allow for one order. */
  function SizedFor(env: Env, sid: StrategyId): real {
    var override := OverrideOf(env.cfg.overrides, sid);
    var share := Times(EquityBase(env), CapFor(env.cfg, sid)) / AtLeastOne(|env.cfg.symbols|) as real;
    if override.Some? && override.value.maxPositionUsd.Some?
    then Min(share, override.value.maxPositionUsd.value) else share
  }

  /** What may be spent on one order, before it is turned into shares: never more than the cash. */
  function NotionalFor(env: Env, cash: real, sid: StrategyId): real {
    Min(Times(SizedFor(env, sid), env.volScalar), cash)
  }

  function QuantityForOrder(env: Env, b: Book, symbol: Symbol, side: Side, price: real, sid: StrategyId): real
    requires price > 0.0
  {
    if side.Sell? then b.Held(symbol) else Quantize4(NotionalFor(env, b.cash, sid) / price)
  }

  /** Market value of the first `n` symbols that are assigned to `sid`. */
  function StrategyValue(cfg: Settings, positions: map<Symbol, real>, prices: map<Symbol, real>, sid: StrategyId,
                         n: nat): real
    requires n <= |cfg.symbols|
  {
    if n == 0 then 0.0
    else
      var s := cfg.symbols[n - 1];
      StrategyValue(cfg, positions, prices, sid, n - 1)
      + if cfg.StrategyOf(n - 1) == sid then Times(Get(positions, s, 0.0), Get(prices, s, 0.0)) else 0.0
  }

  /** A strategy's equity: its share of the starting cash, its cash flow, and its positions. */
  function StrategyEquity(cfg: Settings, b: Book, prices: map<Symbol, real>, sid: StrategyId): real {
    cfg.startingCash / |cfg.StrategyIds()| as real
    + Get(b.fillPnl, sid, 0.0)
    + StrategyValue(cfg, b.positions, prices, sid, |cfg.symbols|)
  }

  function DrawdownFrom(peak: real, equity: real): real {
    if peak > 0.0 then (equity - peak) / peak else 0.0
  }

  /** One pass through the loop body, for the symbol at index `i`. */
  function OrderStep(env: Env, d: Desk, i: nat): (d': Desk)
    requires env.Valid() && d.book.Sound() && i < |env.cfg.symbols|
    ensures d'.book.Sound()
  {
    if env.gateBlocked then d
    else
      var symbol, sid := env.cfg.symbols[i], env.cfg.StrategyOf(i);
      var price := env.prices[symbol];
      var side := DecisionFor(env.tickIndex, d.book.Held(symbol));
      var equity := StrategyEquity(env.cfg, d.book, env.prices, sid);
      var peak := Max(Get(d.strategyPeaks, sid, equity), equity);
      var watched := d.(strategyPeaks := d.strategyPeaks[sid := peak]);
      if Abs(DrawdownFrom(peak, equity)) >= env.cfg.maxStrategyDrawdown then
        watched.(breaches := d.breaches + {sid})
      else
        var qty := QuantityForOrder(env, d.book, symbol, side, price, sid);
        if qty <= 0.0 then watched
        else
          var f := Fill(symbol, side, qty, price, Some(sid));
          watched.(book := ApplyFill(d.book, f), fills := d.fills + [f])
  }

  /** The first `n` passes. */
  function OrderLoop(env: Env, d: Desk, n: nat): (d': Desk)
    requires env.Valid() && d.book.Sound() && n <= |env.cfg.symbols|
    ensures d'.book.Sound()
  {
    if n == 0 then d else OrderStep(env, OrderLoop(env, d, n - 1), n - 1)
  }

  // ---------------------------------------------------------------------------
  // Equity is conserved
  // ---------------------------------------------------------------------------

  /** Whatever mix of buys, sells, blocks and skips the loop makes, equity marked at the tick's
      prices is the same after it as before it. */
  lemma {:induction false} OrderLoopKeepsEquity(env: Env, d: Desk, n: nat, current: map<Symbol, real>)
    requires env.Valid() && d.book.Sound() && n <= |env.cfg.symbols|
    ensures Mark(OrderLoop(env, d, n).book, env.prices, current) == Mark(d.book, env.prices, current)
  {
    hide OrderStep, Mark;
    if n > 0 {
      OrderLoopKeepsEquity(env, d, n - 1, current);
      OrderStepKeepsEquity(env, OrderLoop(env, d, n - 1), n - 1, current);
    }
  }

  lemma OrderStepKeepsEquity(env: Env, d: Desk, i: nat, current: map<Symbol, real>)
    requires env.Valid() && d.book.Sound() && i < |env.cfg.symbols|
    ensures Mark(OrderStep(env, d, i).book, env.prices, current) == Mark(d.book, env.prices, current)
  {
    var d' := OrderStep(env, d, i);
    if d'.fills != d.fills {
      var f := d'.fills[|d.fills|];
      assert d'.book == ApplyFill(d.book, f);
      FillKeepsEquity(d.book, f, env.prices, current);
    }
  }

  // ---------------------------------------------------------------------------
  // What the gate and the sizing promise
  // ---------------------------------------------------------------------------

  /** A blocked gate stops everything: no order, no breach, no new peak. */
  lemma {:induction false} BlockedGatePlacesNoOrders(env: Env, d: Desk, n: nat)
    requires env.Valid() && d.book.Sound() && n <= |env.cfg.symbols| && env.gateBlocked
    ensures OrderLoop(env, d, n) == d
  {
    if n > 0 {
      BlockedGatePlacesNoOrders(env, d, n - 1);
    }
  }

  /** What a pass decides: a held symbol is sold on every seventh tick, and then all of it; in every
      other case a recorded order is a buy, of the notional up to rounding. The fill has the pass's symbol
      at its price, and is credited to the strategy the symbol is assigned to, round robin. */
  lemma OrderFollowsDecision(env: Env, d: Desk, i: nat)
    requires env.Valid() && d.book.Sound() && i < |env.cfg.symbols|
    requires OrderStep(env, d, i).fills != d.fills
    ensures |OrderStep(env, d, i).fills| == |d.fills| + 1 && OrderStep(env, d, i).fills[..|d.fills|] == d.fills
    ensures var f, symbol := OrderStep(env, d, i).fills[|d.fills|], env.cfg.symbols[i];
      && f.symbol == symbol && f.price == env.prices[symbol]
      && f.strategyId == Some(env.cfg.StrategyIds()[i % |env.cfg.StrategyIds()|])
      && (f.side.Sell? <==> env.tickIndex % 7 == 0 && symbol in d.book.positions)
      && (f.side.Sell? ==> OrderStep(env, d, i).book.positions == d.book.positions - {symbol}
                           && f.qty == d.book.positions[symbol])
      && (f.side.Buy? ==> Abs(Times(f.qty, f.price) - NotionalFor(env, d.book.cash, f.strategyId.value))
                          <= Times(HALF_A_TICK, f.price))
  {
    hide NotionalFor, StrategyEquity, Times;
    var f := OrderStep(env, d, i).fills[|d.fills|];
    RoundedToTick(NotionalFor(env, d.book.cash, f.strategyId.value), f.price);
  }

  lemma RoundedToTick(notional: real, price: real)
    requires price > 0.0
    ensures Abs(Times(Quantize4(notional / price), price) - notional) <= Times(HALF_A_TICK, price)
  {
    var exact, qty := notional / price, Quantize4(notional / price);
    Quantize4Bounds(exact);
    TimesQuotient(price, notional);
    TimesDistributes(qty, exact, price);
    assert Times(exact, price) == notional;
    TimesMonotone(qty - exact, HALF_A_TICK, price);
    TimesMonotone(-HALF_A_TICK, qty - exact, price);
  }

  /** Equity has fallen from a positive peak by the limit's share of it; a limit that is not positive is
      always reached. */
  predicate FallenBy(limit: real, peak: real, equity: real) {
    limit <= 0.0 || (peak > 0.0 && equity <= peak - Times(peak, limit))
  }

  lemma DrawdownInShares(peak: real, equity: real, limit: real)
    requires equity <= peak
    ensures Abs(DrawdownFrom(peak, equity)) >= limit <==> FallenBy(limit, peak, equity)
  {
    if peak > 0.0 {
      var fall := DrawdownFrom(peak, equity);
      TimesQuotient(peak, equity - peak);
      assert Times(peak, fall) == equity - peak;
      if fall > 0.0 {
        TimesMonotone(0.0, fall, peak);
      }
      assert Times(peak, -fall) == peak - equity;
      if limit <= -fall {
        TimesMonotone(limit, -fall, peak);
      } else {
        TimesMonotone(-fall, limit, peak);
      }
    }
  }

  /** What the desk wants to trade for the symbol at index `i`, before any gate. */
  function Wanted(env: Env, b: Book, i: nat): real
    requires env.Valid() && i < |env.cfg.symbols|
  {
    var symbol := env.cfg.symbols[i];
    QuantityForOrder(env, b, symbol, DecisionFor(env.tickIndex, b.Held(symbol)), env.prices[symbol],
                     env.cfg.StrategyOf(i))
  }

  /** The strategy's own gate, with the portfolio's open: its peak becomes the larger of the kept one
      and its equity, nobody else's moves; it is in breach exactly when its equity has fallen from that
      peak by the limit; and an order is placed exactly when it is not and something is wanted. */
  lemma StrategyGate(env: Env, d: Desk, i: nat)
    requires env.Valid() && d.book.Sound() && i < |env.cfg.symbols|
    requires !env.gateBlocked
    ensures var sid, d' := env.cfg.StrategyOf(i), OrderStep(env, d, i);
      var equity := StrategyEquity(env.cfg, d.book, env.prices, sid);
      var kept := Get(d.strategyPeaks, sid, equity);
      && sid in d'.strategyPeaks && kept <= d'.strategyPeaks[sid] && equity <= d'.strategyPeaks[sid]
      && (d'.strategyPeaks[sid] == equity || d'.strategyPeaks[sid] == kept)
      && d'.strategyPeaks - {sid} == d.strategyPeaks - {sid}
      && var breached := FallenBy(env.cfg.maxStrategyDrawdown, d'.strategyPeaks[sid], equity);
         d'.breaches == (if breached then d.breaches + {sid} else d.breaches)
         && (d'.fills != d.fills <==> !breached && Wanted(env, d.book, i) > 0.0)
  {
    var sid := env.cfg.StrategyOf(i);
    var equity := StrategyEquity(env.cfg, d.book, env.prices, sid);
    DrawdownInShares(Max(Get(d.strategyPeaks, sid, equity), equity), equity, env.cfg.maxStrategyDrawdown);
  }

  /** The strategy cap's factor at a risk tolerance. */
  predicate ScaledByTolerance(tolerance: RiskTolerance, cap: real, scaled: real) {
    match tolerance
    case Low => scaled + scaled == cap
    case Medium => scaled == cap
    case High => scaled == cap + cap / 2.0
    case OtherTolerance => scaled == cap
  }

  /** The limits on one order, one by one: the strategy cap at the risk tolerance, the whole share,
      the override's percentage and its amount. */
  ghost predicate WithinLimits(env: Env, sid: StrategyId, amount: real) {
    var equity := Max(env.latestEquity, env.cfg.startingCash);
    var n := if env.cfg.symbols == [] then 1.0 else |env.cfg.symbols| as real;
    var override := OverrideOf(env.cfg.overrides, sid);
    && (forall cap :: ScaledByTolerance(env.cfg.riskTolerance, env.cfg.perStrategyCap, cap) ==>
          amount <= Times(equity, cap) / n)
    && amount <= Times(equity, 1.0) / n
    && (override.Some? && override.value.maxPct.Some? ==> amount <= Times(equity, override.value.maxPct.value) / n)
    && (override.Some? && override.value.maxPositionUsd.Some? ==> amount <= override.value.maxPositionUsd.value)
  }

  /** The override in force is the first active one of the strategy. */
  lemma {:induction false} OverrideIsFirstActive(rows: seq<AllocationOverride>, sid: StrategyId)
    ensures OverrideOf(rows, sid).None? <==>
              forall i :: 0 <= i < |rows| && rows[i].strategyId == sid ==> !rows[i].isActive
    ensures OverrideOf(rows, sid).Some? ==>
              exists i :: 0 <= i < |rows| && rows[i] == OverrideOf(rows, sid).value
                && rows[i].strategyId == sid && rows[i].isActive
                && forall j :: 0 <= j < i && rows[j].strategyId == sid ==> !rows[j].isActive
  {
    if rows != [] && !(rows[0].strategyId == sid && rows[0].isActive) {
      var rest := rows[1..];
      OverrideIsFirstActive(rest, sid);
      assert forall i :: 0 < i < |rows| ==> rows[i] == rest[i - 1];
      if OverrideOf(rest, sid).Some? {
        var k :| 0 <= k < |rest| && rest[k] == OverrideOf(rest, sid).value
          && rest[k].strategyId == sid && rest[k].isActive
          && forall j :: 0 <= j < k && rest[j].strategyId == sid ==> !rest[j].isActive;
        assert rows[k + 1] == rest[k];
      }
    }
  }

  function CountEnabled(controls: seq<StrategyControl>): nat {
    if controls == [] then 0
    else CountEnabled(controls[..|controls| - 1]) + if controls[|controls| - 1].enabled then 1 else 0
  }

  /** The strategies traded are the enabled ones in the order of their controls. */
  lemma {:induction false} EnabledInOrder(controls: seq<StrategyControl>, i: nat)
    requires i < |controls|
    ensures |EnabledIds(controls)| == CountEnabled(controls)
    ensures CountEnabled(controls[..i]) <= CountEnabled(controls[..i + 1]) <= CountEnabled(controls)
    ensures controls[i].enabled ==>
              CountEnabled(controls[..i]) < |EnabledIds(controls)|
              && EnabledIds(controls)[CountEnabled(controls[..i])] == controls[i].strategyId
  {
    var front := controls[..|controls| - 1];
    if i < |front| {
      EnabledInOrder(front, i);
      assert front[..i] == controls[..i] && front[..i + 1] == controls[..i + 1];
    } else {
      EnabledAreCounted(front);
      assert controls[..i + 1] == controls;
      assert controls[..i + 1][..i] == controls[..i];
    }
  }

  lemma {:induction false} EnabledAreCounted(controls: seq<StrategyControl>)
    ensures |EnabledIds(controls)| == CountEnabled(controls)
  {
    if controls != [] {
      EnabledAreCounted(controls[..|controls| - 1]);
    }
  }

  /** The strategies traded are those of the enabled controls, in order; with none, the baseline alone. */
  lemma StrategiesTraded(cfg: Settings, i: nat)
    ensures i < |cfg.controls| && cfg.controls[i].enabled ==>
              && |cfg.StrategyIds()| == CountEnabled(cfg.controls) > CountEnabled(cfg.controls[..i])
              && cfg.StrategyIds()[CountEnabled(cfg.controls[..i])] == cfg.controls[i].strategyId
    ensures CountEnabled(cfg.controls) == 0 ==> cfg.StrategyIds() == ["baseline_strategy"]
  {
    EnabledAreCounted(cfg.controls);
    if i < |cfg.controls| {
      EnabledInOrder(cfg.controls, i);
    }
  }

  lemma ShareIsMonotone(equity: real, a: real, b: real, n: real)
    requires equity >= 0.0 && a <= b && n > 0.0
    ensures Times(equity, a) / n <= Times(equity, b) / n
  {
    assert Times(equity, a) <= Times(equity, b);
    TimesQuotient(n, Times(equity, a));
    TimesQuotient(n, Times(equity, b));
    var u, v := Times(equity, a) / n, Times(equity, b) / n;
    if v < u {
      TimesMonotone(v, u, n);
    }
  }

  /** Sizing gives the largest amount that every limit allows, no less and no more. */
  lemma SizedIsLargestAllowed(env: Env, sid: StrategyId, amount: real)
    requires env.cfg.startingCash >= 0.0
    ensures WithinLimits(env, sid, amount) <==> amount <= SizedFor(env, sid)
  {
    var n := AtLeastOne(|env.cfg.symbols|) as real;
    var override := OverrideOf(env.cfg.overrides, sid);
    var cap := CapFor(env.cfg, sid);
    var scaled := Times(env.cfg.perStrategyCap, Multiplier(env.cfg.riskTolerance));
    assert forall c :: ScaledByTolerance(env.cfg.riskTolerance, env.cfg.perStrategyCap, c) <==> c == scaled;
    ShareIsMonotone(EquityBase(env), cap, scaled, n);
    ShareIsMonotone(EquityBase(env), cap, 1.0, n);
    if override.Some? && override.value.maxPct.Some? {
      ShareIsMonotone(EquityBase(env), cap, override.value.maxPct.value, n);
    }
  }

  /** A notional is the largest amount that is within the cash and, before volatility scales it, within
      every limit; a scalar of at most one keeps a positive notional within the limits itself. */
  lemma NotionalWithinLimits(env: Env, cash: real, sid: StrategyId, amount: real)
    requires env.cfg.startingCash >= 0.0 && env.volScalar >= 0.0
    ensures env.volScalar <= 1.0 && NotionalFor(env, cash, sid) > 0.0 ==>
              WithinLimits(env, sid, NotionalFor(env, cash, sid)) && NotionalFor(env, cash, sid) <= cash
    ensures amount <= NotionalFor(env, cash, sid) <==>
              && amount <= cash
              && if env.volScalar > 0.0 then WithinLimits(env, sid, amount / env.volScalar) else amount <= 0.0
  {
    hide WithinLimits, SizedFor;
    var notional := NotionalFor(env, cash, sid);
    SizedIsLargestAllowed(env, sid, notional);
    if notional > 0.0 && env.volScalar <= 1.0 {
      Damped(SizedFor(env, sid), env.volScalar);
    }
    if env.volScalar > 0.0 {
      SizedIsLargestAllowed(env, sid, amount / env.volScalar);
      AtMostScaled(amount, SizedFor(env, sid), env.volScalar);
    }
  }

  lemma AtMostScaled(amount: real, x: real, scalar: real)
    requires scalar > 0.0
    ensures amount <= Times(x, scalar) <==> amount / scalar <= x
  {
    TimesQuotient(scalar, amount);
    assert Times(amount / scalar, scalar) == amount;
    if amount / scalar <= x {
      TimesMonotone(amount / scalar, x, scalar);
    } else {
      TimesMonotone(x, amount / scalar, scalar);
    }
  }

  lemma Damped(x: real, scalar: real)
    requires 0.0 <= scalar <= 1.0 && Times(x, scalar) > 0.0
    ensures Times(x, scalar) <= x
  {
    assert x <= 0.0 ==> Times(x, scalar) <= 0.0;
    TimesMonotone(scalar, 1.0, x);
  }

  function BoughtAmount(f: Fill): real {
    if f.side.Buy? then Times(f.qty, f.price) else 0.0
  }

  function Bought(fills: seq<Fill>): real {
    if fills == [] then 0.0 else Bought(fills[..|fills| - 1]) + BoughtAmount(fills[|fills| - 1])
  }

  /** The allowance for rounding quantities to share ticks, over the first `n` symbols. */
  function RoundingAllowance(env: Env, n: nat): real
    requires env.Valid() && n <= |env.cfg.symbols|
  {
    if n == 0 then 0.0 else RoundingAllowance(env, n - 1) + Times(HALF_A_TICK, env.prices[env.cfg.symbols[n - 1]])
  }

  lemma RoundedSpend(notional: real, price: real)
    requires price > 0.0
    ensures Times(Quantize4(notional / price), price) <= notional + Times(HALF_A_TICK, price)
  {
    Quantize4Bounds(notional / price);
    TimesQuotient(price, notional);
    TimesMonotone(Quantize4(notional / price), notional / price + HALF_A_TICK, price);
    assert Times(notional / price + HALF_A_TICK, price) == Times(notional / price, price) + Times(HALF_A_TICK, price);
  }

  /** One symbol's share of what sizing starts from. */
  function SymbolShare(env: Env): real {
    EquityBase(env) / AtLeastOne(|env.cfg.symbols|) as real
  }

  lemma BuySpend(env: Env, cash: real, sid: StrategyId, price: real)
    requires env.cfg.startingCash >= 0.0 && 0.0 <= env.volScalar <= 1.0 && price > 0.0
    requires Quantize4(NotionalFor(env, cash, sid) / price) > 0.0
    ensures Times(Quantize4(NotionalFor(env, cash, sid) / price), price) <= SymbolShare(env) + Times(HALF_A_TICK, price)
  {
    var notional := NotionalFor(env, cash, sid);
    RoundedSpend(notional, price);
    BuyIsAffordable(notional, notional, price);
    NotionalWithinLimits(env, cash, sid, notional);
    assert Times(EquityBase(env), 1.0) == EquityBase(env);
  }

  lemma ShareIsNonNegative(env: Env)
    requires env.cfg.startingCash >= 0.0
    ensures SymbolShare(env) >= 0.0
  {
  }

  lemma OrderStepSpend(env: Env, d: Desk, i: nat)
    requires env.Valid() && d.book.Sound() && i < |env.cfg.symbols|
    requires env.cfg.startingCash >= 0.0 && 0.0 <= env.volScalar <= 1.0
    ensures Bought(OrderStep(env, d, i).fills)
         <= Bought(d.fills) + SymbolShare(env) + Times(HALF_A_TICK, env.prices[env.cfg.symbols[i]])
  {
    var d' := OrderStep(env, d, i);
    var price := env.prices[env.cfg.symbols[i]];
    ShareIsNonNegative(env);
    assert Times(HALF_A_TICK, price) >= 0.0;
    if d'.fills != d.fills {
      var f := d'.fills[|d.fills|];
      assert d'.fills == d.fills + [f] && d'.fills[..|d.fills|] == d.fills;
      if f.side.Buy? {
        BuySpend(env, d.book.cash, env.cfg.StrategyOf(i), price);
      }
    }
  }

  lemma {:induction false} SpendGrowsByShares(env: Env, d: Desk, n: nat)
    requires env.Valid() && d.book.Sound() && n <= |env.cfg.symbols|
    requires env.cfg.startingCash >= 0.0 && 0.0 <= env.volScalar <= 1.0
    ensures Bought(OrderLoop(env, d, n).fills)
         <= Bought(d.fills) + Times(n as real, SymbolShare(env)) + RoundingAllowance(env, n)
  {
    hide OrderStep, Bought, SymbolShare, Times;
    if n > 0 {
      SpendGrowsByShares(env, d, n - 1);
      OrderStepSpend(env, OrderLoop(env, d, n - 1), n - 1);
      OneMoreShare(n, SymbolShare(env));
    } else {
      TimesDistributes(0.0, 0.0, SymbolShare(env));
    }
  }

  /** Exposure taken on is bounded: all the buys of one tick together spend at most the equity base
      (the larger of the mark and the starting cash) and the rounding allowance. */
  lemma TickSpendIsBounded(env: Env, d: Desk)
    requires env.Valid() && d.book.Sound()
    requires env.cfg.startingCash >= 0.0 && 0.0 <= env.volScalar <= 1.0
    ensures Bought(OrderLoop(env, d, |env.cfg.symbols|).fills)
         <= Bought(d.fills) + EquityBase(env) + RoundingAllowance(env, |env.cfg.symbols|)
  {
    var n := |env.cfg.symbols|;
    SpendGrowsByShares(env, d, n);
    if n > 0 {
      TimesQuotient(n as real, EquityBase(env));
    } else {
      TimesDistributes(0.0, 0.0, SymbolShare(env));
    }
  }

  // ---------------------------------------------------------------------------
  // What every fill of a run satisfies
  // ---------------------------------------------------------------------------

  /** A fill of this configuration: positive quantity and price, one of its symbols, and credited to the
      strategy the symbol is assigned to, round robin. */
  predicate OwnFill(cfg: Settings, f: Fill) {
    ValidFill(f)
    && exists i :: 0 <= i < |cfg.symbols| && cfg.symbols[i] == f.symbol && f.strategyId == Some(cfg.StrategyOf(i))
  }

  /** A buy is placed only out of positive cash, and overdraws it by at most half a share tick; a sale is of
      all that is held. */
  predicate BackedFill(b: Book, f: Fill) {
    match f.side
    case Buy => b.cash > 0.0 && b.cash - Times(f.qty, f.price) >= -Times(HALF_A_TICK, f.price)
    case Sell => f.qty == b.Held(f.symbol)
  }

  /** The book that the recorded fills make of the starting cash, provided that each of them is the
      configuration's own and was backed when it was made. */
  function Audit(cfg: Settings, fills: seq<Fill>): (b: Option<Book>)
    ensures b.Some? ==> b.value.Sound()
  {
    if fills == [] then Some(EmptyBook(cfg.startingCash))
    else
      var before, f := Audit(cfg, fills[..|fills| - 1]), fills[|fills| - 1];
      if before.Some? && OwnFill(cfg, f) && BackedFill(before.value, f)
      then Some(ApplyFill(before.value, f)) else None
  }

  /** The book is exactly what the fill record says it should be. */
  predicate Accounted(cfg: Settings, b: Book, fills: seq<Fill>) {
    Audit(cfg, fills) == Some(b)
  }

  predicate OwnFills(cfg: Settings, fills: seq<Fill>) {
    forall i :: 0 <= i < |fills| ==> OwnFill(cfg, fills[i])
  }

  /** An audited record replays, fill by fill, to the audited book. */
  lemma {:induction false} AuditedReplays(cfg: Settings, b: Book, fills: seq<Fill>)
    requires Accounted(cfg, b, fills)
    ensures OwnFills(cfg, fills) && ValidFills(fills) && Attributed(fills)
    ensures b == Replay(EmptyBook(cfg.startingCash), fills)
    decreases |fills|
  {
    hide ApplyFill;
    if fills != [] {
      var front := fills[..|fills| - 1];
      AuditedReplays(cfg, Audit(cfg, front).value, front);
      assert forall i :: 0 <= i < |front| ==> fills[i] == front[i];
    }
  }

  lemma BuyIsAffordable(cash: real, notional: real, price: real)
    requires price > 0.0 && notional <= cash
    requires Quantize4(notional / price) > 0.0
    ensures cash > 0.0
    ensures cash - Times(Quantize4(notional / price), price) >= -Times(HALF_A_TICK, price)
  {
    var exact := notional / price;
    var qty := Quantize4(exact);
    Quantize4Bounds(exact);
    TimesQuotient(price, notional);
    assert exact > 0.0;
    assert notional > 0.0 by {
      if notional <= 0.0 {
        TimesMonotone(0.0, exact, price);
      }
    }
    assert Times(exact, price) == notional;
    TimesMonotone(qty, exact + HALF_A_TICK, price);
    assert Times(exact + HALF_A_TICK, price) == Times(exact, price) + Times(HALF_A_TICK, price);
  }

  /** One more fill that is the configuration's own and backed. */
  lemma AuditGrows(cfg: Settings, b: Book, fills: seq<Fill>, f: Fill)
    requires b.Sound() && Accounted(cfg, b, fills) && OwnFill(cfg, f) && BackedFill(b, f)
    ensures Accounted(cfg, ApplyFill(b, f), fills + [f])
  {
    hide ApplyFill, OwnFill, BackedFill;
    assert (fills + [f])[..|fills|] == fills;
  }

  /** A pass leaves book and record alone, or adds one own and backed fill to both. */
  lemma OrderStepRecords(env: Env, d: Desk, i: nat)
    requires env.Valid() && i < |env.cfg.symbols| && d.book.Sound()
    ensures var d' := OrderStep(env, d, i);
      (d'.book == d.book && d'.fills == d.fills)
      || (|d'.fills| == |d.fills| + 1
          && var f := d'.fills[|d.fills|];
             d'.fills == d.fills + [f] && d'.book == ApplyFill(d.book, f)
             && OwnFill(env.cfg, f) && BackedFill(d.book, f))
  {
    hide ApplyFill, StrategyEquity, NotionalFor, Times;
    var d' := OrderStep(env, d, i);
    var sid := env.cfg.StrategyOf(i);
    if d'.fills != d.fills {
      var f := d'.fills[|d.fills|];
      if f.side.Buy? {
        NotionalIsCovered(env, d.book.cash, sid);
        BuyIsAffordable(d.book.cash, NotionalFor(env, d.book.cash, sid), f.price);
      }
    }
  }

  lemma NotionalIsCovered(env: Env, cash: real, sid: StrategyId)
    ensures NotionalFor(env, cash, sid) <= cash
  {
  }

  lemma OrderStepAccounted(env: Env, d: Desk, i: nat)
    requires env.Valid() && i < |env.cfg.symbols| && d.book.Sound() && Accounted(env.cfg, d.book, d.fills)
    ensures Accounted(env.cfg, OrderStep(env, d, i).book, OrderStep(env, d, i).fills)
  {
    hide OrderStep, Accounted, ApplyFill, OwnFill, BackedFill;
    OrderStepRecords(env, d, i);
    var d' := OrderStep(env, d, i);
    if d'.book != d.book || d'.fills != d.fills {
      AuditGrows(env.cfg, d.book, d.fills, d'.fills[|d.fills|]);
    }
  }

  /** The loop keeps the books accounted for: every order it fills is recorded, and the record
      explains the book. */
  lemma {:induction false} OrderLoopAccounted(env: Env, d: Desk, n: nat)
    requires env.Valid() && n <= |env.cfg.symbols| && d.book.Sound() && Accounted(env.cfg, d.book, d.fills)
    ensures Accounted(env.cfg, OrderLoop(env, d, n).book, OrderLoop(env, d, n).fills)
  {
    hide OrderStep, Accounted;
    if n > 0 {
      OrderLoopAccounted(env, d, n - 1);
      OrderStepAccounted(env, OrderLoop(env, d, n - 1), n - 1);
    }
  }

  // ---------------------------------------------------------------------------
  // Cash has a floor
  // ---------------------------------------------------------------------------

  /** The highest price in the fills, zero when there are none. */
  function MaxFillPrice(fills: seq<Fill>): real {
    if fills == [] then 0.0 else Max(MaxFillPrice(fills[..|fills| - 1]), fills[|fills| - 1].price)
  }

  /** Cash never falls below minus half a share tick at the highest fill price seen so far (or the
      starting cash, were that lower still). */
  lemma {:induction false} CashFloor(cfg: Settings, b: Book, fills: seq<Fill>)
    requires Accounted(cfg, b, fills)
    ensures b.cash >= Min(cfg.startingCash, -Times(HALF_A_TICK, MaxFillPrice(fills)))
    ensures MaxFillPrice(fills) >= 0.0
    decreases |fills|
  {
    if fills != [] {
      var front, f := fills[..|fills| - 1], fills[|fills| - 1];
      var before := Audit(cfg, front).value;
      CashFloor(cfg, before, front);
      FloorStep(before, f, MaxFillPrice(front), cfg.startingCash);
    }
  }

  /** Every buy of the record was made out of positive cash. */
  lemma {:induction false} BuysNeedCash(cfg: Settings, b: Book, fills: seq<Fill>, k: nat)
    requires Accounted(cfg, b, fills) && k < |fills| && fills[k].side.Buy?
    ensures Audit(cfg, fills[..k]).Some? && Audit(cfg, fills[..k]).value.cash > 0.0
    decreases |fills|
  {
    var front := fills[..|fills| - 1];
    if k < |front| {
      assert front[..k] == fills[..k];
      BuysNeedCash(cfg, Audit(cfg, front).value, front, k);
    }
  }

  lemma FloorStep(b: Book, f: Fill, top: real, start: real)
    requires b.Sound() && ValidFill(f) && BackedFill(b, f) && top >= 0.0
    requires b.cash >= Min(start, -Times(HALF_A_TICK, top))
    ensures ApplyFill(b, f).cash >= Min(start, -Times(HALF_A_TICK, Max(top, f.price)))
  {
    TimesMonotone(f.price, Max(top, f.price), HALF_A_TICK);
    TimesMonotone(top, Max(top, f.price), HALF_A_TICK);
    if f.side.Sell? {
      assert Times(SoldQty(b, f), f.price) >= 0.0;
    }
  }

  // ---------------------------------------------------------------------------
  // Strategies decompose the portfolio
  // ---------------------------------------------------------------------------

  lemma {:induction false} AccountedKeys(cfg: Settings, fills: seq<Fill>)
    requires OwnFills(cfg, fills) && ValidFills(fills)
    ensures forall s :: s in Replay(EmptyBook(cfg.startingCash), fills).positions ==> s in cfg.symbols
    ensures forall sid :: sid in Replay(EmptyBook(cfg.startingCash), fills).fillPnl ==> sid in cfg.StrategyIds()
  {
    if fills != [] {
      AccountedKeys(cfg, fills[..|fills| - 1]);
    }
  }

  /** The value of the first `i` symbols, whoever they are assigned to. */
  function SymbolsValue(cfg: Settings, positions: map<Symbol, real>, prices: map<Symbol, real>, n: nat): real
    requires n <= |cfg.symbols|
  {
    if n == 0 then 0.0
    else
      var s := cfg.symbols[n - 1];
      SymbolsValue(cfg, positions, prices, n - 1) + Times(Get(positions, s, 0.0), Get(prices, s, 0.0))
  }

  /** The first `k` strategies' values of the first `n` symbols. */
  function StrategiesValue(cfg: Settings, positions: map<Symbol, real>, prices: map<Symbol, real>, k: nat, n: nat): real
    requires k <= |cfg.StrategyIds()| && n <= |cfg.symbols|
  {
    if k == 0 then 0.0
    else StrategiesValue(cfg, positions, prices, k - 1, n)
         + StrategyValue(cfg, positions, prices, cfg.StrategyIds()[k - 1], n)
  }

  lemma {:induction false} OneMoreSymbol(cfg: Settings, positions: map<Symbol, real>, prices: map<Symbol, real>, k: nat,
                                         n: nat)
    requires k <= |cfg.StrategyIds()| && 0 < n <= |cfg.symbols| && Distinct(cfg.StrategyIds())
    ensures var s := cfg.symbols[n - 1];
      StrategiesValue(cfg, positions, prices, k, n)
        == StrategiesValue(cfg, positions, prices, k, n - 1)
           + if (n - 1) % |cfg.StrategyIds()| < k then Times(Get(positions, s, 0.0), Get(prices, s, 0.0)) else 0.0
  {
    if k > 0 {
      OneMoreSymbol(cfg, positions, prices, k - 1, n);
      var ids := cfg.StrategyIds();
      var owner := (n - 1) % |ids|;
      assert ids[owner] == ids[k - 1] <==> owner == k - 1;
    }
  }

  lemma {:induction false} NoSymbolsNoValue(cfg: Settings, positions: map<Symbol, real>, prices: map<Symbol, real>,
                                            k: nat)
    requires k <= |cfg.StrategyIds()|
    ensures StrategiesValue(cfg, positions, prices, k, 0) == 0.0
  {
    if k > 0 {
      NoSymbolsNoValue(cfg, positions, prices, k - 1);
    }
  }

  /** Every symbol is assigned to exactly one strategy. */
  lemma {:induction false} StrategiesShareTheSymbols(cfg: Settings, positions: map<Symbol, real>,
                                                     prices: map<Symbol, real>, n: nat)
    requires n <= |cfg.symbols| && Distinct(cfg.StrategyIds())
    ensures StrategiesValue(cfg, positions, prices, |cfg.StrategyIds()|, n) == SymbolsValue(cfg, positions, prices, n)
  {
    var all := |cfg.StrategyIds()|;
    if n == 0 {
      NoSymbolsNoValue(cfg, positions, prices, all);
    } else {
      StrategiesShareTheSymbols(cfg, positions, prices, n - 1);
      OneMoreSymbol(cfg, positions, prices, all, n);
    }
  }

  lemma {:induction false} SymbolsValueIsListTotal(cfg: Settings, positions: map<Symbol, real>,
                                                   prices: map<Symbol, real>, n: nat)
    requires n <= |cfg.symbols|
    ensures SymbolsValue(cfg, positions, prices, n) == ListTotal(cfg.symbols[..n], Valued(positions, prices))
  {
    if n > 0 {
      SymbolsValueIsListTotal(cfg, positions, prices, n - 1);
      assert cfg.symbols[..n][..n - 1] == cfg.symbols[..n - 1];
      TimesDistributes(0.0, 0.0, Get(prices, cfg.symbols[n - 1], 0.0));
    } else {
      assert cfg.symbols[..0] == [];
    }
  }

  function TotalStrategyEquity(cfg: Settings, b: Book, prices: map<Symbol, real>, k: nat): real
    requires k <= |cfg.StrategyIds()|
  {
    if k == 0 then 0.0
    else TotalStrategyEquity(cfg, b, prices, k - 1) + StrategyEquity(cfg, b, prices, cfg.StrategyIds()[k - 1])
  }

  lemma {:induction false} TotalStrategyEquityParts(cfg: Settings, b: Book, prices: map<Symbol, real>, k: nat)
    requires k <= |cfg.StrategyIds()|
    ensures TotalStrategyEquity(cfg, b, prices, k)
         == Times(k as real, cfg.startingCash / |cfg.StrategyIds()| as real)
            + ListTotal(cfg.StrategyIds()[..k], b.fillPnl)
            + StrategiesValue(cfg, b.positions, prices, k, |cfg.symbols|)
  {
    var ids := cfg.StrategyIds();
    var share := cfg.startingCash / |ids| as real;
    if k > 0 {
      TotalStrategyEquityParts(cfg, b, prices, k - 1);
      assert ids[..k][..k - 1] == ids[..k - 1];
      OneMoreShare(k, share);
    } else {
      assert ids[..0] == [];
    }
  }

  lemma OneMoreShare(k: int, share: real)
    ensures Times(k as real, share) == Times((k - 1) as real, share) + share
  {
    TimesDistributes(k as real, 1.0, share);
  }

  /** For distinct symbols and strategies, the strategies' equities add up to the portfolio's mark:
      the loop's per-strategy drawdowns are drawdowns of the parts of one whole. */
  lemma StrategiesDecomposePortfolio(cfg: Settings, b: Book, fills: seq<Fill>, prices: map<Symbol, real>,
                                     current: map<Symbol, real>)
    requires Accounted(cfg, b, fills)
    requires Distinct(cfg.symbols) && Distinct(cfg.StrategyIds())
    requires forall s :: s in cfg.symbols ==> s in prices
    ensures TotalStrategyEquity(cfg, b, prices, |cfg.StrategyIds()|) == Mark(b, prices, current)
  {
    var ids, n := cfg.StrategyIds(), |cfg.symbols|;
    TotalStrategyEquityParts(cfg, b, prices, |ids|);
    TimesQuotient(|ids| as real, cfg.startingCash);
    assert ids[..|ids|] == ids && cfg.symbols[..n] == cfg.symbols;
    AuditedReplays(cfg, b, fills);
    AccountedKeys(cfg, fills);
    ListTotalIsSumValues(ids, b.fillPnl);
    StrategiesShareTheSymbols(cfg, b.positions, prices, n);
    SymbolsValueIsListTotal(cfg, b.positions, prices, n);
    ListTotalIsSumValues(cfg.symbols, Valued(b.positions, prices));
    CashIsStrategyFlows(EmptyBook(cfg.startingCash), fills);
    PricedAlike(b.positions, prices, current);
  }

  lemma PricedAlike(positions: map<Symbol, real>, prices: map<Symbol, real>, current: map<Symbol, real>)
    requires forall s :: s in positions ==> s in prices
    ensures Valued(positions, prices) == Valued(positions, current + prices)
  {
  }
}
