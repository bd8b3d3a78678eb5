/** The replay ledger's money and holdings, and what one fill does to them
    (replay_debug.py, `_apply_fill` and `_mark_to_market`). */
module Book {
  import opened Common

  datatype Side = Buy | Sell

  datatype Fill = Fill(symbol: Symbol, side: Side, qty: real, price: real, strategyId: Option<StrategyId>)

  datatype Book = Book(
    cash: real,
    positions: map<Symbol, real>,
    avgCosts: map<Symbol, real>,
    fillPnl: map<StrategyId, real>)
  {
    /** The shape every reachable book has: a cost for exactly the held symbols, and no empty or
        negative holding. */
    ghost predicate Sound() {
      && positions.Keys == avgCosts.Keys
      && forall s :: s in positions ==> positions[s] > 0.0
    }

    function Held(s: Symbol): real {
      Get(positions, s, 0.0)
    }
  }

  function EmptyBook(cash: real): Book {
    Book(cash, map[], map[], map[])
  }

  /** The caller places no order whose quantity is not positive, and prices are positive. */
  predicate ValidFill(f: Fill) {
    f.qty > 0.0 && f.price > 0.0
  }

  function Credit(pnl: map<StrategyId, real>, id: Option<StrategyId>, amount: real): map<StrategyId, real> {
    match id
    case None => pnl
    case Some(sid) => pnl[sid := Get(pnl, sid, 0.0) + amount]
  }

  function ApplyFill(b: Book, f: Fill): (b': Book)
    requires b.Sound() && ValidFill(f)
    ensures b'.Sound()
  {
    match f.side
    case Buy => ApplyBuy(b, f)
    case Sell => ApplySell(b, f)
  }

  function ApplyBuy(b: Book, f: Fill): (b': Book)
    requires b.Sound() && ValidFill(f)
    ensures b'.Sound()
  {
    var total := Times(f.qty, f.price);
    var held := b.Held(f.symbol);
    var newQty := held + f.qty;
    var cost := Times(held, Get(b.avgCosts, f.symbol, 0.0));
    Book(b.cash - total,
         b.positions[f.symbol := newQty],
         b.avgCosts[f.symbol := (cost + total) / newQty],
         Credit(b.fillPnl, f.strategyId, -total))
  }

  function ApplySell(b: Book, f: Fill): (b': Book)
    requires b.Sound() && ValidFill(f)
    ensures b'.Sound()
  {
    var sold := SoldQty(b, f);
    var proceeds := Times(sold, f.price);
    var remaining := b.Held(f.symbol) - sold;
    var pnl := Credit(b.fillPnl, f.strategyId, proceeds);
    if remaining <= 0.0 then
      Book(b.cash + proceeds, b.positions - {f.symbol}, b.avgCosts - {f.symbol}, pnl)
    else
      Book(b.cash + proceeds, b.positions[f.symbol := remaining], b.avgCosts, pnl)
  }

  /** The quantity a fill takes out of the book: nothing for a buy, never more than is held. */
  function SoldQty(b: Book, f: Fill): real {
    if f.side.Buy? then 0.0 else Min(f.qty, b.Held(f.symbol))
  }

  // ---------------------------------------------------------------------------
  // Worth of the holdings at some unit values
  // ---------------------------------------------------------------------------

  function Valued(positions: map<Symbol, real>, unit: map<Symbol, real>): map<Symbol, real> {
    map s | s in positions :: Times(positions[s], Get(unit, s, 0.0))
  }

  ghost function Worth(positions: map<Symbol, real>, unit: map<Symbol, real>): real {
    SumValues(Valued(positions, unit))
  }

  lemma WorthOfUpdate(positions: map<Symbol, real>, unit: map<Symbol, real>, s: Symbol, qty: real)
    ensures Worth(positions[s := qty], unit)
         == Worth(positions, unit) + Times(qty, Get(unit, s, 0.0)) - Times(Get(positions, s, 0.0), Get(unit, s, 0.0))
  {
    var value := Times(qty, Get(unit, s, 0.0));
    assert Valued(positions[s := qty], unit) == Valued(positions, unit)[s := value];
    SumValuesUpdate(Valued(positions, unit), s, value);
  }

  lemma WorthOfRemoval(positions: map<Symbol, real>, unit: map<Symbol, real>, s: Symbol)
    ensures Worth(positions - {s}, unit) == Worth(positions, unit) - Times(Get(positions, s, 0.0), Get(unit, s, 0.0))
    ensures Worth(positions - {s}, unit - {s}) == Worth(positions - {s}, unit)
  {
    assert Valued(positions - {s}, unit) == Valued(positions, unit) - {s};
    assert Valued(positions - {s}, unit - {s}) == Valued(positions - {s}, unit);
    if s in positions {
      SumValuesRemove(Valued(positions, unit), s);
    } else {
      assert Valued(positions, unit) - {s} == Valued(positions, unit);
    }
  }

  lemma WorthOfReprice(positions: map<Symbol, real>, unit: map<Symbol, real>, s: Symbol, u: real)
    requires s in positions
    ensures Worth(positions, unit[s := u])
         == Worth(positions, unit) + Times(positions[s], u) - Times(positions[s], Get(unit, s, 0.0))
  {
    assert Valued(positions, unit[s := u]) == Valued(positions, unit)[s := Times(positions[s], u)];
    SumValuesUpdate(Valued(positions, unit), s, Times(positions[s], u));
  }

  lemma WorthIsMonotone(positions: map<Symbol, real>, low: map<Symbol, real>, high: map<Symbol, real>)
    requires forall s :: s in positions ==> positions[s] >= 0.0 && Get(low, s, 0.0) <= Get(high, s, 0.0)
    ensures Worth(positions, low) <= Worth(positions, high)
  {
    forall s | s in positions ensures Valued(positions, low)[s] <= Valued(positions, high)[s] {
      TimesMonotoneRight(positions[s], Get(low, s, 0.0), Get(high, s, 0.0));
    }
    SumValuesMonotone(Valued(positions, low), Valued(positions, high));
  }

  // ---------------------------------------------------------------------------
  // Equity
  // ---------------------------------------------------------------------------

  /** Equity: each position is marked at this tick's price, else the last known one, else zero. */
  ghost function Mark(b: Book, prices: map<Symbol, real>, current: map<Symbol, real>): real {
    b.cash + Worth(b.positions, current + prices)
  }

  /** A fill at the price the position is marked at does not change equity: it only exchanges
      cash for shares. */
  lemma FillKeepsEquity(b: Book, f: Fill, prices: map<Symbol, real>, current: map<Symbol, real>)
    requires b.Sound() && ValidFill(f)
    requires Get(prices, f.symbol, Get(current, f.symbol, 0.0)) == f.price
    ensures Mark(ApplyFill(b, f), prices, current) == Mark(b, prices, current)
  {
    assert Get(current + prices, f.symbol, 0.0) == f.price;
    if f.side.Buy? {
      BuyAddsItsWorth(b, f, current + prices);
    } else {
      SaleTakesItsWorth(b, f, current + prices);
    }
  }

  lemma BuyAddsItsWorth(b: Book, f: Fill, unit: map<Symbol, real>)
    requires b.Sound() && ValidFill(f) && f.side.Buy?
    ensures Worth(ApplyFill(b, f).positions, unit)
         == Worth(b.positions, unit) + Times(f.qty, Get(unit, f.symbol, 0.0))
  {
    var held := b.Held(f.symbol);
    WorthOfUpdate(b.positions, unit, f.symbol, held + f.qty);
    TimesDistributes(held, f.qty, Get(unit, f.symbol, 0.0));
  }

  lemma SaleTakesItsWorth(b: Book, f: Fill, unit: map<Symbol, real>)
    requires b.Sound() && ValidFill(f) && f.side.Sell?
    ensures Worth(ApplyFill(b, f).positions, unit)
         == Worth(b.positions, unit) - Times(SoldQty(b, f), Get(unit, f.symbol, 0.0))
  {
    var held, sold := b.Held(f.symbol), SoldQty(b, f);
    TimesDistributes(held, sold, Get(unit, f.symbol, 0.0));
    if held - sold <= 0.0 {
      WorthOfRemoval(b.positions, unit, f.symbol);
    } else {
      WorthOfUpdate(b.positions, unit, f.symbol, held - sold);
    }
  }

  // ---------------------------------------------------------------------------
  // Cost basis
  // ---------------------------------------------------------------------------

  /** Cash plus the cost of everything held. */
  ghost function BookValue(b: Book): real {
    b.cash + Worth(b.positions, b.avgCosts)
  }

  /** What a fill realises: what is sold at its price, less its average cost;
      nothing on a buy. */
  function Realized(b: Book, f: Fill): real {
    Times(SoldQty(b, f), f.price) - Times(SoldQty(b, f), Get(b.avgCosts, f.symbol, 0.0))
  }

  lemma FillRealizes(b: Book, f: Fill)
    requires b.Sound() && ValidFill(f)
    ensures BookValue(ApplyFill(b, f)) == BookValue(b) + Realized(b, f)
  {
    if f.side.Buy? {
      BuyAddsItsCost(b, f);
      TimesDistributes(0.0, 0.0, f.price);
      TimesDistributes(0.0, 0.0, Get(b.avgCosts, f.symbol, 0.0));
    } else {
      SaleRealizes(b, f);
    }
  }

  lemma SaleRealizes(b: Book, f: Fill)
    requires b.Sound() && ValidFill(f) && f.side.Sell?
    ensures BookValue(ApplyFill(b, f)) == BookValue(b) + Realized(b, f)
  {
    SaleTakesItsWorth(b, f, b.avgCosts);
    if b.Held(f.symbol) - SoldQty(b, f) <= 0.0 {
      WorthOfRemoval(b.positions, b.avgCosts, f.symbol);
    }
  }

  lemma BuyAddsItsCost(b: Book, f: Fill)
    requires b.Sound() && ValidFill(f) && f.side.Buy?
    ensures BookValue(ApplyFill(b, f)) == BookValue(b)
  {
    var s := f.symbol;
    var held := b.Held(s);
    var spent := Times(held, Get(b.avgCosts, s, 0.0)) + Times(f.qty, f.price);
    Rebooked(b.positions, b.avgCosts, s, held + f.qty, spent);
    var b' := ApplyFill(b, f);
    assert b'.positions == b.positions[s := held + f.qty];
    assert b'.avgCosts == b.avgCosts[s := spent / (held + f.qty)];
  }

  /** Setting a holding to `qty` shares at a total cost of `spent`. */
  lemma Rebooked(positions: map<Symbol, real>, unit: map<Symbol, real>, s: Symbol, qty: real, spent: real)
    requires qty > 0.0
    ensures Worth(positions[s := qty], unit[s := spent / qty])
         == Worth(positions, unit) - Times(Get(positions, s, 0.0), Get(unit, s, 0.0)) + spent
  {
    TimesQuotient(qty, spent);
    WorthOfUpdate(positions, unit, s, qty);
    WorthOfReprice(positions[s := qty], unit, s, spent / qty);
  }

  // ---------------------------------------------------------------------------
  // Fill sequences
  // ---------------------------------------------------------------------------

  predicate ValidFills(fills: seq<Fill>) {
    forall i :: 0 <= i < |fills| ==> ValidFill(fills[i])
  }

  /** The book that a list of fills leaves behind. */
  function Replay(b: Book, fills: seq<Fill>): (b': Book)
    requires b.Sound() && ValidFills(fills)
    ensures b'.Sound()
  {
    if fills == [] then b
    else ApplyFill(Replay(b, fills[..|fills| - 1]), fills[|fills| - 1])
  }

  function TotalRealized(b: Book, fills: seq<Fill>): real
    requires b.Sound() && ValidFills(fills)
  {
    if fills == [] then 0.0
    else
      var front := fills[..|fills| - 1];
      TotalRealized(b, front) + Realized(Replay(b, front), fills[|fills| - 1])
  }

  /** Over any sequence of fills, cash plus cost basis moves only by what sales realise. */
  lemma {:induction false} CostIdentity(b: Book, fills: seq<Fill>)
    requires b.Sound() && ValidFills(fills)
    ensures BookValue(Replay(b, fills)) == BookValue(b) + TotalRealized(b, fills)
  {
    if fills != [] {
      var front := fills[..|fills| - 1];
      CostIdentity(b, front);
      FillRealizes(Replay(b, front), fills[|fills| - 1]);
    }
  }

  predicate Attributed(fills: seq<Fill>) {
    forall i :: 0 <= i < |fills| ==> fills[i].strategyId.Some?
  }

  /** When every fill names a strategy, cash is what the book started with plus the strategies'
      cash flows. */
  lemma {:induction false} CashIsStrategyFlows(b: Book, fills: seq<Fill>)
    requires b.Sound() && ValidFills(fills) && Attributed(fills)
    ensures Replay(b, fills).cash - SumValues(Replay(b, fills).fillPnl) == b.cash - SumValues(b.fillPnl)
  {
    if fills != [] {
      var front, f := fills[..|fills| - 1], fills[|fills| - 1];
      CashIsStrategyFlows(b, front);
      var mid := Replay(b, front);
      var sid := f.strategyId.value;
      SumValuesUpdate(mid.fillPnl, sid, ApplyFill(mid, f).fillPnl[sid]);
    }
  }

  /** Prices of the buys that built the current holding of `s`: those since it last opened. */
  function OpenBuyPrices(b: Book, fills: seq<Fill>, s: Symbol): seq<real>
    requires b.Sound() && ValidFills(fills)
  {
    if fills == [] then []
    else
      var front, f := fills[..|fills| - 1], fills[|fills| - 1];
      var earlier := OpenBuyPrices(b, front, s);
      if f.symbol != s then earlier
      else if f.side.Buy? then earlier + [f.price]
      else if s in Replay(b, fills).positions then earlier
      else []
  }

  predicate AllWithin(xs: seq<real>, lo: real, hi: real) {
    forall i :: 0 <= i < |xs| ==> lo <= xs[i] <= hi
  }

  lemma WeightedMeanBetween(x: real, p: real, y: real, q: real, lo: real, hi: real)
    requires p >= 0.0 && q > 0.0
    requires p > 0.0 ==> lo <= x <= hi
    requires lo <= y <= hi
    ensures lo <= (Times(p, x) + Times(q, y)) / (p + q) <= hi
  {
    BoundedBelow(x, p, y, q, lo);
    BoundedBelow(-x, p, -y, q, -hi);
    var spent := Times(p, x) + Times(q, y);
    assert Times(p, -x) + Times(q, -y) == -spent;
    assert (-spent) / (p + q) == -(spent / (p + q));
  }

  lemma BoundedBelow(x: real, p: real, y: real, q: real, lo: real)
    requires p >= 0.0 && q > 0.0
    requires p > 0.0 ==> lo <= x
    requires lo <= y
    ensures lo <= (Times(p, x) + Times(q, y)) / (p + q)
  {
    var mean := (Times(p, x) + Times(q, y)) / (p + q);
    TimesQuotient(p + q, Times(p, x) + Times(q, y));
    assert Times(p + q, mean) == Times(p, x) + Times(q, y);
    assert Times(p, lo) <= Times(p, x);
    assert Times(q, lo) <= Times(q, y);
    assert Times(p + q, lo) == Times(p, lo) + Times(q, lo);
    if mean < lo {
      TimesMonotone(mean, lo, p + q);
    }
  }

  /** Every average cost lies between the lowest and the highest price paid since the position
      last opened, whatever buys and partial or full sales happened in between. A symbol is held
      exactly when such a buy exists. */
  lemma {:induction false} AverageCostBetweenBuys(cash: real, fills: seq<Fill>, s: Symbol, lo: real, hi: real)
    requires ValidFills(fills)
    requires AllWithin(OpenBuyPrices(EmptyBook(cash), fills, s), lo, hi)
    ensures s in Replay(EmptyBook(cash), fills).positions <==> OpenBuyPrices(EmptyBook(cash), fills, s) != []
    ensures s in Replay(EmptyBook(cash), fills).positions ==>
              lo <= Replay(EmptyBook(cash), fills).avgCosts[s] <= hi
  {
    if fills != [] {
      var b0 := EmptyBook(cash);
      var front, f := fills[..|fills| - 1], fills[|fills| - 1];
      var earlier := OpenBuyPrices(b0, front, s);
      if f.symbol != s {
        AverageCostBetweenBuys(cash, front, s, lo, hi);
        OtherSymbolsUntouched(Replay(b0, front), f, s);
      } else if f.side.Buy? {
        assert (earlier + [f.price])[|earlier|] == f.price;
        assert forall i :: 0 <= i < |earlier| ==> (earlier + [f.price])[i] == earlier[i];
        AverageCostBetweenBuys(cash, front, s, lo, hi);
        var mid := Replay(b0, front);
        WeightedMeanBetween(Get(mid.avgCosts, s, 0.0), mid.Held(s), f.price, f.qty, lo, hi);
      } else if s in Replay(b0, fills).positions {
        AverageCostBetweenBuys(cash, front, s, lo, hi);
      }
    }
  }

  lemma OtherSymbolsUntouched(b: Book, f: Fill, s: Symbol)
    requires b.Sound() && ValidFill(f) && s != f.symbol
    ensures s in ApplyFill(b, f).positions <==> s in b.positions
    ensures s in b.positions ==>
              ApplyFill(b, f).positions[s] == b.positions[s] && ApplyFill(b, f).avgCosts[s] == b.avgCosts[s]
  {
  }
}
