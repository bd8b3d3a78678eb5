/** Each strategy's part of the book: what it is credited with is exactly what the fills of its own symbols
    make of its share of the starting cash (replay_debug.py, `_run_trading` and `_apply_fill`). */
module StrategyBooks {
  import opened Common
  import opened Book
  import opened Orders
  import opened Trading

  /** Symbols are assigned to the strategies round robin. */
  predicate Assigned(cfg: Settings, s: Symbol, sid: StrategyId) {
    exists i :: 0 <= i < |cfg.symbols| && cfg.symbols[i] == s
      && cfg.StrategyIds()[i % |cfg.StrategyIds()|] == sid
  }

  /** The fills of a strategy's symbols, whoever they are credited to. */
  function FillsOf(cfg: Settings, fills: seq<Fill>, sid: StrategyId): seq<Fill> {
    if fills == [] then []
    else
      var front, last := FillsOf(cfg, fills[..|fills| - 1], sid), fills[|fills| - 1];
      if Assigned(cfg, last.symbol, sid) then front + [last] else front
  }

  /** The cash that fills bring in: what is sold less what is bought. */
  function SignedCash(fills: seq<Fill>): real {
    if fills == [] then 0.0
    else
      var f := fills[|fills| - 1];
      SignedCash(fills[..|fills| - 1]) + if f.side.Sell? then Times(f.qty, f.price) else -Times(f.qty, f.price)
  }

  /** A fill is credited to a strategy exactly when its symbol is assigned to it. */
  lemma CreditedIffAssigned(cfg: Settings, f: Fill, sid: StrategyId)
    requires OwnFill(cfg, f) && Distinct(cfg.symbols)
    ensures f.strategyId == Some(sid) <==> Assigned(cfg, f.symbol, sid)
  {
    var i :| 0 <= i < |cfg.symbols| && cfg.symbols[i] == f.symbol && f.strategyId == Some(cfg.StrategyOf(i));
    assert forall j :: 0 <= j < |cfg.symbols| && cfg.symbols[j] == f.symbol ==> j == i;
  }

  lemma {:induction false} OwnFillsAreValid(cfg: Settings, fills: seq<Fill>, sid: StrategyId)
    requires ValidFills(fills)
    ensures ValidFills(FillsOf(cfg, fills, sid))
  {
    if fills != [] {
      OwnFillsAreValid(cfg, fills[..|fills| - 1], sid);
    }
  }

  /** The entries of the symbols assigned to a strategy. */
  function OwnEntries(cfg: Settings, m: map<Symbol, real>, sid: StrategyId): map<Symbol, real> {
    map s | s in m && Assigned(cfg, s, sid) :: m[s]
  }

  lemma OwnEntriesOf(cfg: Settings, m: map<Symbol, real>, sid: StrategyId, s: Symbol, v: real)
    ensures Assigned(cfg, s, sid) ==>
              && OwnEntries(cfg, m[s := v], sid) == OwnEntries(cfg, m, sid)[s := v]
              && OwnEntries(cfg, m - {s}, sid) == OwnEntries(cfg, m, sid) - {s}
              && Get(OwnEntries(cfg, m, sid), s, 0.0) == Get(m, s, 0.0)
    ensures !Assigned(cfg, s, sid) ==>
              && OwnEntries(cfg, m[s := v], sid) == OwnEntries(cfg, m, sid)
              && OwnEntries(cfg, m - {s}, sid) == OwnEntries(cfg, m, sid)
  {
    hide Assigned;
  }

  /** `part` is what `whole` holds for a strategy, beside `share` of starting cash. */
  ghost predicate IsPart(cfg: Settings, whole: Book, part: Book, share: real, sid: StrategyId) {
    && part.cash == share + Get(whole.fillPnl, sid, 0.0)
    && part.positions == OwnEntries(cfg, whole.positions, sid)
    && part.avgCosts == OwnEntries(cfg, whole.avgCosts, sid)
  }

  lemma OwnFillKeepsPart(cfg: Settings, whole: Book, part: Book, share: real, sid: StrategyId, f: Fill)
    requires whole.Sound() && part.Sound() && IsPart(cfg, whole, part, share, sid)
    requires ValidFill(f) && f.strategyId == Some(sid) && Assigned(cfg, f.symbol, sid)
    ensures IsPart(cfg, ApplyFill(whole, f), ApplyFill(part, f), share, sid)
  {
    hide Assigned, OwnEntries, Times;
    var after := ApplyFill(whole, f);
    OwnEntriesOf(cfg, whole.positions, sid, f.symbol, Get(after.positions, f.symbol, 0.0));
    OwnEntriesOf(cfg, whole.avgCosts, sid, f.symbol, Get(after.avgCosts, f.symbol, 0.0));
    if f.side.Buy? {
      assert ApplyFill(part, f) == ApplyBuy(part, f) && after == ApplyBuy(whole, f);
    } else {
      assert ApplyFill(part, f) == ApplySell(part, f) && after == ApplySell(whole, f);
    }
  }

  lemma OtherFillKeepsPart(cfg: Settings, whole: Book, part: Book, share: real, sid: StrategyId, f: Fill)
    requires whole.Sound() && IsPart(cfg, whole, part, share, sid)
    requires ValidFill(f) && f.strategyId.Some? && f.strategyId.value != sid && !Assigned(cfg, f.symbol, sid)
    ensures IsPart(cfg, ApplyFill(whole, f), part, share, sid)
  {
    hide Assigned, OwnEntries, Times;
    var after := ApplyFill(whole, f);
    OwnEntriesOf(cfg, whole.positions, sid, f.symbol, Get(after.positions, f.symbol, 0.0));
    OwnEntriesOf(cfg, whole.avgCosts, sid, f.symbol, Get(after.avgCosts, f.symbol, 0.0));
  }

  /** A strategy's part of the book is a book of its own: that of its symbols' fills over its share. */
  lemma {:induction false} PartIsOwnBook(cfg: Settings, fills: seq<Fill>, share: real, sid: StrategyId)
    requires OwnFills(cfg, fills) && ValidFills(fills) && Distinct(cfg.symbols)
    ensures ValidFills(FillsOf(cfg, fills, sid))
    ensures IsPart(cfg, Replay(EmptyBook(cfg.startingCash), fills),
                   Replay(EmptyBook(share), FillsOf(cfg, fills, sid)), share, sid)
  {
    hide OwnFill, Assigned, IsPart, ApplyFill;
    OwnFillsAreValid(cfg, fills, sid);
    if fills == [] {
      NothingIsPart(cfg, share, sid);
    } else {
      var front, f := fills[..|fills| - 1], fills[|fills| - 1];
      var own := FillsOf(cfg, front, sid);
      OwnFillsAreValid(cfg, front, sid);
      var whole, part := Replay(EmptyBook(cfg.startingCash), front), Replay(EmptyBook(share), own);
      PartIsOwnBook(cfg, front, share, sid);
      CreditedIffAssigned(cfg, f, sid);
      if Assigned(cfg, f.symbol, sid) {
        OwnFillKeepsPart(cfg, whole, part, share, sid, f);
        assert (own + [f])[..|own|] == own;
      } else {
        OwnFillIsCredited(cfg, f);
        OtherFillKeepsPart(cfg, whole, part, share, sid, f);
      }
    }
  }

  lemma OwnFillIsCredited(cfg: Settings, f: Fill)
    requires OwnFill(cfg, f)
    ensures f.strategyId.Some?
  {
  }

  lemma NothingIsPart(cfg: Settings, share: real, sid: StrategyId)
    ensures IsPart(cfg, EmptyBook(cfg.startingCash), EmptyBook(share), share, sid)
  {
  }

  /** A strategy is credited with the signed cash of its own symbols' fills. */
  lemma {:induction false} CreditIsSignedCash(cfg: Settings, b: Book, fills: seq<Fill>, sid: StrategyId)
    requires Accounted(cfg, b, fills) && Distinct(cfg.symbols)
    ensures Get(b.fillPnl, sid, 0.0) == SignedCash(FillsOf(cfg, fills, sid))
    decreases |fills|
  {
    hide OwnFill, Assigned, Times;
    if fills != [] {
      var front, f := fills[..|fills| - 1], fills[|fills| - 1];
      var own := FillsOf(cfg, front, sid);
      CreditIsSignedCash(cfg, Audit(cfg, front).value, front, sid);
      CreditedIffAssigned(cfg, f, sid);
      OwnFillIsCredited(cfg, f);
      assert (own + [f])[..|own|] == own;
    }
  }

  /** The market value of the first `n` symbols assigned to a strategy, as a sum over its own positions. */
  lemma {:induction false} ValueIsListTotal(cfg: Settings, positions: map<Symbol, real>, own: map<Symbol, real>,
                                            prices: map<Symbol, real>, sid: StrategyId, n: nat)
    requires n <= |cfg.symbols| && Distinct(cfg.symbols)
    requires own == OwnEntries(cfg, positions, sid)
    ensures StrategyValue(cfg, positions, prices, sid, n) == ListTotal(cfg.symbols[..n], Valued(own, prices))
  {
    if n == 0 {
      assert cfg.symbols[..0] == [];
    } else {
      ValueIsListTotal(cfg, positions, own, prices, sid, n - 1);
      assert cfg.symbols[..n][..n - 1] == cfg.symbols[..n - 1];
      AssignedIff(cfg, n - 1, sid);
      TimesDistributes(0.0, 0.0, Get(prices, cfg.symbols[n - 1], 0.0));
    }
  }

  lemma AssignedIff(cfg: Settings, i: nat, sid: StrategyId)
    requires i < |cfg.symbols| && Distinct(cfg.symbols)
    ensures Assigned(cfg, cfg.symbols[i], sid) <==> cfg.StrategyOf(i) == sid
  {
    assert forall j :: 0 <= j < |cfg.symbols| && cfg.symbols[j] == cfg.symbols[i] ==> j == i;
  }

  lemma EquityIsMark(cfg: Settings, whole: Book, part: Book, prices: map<Symbol, real>, current: map<Symbol, real>,
                     sid: StrategyId)
    requires Distinct(cfg.symbols) && forall s :: s in whole.positions ==> s in cfg.symbols
    requires forall s :: s in cfg.symbols ==> s in prices
    requires IsPart(cfg, whole, part, cfg.startingCash / |cfg.StrategyIds()| as real, sid)
    ensures StrategyEquity(cfg, whole, prices, sid) == Mark(part, prices, current)
  {
    hide Assigned, Times;
    ValueIsListTotal(cfg, whole.positions, part.positions, prices, sid, |cfg.symbols|);
    assert cfg.symbols[..|cfg.symbols|] == cfg.symbols;
    ListTotalIsSumValues(cfg.symbols, Valued(part.positions, prices));
    PricedAlike(part.positions, prices, current);
  }

  /** Over every run with distinct symbols, a strategy is credited with exactly the signed cash of the fills
      of the symbols assigned to it, and its equity at any prices is the mark of the book that those fills
      make of its share of the starting cash: no other strategy's trade can put it in breach. */
  lemma RunCreditsStrategies(p: Plan, ticks: seq<Tick>, sid: StrategyId, prices: map<Symbol, real>,
                             current: map<Symbol, real>)
    requires ValidTicks(p.cfg, ticks) && Distinct(p.cfg.symbols)
    requires forall s :: s in p.cfg.symbols ==> s in prices
    ensures var l, share := Run(p, ticks), p.cfg.startingCash / |p.cfg.StrategyIds()| as real;
      var own := FillsOf(p.cfg, l.fills, sid);
      && ValidFills(own)
      && Get(l.book.fillPnl, sid, 0.0) == SignedCash(own)
      && StrategyEquity(p.cfg, l.book, prices, sid) == Mark(Replay(EmptyBook(share), own), prices, current)
  {
    hide Run, Accounted, OwnFill, IsPart, Assigned;
    var l, share := Run(p, ticks), p.cfg.startingCash / |p.cfg.StrategyIds()| as real;
    RunAccounted(p, ticks);
    CreditIsSignedCash(p.cfg, l.book, l.fills, sid);
    AuditedReplays(p.cfg, l.book, l.fills);
    AccountedKeys(p.cfg, l.fills);
    PartIsOwnBook(p.cfg, l.fills, share, sid);
    EquityIsMark(p.cfg, l.book, Replay(EmptyBook(share), FillsOf(p.cfg, l.fills, sid)), prices, current, sid);
  }
}
