/** Applying corporate actions to a long position (accounting/corporate_actions.py). */
module CorporateActions {
  import opened Common
  import opened Rounding

  datatype ActionType = SplitForward | SplitReverse | CashDividend | ManualReview(name: string)

  datatype CorporateAction = CorporateAction(
    actionId: string,
    symbol: Symbol,
    kind: ActionType,
    effectiveDate: Day,
    splitRatio: Option<real>,
    cashAmount: Option<real>)

  datatype RuleError =
    | NoUsableRatio
    | UnitRatio
    | NoUsableAmount
    | ShortPosition
    | NegativeCost
    | NonPositiveRatio
    | NonPositiveFactor
    | NotApplied

  predicate IsSplitType(kind: ActionType) {
    kind.SplitForward? || kind.SplitReverse?
  }

  /** True when the platform applies this action to its books. */
  predicate IsApplicable(a: CorporateAction) {
    if IsSplitType(a.kind) then a.splitRatio.Some? && a.splitRatio.value > 0.0 && a.splitRatio.value != 1.0
    else if a.kind.CashDividend? then a.cashAmount.Some? && a.cashAmount.value > 0.0
    else false
  }

  predicate IsSplit(a: CorporateAction) {
    IsSplitType(a.kind) && IsApplicable(a)
  }

  function SplitRatioOf(a: CorporateAction): Result<real, RuleError>
    requires IsSplitType(a.kind)
  {
    if a.splitRatio.None? || a.splitRatio.value <= 0.0 then Err(NoUsableRatio)
    else if a.splitRatio.value == 1.0 then Err(UnitRatio)
    else Ok(a.splitRatio.value)
  }

  function DividendPerShareOf(a: CorporateAction): Result<real, RuleError>
    requires a.kind.CashDividend?
  {
    if a.cashAmount.None? || a.cashAmount.value <= 0.0 then Err(NoUsableAmount) else Ok(a.cashAmount.value)
  }

  datatype SplitResult = SplitResult(
    quantity: real,
    avgCost: real,
    quantityDelta: real,
    fractionalShares: real,
    cashInLieu: real,
    realizedPnl: real)

  function ApplySplit(quantity: real, avgCost: real, ratio: real, inLieuPrice: Option<real>)
    : Result<SplitResult, RuleError>
  {
    if quantity < 0.0 then Err(ShortPosition)
    else if avgCost < 0.0 then Err(NegativeCost)
    else if ratio <= 0.0 then Err(NonPositiveRatio)
    else
      var raw := Times(quantity, ratio);
      var whole := FloorToWhole(raw);
      var fractional := raw - whole;
      var newAvgCost := avgCost / ratio;
      if fractional > 0.0 then
        var price := if inLieuPrice.Some? then inLieuPrice.value else newAvgCost;
        var cash := Times(fractional, price);
        Ok(SplitResult(whole, newAvgCost, whole - quantity, fractional, cash, cash - Times(fractional, newAvgCost)))
      else
        Ok(SplitResult(whole, newAvgCost, whole - quantity, fractional, 0.0, 0.0))
  }

  function DividendCash(quantity: real, perShare: real): Result<real, RuleError> {
    if quantity < 0.0 then Err(ShortPosition) else Ok(Times(quantity, perShare))
  }

  /** What one action does to one position. */
  datatype Adjustment = Adjustment(
    quantityAfter: real,
    avgCostAfter: real,
    cashDelta: real,
    realizedPnl: real,
    fractionalShares: real)

  function ApplyAction(a: CorporateAction, quantity: real, avgCost: real, inLieuPrice: Option<real>)
    : Result<Adjustment, RuleError>
  {
    if IsSplitType(a.kind) then
      var ratio :- SplitRatioOf(a);
      var r :- ApplySplit(quantity, avgCost, ratio, inLieuPrice);
      Ok(Adjustment(r.quantity, r.avgCost, r.cashInLieu, r.realizedPnl, r.fractionalShares))
    else if a.kind.CashDividend? then
      var perShare :- DividendPerShareOf(a);
      var cash :- DividendCash(quantity, perShare);
      Ok(Adjustment(quantity, avgCost, cash, cash, 0.0))
    else
      Err(NotApplied)
  }

  /** An action goes through exactly when it is applicable and the position is one the rule covers:
      long, and for a split with a cost that is not negative. */
  lemma AppliesIff(a: CorporateAction, quantity: real, avgCost: real, inLieuPrice: Option<real>)
    ensures ApplyAction(a, quantity, avgCost, inLieuPrice).Ok? <==>
              IsApplicable(a) && quantity >= 0.0 && (a.kind.CashDividend? || avgCost >= 0.0)
    ensures ApplyAction(a, quantity, avgCost, inLieuPrice) == Err(NotApplied) <==> a.kind.ManualReview?
  {
  }

  /** One split of a position, in its own terms: whole and fractional shares together are the old ones times
      the ratio, the fraction less than a share; cost per share shrinks by the ratio; the fraction is paid
      at the given price or else at its cost; and what is realised is that pay less its cost. */
  lemma SplitBalances(quantity: real, avgCost: real, ratio: real, inLieuPrice: Option<real>)
    requires quantity >= 0.0 && avgCost >= 0.0 && ratio > 0.0
    ensures ApplySplit(quantity, avgCost, ratio, inLieuPrice).Ok?
    ensures var r := ApplySplit(quantity, avgCost, ratio, inLieuPrice).value;
      && r.quantity + r.fractionalShares == Times(quantity, ratio) && 0.0 <= r.fractionalShares < 1.0
      && IsWhole(r.quantity) && r.quantityDelta == r.quantity - quantity
      && Times(ratio, r.avgCost) == avgCost
      && r.cashInLieu == Times(r.fractionalShares, if inLieuPrice.Some? then inLieuPrice.value else r.avgCost)
      && r.realizedPnl == r.cashInLieu - Times(r.fractionalShares, r.avgCost)
  {
    TimesQuotient(ratio, avgCost);
  }

  predicate IsWhole(x: real) {
    x == x.Floor as real
  }

  /** What an action reports is what it did: the fraction a split could not hold, and for a dividend none. */
  lemma ActionReportsItsFraction(a: CorporateAction, quantity: real, avgCost: real, inLieuPrice: Option<real>)
    requires ApplyAction(a, quantity, avgCost, inLieuPrice).Ok?
    ensures var r := ApplyAction(a, quantity, avgCost, inLieuPrice).value;
      if a.kind.CashDividend? then
        var cash := Times(quantity, a.cashAmount.value);
        r == Adjustment(quantity, avgCost, cash, cash, 0.0)
      else
        && a.splitRatio.Some? && 0.0 <= r.fractionalShares < 1.0
        && r.quantityAfter + r.fractionalShares == Times(quantity, a.splitRatio.value)
  {
  }

  // ---------------------------------------------------------------------------
  // Sequences of actions on one position
  // ---------------------------------------------------------------------------

  /** An action and the ex-date price its fractional remainder is paid at, when known. */
  datatype Event = Event(action: CorporateAction, inLieuPrice: Option<real>)

  datatype Holding = Holding(quantity: real, avgCost: real, cash: real, realized: real) {
    predicate Long() {
      quantity >= 0.0 && avgCost >= 0.0
    }
  }

  function Apply(h: Holding, e: Event): Result<Holding, RuleError> {
    var adj :- ApplyAction(e.action, h.quantity, h.avgCost, e.inLieuPrice);
    Ok(Holding(adj.quantityAfter, adj.avgCostAfter, h.cash + adj.cashDelta, h.realized + adj.realizedPnl))
  }

  function ApplyAll(h: Holding, events: seq<Event>): Result<Holding, RuleError>
    decreases |events|
  {
    if events == [] then Ok(h)
    else
      var next :- Apply(h, events[0]);
      ApplyAll(next, events[1..])
  }

  predicate AllApplicable(events: seq<Event>) {
    forall i :: 0 <= i < |events| ==> IsApplicable(events[i].action)
  }

  /** The number of new shares for an old one: the ratio of a split, one otherwise. */
  function RatioOf(a: CorporateAction): (r: real)
    ensures r > 0.0
  {
    if IsSplit(a) then a.splitRatio.value else 1.0
  }

  /** The fractional shares an action leaves to be paid in cash. */
  function Remainder(h: Holding, e: Event): real {
    var raw := Times(h.quantity, RatioOf(e.action));
    if IsSplit(e.action) then raw - FloorToWhole(raw) else 0.0
  }

  /** A sequence goes through, on a long position, exactly when every action in it is applicable. */
  lemma {:induction false} SequenceAppliesIff(h: Holding, events: seq<Event>)
    requires h.Long()
    ensures ApplyAll(h, events).Ok? <==> AllApplicable(events)
    decreases |events|
  {
    if events != [] {
      AppliesIff(events[0].action, h.quantity, h.avgCost, events[0].inLieuPrice);
      if IsApplicable(events[0].action) {
        StepIsTotal(h, events[0]);
        SequenceAppliesIff(Apply(h, events[0]).value, events[1..]);
        assert AllApplicable(events) <==> AllApplicable(events[1..]);
      }
    }
  }

  lemma StepIsTotal(h: Holding, e: Event)
    requires h.Long() && IsApplicable(e.action)
    ensures Apply(h, e).Ok? && Apply(h, e).value.Long()
    ensures 0.0 <= Remainder(h, e) < 1.0
    ensures Apply(h, e).value.quantity == Times(h.quantity, RatioOf(e.action)) - Remainder(h, e)
    ensures Times(RatioOf(e.action), Apply(h, e).value.avgCost) == h.avgCost
  {
    var ratio := RatioOf(e.action);
    TimesQuotient(ratio, h.avgCost);
    assert Times(h.quantity, ratio) >= 0.0;
    assert h.avgCost / ratio >= 0.0;
  }

  /** Cost of the holding plus cash, less what was realised: what an action may not create. */
  function Ledgered(h: Holding): real {
    h.cash - h.realized + Times(h.quantity, h.avgCost)
  }

  lemma BasisOfSplit(quantity: real, ratio: real, remainder: real, newAvg: real)
    ensures Times(Times(quantity, ratio) - remainder, newAvg) + Times(remainder, newAvg)
         == Times(quantity, Times(ratio, newAvg))
  {
    TimesDistributes(Times(quantity, ratio), remainder, newAvg);
    assert Times(Times(quantity, ratio), newAvg) == quantity * ratio * newAvg;
  }

  lemma StepInventsNothing(h: Holding, e: Event)
    requires h.Long() && IsApplicable(e.action)
    ensures Apply(h, e).Ok? && Ledgered(Apply(h, e).value) == Ledgered(h)
    ensures IsSplit(e.action) && e.inLieuPrice.None? ==> Apply(h, e).value.realized == h.realized
  {
    StepIsTotal(h, e);
    if IsSplit(e.action) {
      var newAvg := Apply(h, e).value.avgCost;
      BasisOfSplit(h.quantity, RatioOf(e.action), Remainder(h, e), newAvg);
      TimesDistributes(0.0, 0.0, newAvg);
    }
  }

  /** Over any sequence of applicable actions nothing is gained or lost on the books: cash less
      realised P&L plus the cost of the holding stays what it was. */
  lemma {:induction false} NoInventedPnl(h: Holding, events: seq<Event>)
    requires h.Long() && AllApplicable(events)
    ensures ApplyAll(h, events).Ok? && ApplyAll(h, events).value.Long()
    ensures Ledgered(ApplyAll(h, events).value) == Ledgered(h)
    ensures (forall i :: 0 <= i < |events| ==> IsSplit(events[i].action) && events[i].inLieuPrice.None?) ==>
              ApplyAll(h, events).value.realized == h.realized
    decreases |events|
  {
    if events != [] {
      StepIsTotal(h, events[0]);
      StepInventsNothing(h, events[0]);
      NoInventedPnl(Apply(h, events[0]).value, events[1..]);
    }
  }

  // ---------------------------------------------------------------------------
  // Shares and prices over a sequence
  // ---------------------------------------------------------------------------

  function Actions(events: seq<Event>): seq<CorporateAction> {
    seq(|events|, i requires 0 <= i < |events| => events[i].action)
  }

  function RatioProduct(events: seq<Event>): (r: real)
    ensures r > 0.0
  {
    if events == [] then 1.0 else Times(RatioOf(events[0].action), RatioProduct(events[1..]))
  }

  /** Each fractional remainder, in the shares of the end of the sequence. */
  function PaidOut(h: Holding, events: seq<Event>): real
    decreases |events|
  {
    if events == [] then 0.0
    else
      Times(Remainder(h, events[0]), RatioProduct(events[1..]))
      + match Apply(h, events[0])
        case Ok(next) => PaidOut(next, events[1..])
        case Err(_) => 0.0
  }

  /** The remainders met along the sequence. */
  function Remainders(h: Holding, events: seq<Event>): seq<real>
    decreases |events|
  {
    if events == [] then []
    else
      [Remainder(h, events[0])]
      + match Apply(h, events[0])
        case Ok(next) => Remainders(next, events[1..])
        case Err(_) => []
  }

  /** `split_factor_before`, as the value its loop accumulates. */
  function SplitFactorBefore(actions: seq<CorporateAction>): (f: real)
    ensures f > 0.0
  {
    if actions == [] then 1.0
    else SplitFactorBefore(actions[..|actions| - 1]) / RatioOf(actions[|actions| - 1])
  }

  method ComputeSplitFactorBefore(actions: seq<CorporateAction>) returns (factor: real)
    ensures factor == SplitFactorBefore(actions)
  {
    factor := 1.0;
    for i := 0 to |actions|
      invariant factor == SplitFactorBefore(actions[..i])
    {
      assert actions[..i + 1][..i] == actions[..i];
      if IsSplitType(actions[i].kind) && IsApplicable(actions[i]) {
        factor := factor / SplitRatioOf(actions[i]).value;
      }
    }
    assert actions[..|actions|] == actions;
  }

  /** Shares are conserved over any sequence of applicable actions: the starting quantity at the
      product of all ratios is the final quantity plus each remainder, every one of them less than
      a share, at the product of the ratios after it. */
  lemma {:induction false} SharesConserved(h: Holding, events: seq<Event>)
    requires h.Long() && AllApplicable(events)
    ensures ApplyAll(h, events).Ok?
    ensures Times(h.quantity, RatioProduct(events)) == ApplyAll(h, events).value.quantity + PaidOut(h, events)
    ensures |Remainders(h, events)| == |events|
    ensures forall i :: 0 <= i < |events| ==> 0.0 <= Remainders(h, events)[i] < 1.0
    decreases |events|
  {
    if events != [] {
      StepIsTotal(h, events[0]);
      var next := Apply(h, events[0]).value;
      SharesConserved(next, events[1..]);
      ShareStep(h.quantity, RatioOf(events[0].action), Remainder(h, events[0]), RatioProduct(events[1..]));
    }
  }

  lemma {:induction false} WholeStaysWhole(h: Holding, events: seq<Event>)
    requires h.Long() && AllApplicable(events) && IsWhole(h.quantity)
    ensures ApplyAll(h, events).Ok? && IsWhole(ApplyAll(h, events).value.quantity)
    decreases |events|
  {
    if events != [] {
      StepIsTotal(h, events[0]);
      WholeStaysWhole(Apply(h, events[0]).value, events[1..]);
    }
  }

  /** Once a split has been applied only whole shares are held. */
  lemma {:induction false} SplitsLeaveWholeShares(h: Holding, events: seq<Event>, k: nat)
    requires h.Long() && AllApplicable(events) && k < |events| && IsSplit(events[k].action)
    ensures ApplyAll(h, events).Ok? && IsWhole(ApplyAll(h, events).value.quantity)
    decreases |events|
  {
    StepIsTotal(h, events[0]);
    if k == 0 {
      WholeStaysWhole(Apply(h, events[0]).value, events[1..]);
    } else {
      SplitsLeaveWholeShares(Apply(h, events[0]).value, events[1..], k - 1);
    }
  }

  lemma ShareStep(quantity: real, ratio: real, remainder: real, later: real)
    ensures Times(quantity, Times(ratio, later))
         == Times(Times(quantity, ratio) - remainder, later) + Times(remainder, later)
  {
    TimesDistributes(Times(quantity, ratio), remainder, later);
    assert Times(Times(quantity, ratio), later) == quantity * ratio * later == Times(quantity, Times(ratio, later));
  }

  /** Moving a split's ratio between a price factor and what it multiplies. */
  lemma FactorStep(x: real, ratio: real, f: real)
    requires ratio > 0.0
    ensures Times(Times(ratio, x), f / ratio) == Times(x, f)
  {
    TimesQuotient(ratio, f);
    assert Times(Times(ratio, x), f / ratio) == Times(x, Times(ratio, f / ratio));
  }

  lemma {:induction false} FactorIsReciprocal(events: seq<Event>)
    ensures Times(RatioProduct(events), SplitFactorBefore(Actions(events))) == 1.0
  {
    hide SplitFactorBefore, RatioOf, Times;
    if events == [] {
      NoActionsNoFactor(events);
    } else {
      FactorIsReciprocal(events[1..]);
      FactorOfEvents(events);
      FactorStep(RatioProduct(events[1..]), RatioOf(events[0].action), SplitFactorBefore(Actions(events[1..])));
    }
  }

  lemma NoActionsNoFactor(events: seq<Event>)
    requires events == []
    ensures Times(1.0, SplitFactorBefore(Actions(events))) == 1.0
  {
    assert Actions(events) == [];
  }

  lemma FactorOfEvents(events: seq<Event>)
    requires events != []
    ensures SplitFactorBefore(Actions(events)) == SplitFactorBefore(Actions(events[1..])) / RatioOf(events[0].action)
  {
    FactorFromFront(Actions(events));
    assert Actions(events)[1..] == Actions(events[1..]);
  }

  lemma {:induction false} FactorFromFront(actions: seq<CorporateAction>)
    requires actions != []
    ensures SplitFactorBefore(actions) == SplitFactorBefore(actions[1..]) / RatioOf(actions[0])
  {
    if |actions| > 1 {
      var front, last := actions[..|actions| - 1], actions[|actions| - 1];
      FactorFromFront(front);
      assert actions[1..][..|actions| - 2] == front[1..];
      QuotientsCommute(SplitFactorBefore(front[1..]), RatioOf(actions[0]), RatioOf(last));
    } else {
      assert actions[..0] == [] && actions[1..] == [];
    }
  }

  lemma QuotientsCommute(x: real, a: real, b: real)
    requires a > 0.0 && b > 0.0
    ensures x / a / b == x / b / a
  {
    TimesQuotient(a, x);
    TimesQuotient(b, x / a);
    TimesQuotient(b, x);
    TimesQuotient(a, x / b);
    var u, v := x / a / b, x / b / a;
    assert Times(Times(a, b), u) == x == Times(Times(a, b), v);
    if u < v {
      TimesMonotone(u, v, Times(a, b));
    } else if v < u {
      TimesMonotone(v, u, Times(a, b));
    }
  }

  // ---------------------------------------------------------------------------
  // Market value over a sequence
  // ---------------------------------------------------------------------------

  /** Every split's remainder is paid at the starting price times the cumulative price factor up to and
      including that split. */
  predicate PaidFairly(price: real, events: seq<Event>) {
    forall i :: 0 <= i < |events| && IsSplit(events[i].action) ==>
      events[i].inLieuPrice == Some(Times(price, SplitFactorBefore(Actions(events[..i + 1]))))
  }

  /** The dividends of the sequence, each on the shares held when it is paid. */
  function Dividends(h: Holding, events: seq<Event>): real
    decreases |events|
  {
    if events == [] then 0.0
    else
      (if events[0].action.kind.CashDividend? && IsApplicable(events[0].action)
       then Times(h.quantity, events[0].action.cashAmount.value) else 0.0)
      + match Apply(h, events[0])
        case Ok(next) => Dividends(next, events[1..])
        case Err(_) => 0.0
  }

  lemma SplitKeepsValue(h: Holding, e: Event, price: real)
    requires h.Long() && IsSplit(e.action) && e.inLieuPrice == Some(price / RatioOf(e.action))
    ensures Apply(h, e).Ok?
    ensures Apply(h, e).value.cash + Times(Apply(h, e).value.quantity, price / RatioOf(e.action))
         == h.cash + Times(h.quantity, price)
  {
    var ratio := RatioOf(e.action);
    var postPrice := price / ratio;
    StepIsTotal(h, e);
    BasisOfSplit(h.quantity, ratio, Remainder(h, e), postPrice);
    TimesQuotient(ratio, price);
    TimesDistributes(0.0, 0.0, postPrice);
  }

  lemma DividendAddsCash(h: Holding, e: Event, price: real)
    requires h.Long() && IsApplicable(e.action) && e.action.kind.CashDividend?
    ensures Apply(h, e).Ok? && RatioOf(e.action) == 1.0
    ensures Apply(h, e).value.cash + Times(Apply(h, e).value.quantity, price)
         == h.cash + Times(h.quantity, price) + Times(h.quantity, e.action.cashAmount.value)
  {
  }

  lemma FirstFactor(e: Event)
    ensures SplitFactorBefore(Actions([e])) == 1.0 / RatioOf(e.action)
  {
    assert Actions([e])[..0] == [];
  }

  lemma QuotientOfOne(price: real, ratio: real)
    requires ratio > 0.0
    ensures Times(price, 1.0 / ratio) == price / ratio
  {
    QuotientOf(price, 1.0, ratio);
  }

  lemma QuotientOf(price: real, f: real, ratio: real)
    requires ratio > 0.0
    ensures Times(price, f / ratio) == Times(price, f) / ratio
    ensures Times(price / ratio, f) == Times(price, f) / ratio
  {
    TimesQuotient(ratio, f);
    TimesQuotient(ratio, price);
    TimesQuotient(ratio, Times(price, f));
    assert Times(ratio, Times(price, f / ratio)) == Times(price, Times(ratio, f / ratio));
    assert Times(ratio, Times(price / ratio, f)) == Times(Times(ratio, price / ratio), f);
    TimesCancels(ratio, Times(price, f / ratio), Times(price, f) / ratio);
    TimesCancels(ratio, Times(price / ratio, f), Times(price, f) / ratio);
  }

  /** The factor of a later prefix, seen from after the first event. */
  lemma FactorAfterFirst(price: real, events: seq<Event>)
    requires events != []
    ensures Times(price, SplitFactorBefore(Actions(events)))
         == Times(price / RatioOf(events[0].action), SplitFactorBefore(Actions(events[1..])))
  {
    FactorOfEvents(events);
    QuotientOf(price, SplitFactorBefore(Actions(events[1..])), RatioOf(events[0].action));
  }

  lemma FairRest(price: real, events: seq<Event>)
    requires events != [] && PaidFairly(price, events)
    ensures PaidFairly(price / RatioOf(events[0].action), events[1..])
    ensures IsSplit(events[0].action) ==> events[0].inLieuPrice == Some(price / RatioOf(events[0].action))
  {
    hide SplitFactorBefore, RatioOf, Times;
    var rest := events[1..];
    forall i | 0 <= i < |rest| && IsSplit(rest[i].action)
      ensures rest[i].inLieuPrice
           == Some(Times(price / RatioOf(events[0].action), SplitFactorBefore(Actions(rest[..i + 1]))))
    {
      assert rest[i] == events[i + 1];
      FactorAfterFirst(price, events[..i + 2]);
      assert events[..i + 2][1..] == rest[..i + 1];
    }
    FirstFactor(events[0]);
    assert events[..1] == [events[0]];
    QuotientOfOne(price, RatioOf(events[0].action));
  }

  lemma StepValue(h: Holding, e: Event, price: real)
    requires h.Long() && IsApplicable(e.action)
    requires IsSplit(e.action) ==> e.inLieuPrice == Some(price / RatioOf(e.action))
    ensures Apply(h, e).Ok?
    ensures Apply(h, e).value.cash + Times(Apply(h, e).value.quantity, price / RatioOf(e.action))
         == h.cash + Times(h.quantity, price)
            + if e.action.kind.CashDividend? then Times(h.quantity, e.action.cashAmount.value) else 0.0
  {
    if IsSplit(e.action) {
      SplitKeepsValue(h, e, price);
    } else {
      DividendAddsCash(h, e, price);
    }
  }

  /** Over any sequence of applicable actions whose remainders are paid fairly, cash plus quantity at the
      starting price times the cumulative factor grows by the dividends alone, and so stays constant over
      splits. */
  lemma {:induction false} FairActionsKeepMarketValue(h: Holding, price: real, events: seq<Event>)
    requires h.Long() && AllApplicable(events) && PaidFairly(price, events)
    ensures ApplyAll(h, events).Ok?
    ensures var r := ApplyAll(h, events).value;
      r.cash + Times(r.quantity, Times(price, SplitFactorBefore(Actions(events))))
        == h.cash + Times(h.quantity, price) + Dividends(h, events)
    ensures (forall i :: 0 <= i < |events| ==> IsSplit(events[i].action)) ==> Dividends(h, events) == 0.0
    decreases |events|
  {
    hide SplitFactorBefore, RatioOf, Times, Apply;
    if events == [] {
      NoEventsNoFactor(price, events);
    } else {
      StepIsTotal(h, events[0]);
      FairRest(price, events);
      StepValue(h, events[0], price);
      FactorAfterFirst(price, events);
      FairActionsKeepMarketValue(Apply(h, events[0]).value, price / RatioOf(events[0].action), events[1..]);
    }
  }

  lemma NoEventsNoFactor(price: real, events: seq<Event>)
    requires events == []
    ensures Times(price, SplitFactorBefore(Actions(events))) == price
  {
    assert Actions(events) == [];
  }

  /** A split whose remainder is paid at the pre-split price times the split's own factor leaves
      the position's market value unchanged. */
  lemma FairSplitKeepsMarketValue(h: Holding, a: CorporateAction, price: real)
    requires h.Long() && IsSplit(a)
    ensures SplitFactorBefore([a]) == 1.0 / RatioOf(a)
    ensures var postPrice := Times(price, SplitFactorBefore([a]));
      var r := Apply(h, Event(a, Some(postPrice)));
      r.Ok? && r.value.cash + Times(r.value.quantity, postPrice) == h.cash + Times(h.quantity, price)
  {
    var e := Event(a, Some(Times(price, SplitFactorBefore([a]))));
    FirstFactor(e);
    assert Actions([e]) == [a];
    QuotientOfOne(price, RatioOf(a));
    SplitKeepsValue(h, e, price);
  }

  /** The books agree with the adjusted prices: after any sequence of applicable actions the
      average cost is the starting one times the sequence's cumulative price factor. */
  lemma {:induction false} CostFollowsPriceFactor(h: Holding, events: seq<Event>)
    requires h.Long() && AllApplicable(events)
    ensures ApplyAll(h, events).Ok?
    ensures ApplyAll(h, events).value.avgCost == Times(h.avgCost, SplitFactorBefore(Actions(events)))
    decreases |events|
  {
    if events != [] {
      StepIsTotal(h, events[0]);
      var next := Apply(h, events[0]).value;
      CostFollowsPriceFactor(next, events[1..]);
      FactorOfEvents(events);
      FactorStep(next.avgCost, RatioOf(events[0].action), SplitFactorBefore(Actions(events[1..])));
    }
  }
}
