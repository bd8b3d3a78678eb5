/** What the exposure snapshot says of the raw positions: quantities times prices, in total and by label
    (risk/risk_engine.py). */
module ExposureSums {
  import opened Common
  import opened Grouping
  import opened Exposure

  /** The value of every priced position, short ones negative. */
  function SignedValues(positions: map<Symbol, int>, prices: map<Symbol, real>): map<Symbol, real> {
    map s | s in positions && s in prices :: Times(positions[s] as real, prices[s])
  }

  function AbsoluteValues(positions: map<Symbol, int>, prices: map<Symbol, real>): map<Symbol, real> {
    map s | s in positions && s in prices :: Abs(Times(positions[s] as real, prices[s]))
  }

  /** The positions that carry a label, the default one where none is given. */
  function Labelled(positions: map<Symbol, int>, labels: map<Symbol, string>, default: string, group: string)
    : map<Symbol, int>
  {
    map s | s in positions && (if s in labels then labels[s] else default) == group :: positions[s]
  }

  /** Positions held and priced. */
  function Counted(positions: map<Symbol, int>, prices: map<Symbol, real>): set<Symbol> {
    set s | s in positions && s in prices && positions[s] != 0
  }

  /** Leaving one position out leaves its leg out. */
  lemma LegsWithout(positions: map<Symbol, int>, prices: map<Symbol, real>, s: Symbol)
    requires s in positions
    ensures LongLegs(positions - {s}, prices) == LongLegs(positions, prices) - {s}
    ensures ShortLegs(positions - {s}, prices) == ShortLegs(positions, prices) - {s}
    ensures SignedValues(positions - {s}, prices) == SignedValues(positions, prices) - {s}
    ensures AbsoluteValues(positions - {s}, prices) == AbsoluteValues(positions, prices) - {s}
  {
    hide Notional, Times, Abs;
  }

  lemma SumWithout(m: map<Symbol, real>, s: Symbol)
    ensures SumValues(m) == SumValues(m - {s}) + Get(m, s, 0.0)
  {
    if s in m {
      SumValuesRemove(m, s);
    } else {
      assert m - {s} == m;
    }
  }

  /** One position's part in the four sums. */
  lemma OneLeg(positions: map<Symbol, int>, prices: map<Symbol, real>, s: Symbol)
    requires s in positions
    ensures var long, short := Get(LongLegs(positions, prices), s, 0.0), Get(ShortLegs(positions, prices), s, 0.0);
      && Get(SignedValues(positions, prices), s, 0.0) == long - short
      && (NonNegative(prices) ==> Get(AbsoluteValues(positions, prices), s, 0.0) == long + short)
  {
    if s in prices {
      LegValue(positions[s], prices[s]);
    }
  }

  lemma LegValue(qty: int, price: real)
    ensures Times(qty as real, price) == if qty < 0 then -Notional(qty, price) else Notional(qty, price)
    ensures qty == 0 ==> Times(qty as real, price) == 0.0
    ensures price >= 0.0 ==> Abs(Times(qty as real, price)) == Notional(qty, price)
  {
    assert (-qty) as real == -(qty as real);
    assert Times(-(qty as real), price) == -Times(qty as real, price);
    assert qty >= 0 && price >= 0.0 ==> Times(qty as real, price) >= 0.0;
    assert qty <= 0 && price >= 0.0 ==> Times(-(qty as real), price) >= 0.0;
  }

  /** Long less short is the signed sum over the priced positions; long plus short is, for prices that are
      not negative, the absolute one. */
  lemma {:induction false} LegsAddUp(positions: map<Symbol, int>, prices: map<Symbol, real>)
    ensures var long, short := SumValues(LongLegs(positions, prices)), SumValues(ShortLegs(positions, prices));
      && long - short == SumValues(SignedValues(positions, prices))
      && (NonNegative(prices) ==> long + short == SumValues(AbsoluteValues(positions, prices)))
    decreases positions.Keys
  {
    hide Notional, NonNegative;
    if positions.Keys == {} {
      assert LongLegs(positions, prices) == map[] && ShortLegs(positions, prices) == map[];
      assert SignedValues(positions, prices) == map[] && AbsoluteValues(positions, prices) == map[];
    } else {
      var s :| s in positions;
      LegsAddUp(positions - {s}, prices);
      LegsStepDown(positions, prices, s);
    }
  }

  lemma LegsStepDown(positions: map<Symbol, int>, prices: map<Symbol, real>, s: Symbol)
    requires s in positions
    requires var rest := positions - {s};
      var long, short := SumValues(LongLegs(rest, prices)), SumValues(ShortLegs(rest, prices));
      && long - short == SumValues(SignedValues(rest, prices))
      && (NonNegative(prices) ==> long + short == SumValues(AbsoluteValues(rest, prices)))
    ensures var long, short := SumValues(LongLegs(positions, prices)), SumValues(ShortLegs(positions, prices));
      && long - short == SumValues(SignedValues(positions, prices))
      && (NonNegative(prices) ==> long + short == SumValues(AbsoluteValues(positions, prices)))
  {
    hide Notional, NonNegative, SumValues, LongLegs, ShortLegs, SignedValues, AbsoluteValues;
    LegsWithout(positions, prices, s);
    OneLeg(positions, prices, s);
    SumWithout(LongLegs(positions, prices), s);
    SumWithout(ShortLegs(positions, prices), s);
    SumWithout(SignedValues(positions, prices), s);
    SumWithout(AbsoluteValues(positions, prices), s);
  }

  /** The totals over the raw positions: net is the sum of quantity times price over everything priced, and
      gross, for prices that are not negative, the sum of its absolute values. */
  lemma ExposuresAreSums(positions: map<Symbol, int>, prices: map<Symbol, real>,
                         strategyMap: Labelling, sectorMap: Labelling)
    ensures var e := Exposures(positions, prices, strategyMap, sectorMap);
      && e.totalNet == SumValues(SignedValues(positions, prices))
      && (NonNegative(prices) ==> e.totalGross == SumValues(AbsoluteValues(positions, prices)))
  {
    LegsAddUp(positions, prices);
  }

  lemma LongOfLabelled(positions: map<Symbol, int>, prices: map<Symbol, real>, labels: map<Symbol, string>,
                       default: string, group: string)
    ensures Members(LongLegs(positions, prices), labels, default, group)
         == LongLegs(Labelled(positions, labels, default, group), prices)
  {
    hide Notional;
  }

  lemma ShortOfLabelled(positions: map<Symbol, int>, prices: map<Symbol, real>, labels: map<Symbol, string>,
                        default: string, group: string)
    ensures Members(ShortLegs(positions, prices), labels, default, group)
         == ShortLegs(Labelled(positions, labels, default, group), prices)
  {
    hide Notional;
  }

  lemma MembersOfBoth(long: map<Symbol, real>, short: map<Symbol, real>, labels: map<Symbol, string>,
                      default: string, group: string)
    ensures Members(long + short, labels, default, group)
         == Members(long, labels, default, group) + Members(short, labels, default, group)
  {
  }

  lemma CountedAreLegs(positions: map<Symbol, int>, prices: map<Symbol, real>)
    ensures LongLegs(positions, prices).Keys !! ShortLegs(positions, prices).Keys
    ensures Counted(positions, prices) == (LongLegs(positions, prices) + ShortLegs(positions, prices)).Keys
    ensures |Counted(positions, prices)| == |LongLegs(positions, prices) + ShortLegs(positions, prices)|
  {
    hide Notional;
    assert Counted(positions, prices) == (LongLegs(positions, prices) + ShortLegs(positions, prices)).Keys;
  }

  /** The labelled legs are the legs of the labelled positions. */
  lemma LegsOfLabelled(positions: map<Symbol, int>, prices: map<Symbol, real>, labels: map<Symbol, string>,
                       default: string, group: string)
    ensures var long, short, own := LongLegs(positions, prices), ShortLegs(positions, prices),
                                    Labelled(positions, labels, default, group);
      && Members(long, labels, default, group) == LongLegs(own, prices)
      && Members(short, labels, default, group) == ShortLegs(own, prices)
      && Members(long + short, labels, default, group) == LongLegs(own, prices) + ShortLegs(own, prices)
      && LongLegs(own, prices).Keys !! ShortLegs(own, prices).Keys
      && |Members(long + short, labels, default, group)| == |Counted(own, prices)|
      && (group in Labels(long + short, labels, default) <==> Counted(own, prices) != {})
  {
    hide *;
    var long, short := LongLegs(positions, prices), ShortLegs(positions, prices);
    LongOfLabelled(positions, prices, labels, default, group);
    ShortOfLabelled(positions, prices, labels, default, group);
    MembersOfBoth(long, short, labels, default, group);
    CountedAreLegs(Labelled(positions, labels, default, group), prices);
    LabelHasMembers(long + short, labels, default, group);
  }

  lemma LabelHasMembers(m: map<Symbol, real>, labels: map<Symbol, string>, default: string, group: string)
    ensures group in Labels(m, labels, default) <==> Members(m, labels, default, group).Keys != {}
  {
    if group in Labels(m, labels, default) {
      var s :| s in m && LabelOf(labels, default, s) == group;
      assert s in Members(m, labels, default, group);
    }
  }

  /** One strategy of the snapshot, over the raw positions: it is there exactly when one of its symbols is
      held and priced; its net is the sum of quantity times price over its symbols, its gross, for prices
      that are not negative, the sum of the absolute values, and its count the number held and priced. */
  lemma StrategyExposureIsSum(positions: map<Symbol, int>, prices: map<Symbol, real>,
                              strategies: map<Symbol, string>, sectorMap: Labelling, sid: StrategyId)
    ensures var e := Exposures(positions, prices, Some(strategies), sectorMap);
      var own := Labelled(positions, strategies, "_unassigned", sid);
      && (sid in e.byStrategy <==> Counted(own, prices) != {})
      && (sid in e.byStrategy ==>
            var x := e.byStrategy[sid];
            && x.net == SumValues(SignedValues(own, prices)) == x.long - x.short
            && x.gross == x.long + x.short
            && (NonNegative(prices) ==> x.gross == SumValues(AbsoluteValues(own, prices)))
            && x.positionCount == |Counted(own, prices)|)
  {
    hide LongLegs, ShortLegs, SignedValues, AbsoluteValues, Labelled, Counted, Members, StrategiesOf, NonNegative;
    var long, short := LongLegs(positions, prices), ShortLegs(positions, prices);
    LegsOfLabelled(positions, prices, strategies, UNASSIGNED, sid);
    LegsAddUp(Labelled(positions, strategies, UNASSIGNED, sid), prices);
    StrategyKeys(long, short, strategies, sid);
    if sid in StrategiesOf(long, short, Some(strategies)) {
      StrategyIsItsPositions(long, short, strategies, sid);
    }
  }

  lemma StrategyKeys(long: map<Symbol, real>, short: map<Symbol, real>, l: map<Symbol, string>, sid: StrategyId)
    ensures sid in StrategiesOf(long, short, Some(l)) <==> sid in Labels(long + short, l, UNASSIGNED)
    ensures sid in StrategiesOf(long, short, Some(l)) ==>
              StrategiesOf(long, short, Some(l))[sid].positionCount == |Members(long + short, l, UNASSIGNED, sid)|
  {
    hide Members, LabelOf;
    assert forall s :: s in long || s in short ==> s in long + short;
  }

  /** One sector of the snapshot, over the raw positions: it is there exactly when one of its symbols is held
      and priced, its gross is the sum of the absolute values over its symbols, and its weight times the
      total is its gross. */
  lemma SectorExposureIsSum(positions: map<Symbol, int>, prices: map<Symbol, real>,
                            strategyMap: Labelling, sectors: map<Symbol, string>, sec: string)
    ensures var e := Exposures(positions, prices, strategyMap, Some(sectors));
      var own := Labelled(positions, sectors, "_unknown", sec);
      && (sec in e.bySector <==> Counted(own, prices) != {})
      && (sec in e.bySector ==>
            var x := e.bySector[sec];
            && (NonNegative(prices) ==> x.gross == SumValues(AbsoluteValues(own, prices)))
            && if e.totalGross > 0.0 then Times(e.totalGross, x.weight) == x.gross else x.weight == 0.0)
  {
    hide LongLegs, ShortLegs, AbsoluteValues, SignedValues, Labelled, Counted, StrategiesOf, NonNegative, Times;
    hide Members, BySector, GroupTotals, SumValues, Labels;
    var long, short := LongLegs(positions, prices), ShortLegs(positions, prices);
    var own := Labelled(positions, sectors, UNKNOWN, sec);
    LegsOfLabelled(positions, prices, sectors, UNKNOWN, sec);
    LegsAddUp(own, prices);
    SumOfDisjoint(LongLegs(own, prices), ShortLegs(own, prices));
    SectorEntry(long + short, sectors, sec, SumValues(long) + SumValues(short));
  }

  lemma SectorEntry(legs: map<Symbol, real>, sectors: map<Symbol, string>, sec: string, total: real)
    ensures var bySector := BySector(GroupTotals(legs, Some(sectors), UNKNOWN), total);
      && (sec in bySector <==> sec in Labels(legs, sectors, UNKNOWN))
      && (sec in bySector ==>
            && bySector[sec].gross == SumValues(Members(legs, sectors, UNKNOWN, sec))
            && if total > 0.0 then Times(total, bySector[sec].weight) == bySector[sec].gross
               else bySector[sec].weight == 0.0)
  {
    hide SumValues, Members, Labels, Times;
    if total > 0.0 {
      TimesQuotient(total, GroupSum(legs, sectors, UNKNOWN, sec));
    }
  }

  /** The concentration figures in terms of the strategies' gross values: the total times the largest weight
      is the largest gross, and the index times the squared total is the sum of their squares; without
      gross exposure or without strategies both are nothing. */
  lemma ConcentrationIsOfGross(positions: map<Symbol, int>, prices: map<Symbol, real>,
                               strategyMap: Labelling, sectorMap: Labelling)
    ensures var e := Exposures(positions, prices, strategyMap, sectorMap);
      if e.totalGross <= 0.0 || e.byStrategy == map[] then e.maxStrategyWeight == e.strategyHhi == 0.0
      else
        && (exists sid :: sid in e.byStrategy && e.byStrategy[sid].gross == Times(e.totalGross, e.maxStrategyWeight))
        && (forall sid :: sid in e.byStrategy ==> e.byStrategy[sid].gross <= Times(e.totalGross, e.maxStrategyWeight))
        && Times(e.strategyHhi, Times(e.totalGross, e.totalGross)) == SumValues(Squares(GrossOf(e.byStrategy)))
  {
    hide LongLegs, ShortLegs, StrategiesOf, Largest, SumValues, Squares, GrossOf, Times;
    var e := Exposures(positions, prices, strategyMap, sectorMap);
    if e.totalGross > 0.0 && e.byStrategy != map[] {
      LargestOfWeights(e.byStrategy, e.totalGross);
      SquaresOfWeights(GrossOf(e.byStrategy), e.totalGross);
    }
  }

  lemma LargestOfWeights(byStrategy: map<StrategyId, StrategyExposure>, total: real)
    requires total > 0.0 && byStrategy != map[]
    ensures GrossWeights(byStrategy, total) != map[]
    ensures var top := Largest(GrossWeights(byStrategy, total));
      && (exists sid :: sid in byStrategy && byStrategy[sid].gross == Times(total, top))
      && (forall sid :: sid in byStrategy ==> byStrategy[sid].gross <= Times(total, top))
  {
    var w := GrossWeights(byStrategy, total);
    var top := Largest(w);
    forall sid | sid in byStrategy
      ensures Times(total, w[sid]) == byStrategy[sid].gross <= Times(total, top)
    {
      TimesQuotient(total, byStrategy[sid].gross);
      TimesMonotoneRight(total, w[sid], top);
    }
    var sid :| sid in w && w[sid] == top;
    assert byStrategy[sid].gross == Times(total, top);
  }
}
