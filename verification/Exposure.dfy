/** Portfolio exposures by strategy and sector (risk/risk_engine.py). */
module Exposure {
  import opened Common
  import opened Grouping

  datatype StrategyExposure = StrategyExposure(gross: real, net: real, long: real, short: real, positionCount: nat)

  datatype SectorExposure = SectorExposure(gross: real, weight: real)

  datatype Snapshot = Snapshot(
    totalGross: real,
    totalNet: real,
    totalLong: real,
    totalShort: real,
    byStrategy: map<StrategyId, StrategyExposure>,
    bySector: map<string, SectorExposure>,
    maxStrategyWeight: real,
    strategyHhi: real)

  const UNASSIGNED := "_unassigned"

  const UNKNOWN := "_unknown"

  // ---------------------------------------------------------------------------
  // What the numbers mean, with no iteration order
  // ---------------------------------------------------------------------------

  function Notional(qty: int, price: real): real {
    Times((if qty < 0 then -qty else qty) as real, price)
  }

  /** The long positions that are counted: held and priced, each at its notional value. */
  function LongLegs(positions: map<Symbol, int>, prices: map<Symbol, real>): map<Symbol, real> {
    map s | s in positions && s in prices && positions[s] > 0 :: Notional(positions[s], prices[s])
  }

  function ShortLegs(positions: map<Symbol, int>, prices: map<Symbol, real>): map<Symbol, real> {
    map s | s in positions && s in prices && positions[s] < 0 :: Notional(positions[s], prices[s])
  }

  type Labelling = Option<map<Symbol, string>>

  ghost function GroupTotals(m: map<Symbol, real>, labels: Labelling, default: string): map<string, real> {
    match labels
    case None => map[]
    case Some(l) => GroupSums(m, l, default, Labels(m, l, default))
  }

  function GroupCounts(m: map<Symbol, real>, labels: Labelling, default: string): map<string, nat> {
    match labels
    case None => map[]
    case Some(l) => map g | g in Labels(m, l, default) :: |Members(m, l, default, g)|
  }

  function ByStrategy(long: map<string, real>, short: map<string, real>, count: map<string, nat>)
    : map<StrategyId, StrategyExposure>
  {
    map sid | sid in long.Keys + short.Keys + count.Keys ::
      var l := Get(long, sid, 0.0);
      var s := Get(short, sid, 0.0);
      StrategyExposure(l + s, l - s, l, s, Get(count, sid, 0))
  }

  function BySector(gross: map<string, real>, total: real): map<string, SectorExposure> {
    map sec | sec in gross :: SectorExposure(gross[sec], if total > 0.0 then gross[sec] / total else 0.0)
  }

  function GrossOf(byStrategy: map<StrategyId, StrategyExposure>): map<StrategyId, real> {
    map sid | sid in byStrategy :: byStrategy[sid].gross
  }

  function GrossWeights(byStrategy: map<StrategyId, StrategyExposure>, total: real): (w: map<StrategyId, real>)
    requires total != 0.0
    ensures w.Keys == byStrategy.Keys
    ensures w == map[] ==> byStrategy == map[]
  {
    var w := Weights(GrossOf(byStrategy), total);
    assert GrossOf(byStrategy).Keys == byStrategy.Keys;
    assert w.Keys == byStrategy.Keys;
    assert byStrategy != map[] ==> byStrategy.Keys != {};
    w
  }

  lemma {:induction false} LargestExists(m: map<string, real>)
    requires m != map[]
    ensures exists k :: k in m && forall j :: j in m ==> m[j] <= m[k]
    decreases m.Keys
  {
    var k := SomeKey(m);
    var rest := m - {k};
    if rest == map[] {
      assert forall j :: j in m && j != k ==> j in rest;
    } else {
      LargestExists(rest);
      var b :| b in rest && forall j :: j in rest ==> rest[j] <= rest[b];
      var best := if m[b] <= m[k] then k else b;
      forall j | j in m ensures m[j] <= m[best] {
        if j != k {
          assert j in rest;
        }
      }
    }
  }

  ghost function Largest(m: map<string, real>): (v: real)
    requires m != map[]
    ensures exists k :: k in m && m[k] == v
    ensures forall k :: k in m ==> m[k] <= v
  {
    LargestExists(m);
    var k :| k in m && forall j :: j in m ==> m[j] <= m[k];
    m[k]
  }

  /** The strategy breakdown of the counted positions. */
  ghost function StrategiesOf(long: map<Symbol, real>, short: map<Symbol, real>, labels: Labelling)
    : map<StrategyId, StrategyExposure>
  {
    ByStrategy(GroupTotals(long, labels, UNASSIGNED), GroupTotals(short, labels, UNASSIGNED),
               GroupCounts(long + short, labels, UNASSIGNED))
  }

  ghost function TopWeight(byStrategy: map<StrategyId, StrategyExposure>, gross: real): real {
    if gross > 0.0 && byStrategy != map[] then Largest(GrossWeights(byStrategy, gross)) else 0.0
  }

  ghost function Hhi(byStrategy: map<StrategyId, StrategyExposure>, gross: real): real {
    if gross > 0.0 && byStrategy != map[] then SumValues(Squares(GrossWeights(byStrategy, gross))) else 0.0
  }

  ghost function SnapshotOf(long: map<Symbol, real>, short: map<Symbol, real>,
                            strategyMap: Labelling, sectorMap: Labelling): Snapshot
  {
    var gross := SumValues(long) + SumValues(short);
    var byStrategy := StrategiesOf(long, short, strategyMap);
    Snapshot(gross, SumValues(long) - SumValues(short), SumValues(long), SumValues(short), byStrategy,
             BySector(GroupTotals(long + short, sectorMap, UNKNOWN), gross),
             TopWeight(byStrategy, gross), Hhi(byStrategy, gross))
  }

  ghost function Exposures(positions: map<Symbol, int>, prices: map<Symbol, real>,
                           strategyMap: Labelling, sectorMap: Labelling): Snapshot
  {
    SnapshotOf(LongLegs(positions, prices), ShortLegs(positions, prices), strategyMap, sectorMap)
  }

  // ---------------------------------------------------------------------------
  // The one pass over the positions, in whatever order the dictionary yields them
  // ---------------------------------------------------------------------------

  /** `d[g] = d.get(g, 0) + v` for the group of `s`, when a labelling is given. */
  function Bump(d: map<string, real>, labels: Labelling, default: string, s: Symbol, v: real): map<string, real> {
    match labels
    case None => d
    case Some(l) => var g := LabelOf(l, default, s); d[g := Get(d, g, 0.0) + v]
  }

  function BumpCount(d: map<string, nat>, labels: Labelling, default: string, s: Symbol): map<string, nat> {
    match labels
    case None => d
    case Some(l) => var g := LabelOf(l, default, s); d[g := Get(d, g, 0) + 1]
  }

  method ComputeExposures(positions: map<Symbol, int>, prices: map<Symbol, real>,
                          strategyMap: Labelling, sectorMap: Labelling)
    returns (snapshot: Snapshot)
    ensures snapshot == Exposures(positions, prices, strategyMap, sectorMap)
  {
    var t := TallyPositions(positions, prices, strategyMap, sectorMap);
    var totalGross := t.totalLong + t.totalShort;
    var byStrategy := ByStrategy(t.strategyLong, t.strategyShort, t.strategyCount);
    var maxWeight, hhi := 0.0, 0.0;
    if totalGross > 0.0 && byStrategy != map[] {
      maxWeight, hhi := Concentration(GrossWeights(byStrategy, totalGross));
    }
    snapshot := Snapshot(totalGross, t.totalLong - t.totalShort, t.totalLong, t.totalShort, byStrategy,
                         BySector(t.sectorGross, totalGross), maxWeight, hhi);
  }

  /** The running totals of the pass. */
  datatype Tally = Tally(
    totalLong: real,
    totalShort: real,
    strategyLong: map<string, real>,
    strategyShort: map<string, real>,
    strategyCount: map<string, nat>,
    sectorGross: map<string, real>)

  ghost function TallyOf(long: map<Symbol, real>, short: map<Symbol, real>, strategyMap: Labelling,
                         sectorMap: Labelling)
    : Tally
  {
    Tally(SumValues(long), SumValues(short),
          GroupTotals(long, strategyMap, UNASSIGNED),
          GroupTotals(short, strategyMap, UNASSIGNED),
          GroupCounts(long + short, strategyMap, UNASSIGNED),
          GroupTotals(long + short, sectorMap, UNKNOWN))
  }

  function CountLong(t: Tally, strategyMap: Labelling, sectorMap: Labelling, s: Symbol, notional: real): Tally {
    t.(totalLong := t.totalLong + notional,
       strategyLong := Bump(t.strategyLong, strategyMap, UNASSIGNED, s, notional),
       strategyCount := BumpCount(t.strategyCount, strategyMap, UNASSIGNED, s),
       sectorGross := Bump(t.sectorGross, sectorMap, UNKNOWN, s, notional))
  }

  function CountShort(t: Tally, strategyMap: Labelling, sectorMap: Labelling, s: Symbol, notional: real): Tally {
    t.(totalShort := t.totalShort + notional,
       strategyShort := Bump(t.strategyShort, strategyMap, UNASSIGNED, s, notional),
       strategyCount := BumpCount(t.strategyCount, strategyMap, UNASSIGNED, s),
       sectorGross := Bump(t.sectorGross, sectorMap, UNKNOWN, s, notional))
  }

  method TallyPositions(positions: map<Symbol, int>, prices: map<Symbol, real>,
                        strategyMap: Labelling, sectorMap: Labelling)
    returns (t: Tally)
    ensures t == TallyOf(LongLegs(positions, prices), ShortLegs(positions, prices), strategyMap, sectorMap)
  {
    ghost var allLong, allShort := LongLegs(positions, prices), ShortLegs(positions, prices);
    t := Tally(0.0, 0.0, map[], map[], map[], map[]);
    var pending := positions.Keys;
    NothingTallied(allLong, allShort, strategyMap, sectorMap, pending);
    while pending != {}
      invariant pending <= positions.Keys
      invariant t == TallyOf(LegsOutside(allLong, pending), LegsOutside(allShort, pending), strategyMap, sectorMap)
      decreases pending
    {
      var symbol :| symbol in pending;
      var qty := positions[symbol];
      LegsStep(allLong, pending, symbol);
      LegsStep(allShort, pending, symbol);
      if qty != 0 && symbol in prices {
        var notional := Notional(qty, prices[symbol]);
        TallyStep(LegsOutside(allLong, pending), LegsOutside(allShort, pending), strategyMap, sectorMap,
                  symbol, notional);
        if qty > 0 {
          t := CountLong(t, strategyMap, sectorMap, symbol, notional);
        } else {
          t := CountShort(t, strategyMap, sectorMap, symbol, notional);
        }
      }
      pending := pending - {symbol};
    }
    EverythingTallied(allLong);
    EverythingTallied(allShort);
  }

  method Concentration(weights: map<string, real>) returns (top: real, hhi: real)
    requires weights != map[]
    ensures top == Largest(weights)
    ensures hhi == SumValues(Squares(weights))
  {
    var first :| first in weights;
    top, hhi := weights[first], 0.0;
    var pending := weights.Keys;
    ghost var seen: map<string, real> := map[];
    while pending != {}
      invariant pending <= weights.Keys
      invariant seen == map k | k in weights && k !in pending :: weights[k]
      invariant hhi == SumValues(Squares(seen))
      invariant exists k :: k in weights && weights[k] == top
      invariant forall k :: k in seen ==> seen[k] <= top
      decreases pending
    {
      var k :| k in pending;
      pending := pending - {k};
      var w := weights[k];
      assert Squares(seen[k := w]) == Squares(seen)[k := Times(w, w)];
      SumValuesUpdate(Squares(seen), k, Times(w, w));
      seen := seen[k := w];
      hhi := hhi + Times(w, w);
      top := Max(top, w);
    }
    assert seen == weights;
  }

  // ---------------------------------------------------------------------------
  // Steps of the pass
  // ---------------------------------------------------------------------------

  function LegsOutside(legs: map<Symbol, real>, pending: set<Symbol>): map<Symbol, real> {
    map s | s in legs && s !in pending :: legs[s]
  }

  lemma LegsStep(legs: map<Symbol, real>, pending: set<Symbol>, s: Symbol)
    requires s in pending
    ensures s !in LegsOutside(legs, pending)
    ensures LegsOutside(legs, pending - {s})
         == if s in legs then LegsOutside(legs, pending)[s := legs[s]] else LegsOutside(legs, pending)
  {
  }

  lemma NothingTallied(long: map<Symbol, real>, short: map<Symbol, real>, strategyMap: Labelling, sectorMap: Labelling,
                       pending: set<Symbol>)
    requires long.Keys <= pending && short.Keys <= pending
    ensures TallyOf(LegsOutside(long, pending), LegsOutside(short, pending), strategyMap, sectorMap)
         == Tally(0.0, 0.0, map[], map[], map[], map[])
  {
    assert LegsOutside(long, pending) == map[] && LegsOutside(short, pending) == map[];
    var none: map<Symbol, real> := map[];
    assert none + none == none;
    NoGroups(strategyMap, UNASSIGNED);
    NoGroups(sectorMap, UNKNOWN);
  }

  lemma NoGroups(labels: Labelling, default: string)
    ensures GroupTotals(map[], labels, default) == map[]
    ensures GroupCounts(map[], labels, default) == map[]
  {
    if labels.Some? {
      assert Labels(map[], labels.value, default) == {};
    }
  }

  lemma EverythingTallied(legs: map<Symbol, real>)
    ensures LegsOutside(legs, {}) == legs
  {
  }

  lemma TallyStep(long: map<Symbol, real>, short: map<Symbol, real>, strategyMap: Labelling, sectorMap: Labelling,
                  s: Symbol, v: real)
    requires s !in long && s !in short
    ensures TallyOf(long[s := v], short, strategyMap, sectorMap)
         == CountLong(TallyOf(long, short, strategyMap, sectorMap), strategyMap, sectorMap, s, v)
    ensures TallyOf(long, short[s := v], strategyMap, sectorMap)
         == CountShort(TallyOf(long, short, strategyMap, sectorMap), strategyMap, sectorMap, s, v)
  {
    assert long[s := v] + short == (long + short)[s := v];
    assert long + short[s := v] == (long + short)[s := v];
    SumValuesUpdate(long, s, v);
    SumValuesUpdate(short, s, v);
    GroupsOfNew(long, strategyMap, UNASSIGNED, s, v);
    GroupsOfNew(short, strategyMap, UNASSIGNED, s, v);
    GroupsOfNew(long + short, strategyMap, UNASSIGNED, s, v);
    GroupsOfNew(long + short, sectorMap, UNKNOWN, s, v);
  }

  lemma GroupsOfNew(m: map<Symbol, real>, labels: Labelling, default: string, s: Symbol, v: real)
    requires s !in m
    ensures GroupTotals(m[s := v], labels, default) == Bump(GroupTotals(m, labels, default), labels, default, s, v)
    ensures GroupCounts(m[s := v], labels, default) == BumpCount(GroupCounts(m, labels, default), labels, default, s)
  {
    if labels.Some? {
      GroupTotalsOfNew(m, labels.value, default, s, v);
      GroupCountsOfNew(m, labels.value, default, s, v);
    }
  }

  lemma GroupTotalsOfNew(m: map<Symbol, real>, l: map<Symbol, string>, default: string, s: Symbol, v: real)
    requires s !in m
    ensures GroupTotals(m[s := v], Some(l), default) == Bump(GroupTotals(m, Some(l), default), Some(l), default, s, v)
  {
    var before, after := GroupTotals(m, Some(l), default), GroupTotals(m[s := v], Some(l), default);
    LabelsOfNew(m, l, default, s, v);
    var bumped := Bump(before, Some(l), default, s, v);
    assert after.Keys == bumped.Keys;
    forall g | g in after ensures after[g] == bumped[g] {
      GroupSumOfNew(m, l, default, s, v, g);
      TotalsWithDefault(m, l, default, g);
    }
  }

  lemma GroupCountsOfNew(m: map<Symbol, real>, l: map<Symbol, string>, default: string, s: Symbol, v: real)
    requires s !in m
    ensures GroupCounts(m[s := v], Some(l), default) == BumpCount(GroupCounts(m, Some(l), default), Some(l), default, s)
  {
    var before, after := GroupCounts(m, Some(l), default), GroupCounts(m[s := v], Some(l), default);
    LabelsOfNew(m, l, default, s, v);
    var bumped := BumpCount(before, Some(l), default, s);
    assert after.Keys == bumped.Keys;
    forall g | g in after ensures after[g] == bumped[g] {
      GroupCountOfNew(m, l, default, s, v, g);
    }
  }

  lemma GroupCountOfNew(m: map<Symbol, real>, l: map<Symbol, string>, default: string, s: Symbol, v: real, g: string)
    requires s !in m
    ensures |Members(m[s := v], l, default, g)|
         == Get(GroupCounts(m, Some(l), default), g, 0) + if g == LabelOf(l, default, s) then 1 else 0
  {
    var members := Members(m, l, default, g);
    if g !in Labels(m, l, default) {
      EmptyGroup(m, l, default, g);
    }
    if g == LabelOf(l, default, s) {
      assert Members(m[s := v], l, default, g) == members[s := v];
    } else {
      assert Members(m[s := v], l, default, g) == members;
    }
  }

  // ---------------------------------------------------------------------------
  // Partition and concentration
  // ---------------------------------------------------------------------------

  function LongOf(byStrategy: map<StrategyId, StrategyExposure>): map<StrategyId, real> {
    map sid | sid in byStrategy :: byStrategy[sid].long
  }

  function ShortOf(byStrategy: map<StrategyId, StrategyExposure>): map<StrategyId, real> {
    map sid | sid in byStrategy :: byStrategy[sid].short
  }

  function SectorGrossOf(bySector: map<string, SectorExposure>): map<string, real> {
    map sec | sec in bySector :: bySector[sec].gross
  }

  function SectorWeightsOf(bySector: map<string, SectorExposure>): map<string, real> {
    map sec | sec in bySector :: bySector[sec].weight
  }

  /** Looking a group with no member up gives its (empty) sum. */
  lemma TotalsWithDefault(m: map<Symbol, real>, l: map<Symbol, string>, default: string, g: string)
    ensures Get(GroupTotals(m, Some(l), default), g, 0.0) == GroupSum(m, l, default, g)
  {
    if g !in Labels(m, l, default) {
      EmptyGroup(m, l, default, g);
    }
  }

  /** What the snapshot says about one strategy: the sums over the positions labelled with it. */
  lemma StrategyIsItsPositions(long: map<Symbol, real>, short: map<Symbol, real>, l: map<Symbol, string>,
                               sid: StrategyId)
    requires sid in StrategiesOf(long, short, Some(l))
    ensures var x := StrategiesOf(long, short, Some(l))[sid];
      && x.long == GroupSum(long, l, UNASSIGNED, sid)
      && x.short == GroupSum(short, l, UNASSIGNED, sid)
      && x.gross == x.long + x.short && x.net == x.long - x.short
  {
    TotalsWithDefault(long, l, UNASSIGNED, sid);
    TotalsWithDefault(short, l, UNASSIGNED, sid);
  }

  /** The strategy groups add up to the portfolio's long, short and gross totals. */
  lemma StrategiesPartition(long: map<Symbol, real>, short: map<Symbol, real>, l: map<Symbol, string>)
    ensures SumValues(LongOf(StrategiesOf(long, short, Some(l)))) == SumValues(long)
    ensures SumValues(ShortOf(StrategiesOf(long, short, Some(l)))) == SumValues(short)
    ensures SumValues(GrossOf(StrategiesOf(long, short, Some(l)))) == SumValues(long) + SumValues(short)
  {
    var byStrategy := StrategiesOf(long, short, Some(l));
    var sids := byStrategy.Keys;
    StrategySums(long, short, l, sids);
    assert GroupTotals(long, Some(l), UNASSIGNED).Keys == Labels(long, l, UNASSIGNED);
    assert GroupTotals(short, Some(l), UNASSIGNED).Keys == Labels(short, l, UNASSIGNED);
    GroupsPartition(long, l, UNASSIGNED, sids);
    GroupsPartition(short, l, UNASSIGNED, sids);
    SumOfSums(LongOf(byStrategy), ShortOf(byStrategy), GrossOf(byStrategy));
  }

  lemma StrategySums(long: map<Symbol, real>, short: map<Symbol, real>, l: map<Symbol, string>, sids: set<string>)
    requires sids == StrategiesOf(long, short, Some(l)).Keys
    ensures LongOf(StrategiesOf(long, short, Some(l))) == GroupSums(long, l, UNASSIGNED, sids)
    ensures ShortOf(StrategiesOf(long, short, Some(l))) == GroupSums(short, l, UNASSIGNED, sids)
  {
    var byStrategy := StrategiesOf(long, short, Some(l));
    var longs, shorts := LongOf(byStrategy), ShortOf(byStrategy);
    forall sid | sid in sids
      ensures longs[sid] == GroupSum(long, l, UNASSIGNED, sid)
      ensures shorts[sid] == GroupSum(short, l, UNASSIGNED, sid)
    {
      StrategyIsItsPositions(long, short, l, sid);
    }
    GroupSumsAre(longs, long, l, UNASSIGNED, sids);
    GroupSumsAre(shorts, short, l, UNASSIGNED, sids);
  }

  lemma GroupSumsAre(sums: map<string, real>, m: map<Symbol, real>, l: map<Symbol, string>, default: string,
                     sids: set<string>)
    requires sums.Keys == sids
    requires forall sid :: sid in sids ==> sums[sid] == GroupSum(m, l, default, sid)
    ensures sums == GroupSums(m, l, default, sids)
  {
  }

  /** The sector groups add up to the gross total, and their weights to one when it is positive. */
  lemma SectorsPartition(long: map<Symbol, real>, short: map<Symbol, real>, strategyMap: Labelling,
                         l: map<Symbol, string>)
    requires long.Keys !! short.Keys
    ensures var e := SnapshotOf(long, short, strategyMap, Some(l));
      && SumValues(SectorGrossOf(e.bySector)) == e.totalGross
      && (e.totalGross > 0.0 ==> SumValues(SectorWeightsOf(e.bySector)) == 1.0)
  {
    var all := long + short;
    var gross := GroupSums(all, l, UNKNOWN, Labels(all, l, UNKNOWN));
    GroupsPartition(all, l, UNKNOWN, Labels(all, l, UNKNOWN));
    SumOfDisjoint(long, short);
    SectorMaps(gross, SumValues(all));
  }

  /** With both labellings given, strategies and sectors each partition the portfolio: their parts
      add up to the totals, and sector weights to one when gross exposure is positive. */
  lemma ExposuresPartition(positions: map<Symbol, int>, prices: map<Symbol, real>,
                           strategies: map<Symbol, string>, sectors: map<Symbol, string>)
    ensures var e := Exposures(positions, prices, Some(strategies), Some(sectors));
      && e.totalGross == e.totalLong + e.totalShort
      && SumValues(LongOf(e.byStrategy)) == e.totalLong
      && SumValues(ShortOf(e.byStrategy)) == e.totalShort
      && SumValues(GrossOf(e.byStrategy)) == e.totalGross
      && SumValues(SectorGrossOf(e.bySector)) == e.totalGross
      && (e.totalGross > 0.0 ==> SumValues(SectorWeightsOf(e.bySector)) == 1.0)
  {
    var long, short := LongLegs(positions, prices), ShortLegs(positions, prices);
    StrategiesPartition(long, short, strategies);
    SectorsPartition(long, short, Some(strategies), sectors);
  }

  lemma SectorMaps(gross: map<string, real>, total: real)
    requires SumValues(gross) == total
    ensures SectorGrossOf(BySector(gross, total)) == gross
    ensures total > 0.0 ==> SumValues(SectorWeightsOf(BySector(gross, total))) == 1.0
  {
    if total > 0.0 {
      assert SectorWeightsOf(BySector(gross, total)) == Weights(gross, total);
      SumOfWeights(gross, total);
      WholeOfItself(total, SumValues(Weights(gross, total)));
    }
  }

  lemma WholeOfItself(total: real, share: real)
    requires total > 0.0 && Times(total, share) == total
    ensures share == 1.0
  {
    if share < 1.0 {
      TimesMonotone(share, 1.0, total);
    } else if share > 1.0 {
      TimesMonotone(1.0, share, total);
    }
  }

  predicate NonNegative(legs: map<Symbol, real>) {
    forall s :: s in legs ==> legs[s] >= 0.0
  }

  lemma NonNegativeStrategies(long: map<Symbol, real>, short: map<Symbol, real>, l: map<Symbol, string>)
    requires NonNegative(long) && NonNegative(short)
    ensures NonNegative(GrossOf(StrategiesOf(long, short, Some(l))))
  {
    var byStrategy := StrategiesOf(long, short, Some(l));
    forall sid | sid in byStrategy ensures byStrategy[sid].gross >= 0.0 {
      StrategyIsItsPositions(long, short, l, sid);
      SumOfNonNegative(Members(long, l, UNASSIGNED, sid));
      SumOfNonNegative(Members(short, l, UNASSIGNED, sid));
    }
  }

  lemma WeightsOfGroups(gross: map<string, real>, total: real)
    requires total > 0.0 && SumValues(gross) == total
    requires NonNegative(gross)
    ensures gross != map[] && Weights(gross, total).Keys == gross.Keys
    ensures Weights(gross, total) != map[]
    ensures SumValues(Weights(gross, total)) == 1.0
    ensures var w := Weights(gross, total);
      1.0 / |w| as real <= SumValues(Squares(w)) <= Largest(w) <= 1.0
  {
    var w := Weights(gross, total);
    SumOfWeights(gross, total);
    WholeOfItself(total, SumValues(w));
    var g := SomeKey(gross);
    assert g in w;
    ConcentrationBounds(w, Largest(w));
  }

  /** With non-negative prices and positive gross exposure the strategies' weights sum to one and
      1/n <= HHI <= largest weight <= 1, n being the number of strategies. */
  lemma ConcentrationIsBounded(positions: map<Symbol, int>, prices: map<Symbol, real>, l: map<Symbol, string>,
                               sectorMap: Labelling)
    requires NonNegative(prices)
    requires Exposures(positions, prices, Some(l), sectorMap).totalGross > 0.0
    ensures var e := Exposures(positions, prices, Some(l), sectorMap);
      && |e.byStrategy| > 0
      && SumValues(GrossWeights(e.byStrategy, e.totalGross)) == 1.0
      && 1.0 / |e.byStrategy| as real <= e.strategyHhi <= e.maxStrategyWeight <= 1.0
  {
    var long, short := LongLegs(positions, prices), ShortLegs(positions, prices);
    var byStrategy := StrategiesOf(long, short, Some(l));
    NonNegativeLegs(positions, prices);
    NonNegativeStrategies(long, short, l);
    StrategiesPartition(long, short, l);
    BoundedWeights(byStrategy, SumValues(long) + SumValues(short));
  }

  lemma NonNegativeLegs(positions: map<Symbol, int>, prices: map<Symbol, real>)
    requires NonNegative(prices)
    ensures NonNegative(LongLegs(positions, prices)) && NonNegative(ShortLegs(positions, prices))
  {
  }

  lemma BoundedWeights(byStrategy: map<StrategyId, StrategyExposure>, total: real)
    requires total > 0.0 && SumValues(GrossOf(byStrategy)) == total && NonNegative(GrossOf(byStrategy))
    ensures |byStrategy| > 0
    ensures SumValues(GrossWeights(byStrategy, total)) == 1.0
    ensures 1.0 / |byStrategy| as real <= Hhi(byStrategy, total) <= TopWeight(byStrategy, total) <= 1.0
  {
    WeightsOfGroups(GrossOf(byStrategy), total);
    var w := GrossWeights(byStrategy, total);
    assert |w.Keys| == |byStrategy.Keys|;
  }
}
