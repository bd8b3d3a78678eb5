/** Drift of strategy weights from their targets (risk/rebalancing_service.py). */
module Rebalancing {
  import opened Common
  import opened Exposure
  import opened Sorting

  datatype Action = Reduce | Increase

  datatype Delta = Delta(
    strategyId: StrategyId,
    currentWeight: real,
    targetWeight: real,
    drift: real,
    action: Action,
    suggestedCapital: real)

  datatype Report = Report(
    needsRebalance: bool,
    totalCapital: real,
    deltas: seq<Delta>,
    maxDrift: real,
    driftThreshold: real)

  /** A target dictionary in its insertion order: one entry a strategy. */
  type Targets = seq<(StrategyId, real)>

  function Ids(targets: Targets): seq<StrategyId> {
    seq(|targets|, i requires 0 <= i < |targets| => targets[i].0)
  }

  datatype TargetError = EmptyTargets | NegativeTarget | TargetsAboveOne | ThresholdOutOfRange

  datatype Checked = Accepted(service: Service) | Rejected(error: TargetError)

  datatype Service = Service(targets: Targets, threshold: real)

  const TOLERANCE: real := 0.000000001

  function TotalTarget(targets: Targets): real {
    if targets == [] then 0.0 else TotalTarget(targets[..|targets| - 1]) + targets[|targets| - 1].1
  }

  /** The constructor's checks, in its order. */
  function Configure(targets: Targets, threshold: real): Checked {
    if targets == [] then Rejected(EmptyTargets)
    else if exists i :: 0 <= i < |targets| && targets[i].1 < 0.0 then Rejected(NegativeTarget)
    else if TotalTarget(targets) > 1.0 + TOLERANCE then Rejected(TargetsAboveOne)
    else if !(0.0 < threshold < 1.0) then Rejected(ThresholdOutOfRange)
    else Accepted(Service(targets, threshold))
  }

  predicate Configured(s: Service) {
    Configure(s.targets, s.threshold) == Accepted(s)
  }

  /** A service is accepted exactly for targets, some but none negative, of at most the whole up to the
      tolerance, and a threshold strictly between nothing and one. */
  lemma ConfiguredIff(s: Service)
    ensures Configured(s) <==>
              && s.targets != [] && (forall i :: 0 <= i < |s.targets| ==> s.targets[i].1 >= 0.0)
              && TotalTarget(s.targets) <= 1.000000001 && 0.0 < s.threshold < 1.0
    ensures Configure(s.targets, s.threshold).Accepted? ==> Configure(s.targets, s.threshold).service == s
  {
  }

  function CurrentWeight(e: Snapshot, sid: StrategyId): real {
    if sid in e.byStrategy && e.totalGross > 0.0 then e.byStrategy[sid].gross / e.totalGross else 0.0
  }

  function Drift(e: Snapshot, target: (StrategyId, real)): real {
    Abs(CurrentWeight(e, target.0) - target.1)
  }

  function DeltaOf(e: Snapshot, target: (StrategyId, real), capital: real): Delta {
    var current := CurrentWeight(e, target.0);
    Delta(target.0, current, target.1, Drift(e, target),
          if current > target.1 then Reduce else Increase,
          Times(capital, target.1))
  }

  predicate HigherDrift(x: Delta, y: Delta) {
    x.drift > y.drift
  }

  /** `sorted(deltas, key=drift, reverse=True)`, which is stable. */
  function SortByDrift(deltas: seq<Delta>): seq<Delta> {
    Sort(deltas, HigherDrift)
  }

  /** The strategies at or over the threshold, in target order. */
  function Drifted(s: Service, e: Snapshot, capital: real, n: nat): seq<Delta>
    requires n <= |s.targets|
  {
    if n == 0 then []
    else
      var rest := Drifted(s, e, capital, n - 1);
      if Drift(e, s.targets[n - 1]) < s.threshold then rest else rest + [DeltaOf(e, s.targets[n - 1], capital)]
  }

  function MaxDrift(s: Service, e: Snapshot, n: nat): real
    requires n <= |s.targets|
  {
    if n == 0 then 0.0 else Max(MaxDrift(s, e, n - 1), Drift(e, s.targets[n - 1]))
  }

  method ComputeRebalance(s: Service, e: Snapshot, capital: real) returns (r: Report)
    ensures var drifted := Drifted(s, e, capital, |s.targets|);
      r == Report(drifted != [], capital, SortByDrift(drifted), MaxDrift(s, e, |s.targets|), s.threshold)
  {
    var deltas: seq<Delta> := [];
    var maxDrift := 0.0;
    for i := 0 to |s.targets|
      invariant deltas == Drifted(s, e, capital, i)
      invariant maxDrift == MaxDrift(s, e, i)
    {
      var drift := Drift(e, s.targets[i]);
      if drift > maxDrift {
        maxDrift := drift;
      }
      if drift < s.threshold {
        continue;
      }
      deltas := deltas + [DeltaOf(e, s.targets[i], capital)];
    }
    r := Report(deltas != [], capital, SortByDrift(deltas), maxDrift, s.threshold);
  }

  // ---------------------------------------------------------------------------
  // What the report says
  // ---------------------------------------------------------------------------

  predicate DriftDescending(deltas: seq<Delta>) {
    forall i, j :: 0 <= i < j < |deltas| ==> deltas[i].drift >= deltas[j].drift
  }

  lemma SortSortsByDrift(deltas: seq<Delta>)
    ensures DriftDescending(SortByDrift(deltas))
    ensures multiset(SortByDrift(deltas)) == multiset(deltas)
    ensures forall d :: d in SortByDrift(deltas) <==> d in deltas
  {
    SortSorts(deltas, HigherDrift);
    SortPermutes(deltas, HigherDrift);
    var sorted := SortByDrift(deltas);
    forall i, j | 0 <= i < j < |sorted| ensures sorted[i].drift >= sorted[j].drift {
      assert !HigherDrift(sorted[j], sorted[i]);
    }
  }

  lemma {:induction false} DriftedAreExactly(s: Service, e: Snapshot, capital: real, n: nat)
    requires n <= |s.targets|
    ensures forall d :: d in Drifted(s, e, capital, n) <==>
              exists i :: 0 <= i < n && Drift(e, s.targets[i]) >= s.threshold && d == DeltaOf(e, s.targets[i], capital)
  {
    if n > 0 {
      DriftedAreExactly(s, e, capital, n - 1);
      var before, after := Drifted(s, e, capital, n - 1), Drifted(s, e, capital, n);
      var last := DeltaOf(e, s.targets[n - 1], capital);
      if Drift(e, s.targets[n - 1]) >= s.threshold {
        assert forall d :: d in after <==> d in before || d == last;
      }
    }
  }

  lemma {:induction false} MaxDriftIsMax(s: Service, e: Snapshot, n: nat)
    requires n <= |s.targets|
    ensures MaxDrift(s, e, n) >= 0.0
    ensures forall i :: 0 <= i < n ==> Drift(e, s.targets[i]) <= MaxDrift(s, e, n)
    ensures MaxDrift(s, e, n) > 0.0 ==> exists i :: 0 <= i < n && Drift(e, s.targets[i]) == MaxDrift(s, e, n)
  {
    if n > 0 {
      MaxDriftIsMax(s, e, n - 1);
      assert Drift(e, s.targets[n - 1]) == MaxDrift(s, e, n) || MaxDrift(s, e, n) == MaxDrift(s, e, n - 1);
    }
  }

  function TotalSuggested(deltas: seq<Delta>): real {
    if deltas == [] then 0.0 else TotalSuggested(deltas[..|deltas| - 1]) + deltas[|deltas| - 1].suggestedCapital
  }

  lemma {:induction false} InsertKeepsTotal(sorted: seq<Delta>, d: Delta)
    ensures TotalSuggested(Insert(sorted, d, HigherDrift)) == TotalSuggested(sorted) + d.suggestedCapital
  {
    if sorted == [] || !HigherDrift(d, sorted[|sorted| - 1]) {
      assert (sorted + [d])[..|sorted|] == sorted;
    } else {
      var front, last := sorted[..|sorted| - 1], sorted[|sorted| - 1];
      var inserted := Insert(front, d, HigherDrift);
      InsertKeepsTotal(front, d);
      assert (inserted + [last])[..|inserted|] == inserted;
    }
  }

  lemma {:induction false} SortKeepsTotal(deltas: seq<Delta>)
    ensures TotalSuggested(SortByDrift(deltas)) == TotalSuggested(deltas)
  {
    if deltas != [] {
      SortKeepsTotal(deltas[..|deltas| - 1]);
      InsertKeepsTotal(SortByDrift(deltas[..|deltas| - 1]), deltas[|deltas| - 1]);
    }
  }

  lemma {:induction false} DriftedTotalBounded(s: Service, e: Snapshot, capital: real, n: nat)
    requires n <= |s.targets| && capital >= 0.0
    requires forall i :: 0 <= i < |s.targets| ==> s.targets[i].1 >= 0.0
    ensures TotalSuggested(Drifted(s, e, capital, n)) <= Times(capital, TotalTarget(s.targets[..n]))
  {
    if n > 0 {
      DriftedTotalBounded(s, e, capital, n - 1);
      var before := Drifted(s, e, capital, n - 1);
      var last := s.targets[n - 1];
      assert s.targets[..n][..n - 1] == s.targets[..n - 1];
      assert Times(capital, last.1) >= 0.0;
      assert Times(capital, TotalTarget(s.targets[..n - 1]) + last.1)
          == Times(capital, TotalTarget(s.targets[..n - 1])) + Times(capital, last.1);
      assert (before + [DeltaOf(e, last, capital)])[..|before|] == before;
    } else {
      assert s.targets[..0] == [];
    }
  }

  /** The report's list. */
  function Deltas(s: Service, e: Snapshot, capital: real): seq<Delta> {
    SortByDrift(Drifted(s, e, capital, |s.targets|))
  }

  /** The weight a strategy has after its drift has been traded in the action's direction. */
  function WeightAfter(d: Delta): real {
    if d.action.Reduce? then d.currentWeight - d.drift else d.currentWeight + d.drift
  }

  lemma ActionLandsOnTarget(e: Snapshot, target: (StrategyId, real), capital: real)
    ensures var d := DeltaOf(e, target, capital);
      WeightAfter(d) == d.targetWeight == target.1 && d.strategyId == target.0 && d.drift >= 0.0
  {
  }

  /** The report lists, by descending drift, exactly the strategies at or over the threshold, and trading
      each one's drift in the direction it names brings the strategy to its target. */
  lemma ReportListsExactlyTheDrifted(s: Service, e: Snapshot, capital: real)
    ensures DriftDescending(Deltas(s, e, capital))
    ensures multiset(Deltas(s, e, capital)) == multiset(Drifted(s, e, capital, |s.targets|))
    ensures forall d :: d in Deltas(s, e, capital) <==>
              exists i :: 0 <= i < |s.targets| && Drift(e, s.targets[i]) >= s.threshold
                && d == DeltaOf(e, s.targets[i], capital)
    ensures forall d :: d in Deltas(s, e, capital) ==>
              WeightAfter(d) == d.targetWeight && (d.strategyId, d.targetWeight) in s.targets
  {
    var drifted := Drifted(s, e, capital, |s.targets|);
    SortSortsByDrift(drifted);
    DriftedAreExactly(s, e, capital, |s.targets|);
    forall i | 0 <= i < |s.targets|
      ensures var d := DeltaOf(e, s.targets[i], capital);
        WeightAfter(d) == d.targetWeight && (d.strategyId, d.targetWeight) in s.targets
    {
      ActionLandsOnTarget(e, s.targets[i], capital);
      assert s.targets[i] in s.targets;
    }
  }

  /** A line says where the strategy stands: its weight is its share of the gross exposure, nothing where it has
      none; its drift how far that is from its target, which way; and its capital the target's part. */
  predicate SaysWhereItStands(e: Snapshot, d: Delta, capital: real) {
    && (if d.strategyId in e.byStrategy && e.totalGross > 0.0
        then Times(e.totalGross, d.currentWeight) == e.byStrategy[d.strategyId].gross else d.currentWeight == 0.0)
    && (d.action.Reduce? ==> d.drift == d.currentWeight - d.targetWeight > 0.0)
    && (d.action.Increase? ==> d.drift == d.targetWeight - d.currentWeight >= 0.0)
    && d.suggestedCapital == Times(capital, d.targetWeight)
  }

  /** In dollars: the strategy's gross exposure is away from its target's part of the total by the threshold's
      part of it or more; without gross exposure, the target itself is that large. */
  predicate OffTarget(e: Snapshot, sid: StrategyId, target: real, threshold: real) {
    var gross := if sid in e.byStrategy then e.byStrategy[sid].gross else 0.0;
    if e.totalGross > 0.0
    then Abs(gross - Times(e.totalGross, target)) >= Times(e.totalGross, threshold)
    else Abs(target) >= threshold
  }

  lemma DriftInDollars(e: Snapshot, sid: StrategyId, target: real, threshold: real)
    ensures Drift(e, (sid, target)) >= threshold <==> OffTarget(e, sid, target, threshold)
  {
    if e.totalGross > 0.0 {
      var gross := if sid in e.byStrategy then e.byStrategy[sid].gross else 0.0;
      var weight, drift := CurrentWeight(e, sid), Drift(e, (sid, target));
      TimesQuotient(e.totalGross, gross);
      assert weight == gross / e.totalGross;
      AbsoluteInShares(e.totalGross, weight, target);
      if drift >= threshold {
        TimesMonotoneRight(e.totalGross, threshold, drift);
      } else {
        TimesMonotone(drift, threshold, e.totalGross);
        assert Times(drift, e.totalGross) == Times(e.totalGross, drift);
        assert Times(threshold, e.totalGross) == Times(e.totalGross, threshold);
      }
    }
  }

  lemma AbsoluteInShares(total: real, x: real, y: real)
    requires total > 0.0
    ensures Abs(Times(total, x) - Times(total, y)) == Times(total, Abs(x - y))
  {
    assert Times(total, x) - Times(total, y) == Times(total, x - y);
    assert Times(total, -(x - y)) == -Times(total, x - y);
    if x - y < 0.0 {
      assert Times(total, x - y) < 0.0;
    } else {
      assert Times(total, x - y) >= 0.0;
    }
  }

  lemma WeightIsShareOfGross(e: Snapshot, sid: StrategyId)
    ensures if sid in e.byStrategy && e.totalGross > 0.0
            then Times(e.totalGross, CurrentWeight(e, sid)) == e.byStrategy[sid].gross else CurrentWeight(e, sid) == 0.0
  {
    if sid in e.byStrategy && e.totalGross > 0.0 {
      TimesQuotient(e.totalGross, e.byStrategy[sid].gross);
    }
  }

  /** A target is on the report exactly when its strategy is off it by the threshold or more, and every line says
      where its strategy stands. */
  lemma ReportSaysWhereStrategiesStand(s: Service, e: Snapshot, capital: real, sid: StrategyId, target: real)
    ensures forall d :: d in Deltas(s, e, capital) ==> SaysWhereItStands(e, d, capital)
    ensures (exists d :: d in Deltas(s, e, capital) && d.strategyId == sid && d.targetWeight == target)
       <==> (sid, target) in s.targets && OffTarget(e, sid, target, s.threshold)
  {
    hide OffTarget, Deltas, Times;
    ReportListsExactlyTheDrifted(s, e, capital);
    DriftInDollars(e, sid, target, s.threshold);
    if (sid, target) in s.targets && Drift(e, (sid, target)) >= s.threshold {
      assert DeltaOf(e, (sid, target), capital) in Deltas(s, e, capital);
    }
    forall d | d in Deltas(s, e, capital) ensures SaysWhereItStands(e, d, capital) {
      WeightIsShareOfGross(e, d.strategyId);
    }
  }

  /** The report is headed by the largest drift over all targets, and is empty exactly when that is
      below the threshold. */
  lemma HeadIsMaxDrift(s: Service, e: Snapshot, capital: real)
    requires Configured(s)
    ensures Deltas(s, e, capital) != [] ==> Deltas(s, e, capital)[0].drift == MaxDrift(s, e, |s.targets|)
    ensures Deltas(s, e, capital) != [] <==> MaxDrift(s, e, |s.targets|) >= s.threshold
  {
    var deltas := Deltas(s, e, capital);
    var top := MaxDrift(s, e, |s.targets|);
    ReportListsExactlyTheDrifted(s, e, capital);
    MaxDriftIsMax(s, e, |s.targets|);
    if deltas != [] {
      assert deltas[0] in deltas;
    }
    if top >= s.threshold {
      var i :| 0 <= i < |s.targets| && Drift(e, s.targets[i]) == top;
      assert DeltaOf(e, s.targets[i], capital) in deltas;
    }
  }

  /** For non-negative capital the report suggests no more than there is, up to the tolerance on the
      sum of the targets. */
  lemma SuggestedCapitalIsBounded(s: Service, e: Snapshot, capital: real)
    requires Configured(s) && capital >= 0.0
    ensures TotalSuggested(Deltas(s, e, capital)) <= Times(capital, 1.0 + TOLERANCE)
  {
    var n := |s.targets|;
    DriftedTotalBounded(s, e, capital, n);
    SortKeepsTotal(Drifted(s, e, capital, n));
    assert s.targets[..n] == s.targets;
    TimesMonotoneRight(capital, TotalTarget(s.targets), 1.0 + TOLERANCE);
  }

  function HasDrift(drift: real): Delta -> bool {
    (d: Delta) => d.drift == drift
  }

  /** Among equal drifts the targets' order is kept. */
  lemma EqualDriftsKeepTheirOrder(deltas: seq<Delta>, drift: real)
    ensures Keep(SortByDrift(deltas), HasDrift(drift)) == Keep(deltas, HasDrift(drift))
  {
    SortIsStable(deltas, HigherDrift, HasDrift(drift));
  }

  lemma {:induction false} DriftedIdsDistinct(s: Service, e: Snapshot, capital: real, n: nat)
    requires n <= |s.targets| && Distinct(Ids(s.targets))
    ensures forall d :: d in Drifted(s, e, capital, n) ==> exists i :: 0 <= i < n && s.targets[i].0 == d.strategyId
    ensures forall i, j :: 0 <= i < j < |Drifted(s, e, capital, n)| ==>
              Drifted(s, e, capital, n)[i].strategyId != Drifted(s, e, capital, n)[j].strategyId
  {
    if n > 0 {
      DriftedIdsDistinct(s, e, capital, n - 1);
      var before, after := Drifted(s, e, capital, n - 1), Drifted(s, e, capital, n);
      forall d | d in after ensures exists i :: 0 <= i < n && s.targets[i].0 == d.strategyId {
        if d !in before {
          assert s.targets[n - 1].0 == d.strategyId;
        }
      }
      forall i | 0 <= i < |before| ensures before[i].strategyId != s.targets[n - 1].0 {
        assert before[i] in before;
        var k :| 0 <= k < n - 1 && s.targets[k].0 == before[i].strategyId;
        assert Ids(s.targets)[k] != Ids(s.targets)[n - 1];
      }
    }
  }
}
