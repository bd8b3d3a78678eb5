/** Capital allocation: the live engine (portfolio/portfolio_engine.py) and the frozen snapshot
    used by simulations (portfolio/simulation_allocation_provider.py). Repositories are dictionaries
    of their active rows. */
module Allocation {
  import opened Common

  datatype GovernanceState = Proposed | Candidate | ApprovedPaper | ApprovedLive | Rejected | Retired

  datatype Policy = Policy(policyId: string, maxPct: real, maxPositionUsd: Option<real>, maxDrawdown: real)

  /** The active policies, by status and performance tier. */
  type Policies = map<(GovernanceState, Option<string>), Policy>

  datatype Override = Override(
    overrideId: string,
    maxPct: Option<real>,
    maxPositionUsd: Option<real>,
    maxDrawdown: Option<real>,
    expiresAt: Option<Instant>)

  /** The overrides that have not been deactivated: at most one a strategy. */
  type Overrides = map<StrategyId, Override>

  /** `get_active_policy`: the tier's own policy if there is one, else the untiered one. */
  function ActivePolicy(policies: Policies, status: GovernanceState, tier: Option<string>): Option<Policy> {
    if tier.Some? && (status, tier) in policies then Some(policies[(status, tier)])
    else if (status, None) in policies then Some(policies[(status, None)])
    else None
  }

  /** `get_active_override`. */
  function ActiveOverride(overrides: Overrides, sid: StrategyId, now: Instant): Option<Override> {
    if sid in overrides && (overrides[sid].expiresAt.None? || overrides[sid].expiresAt.value > now)
    then Some(overrides[sid])
    else None
  }

  /** An override's field wins where it is set. */
  function Merge<T>(override: Option<T>, base: T): T {
    match override
    case Some(v) => v
    case None => base
  }

  /** The same for a field the policy may leave open. */
  function MergeOpen<T>(override: Option<T>, base: Option<T>): Option<T> {
    if override.Some? then override else base
  }

  const NO_OVERRIDE := Override("", None, None, None, None)

  datatype AllocationResult = AllocationResult(
    strategyId: StrategyId,
    status: GovernanceState,
    maxPct: real,
    maxPositionUsd: Option<real>,
    maxDrawdown: real,
    allocatedUsd: real,
    overrideApplied: bool,
    overrideId: Option<string>,
    policyId: string,
    capitalSource: Option<string>)

  datatype AllocationError = AllocationDenied | NoPolicyFound | InsufficientCapital | NegativeCapital

  predicate Allocatable(status: Option<GovernanceState>) {
    status == Some(Candidate) || status == Some(ApprovedPaper) || status == Some(ApprovedLive)
  }

  /** What the live engine consults. */
  datatype Engine = Engine(
    policies: Policies,
    overrides: Overrides,
    budgets: map<StrategyId, real>,
    capital: real,
    capitalSource: Option<string>)

  function Allocate(e: Engine, sid: StrategyId, status: Option<GovernanceState>, tier: Option<string>, now: Instant)
    : Result<AllocationResult, AllocationError>
  {
    if !Allocatable(status) then Err(AllocationDenied)
    else
      var policy := ActivePolicy(e.policies, status.value, tier);
      if policy.None? then Err(NoPolicyFound)
      else
        var override := ActiveOverride(e.overrides, sid, now);
        var o := Merge(override, NO_OVERRIDE);
        var p := policy.value;
        var maxPct := if sid in e.budgets then e.budgets[sid] else Merge(o.maxPct, p.maxPct);
        var usd := Times(maxPct, e.capital);
        if usd > e.capital then Err(InsufficientCapital)
        else
          Ok(AllocationResult(sid, status.value, maxPct, MergeOpen(o.maxPositionUsd, p.maxPositionUsd),
                              Merge(o.maxDrawdown, p.maxDrawdown), usd, override.Some?,
                              if override.Some? then Some(o.overrideId) else None,
                              p.policyId, e.capitalSource))
  }

  /** One strategy of a batch: its id, status and tier. */
  datatype Request = Request(strategyId: StrategyId, status: Option<GovernanceState>, tier: Option<string>)

  /** The batch's result: requests denied or without a policy are left out, a later request for the
      same strategy replaces an earlier one, and lack of capital fails the batch. */
  function AllocateMany(e: Engine, requests: seq<Request>, now: Instant)
    : Result<map<StrategyId, AllocationResult>, AllocationError>
  {
    if requests == [] then Ok(map[])
    else
      var front, last := AllocateMany(e, requests[..|requests| - 1], now), requests[|requests| - 1];
      if front.Err? then front
      else
        match Allocate(e, last.strategyId, last.status, last.tier, now)
        case Ok(r) => Ok(front.value[last.strategyId := r])
        case Err(InsufficientCapital) => Err(InsufficientCapital)
        case Err(_) => front
  }

  /** One entry's share of the aggregate. */
  function AggregateShare(e: Engine, r: Request, now: Instant, proposed: map<StrategyId, real>): real {
    if !Allocatable(r.status) then 0.0
    else if r.strategyId in proposed then proposed[r.strategyId]
    else
      var override := ActiveOverride(e.overrides, r.strategyId, now);
      if override.Some? && override.value.maxPct.Some? then override.value.maxPct.value
      else
        match ActivePolicy(e.policies, r.status.value, r.tier)
        case Some(p) => p.maxPct
        case None => 0.0
  }

  function AggregatePct(e: Engine, requests: seq<Request>, now: Instant, proposed: map<StrategyId, real>): real {
    if requests == [] then 0.0
    else AggregatePct(e, requests[..|requests| - 1], now, proposed)
         + AggregateShare(e, requests[|requests| - 1], now, proposed)
  }

  /** `update_total_capital`: a negative total is refused and changes nothing. */
  function CapitalAfter(capital: real, total: real): real {
    if total < 0.0 then capital else total
  }

  class PortfolioEngine {
    const policies: Policies
    var overrides: Overrides
    var cycleBudgets: map<StrategyId, real>
    var totalCapital: real
    const capitalSource: Option<string>

    constructor (policies: Policies, overrides: Overrides, totalCapital: real, capitalSource: Option<string>)
      ensures View() == Engine(policies, overrides, map[], totalCapital, capitalSource)
    {
      this.policies := policies;
      this.overrides := overrides;
      this.totalCapital := totalCapital;
      this.capitalSource := capitalSource;
      cycleBudgets := map[];
    }

    function View(): Engine
      reads this
    {
      Engine(policies, overrides, cycleBudgets, totalCapital, capitalSource)
    }

    method SetCycleBudgets(budgets: map<StrategyId, real>)
      modifies this
      ensures View() == old(View()).(budgets := budgets)
    {
      cycleBudgets := budgets;
    }

    method UpdateTotalCapital(newTotal: real) returns (r: Result<(), AllocationError>)
      modifies this
      ensures r.Err? <==> newTotal < 0.0
      ensures View() == old(View()).(capital := CapitalAfter(old(totalCapital), newTotal))
      ensures totalCapital == if newTotal < 0.0 then old(totalCapital) else newTotal
    {
      if newTotal < 0.0 {
        return Err(NegativeCapital);
      }
      totalCapital := newTotal;
      return Ok(());
    }

    method GetAllocationsForMany(requests: seq<Request>, now: Instant)
      returns (r: Result<map<StrategyId, AllocationResult>, AllocationError>)
      ensures r == AllocateMany(View(), requests, now)
    {
      var results: map<StrategyId, AllocationResult> := map[];
      for i := 0 to |requests|
        invariant AllocateMany(View(), requests[..i], now) == Ok(results)
      {
        assert requests[..i + 1][..i] == requests[..i];
        match Allocate(View(), requests[i].strategyId, requests[i].status, requests[i].tier, now)
        case Ok(a) => results := results[requests[i].strategyId := a];
        case Err(InsufficientCapital) =>
          FailureSticks(View(), requests, i + 1, now);
          return Err(InsufficientCapital);
        case Err(_) =>
      }
      assert requests[..|requests|] == requests;
      return Ok(results);
    }

    method GetAggregateAllocationPct(requests: seq<Request>, now: Instant, proposed: map<StrategyId, real>)
      returns (total: real)
      ensures total == AggregatePct(View(), requests, now, proposed)
    {
      total := 0.0;
      for i := 0 to |requests|
        invariant total == AggregatePct(View(), requests[..i], now, proposed)
      {
        assert requests[..i + 1][..i] == requests[..i];
        var r := requests[i];
        if !Allocatable(r.status) {
          continue;
        }
        if r.strategyId in proposed {
          total := total + proposed[r.strategyId];
          continue;
        }
        var override := ActiveOverride(overrides, r.strategyId, now);
        if override.Some? && override.value.maxPct.Some? {
          total := total + override.value.maxPct.value;
          continue;
        }
        var policy := ActivePolicy(policies, r.status.value, r.tier);
        if policy.Some? {
          total := total + policy.value.maxPct;
        }
      }
      assert requests[..|requests|] == requests;
    }
  }

  // ---------------------------------------------------------------------------
  // Which source a figure comes from
  // ---------------------------------------------------------------------------

  /** The override in force: the strategy's own, until it expires. */
  predicate InForce(overrides: Overrides, sid: StrategyId, now: Instant, o: Option<Override>) {
    match o
    case Some(x) => sid in overrides && x == overrides[sid] && (x.expiresAt.Some? ==> now < x.expiresAt.value)
    case None => sid in overrides ==> overrides[sid].expiresAt.Some? && overrides[sid].expiresAt.value <= now
  }

  /** A policy of the status serves the tier: the tier's own, or the untiered one where it has none. */
  predicate Serves(policies: Policies, status: GovernanceState, tier: Option<string>, p: Policy) {
    if tier.Some? && (status, tier) in policies then p == policies[(status, tier)]
    else (status, None) in policies && p == policies[(status, None)]
  }

  /** A strategy is refused for its state, for want of a policy, or for want of capital, and in that order;
      the percentage is the cycle budget's before the override's before the policy's, the other figures are
      the override's where it sets them and the policy's where not. */
  lemma AllocationPrecedence(e: Engine, sid: StrategyId, status: GovernanceState, tier: Option<string>, now: Instant,
                             o: Option<Override>, p: Policy)
    requires InForce(e.overrides, sid, now, o)
    ensures Allocate(e, sid, None, tier, now) == Err(AllocationDenied)
    ensures status !in {Candidate, ApprovedPaper, ApprovedLive} <==>
              Allocate(e, sid, Some(status), tier, now) == Err(AllocationDenied)
    ensures status in {Candidate, ApprovedPaper, ApprovedLive} && Serves(e.policies, status, tier, p) ==>
              var r := Allocate(e, sid, Some(status), tier, now);
              var pct := if sid in e.budgets then e.budgets[sid]
                         else if o.Some? && o.value.maxPct.Some? then o.value.maxPct.value else p.maxPct;
              if Times(pct, e.capital) > e.capital then r == Err(InsufficientCapital)
              else
                && r.Ok? && r.value.strategyId == sid && r.value.status == status && r.value.policyId == p.policyId
                && r.value.maxPct == pct && r.value.allocatedUsd == Times(pct, e.capital)
                && r.value.maxPositionUsd ==
                   (if o.Some? && o.value.maxPositionUsd.Some? then o.value.maxPositionUsd else p.maxPositionUsd)
                && r.value.maxDrawdown ==
                   (if o.Some? && o.value.maxDrawdown.Some? then o.value.maxDrawdown.value else p.maxDrawdown)
                && (r.value.overrideApplied <==> o.Some?)
                && r.value.overrideId == (if o.Some? then Some(o.value.overrideId) else None)
                && r.value.capitalSource == e.capitalSource
    ensures Allocate(e, sid, Some(status), tier, now) == Err(NoPolicyFound) <==>
              status in {Candidate, ApprovedPaper, ApprovedLive} && !exists q :: Serves(e.policies, status, tier, q)
  {
    hide Times;
    assert o == ActiveOverride(e.overrides, sid, now);
    var found := ActivePolicy(e.policies, status, tier);
    assert found.Some? ==> Serves(e.policies, status, tier, found.value);
  }

  /** One request's own answer. */
  function Answer(e: Engine, r: Request, now: Instant): Result<AllocationResult, AllocationError> {
    Allocate(e, r.strategyId, r.status, r.tier, now)
  }

  predicate Fails(e: Engine, requests: seq<Request>, now: Instant) {
    exists i :: 0 <= i < |requests| && Answer(e, requests[i], now) == Err(InsufficientCapital)
  }

  /** A batch fails exactly when some request exceeds the capital. */
  lemma {:induction false} BatchFailsIff(e: Engine, requests: seq<Request>, now: Instant)
    ensures AllocateMany(e, requests, now).Err? <==> Fails(e, requests, now)
  {
    if requests != [] {
      var front := requests[..|requests| - 1];
      BatchFailsIff(e, front, now);
      assert requests == front + [requests[|requests| - 1]];
      if Fails(e, front, now) {
        var i :| 0 <= i < |front| && Answer(e, front[i], now) == Err(InsufficientCapital);
        assert Answer(e, requests[i], now) == Err(InsufficientCapital);
      }
    }
  }

  /** The answer to the last granted request of a strategy, if there is one. */
  function LastGranted(e: Engine, requests: seq<Request>, now: Instant, sid: StrategyId): Option<AllocationResult> {
    if requests == [] then None
    else
      var last := requests[|requests| - 1];
      if last.strategyId == sid && Answer(e, last, now).Ok? then Some(Answer(e, last, now).value)
      else LastGranted(e, requests[..|requests| - 1], now, sid)
  }

  /** A batch that does not fail holds, for each strategy, the answer to its last granted request, and
      nothing for a strategy that has none. */
  lemma {:induction false} BatchHoldsLastGranted(e: Engine, requests: seq<Request>, now: Instant, sid: StrategyId)
    requires !Fails(e, requests, now)
    ensures AllocateMany(e, requests, now).Ok?
    ensures var granted := AllocateMany(e, requests, now).value;
      LastGranted(e, requests, now, sid) == if sid in granted then Some(granted[sid]) else None
  {
    BatchFailsIff(e, requests, now);
    if requests != [] {
      BatchFailsIff(e, requests[..|requests| - 1], now);
      BatchHoldsLastGranted(e, requests[..|requests| - 1], now, sid);
    }
  }

  lemma {:induction false} FailureSticks(e: Engine, requests: seq<Request>, i: nat, now: Instant)
    requires i <= |requests| && AllocateMany(e, requests[..i], now).Err?
    ensures AllocateMany(e, requests, now) == AllocateMany(e, requests[..i], now)
    decreases |requests|
  {
    if i == |requests| {
      assert requests[..i] == requests;
    } else {
      var front := requests[..|requests| - 1];
      assert front[..i] == requests[..i];
      FailureSticks(e, front, i, now);
    }
  }

  // ---------------------------------------------------------------------------
  // What-if equals actual, and what the aggregate counts
  // ---------------------------------------------------------------------------

  /** `stored` gives the proposed percentages, in force at `now`, to exactly the proposed strategies. */
  predicate Stores(stored: Overrides, proposed: map<StrategyId, real>, now: Instant) {
    && stored.Keys == proposed.Keys
    && forall sid :: sid in stored ==>
         stored[sid].maxPct == Some(proposed[sid])
         && (stored[sid].expiresAt.None? || stored[sid].expiresAt.value > now)
  }

  /** The aggregate with proposed percentages equals the aggregate after they have been stored in
      place of the strategies' previous overrides, for any batch. */
  lemma {:induction false} WhatIfEqualsActual(e: Engine, requests: seq<Request>, now: Instant,
                                              proposed: map<StrategyId, real>, stored: Overrides)
    requires Stores(stored, proposed, now)
    ensures AggregatePct(e, requests, now, proposed)
         == AggregatePct(e.(overrides := e.overrides + stored), requests, now, map[])
  {
    if requests != [] {
      WhatIfEqualsActual(e, requests[..|requests| - 1], now, proposed, stored);
    }
  }

  /** What a request's own allocation puts at the strategy's disposal, nothing when it is refused. */
  function AllocatedPct(e: Engine, r: Request, now: Instant): real {
    match Allocate(e, r.strategyId, r.status, r.tier, now)
    case Ok(a) => a.maxPct
    case Err(_) => 0.0
  }

  /** The percentage a policy and the strategy's override give, before any budget. */
  function ResolvedPct(e: Engine, sid: StrategyId, p: Policy, now: Instant): real {
    Merge(Merge(ActiveOverride(e.overrides, sid, now), NO_OVERRIDE).maxPct, p.maxPct)
  }

  /** The percentage the engine would hand out: a cycle budget replaces the resolved one. */
  function BudgetedPct(e: Engine, sid: StrategyId, p: Policy, now: Instant): real {
    if sid in e.budgets then e.budgets[sid] else ResolvedPct(e, sid, p, now)
  }

  function PolicyOf(e: Engine, r: Request): Option<Policy> {
    if Allocatable(r.status) then ActivePolicy(e.policies, r.status.value, r.tier) else None
  }

  /** Counted without a policy: an override's percentage for an entry that gets nothing. */
  function Phantom(e: Engine, r: Request, now: Instant): real {
    var override := ActiveOverride(e.overrides, r.strategyId, now);
    if Allocatable(r.status) && PolicyOf(e, r).None? && override.Some? then Merge(override.value.maxPct, 0.0) else 0.0
  }

  /** Counted beyond the budget of an entry that fits the capital. */
  function BudgetGap(e: Engine, r: Request, now: Instant): real {
    match PolicyOf(e, r)
    case None => 0.0
    case Some(p) =>
      var pct := BudgetedPct(e, r.strategyId, p, now);
      if Times(pct, e.capital) > e.capital then 0.0 else ResolvedPct(e, r.strategyId, p, now) - pct
  }

  /** Counted for an entry that does not fit the capital and is refused. */
  function Refused(e: Engine, r: Request, now: Instant): real {
    match PolicyOf(e, r)
    case None => 0.0
    case Some(p) =>
      if Times(BudgetedPct(e, r.strategyId, p, now), e.capital) > e.capital
      then ResolvedPct(e, r.strategyId, p, now) else 0.0
  }

  /** One entry's percentage beyond what it is handed. */
  function CorrectionOf(e: Engine, r: Request, now: Instant): real {
    Phantom(e, r, now) + BudgetGap(e, r, now) + Refused(e, r, now)
  }

  lemma ShareIsHandedOutAndCorrected(e: Engine, r: Request, now: Instant)
    ensures AggregateShare(e, r, now, map[]) == AllocatedPct(e, r, now) + CorrectionOf(e, r, now)
  {
  }

  function HandedOutPct(e: Engine, requests: seq<Request>, now: Instant): real {
    if requests == [] then 0.0
    else HandedOutPct(e, requests[..|requests| - 1], now) + AllocatedPct(e, requests[|requests| - 1], now)
  }

  function CorrectionPct(e: Engine, requests: seq<Request>, now: Instant): real {
    if requests == [] then 0.0
    else CorrectionPct(e, requests[..|requests| - 1], now) + CorrectionOf(e, requests[|requests| - 1], now)
  }

  /** For every engine and batch, the aggregate is what the engine hands out plus three kinds of
      percentages it also counts: overrides without a policy, what budgets take away from the resolved
      percentages, and entries refused for lack of capital. */
  lemma {:induction false} AggregateIsHandedOutAndCorrected(e: Engine, requests: seq<Request>, now: Instant)
    ensures AggregatePct(e, requests, now, map[]) == HandedOutPct(e, requests, now) + CorrectionPct(e, requests, now)
  {
    if requests != [] {
      AggregateIsHandedOutAndCorrected(e, requests[..|requests| - 1], now);
      ShareIsHandedOutAndCorrected(e, requests[|requests| - 1], now);
    }
  }

  /** The aggregate is what the engine hands out if and only if those percentages cancel. */
  lemma AggregateIsHandedOutIff(e: Engine, requests: seq<Request>, now: Instant)
    ensures (AggregatePct(e, requests, now, map[]) == HandedOutPct(e, requests, now))
       <==> CorrectionPct(e, requests, now) == 0.0
  {
    AggregateIsHandedOutAndCorrected(e, requests, now);
  }

  const EXAMPLE := Request("s", Some(Candidate), None)

  lemma OneRequest(e: Engine, r: Request, now: Instant)
    ensures AggregatePct(e, [r], now, map[]) == AggregateShare(e, r, now, map[])
    ensures HandedOutPct(e, [r], now) == AllocatedPct(e, r, now)
  {
    assert [r][..0] == [];
  }

  /** An override without any policy is counted, although nothing is handed out. */
  lemma AggregateCountsPhantoms(o: Override, pct: real, now: Instant)
    requires o.maxPct == Some(pct) && o.expiresAt == None
    ensures var e := Engine(map[], map["s" := o], map[], 100.0, None);
      AggregatePct(e, [EXAMPLE], now, map[]) == pct && HandedOutPct(e, [EXAMPLE], now) == 0.0
  {
    OneRequest(Engine(map[], map["s" := o], map[], 100.0, None), EXAMPLE, now);
  }

  /** A policy's percentage is counted in full although a budget takes some away. */
  lemma AggregateIgnoresBudgets(p: Policy, budget: real, now: Instant)
    requires budget <= 1.0
    ensures var e := Engine(map[(Candidate, None) := p], map[], map["s" := budget], 100.0, None);
      AggregatePct(e, [EXAMPLE], now, map[]) == p.maxPct && HandedOutPct(e, [EXAMPLE], now) == budget
  {
    OneRequest(Engine(map[(Candidate, None) := p], map[], map["s" := budget], 100.0, None), EXAMPLE, now);
  }

  /** A policy of more than the capital is counted although it is refused. */
  lemma AggregateCountsRefusals(p: Policy, now: Instant)
    requires p.maxPct > 1.0
    ensures var e := Engine(map[(Candidate, None) := p], map[], map[], 100.0, None);
      AggregatePct(e, [EXAMPLE], now, map[]) == p.maxPct && HandedOutPct(e, [EXAMPLE], now) == 0.0
  {
    OneRequest(Engine(map[(Candidate, None) := p], map[], map[], 100.0, None), EXAMPLE, now);
  }

  // ---------------------------------------------------------------------------
  // The frozen snapshot
  // ---------------------------------------------------------------------------

  datatype Entry = Entry(
    strategyId: StrategyId,
    maxPct: real,
    maxPositionUsd: Option<real>,
    maxDrawdown: real,
    policyId: string,
    overrideApplied: bool,
    overrideId: Option<string>)

  datatype Config = Config(
    entries: map<StrategyId, Entry>,
    defaultMaxPct: real,
    defaultMaxDrawdown: real,
    defaultPolicyId: string,
    totalCapital: real)

  const ALLOCATABLE_STATUSES := [Candidate, ApprovedPaper, ApprovedLive]

  /** The first allocatable status, in the source's order, that has an untiered policy. */
  function FirstStatus(policies: Policies): Option<GovernanceState> {
    if (Candidate, None) in policies then Some(Candidate)
    else if (ApprovedPaper, None) in policies then Some(ApprovedPaper)
    else if (ApprovedLive, None) in policies then Some(ApprovedLive)
    else None
  }

  function EntryFor(policies: Policies, overrides: Overrides, sid: StrategyId, now: Instant,
                    defaultMaxPct: real, defaultMaxDrawdown: real, defaultPolicyId: string): Entry
  {
    var override := ActiveOverride(overrides, sid, now);
    var o := Merge(override, NO_OVERRIDE);
    var status := FirstStatus(policies);
    var base := if status.Some? then policies[(status.value, None)]
                else Policy(defaultPolicyId, defaultMaxPct, None, defaultMaxDrawdown);
    Entry(sid, Merge(o.maxPct, base.maxPct), MergeOpen(o.maxPositionUsd, base.maxPositionUsd),
          Merge(o.maxDrawdown, base.maxDrawdown), base.policyId, override.Some?,
          if override.Some? then Some(o.overrideId) else None)
  }

  /** A captured figure is the override's where it sets it, else that of the untiered policy of the first
      status with one (candidates, then paper, then live), else the default. */
  lemma CapturePrecedence(policies: Policies, overrides: Overrides, sid: StrategyId, now: Instant, pct: real,
                          drawdown: real, policyId: string, o: Option<Override>)
    requires InForce(overrides, sid, now, o)
    ensures var r := EntryFor(policies, overrides, sid, now, pct, drawdown, policyId);
      var p := if (Candidate, None) in policies then policies[(Candidate, None)]
               else if (ApprovedPaper, None) in policies then policies[(ApprovedPaper, None)]
               else if (ApprovedLive, None) in policies then policies[(ApprovedLive, None)]
               else Policy(policyId, pct, None, drawdown);
      && r.strategyId == sid && r.policyId == p.policyId
      && r.maxPct == (if o.Some? && o.value.maxPct.Some? then o.value.maxPct.value else p.maxPct)
      && r.maxPositionUsd ==
         (if o.Some? && o.value.maxPositionUsd.Some? then o.value.maxPositionUsd else p.maxPositionUsd)
      && r.maxDrawdown == (if o.Some? && o.value.maxDrawdown.Some? then o.value.maxDrawdown.value else p.maxDrawdown)
      && (r.overrideApplied <==> o.Some?)
      && r.overrideId == (if o.Some? then Some(o.value.overrideId) else None)
  {
    assert o == ActiveOverride(overrides, sid, now);
  }

  const HARDCODED_DEFAULTS := Policy("simulation_default", 0.10, None, 0.20)

  method SnapshotAllocationConfig(policies: Policies, overrides: Overrides, totalCapital: real,
                                  strategyIds: seq<StrategyId>, now: Instant)
    returns (c: Config)
    ensures c.entries.Keys == set i | 0 <= i < |strategyIds| :: strategyIds[i]
    ensures forall sid :: sid in c.entries ==>
              c.entries[sid] == EntryFor(policies, overrides, sid, now, c.defaultMaxPct, c.defaultMaxDrawdown,
                                         c.defaultPolicyId)
    ensures c.totalCapital == totalCapital
    ensures var base := if (Candidate, None) in policies then policies[(Candidate, None)]
                        else Policy("simulation_default", 0.1, None, 0.2);
      c.defaultMaxPct == base.maxPct && c.defaultMaxDrawdown == base.maxDrawdown && c.defaultPolicyId == base.policyId
  {
    var base := Merge(ActivePolicy(policies, Candidate, None), HARDCODED_DEFAULTS);
    var entries: map<StrategyId, Entry> := map[];
    for i := 0 to |strategyIds|
      invariant entries.Keys == set j | 0 <= j < i :: strategyIds[j]
      invariant forall sid :: sid in entries ==>
                  entries[sid] == EntryFor(policies, overrides, sid, now, base.maxPct, base.maxDrawdown, base.policyId)
    {
      var sid := strategyIds[i];
      var override := ActiveOverride(overrides, sid, now);
      var o := Merge(override, NO_OVERRIDE);
      var overrideId := if override.Some? then Some(o.overrideId) else None;
      var captured := false;
      assert ALLOCATABLE_STATUSES[0] == Candidate && ALLOCATABLE_STATUSES[1] == ApprovedPaper;
      assert ALLOCATABLE_STATUSES[2] == ApprovedLive;
      for k := 0 to |ALLOCATABLE_STATUSES|
        invariant !captured
        invariant forall j :: 0 <= j < k ==> (ALLOCATABLE_STATUSES[j], None) !in policies
      {
        var policy := ActivePolicy(policies, ALLOCATABLE_STATUSES[k], None);
        if policy.None? {
          continue;
        }
        var p := policy.value;
        assert FirstStatus(policies) == Some(ALLOCATABLE_STATUSES[k]);
        entries := entries[sid := Entry(sid, Merge(o.maxPct, p.maxPct), MergeOpen(o.maxPositionUsd, p.maxPositionUsd),
                                        Merge(o.maxDrawdown, p.maxDrawdown), p.policyId, override.Some?, overrideId)];
        captured := true;
        break;
      }
      if !captured {
        assert FirstStatus(policies) == None;
        entries := entries[sid := Entry(sid, Merge(o.maxPct, base.maxPct), o.maxPositionUsd,
                                        Merge(o.maxDrawdown, base.maxDrawdown), base.policyId, override.Some?,
                                        overrideId)];
      }
    }
    c := Config(entries, base.maxPct, base.maxDrawdown, base.policyId, totalCapital);
  }

  /** The provider's answer: the captured entry, else the defaults; no gate and no repository. */
  function Provide(c: Config, capital: real, sid: StrategyId, status: Option<GovernanceState>): AllocationResult {
    var entry := if sid in c.entries then c.entries[sid]
                 else Entry(sid, c.defaultMaxPct, None, c.defaultMaxDrawdown, c.defaultPolicyId, false, None);
    AllocationResult(sid, Merge(status, Candidate), entry.maxPct, entry.maxPositionUsd, entry.maxDrawdown,
                     Times(entry.maxPct, capital), entry.overrideApplied, entry.overrideId, entry.policyId,
                     Some("simulation_config"))
  }

  /** A strategy that was not captured gets the defaults, and one without a status counts as a candidate. */
  lemma UncapturedGetDefaults(c: Config, capital: real, sid: StrategyId, status: Option<GovernanceState>)
    ensures Provide(c, capital, sid, status).status == (if status.Some? then status.value else Candidate)
    ensures sid !in c.entries ==>
              var r := Provide(c, capital, sid, status);
              && r.maxPct == c.defaultMaxPct && r.allocatedUsd == Times(c.defaultMaxPct, capital)
              && r.maxPositionUsd == None && r.maxDrawdown == c.defaultMaxDrawdown
              && r.policyId == c.defaultPolicyId && !r.overrideApplied && r.overrideId == None
  {
  }

  class SimulationAllocationProvider {
    const config: Config
    var totalCapital: real

    constructor (config: Config)
      ensures this.config == config && totalCapital == config.totalCapital
    {
      this.config := config;
      totalCapital := config.totalCapital;
    }

    method UpdateTotalCapital(newTotal: real) returns (r: Result<(), AllocationError>)
      modifies this
      ensures r.Err? <==> newTotal < 0.0
      ensures totalCapital == CapitalAfter(old(totalCapital), newTotal)
      ensures totalCapital == if newTotal < 0.0 then old(totalCapital) else newTotal
    {
      if newTotal < 0.0 {
        return Err(NegativeCapital);
      }
      totalCapital := newTotal;
      return Ok(());
    }

    function GetAllocation(sid: StrategyId, status: Option<GovernanceState>): AllocationResult
      reads this
    {
      Provide(config, totalCapital, sid, status)
    }
  }

  function CapitalAfterAll(capital: real, updates: seq<real>): real {
    if updates == [] then capital
    else CapitalAfter(CapitalAfterAll(capital, updates[..|updates| - 1]), updates[|updates| - 1])
  }

  /** The policy row the engine finds for a status and tier. */
  function PolicyKey(policies: Policies, status: GovernanceState, tier: Option<string>)
    : (GovernanceState, Option<string>)
  {
    if tier.Some? && (status, tier) in policies then (status, tier) else (status, None)
  }

  /** `policy_id` is the policies' primary key. */
  predicate UniquePolicyIds(policies: Policies) {
    forall k, l :: k in policies && l in policies && policies[k].policyId == policies[l].policyId ==> k == l
  }

  /** A strategy captured at `captured`, in a system with some untiered allocatable policy. */
  predicate Captured(c: Config, e: Engine, sid: StrategyId, captured: Instant) {
    && sid in c.entries
    && c.entries[sid] == EntryFor(e.policies, e.overrides, sid, captured, c.defaultMaxPct, c.defaultMaxDrawdown,
                                  c.defaultPolicyId)
    && FirstStatus(e.policies).Some?
  }

  /** What a caller can check before relying on the snapshot in place of the live engine at `asked`:
      the strategy is in the first allocatable status that has an untiered policy and its tier has
      no policy of its own; its override has neither expired nor begun since; a cycle budget, if
      any, repeats the captured percentage; and that percentage is at most the whole capital. */
  predicate Interchangeable(c: Config, e: Engine, sid: StrategyId, status: Option<GovernanceState>,
                            tier: Option<string>,
                            captured: Instant, asked: Instant, capital: real)
    requires sid in c.entries
  {
    && status == FirstStatus(e.policies)
    && (tier.None? || (status.Some? && (status.value, tier) !in e.policies))
    && ActiveOverride(e.overrides, sid, asked) == ActiveOverride(e.overrides, sid, captured)
    && (sid in e.budgets ==> e.budgets[sid] == c.entries[sid].maxPct)
    && (c.entries[sid].maxPct <= 1.0 || capital == 0.0)
  }

  /** The snapshot refines the live engine: after any equal updates of capital the two give the same
      percentage, limits, policy, override and dollars (and differ only in the label of the
      capital's source) exactly when they are interchangeable. */
  lemma SnapshotRefinesEngineIff(c: Config, e: Engine, sid: StrategyId, status: Option<GovernanceState>,
                                 tier: Option<string>,
                                 captured: Instant, asked: Instant, updates: seq<real>)
    requires Captured(c, e, sid, captured) && UniquePolicyIds(e.policies) && c.totalCapital >= 0.0
    ensures var capital := CapitalAfterAll(c.totalCapital, updates);
      var simulated := Provide(c, capital, sid, status);
      var live := Allocate(e.(capital := capital), sid, status, tier, asked);
      (live == Ok(simulated.(capitalSource := e.capitalSource)))
      <==> Interchangeable(c, e, sid, status, tier, captured, asked, capital)
  {
    var capital := CapitalAfterAll(c.totalCapital, updates);
    CapitalStaysNonNegative(c.totalCapital, updates);
    WithinCapital(c.entries[sid].maxPct, capital);
    if Allocatable(status) {
      var found := PolicyKey(e.policies, status.value, tier);
      var base := (FirstStatus(e.policies).value, None);
      assert found in e.policies ==> (e.policies[found].policyId == e.policies[base].policyId <==> found == base);
    }
  }

  /** An override that expires between capture and question parts the two: the snapshot still applies it,
      the live engine no longer does. */
  lemma ExpiredOverrideParts(c: Config, e: Engine, sid: StrategyId, captured: Instant, asked: Instant)
    requires Captured(c, e, sid, captured) && UniquePolicyIds(e.policies) && e.capital == c.totalCapital >= 0.0
    requires sid in e.overrides && e.overrides[sid].expiresAt.Some?
    requires captured < e.overrides[sid].expiresAt.value <= asked
    ensures Provide(c, e.capital, sid, FirstStatus(e.policies)).overrideApplied
    ensures Allocate(e, sid, FirstStatus(e.policies), None, asked).Ok? ==>
              !Allocate(e, sid, FirstStatus(e.policies), None, asked).value.overrideApplied
    ensures Allocate(e, sid, FirstStatus(e.policies), None, asked)
         != Ok(Provide(c, e.capital, sid, FirstStatus(e.policies)).(capitalSource := e.capitalSource))
  {
  }

  /** Such a capture exists: one policy, and an override of one tenth that expires a microsecond later. */
  lemma SnapshotOutlivesOverride()
    ensures var p, o := Policy("p", 0.5, None, 0.2), NO_OVERRIDE.(maxPct := Some(0.1), expiresAt := Some(1));
      var e := Engine(map[(Candidate, None) := p], map["s" := o], map[], 100.0, None);
      var c := Config(map["s" := EntryFor(e.policies, e.overrides, "s", 0, 0.5, 0.2, "p")], 0.5, 0.2, "p", 100.0);
      && Captured(c, e, "s", 0) && UniquePolicyIds(e.policies)
      && Provide(c, 100.0, "s", Some(Candidate)).maxPct == 0.1
      && Allocate(e, "s", Some(Candidate), None, 1).Ok?
      && Allocate(e, "s", Some(Candidate), None, 1).value.maxPct == 0.5
  {
  }

  lemma WithinCapital(pct: real, capital: real)
    requires capital >= 0.0
    ensures Times(pct, capital) <= capital <==> pct <= 1.0 || capital == 0.0
  {
    if capital > 0.0 {
      if pct <= 1.0 {
        TimesMonotone(pct, 1.0, capital);
      } else {
        TimesMonotone(1.0, pct, capital);
      }
    }
  }

  lemma {:induction false} CapitalStaysNonNegative(capital: real, updates: seq<real>)
    requires capital >= 0.0
    ensures CapitalAfterAll(capital, updates) >= 0.0
  {
    if updates != [] {
      CapitalStaysNonNegative(capital, updates[..|updates| - 1]);
    }
  }
}
