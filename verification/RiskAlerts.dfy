/** Portfolio risk alerts (risk/risk_alert_service.py). */
module RiskAlerts {
  import opened Common
  import opened Exposure
  import DrawdownMetrics

  datatype Severity = Warning | Critical

  datatype AlertType =
    | GrossExposureBreach
    | StrategyConcentration
    | SectorConcentration(sector: string)
    | DrawdownBreach(peak: real, current: real)
    | PortfolioVolBreach
    | CorrelationBreach

  datatype Alert = Alert(kind: AlertType, severity: Severity, value: real)

  datatype Limit = Limit(warning: real, critical: real)

  datatype Thresholds = Thresholds(
    grossRatio: Limit,
    strategyWeight: Limit,
    sectorWeight: Limit,
    drawdown: Limit,
    portfolioVol: Limit,
    correlation: Limit)

  const DEFAULTS := Thresholds(Limit(1.0, 1.5), Limit(0.30, 0.50), Limit(0.40, 0.60),
                               Limit(0.10, 0.20), Limit(0.15, 0.25), Limit(0.60, 0.80))

  /** The shape every check ends in: critical first, then warning, else nothing. */
  function Grade(kind: AlertType, value: real, limit: Limit): seq<Alert> {
    if value >= limit.critical then [Alert(kind, Critical, value)]
    else if value >= limit.warning then [Alert(kind, Warning, value)]
    else []
  }

  function CheckGrossExposure(t: Thresholds, e: Snapshot, totalCapital: real): seq<Alert> {
    if totalCapital <= 0.0 then [] else Grade(GrossExposureBreach, e.totalGross / totalCapital, t.grossRatio)
  }

  function CheckDrawdown(t: Thresholds, curve: seq<real>): seq<Alert> {
    if |curve| < 2 then []
    else
      var peak, current := DrawdownMetrics.MaxOf(curve), curve[|curve| - 1];
      if peak <= 0.0 then []
      else Grade(DrawdownBreach(peak, current), (peak - current) / peak, t.drawdown)
  }

  function CheckOptional(kind: AlertType, value: Option<real>, limit: Limit): seq<Alert> {
    match value
    case None => []
    case Some(v) => Grade(kind, v, limit)
  }

  /** No two alerts of one kind; sectors count as kinds of their own. */
  predicate OneOfAKind(alerts: seq<Alert>) {
    forall i, j :: 0 <= i < j < |alerts| ==> alerts[i].kind != alerts[j].kind
  }

  /** The sectors' alerts, in some order: exactly the graded breaches of their weights, at most one a
      sector. */
  ghost predicate SectorAlerts(t: Thresholds, e: Snapshot, alerts: seq<Alert>) {
    && OneOfAKind(alerts)
    && forall a :: a in alerts <==>
         exists sec :: sec in e.bySector && a in Grade(SectorConcentration(sec), e.bySector[sec].weight, t.sectorWeight)
  }

  /** `before` has one alert of a kind, and none that `next`, at most one alert, has. */
  lemma OneMoreKind(before: seq<Alert>, next: seq<Alert>)
    requires OneOfAKind(before) && |next| <= 1
    requires forall x, y :: x in before && y in next ==> x.kind != y.kind
    ensures OneOfAKind(before + next)
  {
  }

  lemma GradeKinds(kind: AlertType, value: real, limit: Limit)
    ensures |Grade(kind, value, limit)| <= 1 && forall a :: a in Grade(kind, value, limit) ==> a.kind == kind
  {
  }

  /** `_check_sector_concentration`. */
  method CheckSectors(t: Thresholds, e: Snapshot) returns (alerts: seq<Alert>)
    ensures SectorAlerts(t, e, alerts)
  {
    alerts := [];
    var pending := e.bySector.Keys;
    while pending != {}
      invariant pending <= e.bySector.Keys
      invariant OneOfAKind(alerts)
      invariant forall a :: a in alerts ==> a.kind.SectorConcentration? && a.kind.sector !in pending
      invariant forall a :: a in alerts <==>
                  exists sec :: sec in e.bySector && sec !in pending
                    && a in Grade(SectorConcentration(sec), e.bySector[sec].weight, t.sectorWeight)
      decreases pending
    {
      var sec :| sec in pending;
      GradeKinds(SectorConcentration(sec), e.bySector[sec].weight, t.sectorWeight);
      OneMoreKind(alerts, Grade(SectorConcentration(sec), e.bySector[sec].weight, t.sectorWeight));
      alerts := alerts + Grade(SectorConcentration(sec), e.bySector[sec].weight, t.sectorWeight);
      pending := pending - {sec};
    }
  }

  /** The checks' alerts one after the other, around those of the sectors. */
  function Combined(t: Thresholds, e: Snapshot, totalCapital: real, sectors: seq<Alert>, curve: Option<seq<real>>,
                    realizedVol: Option<real>, avgCorrelation: Option<real>): seq<Alert>
  {
    CheckGrossExposure(t, e, totalCapital)
    + Grade(StrategyConcentration, e.maxStrategyWeight, t.strategyWeight)
    + sectors
    + (if curve.Some? then CheckDrawdown(t, curve.value) else [])
    + CheckOptional(PortfolioVolBreach, realizedVol, t.portfolioVol)
    + CheckOptional(CorrelationBreach, avgCorrelation, t.correlation)
  }

  // ---------------------------------------------------------------------------
  // What the alerts mean
  // ---------------------------------------------------------------------------

  /** The quantity that alerts of a kind are about, when there is one to measure. */
  function Measured(e: Snapshot, totalCapital: real, curve: Option<seq<real>>, realizedVol: Option<real>,
                    avgCorrelation: Option<real>, kind: AlertType): Option<real>
  {
    match kind
    case GrossExposureBreach => if totalCapital > 0.0 then Some(e.totalGross / totalCapital) else None
    case StrategyConcentration => Some(e.maxStrategyWeight)
    case SectorConcentration(sec) => if sec in e.bySector then Some(e.bySector[sec].weight) else None
    case DrawdownBreach(peak, current) =>
      if curve.Some? && IsFall(curve.value, peak, current) then Some((peak - current) / peak) else None
    case PortfolioVolBreach => realizedVol
    case CorrelationBreach => avgCorrelation
  }

  /** The curve, of two points or more, has this positive maximum and this last point. */
  predicate IsFall(curve: seq<real>, peak: real, current: real) {
    && |curve| >= 2 && peak > 0.0 && current == curve[|curve| - 1]
    && peak in curve && forall x :: x in curve ==> x <= peak
  }

  function LimitFor(t: Thresholds, kind: AlertType): Limit {
    match kind
    case GrossExposureBreach => t.grossRatio
    case StrategyConcentration => t.strategyWeight
    case SectorConcentration(_) => t.sectorWeight
    case DrawdownBreach(_, _) => t.drawdown
    case PortfolioVolBreach => t.portfolioVol
    case CorrelationBreach => t.correlation
  }

  /** An alert states what was measured; it is critical when that reaches the critical limit, and a
      warning when it reaches the warning limit only. */
  predicate Reaches(a: Alert, measured: Option<real>, limit: Limit) {
    && measured == Some(a.value)
    && match a.severity
       case Critical => a.value >= limit.critical
       case Warning => limit.critical > a.value >= limit.warning
  }

  lemma GradeReaches(kind: AlertType, value: real, limit: Limit, a: Alert)
    ensures a in Grade(kind, value, limit) <==> a.kind == kind && Reaches(a, Some(value), limit)
  {
  }

  lemma OptionalReaches(kind: AlertType, value: Option<real>, limit: Limit, a: Alert)
    ensures a in CheckOptional(kind, value, limit) <==> a.kind == kind && Reaches(a, value, limit)
  {
  }

  lemma DrawdownReaches(t: Thresholds, curve: seq<real>, a: Alert)
    ensures a in CheckDrawdown(t, curve) <==>
              && a.kind.DrawdownBreach? && IsFall(curve, a.kind.peak, a.kind.current)
              && Reaches(a, Some((a.kind.peak - a.kind.current) / a.kind.peak), t.drawdown)
  {
    if |curve| >= 2 {
      var peak, current := DrawdownMetrics.MaxOf(curve), curve[|curve| - 1];
      DrawdownMetrics.RunningMaxIsMax(curve, |curve| - 1);
      assert peak in curve;
      if a.kind.DrawdownBreach? && IsFall(curve, a.kind.peak, a.kind.current) {
        assert a.kind == DrawdownBreach(peak, current);
      }
      if peak > 0.0 {
        GradeReaches(DrawdownBreach(peak, current), (peak - current) / peak, t.drawdown, a);
      }
    }
  }

  lemma SectorReaches(t: Thresholds, e: Snapshot, sectors: seq<Alert>, a: Alert)
    requires SectorAlerts(t, e, sectors)
    ensures a in sectors <==>
              && a.kind.SectorConcentration? && a.kind.sector in e.bySector
              && Reaches(a, Some(e.bySector[a.kind.sector].weight), t.sectorWeight)
  {
    forall sec | sec in e.bySector
      ensures a in Grade(SectorConcentration(sec), e.bySector[sec].weight, t.sectorWeight) <==>
                a.kind == SectorConcentration(sec) && Reaches(a, Some(e.bySector[sec].weight), t.sectorWeight)
    {
      GradeReaches(SectorConcentration(sec), e.bySector[sec].weight, t.sectorWeight, a);
    }
  }

  /** Of the combined alerts, exactly those are there whose measured quantity reaches their limit. */
  lemma CombinedReaches(t: Thresholds, e: Snapshot, totalCapital: real, sectors: seq<Alert>,
                        curve: Option<seq<real>>, realizedVol: Option<real>, avgCorrelation: Option<real>, a: Alert)
    requires SectorAlerts(t, e, sectors)
    ensures a in Combined(t, e, totalCapital, sectors, curve, realizedVol, avgCorrelation) <==>
              Reaches(a, Measured(e, totalCapital, curve, realizedVol, avgCorrelation, a.kind), LimitFor(t, a.kind))
  {
    hide Grade, CheckDrawdown, CheckOptional, IsFall, SectorAlerts;
    if totalCapital > 0.0 {
      GradeReaches(GrossExposureBreach, e.totalGross / totalCapital, t.grossRatio, a);
    }
    GradeReaches(StrategyConcentration, e.maxStrategyWeight, t.strategyWeight, a);
    SectorReaches(t, e, sectors, a);
    if curve.Some? {
      DrawdownReaches(t, curve.value, a);
    }
    OptionalReaches(PortfolioVolBreach, realizedVol, t.portfolioVol, a);
    OptionalReaches(CorrelationBreach, avgCorrelation, t.correlation, a);
  }

  lemma FallKinds(t: Thresholds, curve: seq<real>)
    ensures |CheckDrawdown(t, curve)| <= 1 && forall a :: a in CheckDrawdown(t, curve) ==> a.kind.DrawdownBreach?
  {
  }

  lemma SectorKinds(t: Thresholds, e: Snapshot, sectors: seq<Alert>)
    requires SectorAlerts(t, e, sectors)
    ensures OneOfAKind(sectors) && forall a :: a in sectors ==> a.kind.SectorConcentration?
  {
    forall a | a in sectors ensures a.kind.SectorConcentration? {
      SectorReaches(t, e, sectors, a);
    }
  }

  lemma CombinedOneOfAKind(t: Thresholds, e: Snapshot, totalCapital: real, sectors: seq<Alert>,
                           curve: Option<seq<real>>, realizedVol: Option<real>, avgCorrelation: Option<real>)
    requires SectorAlerts(t, e, sectors)
    ensures OneOfAKind(Combined(t, e, totalCapital, sectors, curve, realizedVol, avgCorrelation))
  {
    hide Grade, SectorAlerts;
    var gross := CheckGrossExposure(t, e, totalCapital);
    if totalCapital > 0.0 {
      GradeKinds(GrossExposureBreach, e.totalGross / totalCapital, t.grossRatio);
    }
    GradeKinds(StrategyConcentration, e.maxStrategyWeight, t.strategyWeight);
    SectorKinds(t, e, sectors);
    var first := gross + Grade(StrategyConcentration, e.maxStrategyWeight, t.strategyWeight);
    var fall := if curve.Some? then CheckDrawdown(t, curve.value) else [];
    var vol := CheckOptional(PortfolioVolBreach, realizedVol, t.portfolioVol);
    OneMoreKind(gross, Grade(StrategyConcentration, e.maxStrategyWeight, t.strategyWeight));
    OneOfAKindBefore(first, sectors);
    assert |fall| <= 1 && forall a :: a in fall ==> a.kind.DrawdownBreach? by {
      if curve.Some? {
        FallKinds(t, curve.value);
      }
    }
    if realizedVol.Some? {
      GradeKinds(PortfolioVolBreach, realizedVol.value, t.portfolioVol);
    }
    if avgCorrelation.Some? {
      GradeKinds(CorrelationBreach, avgCorrelation.value, t.correlation);
    }
    OneMoreKind(first + sectors, fall);
    OneMoreKind(first + sectors + fall, vol);
    OneMoreKind(first + sectors + fall + vol, CheckOptional(CorrelationBreach, avgCorrelation, t.correlation));
  }

  lemma OneOfAKindBefore(first: seq<Alert>, sectors: seq<Alert>)
    requires OneOfAKind(first) && OneOfAKind(sectors)
    requires forall a :: a in first ==> !a.kind.SectorConcentration?
    requires forall a :: a in sectors ==> a.kind.SectorConcentration?
    ensures OneOfAKind(first + sectors)
  {
  }

  /** `evaluate`. */
  method Evaluate(t: Thresholds, e: Snapshot, totalCapital: real, curve: Option<seq<real>>,
                  realizedVol: Option<real>, avgCorrelation: Option<real>)
    returns (alerts: seq<Alert>)
    ensures exists sectors :: SectorAlerts(t, e, sectors)
              && alerts == Combined(t, e, totalCapital, sectors, curve, realizedVol, avgCorrelation)
    ensures OneOfAKind(alerts)
    ensures forall a :: a in alerts <==>
              Reaches(a, Measured(e, totalCapital, curve, realizedVol, avgCorrelation, a.kind), LimitFor(t, a.kind))
  {
    hide Grade, CheckDrawdown, CheckOptional, SectorAlerts, Reaches, Measured;
    alerts := CheckGrossExposure(t, e, totalCapital);
    alerts := alerts + Grade(StrategyConcentration, e.maxStrategyWeight, t.strategyWeight);
    var bySector := CheckSectors(t, e);
    alerts := alerts + bySector;
    if curve.Some? {
      alerts := alerts + CheckDrawdown(t, curve.value);
    }
    alerts := alerts + CheckOptional(PortfolioVolBreach, realizedVol, t.portfolioVol);
    alerts := alerts + CheckOptional(CorrelationBreach, avgCorrelation, t.correlation);
    assert alerts == Combined(t, e, totalCapital, bySector, curve, realizedVol, avgCorrelation);
    CombinedOneOfAKind(t, e, totalCapital, bySector, curve, realizedVol, avgCorrelation);
    forall a {
      CombinedReaches(t, e, totalCapital, bySector, curve, realizedVol, avgCorrelation, a);
    }
  }

  const NOTHING_HELD := Snapshot(0.0, 0.0, 0.0, 0.0, map[], map[], 0.0, 0.0)

  /** `_evaluate_drawdown_breach_alerts`: the replay's call, with an empty snapshot and both
      drawdown thresholds at the configured limit, asks the drawdown question only. */
  method EvaluateDrawdownBreach(limit: real, latestEquity: real, history: seq<real>) returns (alerts: seq<Alert>)
    ensures alerts == DrawdownBreachAlerts(limit, history)
  {
    var t := DEFAULTS.(drawdown := Limit(limit, limit));
    alerts := Evaluate(t, NOTHING_HELD, latestEquity, Some(history), None, None);
    ghost var sectors :| SectorAlerts(t, NOTHING_HELD, sectors)
      && alerts == Combined(t, NOTHING_HELD, latestEquity, sectors, Some(history), None, None);
    assert latestEquity > 0.0 ==> 0.0 / latestEquity == 0.0;
    assert multiset(sectors) == multiset{};
  }

  function DrawdownBreachAlerts(limit: real, history: seq<real>): seq<Alert> {
    CheckDrawdown(DEFAULTS.(drawdown := Limit(limit, limit)), history)
  }

  /** One critical alert exactly when the curve has two points, a positive peak, and a fall from
      that peak to its last point of at least the limit. */
  lemma DrawdownBreachIff(limit: real, history: seq<real>)
    ensures |DrawdownBreachAlerts(limit, history)| == 1 <==>
              |history| >= 2 && DrawdownMetrics.MaxOf(history) > 0.0
              && (DrawdownMetrics.MaxOf(history) - history[|history| - 1]) / DrawdownMetrics.MaxOf(history) >= limit
    ensures |DrawdownBreachAlerts(limit, history)| <= 1
    ensures forall a :: a in DrawdownBreachAlerts(limit, history) ==> a.severity == Critical && a.kind.DrawdownBreach?
  {
  }
}
