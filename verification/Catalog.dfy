/**
  Configured rules, the shipped catalog (`catalog.py`) and the dispatch and scoring of `engine.py`:
  which priorities a stored detection of each shipped rule can carry.
 */
module Catalog {
  import opened Wrappers
  import opened Rules
  import opened Scoring

  datatype RuleCode =
    | PRESSURE_DROP | FLOW_SURGE | COMBINED_LEAK_PATTERN
    | CONNECTIVITY_DEGRADATION | MISSING_TELEMETRY | SENSOR_QUALITY
    | Other(name: string)

  /** The keys of a rule's `configuration` that evaluation reads; `None` where the key is missing. */
  datatype Config = Config(
    pressureDropPct: Option<real>,
    flowSurgePct: Option<real>,
    packetLossPct: Option<real>,
    signalDbm: Option<real>,
    intermittentGapMinutes: Option<real>,
    freshnessMinutes: Option<real>,
    requirePrior: Option<bool>,
    frozenMinutes: Option<real>,
    frozenMinimumPoints: Option<int>,
    useSensorRanges: Option<bool>,
    inconsistentRatioMax: Option<real>,
    fallbackRanges: map<Metric, Range>)

  const NO_CONFIG := Config(None, None, None, None, None, None, None, None, None, None, None, map[])

  /** The database refuses a rule whose `minimum_points` is not positive. */
  datatype RuleFields = Rule(
    id: int,
    code: RuleCode,
    threshold: real,
    secondaryThreshold: Option<real>,
    minimumPoints: int,
    severityWeight: real,
    config: Config)

  type Rule = r: RuleFields | r.minimumPoints > 0
    witness Rule(0, PRESSURE_DROP, 0.0, None, 1, 0.0, NO_CONFIG)

  /** What the engine reads about one sensor before it evaluates the rules. */
  datatype Feed = Feed(
    readings: seq<Reading>,
    latest: Option<real>,
    hasPrior: bool,
    packetLossPct: Option<real>,
    criticality: Option<int>,
    health: Option<real>,
    measurementTypes: set<Metric>,
    metadataRanges: map<Metric, Range>)

  function EvaluateRule(rule: Rule, feed: Feed, now: real, windowStart: real): RuleHit {
    var c := rule.config;
    match rule.code
    case PRESSURE_DROP =>
      PressureDropHit(feed.readings, rule.threshold, rule.minimumPoints, windowStart, now)
    case FLOW_SURGE =>
      FlowSurgeHit(feed.readings, rule.threshold, rule.minimumPoints, windowStart, now)
    case COMBINED_LEAK_PATTERN =>
      CombinedHit(feed.readings, c.pressureDropPct.GetOr(rule.threshold),
                  c.flowSurgePct.GetOr(rule.secondaryThreshold.GetOr(0.0)), rule.minimumPoints, windowStart, now)
    case CONNECTIVITY_DEGRADATION =>
      ConnectivityHit(feed.readings, c.packetLossPct.GetOr(rule.threshold),
                      c.signalDbm.GetOr(rule.secondaryThreshold.GetOr(0.0)), c.intermittentGapMinutes.GetOr(15.0),
                      rule.minimumPoints, windowStart, now)
    case MISSING_TELEMETRY =>
      MissingTelemetryHit(feed.latest, feed.hasPrior, c.freshnessMinutes.GetOr(rule.threshold), now,
                          c.requirePrior.GetOr(true))
    case SENSOR_QUALITY =>
      SensorQualityHit(feed.readings, QualityOf(rule, feed), rule.minimumPoints, windowStart, now)
    case Other(_) => EmptyHit(windowStart, now, |feed.readings|)
  }

  function QualityOf(rule: Rule, feed: Feed): QualityConfig {
    var c := rule.config;
    QualityConfig(
      feed.measurementTypes,
      c.fallbackRanges + (if c.useSensorRanges.GetOr(true) then feed.metadataRanges else map[]),
      c.frozenMinutes.GetOr(15.0), c.frozenMinimumPoints.GetOr(5), c.inconsistentRatioMax.GetOr(50.0))
  }

  function ScoreThreshold(rule: Rule): real {
    match rule.code
    case COMBINED_LEAK_PATTERN => rule.config.pressureDropPct.GetOr(rule.threshold)
    case MISSING_TELEMETRY => rule.config.freshnessMinutes.GetOr(rule.threshold)
    case CONNECTIVITY_DEGRADATION => rule.config.packetLossPct.GetOr(rule.threshold)
    case SENSOR_QUALITY => rule.config.frozenMinutes.GetOr(rule.threshold)
    case _ => rule.threshold
  }

  function InputFor(rule: Rule, hit: RuleHit, feed: Feed): ScoreInput {
    ScoreInput(rule.severityWeight, hit.observedRatio, ScoreThreshold(rule), hit.metricCount,
               feed.criticality, feed.packetLossPct, feed.health)
  }

  function ScoreOf(rule: Rule, hit: RuleHit, feed: Feed): real {
    ScoreComponents(InputFor(rule, hit, feed))
  }

  function PriorityOf(rule: Rule, hit: RuleHit, feed: Feed): Priority {
    PriorityForScore(ScoreOf(rule, hit, feed))
  }

  // ---------------------------------------------------------------- the shipped catalog

  function CatalogEntry(code: RuleCode, id: int): Rule
    requires !code.Other?
  {
    match code
    case PRESSURE_DROP => Rule(id, code, 8.0, None, 4, 0.65, NO_CONFIG)
    case FLOW_SURGE => Rule(id, code, 12.0, None, 4, 0.60, NO_CONFIG)
    case COMBINED_LEAK_PATTERN =>
      Rule(id, code, 8.0, Some(12.0), 4, 0.90, NO_CONFIG.(pressureDropPct := Some(8.0), flowSurgePct := Some(12.0)))
    case CONNECTIVITY_DEGRADATION =>
      Rule(id, code, 10.0, Some(-100.0), 3, 0.55,
           NO_CONFIG.(packetLossPct := Some(10.0), signalDbm := Some(-100.0), intermittentGapMinutes := Some(15.0)))
    case MISSING_TELEMETRY =>
      Rule(id, code, 30.0, None, 1, 0.50, NO_CONFIG.(freshnessMinutes := Some(30.0), requirePrior := Some(true)))
    case SENSOR_QUALITY =>
      Rule(id, code, 1.0, None, 4, 0.45,
           NO_CONFIG.(frozenMinutes := Some(15.0), frozenMinimumPoints := Some(5), useSensorRanges := Some(true),
                      inconsistentRatioMax := Some(50.0),
                      fallbackRanges := map[PressureKpa := Range(50.0, 1600.0), FlowLps := Range(0.0, 120.0),
                                            TemperatureC := Range(-10.0, 70.0)]))
  }

  ghost predicate Shipped(rule: Rule) {
    !rule.code.Other? && rule == CatalogEntry(rule.code, rule.id)
  }

  /** Over one sensor's readings the shipped combined rule fires exactly when both shipped rate rules do. */
  lemma CombinedExactlyWhenBothRateRules(drop: Rule, surge: Rule, both: Rule, feed: Feed, now: real, windowStart: real)
    requires Shipped(drop) && Shipped(surge) && Shipped(both)
    requires drop.code.PRESSURE_DROP? && surge.code.FLOW_SURGE? && both.code.COMBINED_LEAK_PATTERN?
    ensures EvaluateRule(both, feed, now, windowStart).triggered
       <==> EvaluateRule(drop, feed, now, windowStart).triggered && EvaluateRule(surge, feed, now, windowStart).triggered
  {
  }

  lemma TermUpTo(value: real, k: int)
    requires 0 <= k && value <= k as real / SIX
    ensures Rounding.RoundTo(value, SIX) <= k as real / SIX
  {
    var bound := k as real / SIX;
    Rounding.RoundFixes(k, bound, SIX);
    Rounding.RoundMonotone(value, bound, SIX);
  }

  lemma TermFrom(value: real, k: int)
    requires 0 <= k && k as real / SIX <= value
    ensures k as real / SIX <= Rounding.RoundTo(value, SIX)
  {
    var bound := k as real / SIX;
    Rounding.RoundFixes(k, bound, SIX);
    Rounding.RoundMonotone(bound, value, SIX);
  }

  lemma OtherTermsUpTo(f: Factors)
    requires f.InUnit()
    ensures Rounding.RoundTo(f.magnitude * W_MAGNITUDE, SIX) + Rounding.RoundTo(f.criticality * W_CRITICALITY, SIX)
          + Rounding.RoundTo(f.quality * W_QUALITY, SIX) + Rounding.RoundTo(f.health * W_HEALTH, SIX) <= 0.45
  {
    hide Rounding.RoundTo;
    TermUpTo(f.magnitude * W_MAGNITUDE, 250000);
    TermUpTo(f.criticality * W_CRITICALITY, 100000);
    TermUpTo(f.quality * W_QUALITY, 50000);
    TermUpTo(f.health * W_HEALTH, 50000);
  }

  /** Severity and corroboration cap the rounded sum: the other four factors add at most 0.45. */
  lemma SumUpTo(f: Factors, severity: int, corroboration: int)
    requires f.InUnit() && 0 <= severity && 0 <= corroboration
    requires f.severity * W_SEVERITY <= severity as real / SIX
    requires f.corroboration * W_CORROBORATION <= corroboration as real / SIX
    ensures f.RoundedSum() <= (severity + corroboration + 450000) as real / SIX
  {
    hide Rounding.RoundTo;
    TermUpTo(f.severity * W_SEVERITY, severity);
    TermUpTo(f.corroboration * W_CORROBORATION, corroboration);
    OtherTermsUpTo(f);
  }

  lemma SumFrom(f: Factors, severity: int, magnitude: int, corroboration: int)
    requires f.InUnit() && 0 <= severity && 0 <= magnitude && 0 <= corroboration
    requires severity as real / SIX <= f.severity * W_SEVERITY
    requires magnitude as real / SIX <= f.magnitude * W_MAGNITUDE
    requires corroboration as real / SIX <= f.corroboration * W_CORROBORATION
    ensures (severity + magnitude + corroboration) as real / SIX <= f.RoundedSum()
  {
    hide Rounding.RoundTo;
    TermFrom(f.severity * W_SEVERITY, severity);
    TermFrom(f.magnitude * W_MAGNITUDE, magnitude);
    TermFrom(f.corroboration * W_CORROBORATION, corroboration);
    TermFrom(f.criticality * W_CRITICALITY, 0);
    TermFrom(f.quality * W_QUALITY, 0);
    TermFrom(f.health * W_HEALTH, 0);
  }

  /** Flow must have risen 12 percent while the score measures against 8: half the magnitude term is guaranteed. */
  lemma CombinedMagnitude(rule: Rule, feed: Feed, now: real, windowStart: real)
    requires Shipped(rule) && rule.code.COMBINED_LEAK_PATTERN?
    requires EvaluateRule(rule, feed, now, windowStart).triggered
    ensures
      var hit := EvaluateRule(rule, feed, now, windowStart);
      hit.metricCount == 2 && MagnitudeBeyondThreshold(hit.observedRatio, 8.0) >= 0.5
  {
    var hit := EvaluateRule(rule, feed, now, windowStart);
    assert hit.observedRatio >= 12.0;
    MagnitudeMonotone(12.0, hit.observedRatio, 8.0);
    assert MagnitudeBeyondThreshold(12.0, 8.0) == 0.5;
  }

  /** Every triggered combined pattern scores at least 0.56, so it is stored as high or critical. */
  lemma CombinedIsAtLeastHigh(rule: Rule, feed: Feed, now: real, windowStart: real)
    requires Shipped(rule) && rule.code.COMBINED_LEAK_PATTERN?
    requires EvaluateRule(rule, feed, now, windowStart).triggered
    ensures
      var hit := EvaluateRule(rule, feed, now, windowStart);
      ScoreOf(rule, hit, feed) >= 0.56 && PriorityOf(rule, hit, feed).Rank() >= High.Rank()
  {
    hide Rounding.RoundTo, Factors.RoundedSum, Factors.AnomalyScore;
    var hit := EvaluateRule(rule, feed, now, windowStart);
    CombinedMagnitude(rule, feed, now, windowStart);
    var f := FactorsOf(InputFor(rule, hit, feed));
    SumFrom(f, 360000, 125000, 75000);
    ScoreAtLeast(f, 5600);
  }

  lemma ScoreCap(rule: Rule, hit: RuleHit, feed: Feed, severity: int, corroboration: int)
    requires 0 <= severity && 0 <= corroboration && severity + corroboration <= 349900
    requires (severity + corroboration) % 100 == 0
    requires Clamp(rule.severityWeight) * W_SEVERITY <= severity as real / SIX
    requires CorroborationFactor(hit.metricCount) * W_CORROBORATION <= corroboration as real / SIX
    ensures ScoreOf(rule, hit, feed) < 0.80
  {
    var f := FactorsOf(InputFor(rule, hit, feed));
    SumUpTo(f, severity, corroboration);
    var k := (severity + corroboration + 450000) / 100;
    ScoreAtMost(f, k);
  }

  lemma ConnectivityReasons(rule: Rule, feed: Feed, now: real, windowStart: real)
    requires rule.code.CONNECTIVITY_DEGRADATION?
    ensures
      var hit := EvaluateRule(rule, feed, now, windowStart);
      && hit.metricCount == |hit.reasons| <= 3
      && (hit.metricCount == 3 ==> hit.reasons == [PacketLossHigh, SignalStrengthLow, IntermittentMeasurements])
  {
  }

  /** A critical priority comes only from the combined pattern or from connectivity failing in all three ways. */
  lemma CriticalOnlyFrom(rule: Rule, feed: Feed, now: real, windowStart: real)
    requires Shipped(rule)
    requires EvaluateRule(rule, feed, now, windowStart).triggered
    requires PriorityOf(rule, EvaluateRule(rule, feed, now, windowStart), feed).Critical?
    ensures rule.code.COMBINED_LEAK_PATTERN?
         || (rule.code.CONNECTIVITY_DEGRADATION?
             && EvaluateRule(rule, feed, now, windowStart).reasons
                == [PacketLossHigh, SignalStrengthLow, IntermittentMeasurements])
  {
    hide Rounding.RoundTo, Factors.RoundedSum, Factors.AnomalyScore, FactorsOf;
    var hit := EvaluateRule(rule, feed, now, windowStart);
    match rule.code
    case COMBINED_LEAK_PATTERN =>
    case PRESSURE_DROP => ScoreCap(rule, hit, feed, 260000, 0);
    case FLOW_SURGE => ScoreCap(rule, hit, feed, 240000, 0);
    case MISSING_TELEMETRY => ScoreCap(rule, hit, feed, 200000, 0);
    case SENSOR_QUALITY => ScoreCap(rule, hit, feed, 180000, 150000);
    case CONNECTIVITY_DEGRADATION =>
      ConnectivityReasons(rule, feed, now, windowStart);
      if hit.metricCount < 3 {
        ScoreCap(rule, hit, feed, 220000, 75000);
      }
  }

  lemma BareCombined(f: Factors)
    requires f == Factors(0.90, 0.5, 0.5, 0.0, 0.0, 0.0)
    ensures f.AnomalyScore() == 0.56
  {
    SumFrom(f, 360000, 125000, 75000);
    TermUpTo(f.severity * W_SEVERITY, 360000);
    TermUpTo(f.magnitude * W_MAGNITUDE, 125000);
    TermUpTo(f.corroboration * W_CORROBORATION, 75000);
    TermUpTo(0.0, 0);
    hide Rounding.RoundTo;
    ScoreAtLeast(f, 5600);
    ScoreAtMost(f, 5600);
  }

  /** Four minutes of readings: the pressure falls by ten percent and the flow rises by twelve, at the last one. */
  const LEAK_READINGS: seq<Reading> := [
    Reading(0.0, Some(100.0), Some(100.0), None, None, None), Reading(1.0, Some(100.0), Some(100.0), None, None, None),
    Reading(2.0, Some(100.0), Some(100.0), None, None, None), Reading(3.0, Some(90.0), Some(112.0), None, None, None)]

  lemma NextSample(readings: seq<Reading>, k: nat, m: Metric)
    requires k < |readings|
    ensures SeriesOf(readings[..k + 1], m) == SeriesOf(readings[..k], m) +
              match readings[k].Value(m) case None => [] case Some(v) => [Sample(readings[k].time, v)]
  {
    assert readings[..k + 1][..k] == readings[..k];
  }

  lemma LeakSeries(m: Metric)
    requires m == PressureKpa || m == FlowLps
    ensures SeriesOf(LEAK_READINGS, m) ==
              [Sample(0.0, 100.0), Sample(1.0, 100.0), Sample(2.0, 100.0), Sample(3.0, if m == PressureKpa then 90.0 else 112.0)]
  {
    var rs := LEAK_READINGS;
    assert SeriesOf(rs[..0], m) == [];
    hide SeriesOf;
    NextSample(rs, 0, m);
    NextSample(rs, 1, m);
    NextSample(rs, 2, m);
    NextSample(rs, 3, m);
    assert rs[..4] == rs;
  }

  /** The lower bound is reached: on these readings, with nothing else known, the shipped rule triggers and scores 0.56. */
  lemma CombinedBoundIsReached(feed: Feed, now: real, windowStart: real)
    requires feed.readings == LEAK_READINGS && feed.criticality.None? && feed.packetLossPct.None? && feed.health.None?
    ensures var rule := CatalogEntry(COMBINED_LEAK_PATTERN, 0);
            var hit := EvaluateRule(rule, feed, now, windowStart);
            hit.triggered && ScoreOf(rule, hit, feed) == 0.56
  {
    hide Factors.AnomalyScore, SeriesOf;
    LeakSeries(PressureKpa);
    LeakSeries(FlowLps);
    var rule := CatalogEntry(COMBINED_LEAK_PATTERN, 0);
    var hit := EvaluateRule(rule, feed, now, windowStart);
    assert hit.triggered && hit.observedRatio == 12.0 && hit.metricCount == 2;
    BareCombined(FactorsOf(InputFor(rule, hit, feed)));
  }

  /** With all three reasons the ratio is at least the weakest signal's size, which alone is ten times the threshold. */
  lemma AllReasonsSaturate(rule: Rule, feed: Feed, now: real, windowStart: real)
    requires Shipped(rule) && rule.code.CONNECTIVITY_DEGRADATION?
    requires EvaluateRule(rule, feed, now, windowStart).reasons == [PacketLossHigh, SignalStrengthLow, IntermittentMeasurements]
    ensures var hit := EvaluateRule(rule, feed, now, windowStart);
            hit.metricCount == 3 && MagnitudeBeyondThreshold(hit.observedRatio, 10.0) == 1.0
  {
    hide ConnectivityFinding, Measured;
    ConnectivityReasons(rule, feed, now, windowStart);
    assert |feed.readings| >= 3;
    ConnectivityRatio(feed.readings, 10.0, -100.0, 15.0, 3, windowStart, now);
    var hit := EvaluateRule(rule, feed, now, windowStart);
    assert hit.observedRatio >= 100.0;
    MagnitudeMonotone(20.0, hit.observedRatio, 10.0);
  }

  /**
    Connectivity failing in all three ways does reach critical, on whatever readings, for the most critical segment with
    full packet loss and no health left.
   */
  lemma ConnectivityReachesCritical(rule: Rule, feed: Feed, now: real, windowStart: real)
    requires Shipped(rule) && rule.code.CONNECTIVITY_DEGRADATION?
    requires EvaluateRule(rule, feed, now, windowStart).reasons == [PacketLossHigh, SignalStrengthLow, IntermittentMeasurements]
    requires feed.criticality == Some(3) && feed.packetLossPct == Some(20.0) && feed.health == Some(0.0)
    ensures PriorityOf(rule, EvaluateRule(rule, feed, now, windowStart), feed) == Critical
  {
    hide Factors.AnomalyScore, EvaluateRule;
    AllReasonsSaturate(rule, feed, now, windowStart);
    WorstConnectivity(FactorsOf(InputFor(rule, EvaluateRule(rule, feed, now, windowStart), feed)));
  }

  /** Three readings a quarter of an hour apart, the last with full packet loss and a weak signal. */
  const DROPOUT_READINGS: seq<Reading> := [
    Reading(0.0, None, None, None, None, None), Reading(15.0, None, None, None, None, None),
    Reading(30.0, None, None, None, Some(-110.0), Some(20.0))]

  lemma DropoutFacts()
    ensures Measured(DROPOUT_READINGS, PacketLossPct, 20.0) && Measured(DROPOUT_READINGS, SignalDbm, -110.0)
    ensures MaxGap(DROPOUT_READINGS) >= 15.0 && |DROPOUT_READINGS| == 3
  {
    var rs := DROPOUT_READINGS;
    assert rs[2].Value(PacketLossPct) == Some(20.0) && rs[2].Value(SignalDbm) == Some(-110.0);
    hide MaxGap;
    MaxGapIsUpperBound(rs, 0);
  }

  /** Such readings exist. */
  lemma AllThreeReasonsOccur(feed: Feed, now: real, windowStart: real)
    requires feed.readings == DROPOUT_READINGS
    ensures EvaluateRule(CatalogEntry(CONNECTIVITY_DEGRADATION, 0), feed, now, windowStart).reasons
            == [PacketLossHigh, SignalStrengthLow, IntermittentMeasurements]
  {
    hide Measured, MaxGap, ConnectivityHit, DROPOUT_READINGS;
    DropoutFacts();
    ConnectivityMeaning(DROPOUT_READINGS, 10.0, -100.0, 15.0, 3, windowStart, now);
  }

  lemma WorstConnectivity(f: Factors)
    requires f == Factors(0.55, 1.0, 1.0, 1.0, 1.0, 1.0)
    ensures f.AnomalyScore() >= 0.82
  {
    TermFrom(f.severity * W_SEVERITY, 220000);
    TermFrom(f.magnitude * W_MAGNITUDE, 250000);
    TermFrom(f.corroboration * W_CORROBORATION, 150000);
    TermFrom(f.criticality * W_CRITICALITY, 100000);
    TermFrom(f.quality * W_QUALITY, 50000);
    TermFrom(f.health * W_HEALTH, 50000);
    ScoreAtLeast(f, 8200);
  }
}
