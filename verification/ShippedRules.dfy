/**
  What the shipped rules of `catalog.py` fire on, with their own numbers, and what a rule falls back to when keys of its
  configuration are missing.
 */
module ShippedRules {
  import opened Wrappers
  import opened Rules
  import opened Catalog
  import opened RuleMeaning

  ghost predicate Fires(code: RuleCode, feed: Feed, now: real, windowStart: real)
    requires !code.Other?
  {
    EvaluateRule(CatalogEntry(code, 0), feed, now, windowStart).triggered
  }

  /** Four pressures, of which the last is at least eight percent below the first; four flows, twelve percent above. */
  lemma ShippedRateRules(feed: Feed, now: real, windowStart: real, i: nat, j: nat, k: nat, l: nat)
    requires IsFirst(feed.readings, PressureKpa, i) && IsLast(feed.readings, PressureKpa, j)
    requires IsFirst(feed.readings, FlowLps, k) && IsLast(feed.readings, FlowLps, l)
    requires feed.readings[i].pressureKpa.value > 0.0 && feed.readings[k].flowLps.value > 0.0
    ensures Fires(PRESSURE_DROP, feed, now, windowStart) <==>
              |Carrying(feed.readings, PressureKpa)| >= 4
              && feed.readings[j].pressureKpa.value <= 0.92 * feed.readings[i].pressureKpa.value
    ensures Fires(FLOW_SURGE, feed, now, windowStart) <==>
              |Carrying(feed.readings, FlowLps)| >= 4 && feed.readings[l].flowLps.value >= 1.12 * feed.readings[k].flowLps.value
    ensures Fires(COMBINED_LEAK_PATTERN, feed, now, windowStart) <==>
              Fires(PRESSURE_DROP, feed, now, windowStart) && Fires(FLOW_SURGE, feed, now, windowStart)
  {
    hide PressureDropHit, FlowSurgeHit, Carrying;
    PressureDropMeaning(feed.readings, 8.0, 4, windowStart, now, i, j);
    FlowSurgeMeaning(feed.readings, 12.0, 4, windowStart, now, k, l);
    CombinedMeaning(feed.readings, 8.0, 12.0, 4, windowStart, now, i, j, k, l);
    hide CombinedHit, IsFirst, IsLast;
  }

  /** Three readings with a packet loss of ten percent, a signal down to -100 dBm, or a gap of a quarter of an hour. */
  lemma ShippedConnectivity(feed: Feed, now: real, windowStart: real)
    ensures Fires(CONNECTIVITY_DEGRADATION, feed, now, windowStart) <==>
              |feed.readings| >= 3 &&
              (|| (exists v :: Measured(feed.readings, PacketLossPct, v) && v >= 10.0)
               || (exists v :: Measured(feed.readings, SignalDbm, v) && v <= -100.0)
               || MaxGap(feed.readings) >= 15.0)
  {
    hide MaxGap, Measured, ConnectivityFinding, MinTime, MaxTime;
    if |feed.readings| >= 3 {
      ConnectivityMeaning(feed.readings, 10.0, -100.0, 15.0, 3, windowStart, now);
      ReasonsHold(exists v :: Measured(feed.readings, PacketLossPct, v) && v >= 10.0,
                  exists v :: Measured(feed.readings, SignalDbm, v) && v <= -100.0, MaxGap(feed.readings) >= 15.0);
      NoReason(exists v :: Measured(feed.readings, PacketLossPct, v) && v >= 10.0,
               exists v :: Measured(feed.readings, SignalDbm, v) && v <= -100.0, MaxGap(feed.readings) >= 15.0);
    }
  }

  lemma NoReason(loss: bool, signal: bool, gap: bool)
    ensures Reasons(loss, signal, gap) == [] <==> !loss && !signal && !gap
  {
  }

  /** A sensor known to have reported whose latest reading is half an hour old, or gone. */
  lemma ShippedMissingTelemetry(feed: Feed, now: real, windowStart: real)
    ensures Fires(MISSING_TELEMETRY, feed, now, windowStart) <==>
              feed.hasPrior && (feed.latest.Some? ==> feed.latest.value + 30.0 <= now)
  {
    MissingTelemetryMeaning(feed.latest, feed.hasPrior, 30.0, now, true);
  }

  /** The quality rule's settings for one sensor: the ranges in its metadata go before the shipped ones. */
  function ShippedQuality(feed: Feed): QualityConfig {
    QualityConfig(feed.measurementTypes,
                  map[PressureKpa := Range(50.0, 1600.0), FlowLps := Range(0.0, 120.0), TemperatureC := Range(-10.0, 70.0)]
                  + feed.metadataRanges,
                  15.0, 5, 50.0)
  }

  /** Four readings with a value outside its range, five equal values of a metric, or a pressure over fifty times the flow. */
  lemma ShippedSensorQuality(feed: Feed, now: real, windowStart: real)
    ensures var config := ShippedQuality(feed);
            Fires(SENSOR_QUALITY, feed, now, windowStart) <==>
              |feed.readings| >= 4 &&
              (|| (exists m :: m in PHYSICAL && HasOutlier(feed.readings, m, config))
               || (exists m :: m in PHYSICAL && IsFrozen(feed.readings, m, config))
               || OutOfProportion(feed.readings, config))
  {
    var config := ShippedQuality(feed);
    var rule := CatalogEntry(SENSOR_QUALITY, 0);
    assert QualityOf(rule, feed) == config;
    hide QualityOf, ShippedQuality, HasOutlier, IsFrozen, OutOfProportion, MetricFindings, RatioFinding, Unique, MinTime, MaxTime;
    if |feed.readings| >= 4 {
      SensorQualityMeaning(feed.readings, config, 4, windowStart, now);
      var hit := SensorQualityHit(feed.readings, config, 4, windowStart, now);
      assert hit.triggered ==> hit.reasons[0] in hit.reasons;
    }
  }

  // ---------------------------------------------------------------- missing configuration keys

  /** The configuration with every missing key set to what evaluation falls back to. */
  function Completed(rule: Rule): Config {
    var c := rule.config;
    Config(Some(c.pressureDropPct.GetOr(rule.threshold)), Some(c.flowSurgePct.GetOr(rule.secondaryThreshold.GetOr(0.0))),
           Some(c.packetLossPct.GetOr(rule.threshold)), Some(c.signalDbm.GetOr(rule.secondaryThreshold.GetOr(0.0))),
           Some(c.intermittentGapMinutes.GetOr(15.0)), Some(c.freshnessMinutes.GetOr(rule.threshold)), Some(c.requirePrior.GetOr(true)),
           Some(c.frozenMinutes.GetOr(15.0)), Some(c.frozenMinimumPoints.GetOr(5)), Some(c.useSensorRanges.GetOr(true)),
           Some(c.inconsistentRatioMax.GetOr(50.0)), c.fallbackRanges)
  }

  /** A rule with missing keys evaluates as the completed one, and is scored against the same threshold unless it is the quality rule. */
  lemma MissingKeysFallBack(rule: Rule, feed: Feed, now: real, windowStart: real)
    ensures EvaluateRule(rule, feed, now, windowStart) == EvaluateRule(rule.(config := Completed(rule)), feed, now, windowStart)
    ensures !rule.code.SENSOR_QUALITY? ==> ScoreThreshold(rule) == ScoreThreshold(rule.(config := Completed(rule)))
  {
    hide PressureDropHit, FlowSurgeHit, CombinedHit, ConnectivityHit, MissingTelemetryHit, SensorQualityHit;
    assert QualityOf(rule, feed) == QualityOf(rule.(config := Completed(rule)), feed);
  }

  /** Without `frozen_minutes` the quality rule is evaluated for 15 minutes and scored against its threshold. */
  lemma QualityScoredApart(rule: Rule)
    requires rule.code.SENSOR_QUALITY? && rule.config.frozenMinutes.None?
    ensures ScoreThreshold(rule) == ScoreThreshold(rule.(config := Completed(rule))) <==> rule.threshold == 15.0
  {
  }
}
