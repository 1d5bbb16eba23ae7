/**
  When the rate-of-change, combined and missing-telemetry rules of `rules.py` fire, told from the readings themselves:
  from the first and the last reading that carry the metric, and from the age of the latest one. And what quantity the
  connectivity and quality rules report.
 */
module RuleMeaning {
  import opened Wrappers
  import opened Rules

  // ---------------------------------------------------------------- series and readings

  /** The readings that carry the metric. */
  function Carrying(readings: seq<Reading>, m: Metric): set<nat> {
    set i: nat | i < |readings| && readings[i].Value(m).Some?
  }

  lemma BeforeTheLast(readings: seq<Reading>, m: Metric)
    ensures |readings| !in Carrying(readings, m)
  {
  }

  lemma CarryingSnoc(readings: seq<Reading>, m: Metric)
    requires readings != []
    ensures var n := |readings| - 1;
            |Carrying(readings, m)| == |Carrying(readings[..n], m)| + if readings[n].Value(m).Some? then 1 else 0
  {
    var n: nat := |readings| - 1;
    var before, all := Carrying(readings[..n], m), Carrying(readings, m);
    forall i: nat ensures i in all <==> i in before || (i == n && readings[n].Value(m).Some?) {
      assert i < n ==> readings[..n][i] == readings[i];
    }
    BeforeTheLast(readings[..n], m);
    hide Carrying;
    if readings[n].Value(m).Some? {
      assert all == before + {n};
    } else {
      assert all == before;
    }
  }

  /** A series has one sample for each reading that carries the metric: at the place that reading has among them. */
  lemma {:induction false} SampleOf(readings: seq<Reading>, m: Metric, i: nat)
    requires i < |readings| && readings[i].Value(m).Some?
    ensures |SeriesOf(readings, m)| == |Carrying(readings, m)|
    ensures var place := |Carrying(readings[..i], m)|;
            place < |SeriesOf(readings, m)| && SeriesOf(readings, m)[place] == Sample(readings[i].time, readings[i].Value(m).value)
  {
    var n := |readings| - 1;
    SamplesCounted(readings, m);
    SamplesCounted(readings[..n], m);
    CarryingSnoc(readings, m);
    if i < n {
      SampleOf(readings[..n], m, i);
      assert readings[..n][..i] == readings[..i];
    }
  }

  lemma {:induction false} SamplesCounted(readings: seq<Reading>, m: Metric)
    ensures |SeriesOf(readings, m)| == |Carrying(readings, m)|
  {
    if readings == [] {
      assert Carrying(readings, m) == {};
    } else {
      SamplesCounted(readings[..|readings| - 1], m);
      CarryingSnoc(readings, m);
    }
  }

  ghost predicate IsFirst(readings: seq<Reading>, m: Metric, i: nat) {
    i < |readings| && readings[i].Value(m).Some? && forall k :: 0 <= k < i ==> readings[k].Value(m).None?
  }

  ghost predicate IsLast(readings: seq<Reading>, m: Metric, j: nat) {
    j < |readings| && readings[j].Value(m).Some? && forall k :: j < k < |readings| ==> readings[k].Value(m).None?
  }

  lemma EndsOfSeries(readings: seq<Reading>, m: Metric, i: nat, j: nat)
    requires IsFirst(readings, m, i) && IsLast(readings, m, j)
    ensures var s := SeriesOf(readings, m);
            && |s| == |Carrying(readings, m)| > 0
            && s[0] == Sample(readings[i].time, readings[i].Value(m).value)
            && s[|s| - 1] == Sample(readings[j].time, readings[j].Value(m).value)
  {
    hide SeriesOf;
    SampleOf(readings, m, i);
    assert Carrying(readings[..i], m) == {};
    LastOfSeries(readings, m, j);
  }

  // ---------------------------------------------------------------- pressure drop and flow surge

  lemma ChangeIs(first: real, last: real)
    ensures first != 0.0 ==> PercentChange(first, last) * Abs(first) == (last - first) * 100.0
    ensures first == 0.0 ==> PercentChange(first, last) == if last == 0.0 then 0.0 else 100.0
  {
    if first != 0.0 {
      var q := (last - first) / Abs(first);
      assert q * Abs(first) == last - first;
      assert q * 100.0 * Abs(first) == (q * Abs(first)) * 100.0;
    }
  }

  /** A percentage of at least `threshold`, cleared of its division. */
  lemma PercentAtLeast(percent: real, size: real, change: real, threshold: real)
    requires size > 0.0 && percent * size == change * 100.0
    ensures percent >= threshold <==> change >= size * (threshold / 100.0)
  {
    var gap := percent - threshold;
    assert gap * size == change * 100.0 - threshold * size;
    assert size * (threshold / 100.0) == threshold * size / 100.0;
    if gap >= 0.0 {
      assert gap * size >= 0.0;
    } else {
      assert -gap * size > 0.0;
    }
  }

  /** A fall by at least so many percent of the first value; a first value of zero has only the change to or from nothing. */
  ghost predicate FellBy(first: real, last: real, threshold: real) {
    if first != 0.0 then last <= first - Abs(first) * (threshold / 100.0)
    else (if last == 0.0 then 0.0 else -100.0) >= threshold
  }

  /** A rise by at least so many percent; from a first value of zero any other value counts as a rise of 100 percent. */
  ghost predicate RoseBy(first: real, last: real, threshold: real) {
    if first != 0.0 then last >= first + Abs(first) * (threshold / 100.0)
    else (if last == 0.0 then 0.0 else 100.0) >= threshold
  }

  lemma FallAndRise(first: real, last: real, threshold: real)
    ensures -PercentChange(first, last) >= threshold <==> FellBy(first, last, threshold)
    ensures PercentChange(first, last) >= threshold <==> RoseBy(first, last, threshold)
  {
    ChangeIs(first, last);
    if first != 0.0 {
      hide PercentChange;
      var p := PercentChange(first, last);
      assert -p * Abs(first) == -(p * Abs(first));
      PercentAtLeast(-p, Abs(first), first - last, threshold);
      PercentAtLeast(p, Abs(first), last - first, threshold);
    }
  }

  /** What a triggered rate rule reports: its reason, and the window between the two readings it compared. */
  ghost predicate Reports(hit: RuleHit, readings: seq<Reading>, reason: Reason, i: nat, j: nat)
    requires i < |readings| && j < |readings|
  {
    && hit.reasons == [reason] && hit.metricCount == 1 && hit.readingCount == |readings|
    && hit.windowStart == readings[i].time && hit.windowEnd == readings[j].time
  }

  /**
    The pressure rule fires exactly when enough readings carry a pressure and the last of them is lower than the first by at
    least the threshold percentage of it: never on a rise. The ratio it reports is that percentage.
   */
  lemma PressureDropMeaning(readings: seq<Reading>, thresholdPct: real, minimumPoints: int, windowStart: real, windowEnd: real, i: nat, j: nat)
    requires minimumPoints > 0 && IsFirst(readings, PressureKpa, i) && IsLast(readings, PressureKpa, j)
    ensures var hit := PressureDropHit(readings, thresholdPct, minimumPoints, windowStart, windowEnd);
            var first, last := readings[i].pressureKpa.value, readings[j].pressureKpa.value;
            && (hit.triggered <==> |Carrying(readings, PressureKpa)| >= minimumPoints && FellBy(first, last, thresholdPct))
            && (hit.triggered ==> Reports(hit, readings, PressureDrop, i, j))
            && (hit.triggered && first != 0.0 ==> hit.observedRatio * Abs(first) == (first - last) * 100.0)
  {
    hide SeriesOf, PercentChange, FellBy, RoseBy, Carrying;
    var first, last := readings[i].pressureKpa.value, readings[j].pressureKpa.value;
    EndsOfSeries(readings, PressureKpa, i, j);
    FallAndRise(first, last, thresholdPct);
    ChangeIs(first, last);
    var p := PercentChange(first, last);
    assert -p * Abs(first) == -(p * Abs(first));
  }

  /** The flow rule, likewise, fires exactly on a sufficient rise. */
  lemma FlowSurgeMeaning(readings: seq<Reading>, thresholdPct: real, minimumPoints: int, windowStart: real, windowEnd: real, i: nat, j: nat)
    requires minimumPoints > 0 && IsFirst(readings, FlowLps, i) && IsLast(readings, FlowLps, j)
    ensures var hit := FlowSurgeHit(readings, thresholdPct, minimumPoints, windowStart, windowEnd);
            var first, last := readings[i].flowLps.value, readings[j].flowLps.value;
            && (hit.triggered <==> |Carrying(readings, FlowLps)| >= minimumPoints && RoseBy(first, last, thresholdPct))
            && (hit.triggered ==> Reports(hit, readings, FlowSurge, i, j))
            && (hit.triggered && first != 0.0 ==> hit.observedRatio * Abs(first) == (last - first) * 100.0)
            && (hit.triggered && first == 0.0 ==> hit.observedRatio == if last == 0.0 then 0.0 else 100.0)
  {
    hide SeriesOf, PercentChange, FellBy, RoseBy, Carrying;
    var first, last := readings[i].flowLps.value, readings[j].flowLps.value;
    EndsOfSeries(readings, FlowLps, i, j);
    FallAndRise(first, last, thresholdPct);
    ChangeIs(first, last);
  }

  /** Without a reading that carries the metric neither rule fires, and an idle rule reports the window it was given. */
  lemma NothingToCompare(readings: seq<Reading>, thresholdPct: real, minimumPoints: int, windowStart: real, windowEnd: real)
    requires minimumPoints > 0
    ensures var p := PressureDropHit(readings, thresholdPct, minimumPoints, windowStart, windowEnd);
            && (Carrying(readings, PressureKpa) == {} ==> !p.triggered)
            && (!p.triggered ==> p == EmptyHit(windowStart, windowEnd, |readings|))
    ensures var q := FlowSurgeHit(readings, thresholdPct, minimumPoints, windowStart, windowEnd);
            && (Carrying(readings, FlowLps) == {} ==> !q.triggered)
            && (!q.triggered ==> q == EmptyHit(windowStart, windowEnd, |readings|))
  {
    SamplesCounted(readings, PressureKpa);
    SamplesCounted(readings, FlowLps);
    hide SeriesOf, Carrying;
  }

  /** A pressure rule and a flow rule meet in the combined one: it fires exactly on a fall of the one and a rise of the other. */
  lemma CombinedMeaning(readings: seq<Reading>, pressureDropPct: real, flowSurgePct: real, minimumPoints: int,
                        windowStart: real, windowEnd: real, i: nat, j: nat, k: nat, l: nat)
    requires minimumPoints > 0
    requires IsFirst(readings, PressureKpa, i) && IsLast(readings, PressureKpa, j)
    requires IsFirst(readings, FlowLps, k) && IsLast(readings, FlowLps, l)
    ensures var hit := CombinedHit(readings, pressureDropPct, flowSurgePct, minimumPoints, windowStart, windowEnd);
            && (hit.triggered <==>
                  && |Carrying(readings, PressureKpa)| >= minimumPoints && |Carrying(readings, FlowLps)| >= minimumPoints
                  && FellBy(readings[i].pressureKpa.value, readings[j].pressureKpa.value, pressureDropPct)
                  && RoseBy(readings[k].flowLps.value, readings[l].flowLps.value, flowSurgePct))
            && (hit.triggered ==>
                  && hit.windowStart == Min(readings[i].time, readings[k].time)
                  && hit.windowEnd == Max(readings[j].time, readings[l].time)
                  && hit.reasons == [CombinedDropAndSurge] && hit.metricCount == 2)
  {
    hide SeriesOf, FellBy, RoseBy, Carrying, PressureDropHit, FlowSurgeHit;
    PressureDropMeaning(readings, pressureDropPct, minimumPoints, windowStart, windowEnd, i, j);
    FlowSurgeMeaning(readings, flowSurgePct, minimumPoints, windowStart, windowEnd, k, l);
  }

  /** Of the two percentages the combined rule reports the larger. */
  lemma CombinedRatio(readings: seq<Reading>, pressureDropPct: real, flowSurgePct: real, minimumPoints: int, windowStart: real, windowEnd: real)
    requires minimumPoints > 0 && CombinedHit(readings, pressureDropPct, flowSurgePct, minimumPoints, windowStart, windowEnd).triggered
    ensures var ratio := CombinedHit(readings, pressureDropPct, flowSurgePct, minimumPoints, windowStart, windowEnd).observedRatio;
            var p := PressureDropHit(readings, pressureDropPct, minimumPoints, windowStart, windowEnd).observedRatio;
            var q := FlowSurgeHit(readings, flowSurgePct, minimumPoints, windowStart, windowEnd).observedRatio;
            p <= ratio && q <= ratio && (ratio == p || ratio == q)
  {
    hide SeriesOf, PercentChange;
  }

  // ---------------------------------------------------------------- missing telemetry

  /**
    Telemetry is missing exactly when the sensor is known to have reported, or need not be, and its latest reading is at least the
    freshness limit old; a sensor known to have reported without any reading left counts as a minute past the limit.
   */
  lemma MissingTelemetryMeaning(latest: Option<real>, hasPrior: bool, freshness: real, now: real, requirePrior: bool)
    ensures var hit := MissingTelemetryHit(latest, hasPrior, freshness, now, requirePrior);
            && (hit.triggered <==> match latest
                                   case None => hasPrior
                                   case Some(t) => (hasPrior || !requirePrior) && t + freshness <= now)
            && (hit.triggered ==>
                  && hit.reasons == [MissingReading] && hit.metricCount == 1 && hit.readingCount == 0 && hit.windowEnd == now
                  && hit.windowStart == latest.GetOr(now)
                  && (latest.Some? ==> latest.value + hit.observedRatio == now)
                  && (latest.None? ==> hit.observedRatio == freshness + 1.0))
            && (!hit.triggered ==> hit == EmptyHit(now, now, 0))
  {
  }

  /** Each metric is measured by its own field. */
  lemma MeasuredFields(readings: seq<Reading>, v: real)
    ensures Measured(readings, PressureKpa, v) <==> exists i :: 0 <= i < |readings| && readings[i].pressureKpa == Some(v)
    ensures Measured(readings, FlowLps, v) <==> exists i :: 0 <= i < |readings| && readings[i].flowLps == Some(v)
    ensures Measured(readings, TemperatureC, v) <==> exists i :: 0 <= i < |readings| && readings[i].temperatureC == Some(v)
    ensures Measured(readings, SignalDbm, v) <==> exists i :: 0 <= i < |readings| && readings[i].signalDbm == Some(v)
    ensures Measured(readings, PacketLossPct, v) <==> exists i :: 0 <= i < |readings| && readings[i].packetLossPct == Some(v)
  {
  }

  // ---------------------------------------------------------------- the window of the other two rules

  /** From the earliest reading to the latest, whatever their order. */
  ghost predicate SpansAll(readings: seq<Reading>, start: real, end: real) {
    && (forall i :: 0 <= i < |readings| ==> start <= readings[i].time <= end)
    && (exists i :: 0 <= i < |readings| && readings[i].time == start)
    && (exists i :: 0 <= i < |readings| && readings[i].time == end)
  }

  lemma {:induction false} TimesSpan(readings: seq<Reading>)
    requires readings != []
    ensures SpansAll(readings, MinTime(readings), MaxTime(readings))
  {
    if |readings| > 1 {
      var rest := readings[1..];
      TimesSpan(rest);
      var i :| 0 <= i < |rest| && rest[i].time == MinTime(rest);
      var j :| 0 <= j < |rest| && rest[j].time == MaxTime(rest);
      assert readings[i + 1].time == MinTime(rest) && readings[j + 1].time == MaxTime(rest);
      assert forall k :: 0 < k < |readings| ==> readings[k] == rest[k - 1];
    }
    assert readings[0].time == readings[0].time;
  }

  /** A connectivity or quality hit spans all the readings; an idle one reports the window it was given. */
  lemma HitsSpanTheReadings(readings: seq<Reading>, lossThreshold: real, signalThreshold: real, gapMinutes: real, config: QualityConfig,
                            minimumPoints: int, windowStart: real, windowEnd: real)
    requires minimumPoints > 0
    ensures var hit := ConnectivityHit(readings, lossThreshold, signalThreshold, gapMinutes, minimumPoints, windowStart, windowEnd);
            if hit.triggered then SpansAll(readings, hit.windowStart, hit.windowEnd) && hit.readingCount == |readings|
            else hit == EmptyHit(windowStart, windowEnd, |readings|)
    ensures var hit := SensorQualityHit(readings, config, minimumPoints, windowStart, windowEnd);
            if hit.triggered then SpansAll(readings, hit.windowStart, hit.windowEnd) && hit.readingCount == |readings|
            else hit == EmptyHit(windowStart, windowEnd, |readings|)
  {
    hide ConnectivityFinding, MetricFindings, RatioFinding, Unique, SpansAll, MinTime, MaxTime;
    if readings != [] {
      TimesSpan(readings);
    }
  }

  // ---------------------------------------------------------------- the ratio of the other two rules

  /** A quantity for which the connectivity rule gave a reason. */
  ghost predicate ConnectivityQuantity(readings: seq<Reading>, reasons: seq<Reason>, v: real) {
    || (PacketLossHigh in reasons && Measured(readings, PacketLossPct, v))
    || (SignalStrengthLow in reasons && exists d :: Measured(readings, SignalDbm, d) && v == Abs(d))
    || (IntermittentMeasurements in reasons && v == MaxGap(readings))
  }

  /** The reported ratio is one of the quantities that gave a reason, unless none of them is positive. */
  lemma {:induction false} ConnectivityRatioIsMeasured(readings: seq<Reading>, lossThreshold: real, signalThreshold: real, gapMinutes: real,
                                    minimumPoints: int, windowStart: real, windowEnd: real)
    requires 0 < minimumPoints <= |readings|
    ensures var hit := ConnectivityHit(readings, lossThreshold, signalThreshold, gapMinutes, minimumPoints, windowStart, windowEnd);
            hit.observedRatio == 0.0 || ConnectivityQuantity(readings, hit.reasons, hit.observedRatio)
  {
    hide SeriesOf, MaxValue, MinValue, MaxGap, Measured, Reasons;
    var losses, signals := SeriesOf(readings, PacketLossPct), SeriesOf(readings, SignalDbm);
    FindingReasons(readings, lossThreshold, signalThreshold, gapMinutes);
    ReasonsHold(losses != [] && MaxValue(losses) >= lossThreshold, signals != [] && MinValue(signals) <= signalThreshold,
                MaxGap(readings) >= gapMinutes && |readings| >= 2);
    WeakestIsMeasured(readings);
    LargestLossIsMeasured(readings);
  }

  lemma LargestLossIsMeasured(readings: seq<Reading>)
    ensures var s := SeriesOf(readings, PacketLossPct); s != [] ==> Measured(readings, PacketLossPct, MaxValue(s))
  {
    var s := SeriesOf(readings, PacketLossPct);
    if s != [] {
      SeriesListsMeasured(readings, PacketLossPct, MaxValue(s));
      assert Listed(s, MaxValue(s));
    }
  }

  // ---------------------------------------------------------------- and of sensor quality

  /** The time from the first to the last reading that carries the metric. */
  function Span(readings: seq<Reading>, m: Metric): real {
    var s := SeriesOf(readings, m);
    if s == [] then 0.0 else s[|s| - 1].time - s[0].time
  }

  /** A quantity for which a metric gave a quality reason: the size of a value outside its range, or the span it was frozen for. */
  ghost predicate MetricQuantity(readings: seq<Reading>, m: Metric, config: QualityConfig, v: real) {
    || (m in config.types && m in config.ranges &&
        exists w :: Measured(readings, m, w) && !(config.ranges[m].low <= w <= config.ranges[m].high) && v == Abs(w))
    || (IsFrozen(readings, m, config) && v == Span(readings, m))
  }

  lemma {:induction false} MetricObserved(readings: seq<Reading>, m: Metric, config: QualityConfig, f: Finding)
    ensures var g := MetricFinding(readings, m, config, f);
            && g.observed >= f.observed
            && (g.observed == f.observed || MetricQuantity(readings, m, config, g.observed))
            && (IsFrozen(readings, m, config) ==> g.observed >= Span(readings, m))
  {
    hide SeriesOf, AllEqual, Measured;
    var s := SeriesOf(readings, m);
    FrozenFound(readings, m);
    if m in config.types && m in config.ranges && s != [] {
      var k := FirstOutside(s, config.ranges[m]);
      if k < |s| {
        SampleIsMeasured(readings, m, k);
      }
    }
  }

  lemma SampleIsMeasured(readings: seq<Reading>, m: Metric, k: nat)
    requires k < |SeriesOf(readings, m)|
    ensures Measured(readings, m, SeriesOf(readings, m)[k].value)
  {
    SeriesListsMeasured(readings, m, SeriesOf(readings, m)[k].value);
    assert Listed(SeriesOf(readings, m), SeriesOf(readings, m)[k].value);
  }

  lemma {:induction false} MetricsObserved(readings: seq<Reading>, metrics: seq<Metric>, config: QualityConfig)
    ensures var g := MetricFindings(readings, metrics, config);
            && (g.observed == 0.0 || exists m :: m in metrics && MetricQuantity(readings, m, config, g.observed))
            && (forall m :: m in metrics && IsFrozen(readings, m, config) ==> g.observed >= Span(readings, m))
  {
    hide MetricFinding, IsFrozen, Span, MetricQuantity;
    if metrics != [] {
      var n := |metrics| - 1;
      MetricsObserved(readings, metrics[..n], config);
      MetricObserved(readings, metrics[n], config, MetricFindings(readings, metrics[..n], config));
      assert metrics == metrics[..n] + [metrics[n]];
    }
  }

  /** The latest pressure over the latest flow. */
  ghost predicate LatestRatio(readings: seq<Reading>, v: real) {
    var p, q := SeriesOf(readings, PressureKpa), SeriesOf(readings, FlowLps);
    p != [] && q != [] && q[|q| - 1].value > 0.0 && v == p[|p| - 1].value / q[|q| - 1].value
  }

  /**
    The quality rule reports one of the quantities that gave it a reason, unless none of them is positive: the size of a value
    outside its range, the span of a frozen metric, or the ratio out of proportion; and none of the latter two exceeds it.
   */
  lemma {:induction false} QualityRatio(readings: seq<Reading>, config: QualityConfig, minimumPoints: int, windowStart: real, windowEnd: real)
    requires 0 < minimumPoints <= |readings|
    ensures var hit := SensorQualityHit(readings, config, minimumPoints, windowStart, windowEnd);
            && (hit.observedRatio == 0.0
                || (exists m :: m in PHYSICAL && MetricQuantity(readings, m, config, hit.observedRatio))
                || (OutOfProportion(readings, config) && LatestRatio(readings, hit.observedRatio)))
            && (hit.triggered ==> forall m :: m in PHYSICAL && IsFrozen(readings, m, config) ==> hit.observedRatio >= Span(readings, m))
            && (OutOfProportion(readings, config) ==> forall v :: LatestRatio(readings, v) ==> hit.observedRatio >= v)
  {
    hide SeriesOf, MetricFindings, IsFrozen, Span, MetricQuantity, Unique, MinTime, MaxTime;
    MetricsObserved(readings, PHYSICAL, config);
  }
}
