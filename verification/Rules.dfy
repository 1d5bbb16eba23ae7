/**
  `rules.py` and the dispatch in `engine.py`: from one sensor's readings and one configured rule to a hit.
  Times are reals in minutes. Trigger texts and evidence items are not part of this model.
 */
module Rules {
  import opened Wrappers

  datatype Metric = PressureKpa | FlowLps | TemperatureC | SignalDbm | PacketLossPct

  datatype Reading = Reading(
    time: real,
    pressureKpa: Option<real>,
    flowLps: Option<real>,
    temperatureC: Option<real>,
    signalDbm: Option<real>,
    packetLossPct: Option<real>)
  {
    function Value(m: Metric): Option<real> {
      match m
      case PressureKpa => pressureKpa
      case FlowLps => flowLps
      case TemperatureC => temperatureC
      case SignalDbm => signalDbm
      case PacketLossPct => packetLossPct
    }
  }

  datatype Sample = Sample(time: real, value: real)

  datatype Reason =
    | PressureDrop | FlowSurge | CombinedDropAndSurge
    | PacketLossHigh | SignalStrengthLow | IntermittentMeasurements
    | MissingReading
    | OutOfRange | FrozenValue | InternallyInconsistent

  datatype RuleHit = RuleHit(
    triggered: bool,
    reasons: seq<Reason>,
    observedRatio: real,
    metricCount: nat,
    windowStart: real,
    windowEnd: real,
    readingCount: nat)

  function EmptyHit(windowStart: real, windowEnd: real, count: nat): RuleHit {
    RuleHit(false, [], 0.0, 0, windowStart, windowEnd, count)
  }

  function Max(a: real, b: real): real { if a >= b then a else b }
  function Min(a: real, b: real): real { if a <= b then a else b }
  function Abs(a: real): real { if a < 0.0 then -a else a }

  // ---------------------------------------------------------------- series

  function SeriesOf(readings: seq<Reading>, m: Metric): seq<Sample> {
    if readings == [] then []
    else
      var last := readings[|readings| - 1];
      SeriesOf(readings[..|readings| - 1], m)
      + (match last.Value(m) case None => [] case Some(v) => [Sample(last.time, v)])
  }

  method Series(readings: seq<Reading>, m: Metric) returns (points: seq<Sample>)
    ensures points == SeriesOf(readings, m)
  {
    points := [];
    for i := 0 to |readings|
      invariant points == SeriesOf(readings[..i], m)
    {
      assert readings[..i + 1][..i] == readings[..i];
      match readings[i].Value(m) {
        case Some(v) => points := points + [Sample(readings[i].time, v)];
        case None =>
      }
    }
    assert readings[..|readings|] == readings;
  }

  function PercentChange(first: real, last: real): real {
    if first == 0.0 then (if last == 0.0 then 0.0 else 100.0)
    else (last - first) / Abs(first) * 100.0
  }

  // ---------------------------------------------------------------- rate-of-change rules

  function PressureDropHit(readings: seq<Reading>, thresholdPct: real, minimumPoints: int,
                           windowStart: real, windowEnd: real): RuleHit
    requires minimumPoints > 0
  {
    var series := SeriesOf(readings, PressureKpa);
    if |series| < minimumPoints then EmptyHit(windowStart, windowEnd, |readings|)
    else
      var first, last := series[0], series[|series| - 1];
      var dropPct := -PercentChange(first.value, last.value);
      if !(dropPct >= thresholdPct) then EmptyHit(windowStart, windowEnd, |readings|)
      else RuleHit(true, [PressureDrop], dropPct, 1, first.time, last.time, |readings|)
  }

  function FlowSurgeHit(readings: seq<Reading>, thresholdPct: real, minimumPoints: int,
                        windowStart: real, windowEnd: real): RuleHit
    requires minimumPoints > 0
  {
    var series := SeriesOf(readings, FlowLps);
    if |series| < minimumPoints then EmptyHit(windowStart, windowEnd, |readings|)
    else
      var first, last := series[0], series[|series| - 1];
      var changePct := PercentChange(first.value, last.value);
      if !(changePct >= thresholdPct) then EmptyHit(windowStart, windowEnd, |readings|)
      else RuleHit(true, [FlowSurge], changePct, 1, first.time, last.time, |readings|)
  }

  function CombinedHit(readings: seq<Reading>, pressureDropPct: real, flowSurgePct: real, minimumPoints: int,
                       windowStart: real, windowEnd: real): RuleHit
    requires minimumPoints > 0
  {
    var pressure := PressureDropHit(readings, pressureDropPct, minimumPoints, windowStart, windowEnd);
    var flow := FlowSurgeHit(readings, flowSurgePct, minimumPoints, windowStart, windowEnd);
    if !(pressure.triggered && flow.triggered) then EmptyHit(windowStart, windowEnd, |readings|)
    else
      RuleHit(true, [CombinedDropAndSurge], Max(pressure.observedRatio, flow.observedRatio), 2,
              Min(pressure.windowStart, flow.windowStart), Max(pressure.windowEnd, flow.windowEnd), |readings|)
  }

  // ---------------------------------------------------------------- connectivity

  function MaxValue(s: seq<Sample>): (r: real)
    requires s != []
    ensures forall i :: 0 <= i < |s| ==> s[i].value <= r
    ensures exists i :: 0 <= i < |s| && s[i].value == r
  {
    if |s| == 1 then s[0].value
    else
      var rest := MaxValue(s[1..]);
      Max(s[0].value, rest)
  }

  function MinValue(s: seq<Sample>): (r: real)
    requires s != []
    ensures forall i :: 0 <= i < |s| ==> r <= s[i].value
    ensures exists i :: 0 <= i < |s| && s[i].value == r
  {
    if |s| == 1 then s[0].value
    else
      var rest := MinValue(s[1..]);
      Min(s[0].value, rest)
  }

  function MinTime(readings: seq<Reading>): real
    requires readings != []
  {
    if |readings| == 1 then readings[0].time else Min(readings[0].time, MinTime(readings[1..]))
  }

  function MaxTime(readings: seq<Reading>): real
    requires readings != []
  {
    if |readings| == 1 then readings[0].time else Max(readings[0].time, MaxTime(readings[1..]))
  }

  /** The running maximum of adjacent time differences, starting from zero. */
  function MaxGap(readings: seq<Reading>): (gap: real)
    ensures gap >= 0.0
  {
    var n := |readings|;
    if n < 2 then 0.0
    else
      var before := MaxGap(readings[..n - 1]);
      var gap := readings[n - 1].time - readings[n - 2].time;
      if gap > before then gap else before
  }

  method FindMaxGap(readings: seq<Reading>) returns (maxGap: real)
    ensures maxGap == MaxGap(readings)
    ensures forall i :: 0 <= i < |readings| - 1 ==> readings[i + 1].time - readings[i].time <= maxGap
    ensures maxGap == 0.0
         || exists i :: 0 <= i < |readings| - 1 && readings[i + 1].time - readings[i].time == maxGap
  {
    maxGap := 0.0;
    var i := 1;
    while i < |readings|
      invariant 1 <= i && (i <= |readings| || (|readings| == 0 && i == 1))
      invariant i <= |readings| ==> maxGap == MaxGap(readings[..i])
      invariant |readings| == 0 ==> maxGap == 0.0
    {
      var gap := readings[i].time - readings[i - 1].time;
      assert readings[..i + 1][..i] == readings[..i];
      if gap > maxGap {
        maxGap := gap;
      }
      i := i + 1;
    }
    assert readings[..|readings|] == readings;
    MaxGapIsMaximum(readings);
  }

  lemma MaxGapSnoc(readings: seq<Reading>)
    requires |readings| >= 2
    ensures var n := |readings|;
            MaxGap(readings) == Max(MaxGap(readings[..n - 1]), readings[n - 1].time - readings[n - 2].time)
  {
  }

  lemma {:induction false} MaxGapIsUpperBound(readings: seq<Reading>, i: nat)
    requires i + 1 < |readings|
    ensures readings[i + 1].time - readings[i].time <= MaxGap(readings)
  {
    hide MaxGap;
    var n := |readings|;
    MaxGapSnoc(readings);
    if i + 2 < n {
      MaxGapIsUpperBound(readings[..n - 1], i);
    }
  }

  lemma {:induction false} MaxGapIsAttained(readings: seq<Reading>) returns (i: nat)
    requires MaxGap(readings) != 0.0
    ensures i + 1 < |readings| && readings[i + 1].time - readings[i].time == MaxGap(readings)
  {
    var n := |readings|;
    if MaxGap(readings) == readings[n - 1].time - readings[n - 2].time {
      i := n - 2;
    } else {
      i := MaxGapIsAttained(readings[..n - 1]);
    }
  }

  /** The loop's result is the largest adjacent difference, or zero when none is positive. */
  lemma MaxGapIsMaximum(readings: seq<Reading>)
    ensures forall i :: 0 <= i < |readings| - 1 ==> readings[i + 1].time - readings[i].time <= MaxGap(readings)
    ensures MaxGap(readings) == 0.0
         || exists i :: 0 <= i < |readings| - 1 && readings[i + 1].time - readings[i].time == MaxGap(readings)
  {
    hide MaxGap;
    forall i | 0 <= i < |readings| - 1 ensures readings[i + 1].time - readings[i].time <= MaxGap(readings) {
      MaxGapIsUpperBound(readings, i);
    }
    if MaxGap(readings) != 0.0 {
      var i := MaxGapIsAttained(readings);
      assert readings[i + 1].time - readings[i].time == MaxGap(readings);
    }
  }

  datatype Finding = Finding(reasons: seq<Reason>, observed: real)

  function AddIf(f: Finding, condition: bool, reason: Reason, observed: real): Finding {
    if condition then Finding(f.reasons + [reason], Max(f.observed, observed)) else f
  }

  function ConnectivityFinding(readings: seq<Reading>, lossThreshold: real, signalThreshold: real, gapMinutes: real): Finding {
    var losses := SeriesOf(readings, PacketLossPct);
    var signals := SeriesOf(readings, SignalDbm);
    var f0 := Finding([], 0.0);
    var f1 := if losses == [] then f0
              else AddIf(f0, MaxValue(losses) >= lossThreshold, PacketLossHigh, MaxValue(losses));
    var f2 := if signals == [] then f1
              else AddIf(f1, MinValue(signals) <= signalThreshold, SignalStrengthLow, Abs(MinValue(signals)));
    AddIf(f2, MaxGap(readings) >= gapMinutes && |readings| >= 2, IntermittentMeasurements, MaxGap(readings))
  }

  function ConnectivityHit(readings: seq<Reading>, lossThreshold: real, signalThreshold: real, gapMinutes: real,
                           minimumPoints: int, windowStart: real, windowEnd: real): RuleHit
    requires minimumPoints > 0
  {
    if |readings| < minimumPoints then EmptyHit(windowStart, windowEnd, |readings|)
    else
      var f := ConnectivityFinding(readings, lossThreshold, signalThreshold, gapMinutes);
      if f.reasons == [] then EmptyHit(windowStart, windowEnd, |readings|)
      else RuleHit(true, f.reasons, f.observed, |f.reasons|, MinTime(readings), MaxTime(readings), |readings|)
  }

  method EvaluateConnectivity(readings: seq<Reading>, lossThreshold: real, signalThreshold: real, gapMinutes: real,
                              minimumPoints: int, windowStart: real, windowEnd: real) returns (hit: RuleHit)
    requires minimumPoints > 0
    ensures hit == ConnectivityHit(readings, lossThreshold, signalThreshold, gapMinutes, minimumPoints, windowStart, windowEnd)
  {
    if |readings| < minimumPoints {
      return EmptyHit(windowStart, windowEnd, |readings|);
    }
    var packetSeries := Series(readings, PacketLossPct);
    var signalSeries := Series(readings, SignalDbm);
    var reasons: seq<Reason> := [];
    var observed := 0.0;
    if packetSeries != [] {
      var maxLoss := MaxValue(packetSeries);
      if maxLoss >= lossThreshold {
        reasons, observed := reasons + [PacketLossHigh], Max(observed, maxLoss);
      }
    }
    if signalSeries != [] {
      var minSignal := MinValue(signalSeries);
      if minSignal <= signalThreshold {
        reasons, observed := reasons + [SignalStrengthLow], Max(observed, Abs(minSignal));
      }
    }
    var maxGap := FindMaxGap(readings);
    if maxGap >= gapMinutes && |readings| >= 2 {
      reasons, observed := reasons + [IntermittentMeasurements], Max(observed, maxGap);
    }
    if reasons == [] {
      return EmptyHit(windowStart, windowEnd, |readings|);
    }
    return RuleHit(true, reasons, observed, |reasons|, MinTime(readings), MaxTime(readings), |readings|);
  }

  // ---------------------------------------------------------------- what the connectivity reasons mean

  /** Some reading carries this value of the metric. */
  ghost predicate Measured(readings: seq<Reading>, m: Metric, v: real) {
    exists i :: 0 <= i < |readings| && readings[i].Value(m) == Some(v)
  }

  ghost predicate Listed(s: seq<Sample>, v: real) {
    exists i :: 0 <= i < |s| && s[i].value == v
  }

  /** A series lists exactly the measured values. */
  lemma {:induction false} SeriesListsMeasured(readings: seq<Reading>, m: Metric, v: real)
    ensures Listed(SeriesOf(readings, m), v) <==> Measured(readings, m, v)
  {
    if readings != [] {
      var n := |readings| - 1;
      var before, s := SeriesOf(readings[..n], m), SeriesOf(readings, m);
      SeriesListsMeasured(readings[..n], m, v);
      if Listed(before, v) {
        var i :| 0 <= i < |before| && before[i].value == v;
        assert s[i].value == v;
      }
      if Measured(readings[..n], m, v) {
        var i :| 0 <= i < n && readings[..n][i].Value(m) == Some(v);
        assert readings[i].Value(m) == Some(v);
      }
      if readings[n].Value(m) == Some(v) {
        assert s[|s| - 1].value == v;
      }
      if Listed(s, v) {
        var i :| 0 <= i < |s| && s[i].value == v;
        assert i < |before| ==> before[i].value == v;
        assert i >= |before| ==> readings[n].Value(m) == Some(v);
      }
      if Measured(readings, m, v) {
        var i :| 0 <= i < |readings| && readings[i].Value(m) == Some(v);
        assert i < n ==> readings[..n][i].Value(m) == Some(v);
      }
    }
  }

  lemma SomeMeasuredAtLeast(readings: seq<Reading>, m: Metric, bound: real)
    ensures SeriesOf(readings, m) != [] && MaxValue(SeriesOf(readings, m)) >= bound
       <==> exists v :: Measured(readings, m, v) && v >= bound
  {
    var s := SeriesOf(readings, m);
    if s != [] && MaxValue(s) >= bound {
      SeriesListsMeasured(readings, m, MaxValue(s));
      assert Listed(s, MaxValue(s));
    }
    forall v | Measured(readings, m, v) && v >= bound ensures s != [] && MaxValue(s) >= bound {
      SeriesListsMeasured(readings, m, v);
      var i :| 0 <= i < |s| && s[i].value == v;
    }
  }

  lemma SomeMeasuredAtMost(readings: seq<Reading>, m: Metric, bound: real)
    ensures SeriesOf(readings, m) != [] && MinValue(SeriesOf(readings, m)) <= bound
       <==> exists v :: Measured(readings, m, v) && v <= bound
  {
    var s := SeriesOf(readings, m);
    if s != [] && MinValue(s) <= bound {
      SeriesListsMeasured(readings, m, MinValue(s));
      assert Listed(s, MinValue(s));
    }
    forall v | Measured(readings, m, v) && v <= bound ensures s != [] && MinValue(s) <= bound {
      SeriesListsMeasured(readings, m, v);
      var i :| 0 <= i < |s| && s[i].value == v;
    }
  }

  /** The reasons, in a fixed order, of the three tests that hold. */
  function Reasons(loss: bool, signal: bool, gap: bool): seq<Reason> {
    OneIf([], loss, PacketLossHigh) + OneIf([], signal, SignalStrengthLow) + OneIf([], gap, IntermittentMeasurements)
  }

  function OneIf(before: seq<Reason>, condition: bool, reason: Reason): seq<Reason> {
    if condition then before + [reason] else before
  }

  lemma AddIfReasons(f: Finding, condition: bool, reason: Reason, observed: real)
    ensures AddIf(f, condition, reason, observed).reasons == OneIf(f.reasons, condition, reason)
  {
  }

  lemma ReasonsInSteps(loss: bool, signal: bool, gap: bool)
    ensures Reasons(loss, signal, gap) ==
              OneIf(OneIf(OneIf([], loss, PacketLossHigh), signal, SignalStrengthLow), gap, IntermittentMeasurements)
  {
  }

  lemma {:induction false} FindingReasons(readings: seq<Reading>, lossThreshold: real, signalThreshold: real, gapMinutes: real)
    ensures var losses, signals := SeriesOf(readings, PacketLossPct), SeriesOf(readings, SignalDbm);
            ConnectivityFinding(readings, lossThreshold, signalThreshold, gapMinutes).reasons ==
              Reasons(losses != [] && MaxValue(losses) >= lossThreshold,
                      signals != [] && MinValue(signals) <= signalThreshold,
                      MaxGap(readings) >= gapMinutes && |readings| >= 2)
  {
    hide SeriesOf, MaxValue, MinValue, MaxGap, AddIf, OneIf, Reasons;
    var losses, signals := SeriesOf(readings, PacketLossPct), SeriesOf(readings, SignalDbm);
    var loss := losses != [] && MaxValue(losses) >= lossThreshold;
    var signal := signals != [] && MinValue(signals) <= signalThreshold;
    var gap := MaxGap(readings) >= gapMinutes && |readings| >= 2;
    ReasonsInSteps(loss, signal, gap);
    var f0 := Finding([], 0.0);
    var f1 := if losses == [] then f0 else AddIf(f0, MaxValue(losses) >= lossThreshold, PacketLossHigh, MaxValue(losses));
    var f2 := if signals == [] then f1
              else AddIf(f1, MinValue(signals) <= signalThreshold, SignalStrengthLow, Abs(MinValue(signals)));
    if losses != [] { AddIfReasons(f0, loss, PacketLossHigh, MaxValue(losses)); }
    if signals != [] { AddIfReasons(f1, signal, SignalStrengthLow, Abs(MinValue(signals))); }
    AddIfReasons(f2, gap, IntermittentMeasurements, MaxGap(readings));
    AddedNever();
  }

  lemma AddedNever()
    ensures forall before, r :: OneIf(before, false, r) == before
  {
  }

  /**
    With enough readings the reasons are exactly: packet loss when some measured loss reaches its threshold, signal when
    some measured strength is down to its threshold, and intermittence when the largest gap reaches the configured one.
   */
  lemma ConnectivityMeaning(readings: seq<Reading>, lossThreshold: real, signalThreshold: real, gapMinutes: real,
                            minimumPoints: int, windowStart: real, windowEnd: real)
    requires 0 < minimumPoints <= |readings|
    ensures var hit := ConnectivityHit(readings, lossThreshold, signalThreshold, gapMinutes, minimumPoints, windowStart, windowEnd);
            && hit.reasons == Reasons(exists v :: Measured(readings, PacketLossPct, v) && v >= lossThreshold,
                                      exists v :: Measured(readings, SignalDbm, v) && v <= signalThreshold,
                                      MaxGap(readings) >= gapMinutes && |readings| >= 2)
            && (hit.triggered <==> hit.reasons != []) && hit.metricCount == |hit.reasons|
  {
    SomeMeasuredAtLeast(readings, PacketLossPct, lossThreshold);
    SomeMeasuredAtMost(readings, SignalDbm, signalThreshold);
    FindingReasons(readings, lossThreshold, signalThreshold, gapMinutes);
    hide SeriesOf, MaxValue, MinValue, MaxGap, ConnectivityFinding, Measured, Reasons;
  }

  lemma FindingObserved(readings: seq<Reading>, lossThreshold: real, signalThreshold: real, gapMinutes: real)
    ensures var f := ConnectivityFinding(readings, lossThreshold, signalThreshold, gapMinutes);
            var losses, signals := SeriesOf(readings, PacketLossPct), SeriesOf(readings, SignalDbm);
            && (PacketLossHigh in f.reasons ==> losses != [] && f.observed >= MaxValue(losses))
            && (SignalStrengthLow in f.reasons ==> signals != [] && f.observed >= Abs(MinValue(signals)))
            && (IntermittentMeasurements in f.reasons ==> f.observed >= MaxGap(readings))
  {
    hide SeriesOf, MaxValue, MinValue, MaxGap;
  }

  lemma LossesUpToMax(readings: seq<Reading>)
    ensures var s := SeriesOf(readings, PacketLossPct);
            s != [] ==> forall v :: Measured(readings, PacketLossPct, v) ==> v <= MaxValue(s)
  {
    var s := SeriesOf(readings, PacketLossPct);
    forall v | Measured(readings, PacketLossPct, v) && s != [] ensures v <= MaxValue(s) {
      SeriesListsMeasured(readings, PacketLossPct, v);
      var i :| 0 <= i < |s| && s[i].value == v;
    }
  }

  lemma WeakestIsMeasured(readings: seq<Reading>)
    ensures var s := SeriesOf(readings, SignalDbm); s != [] ==> Measured(readings, SignalDbm, MinValue(s))
  {
    var s := SeriesOf(readings, SignalDbm);
    if s != [] {
      SeriesListsMeasured(readings, SignalDbm, MinValue(s));
      assert Listed(s, MinValue(s));
    }
  }

  lemma ReasonsHold(loss: bool, signal: bool, gap: bool)
    ensures PacketLossHigh in Reasons(loss, signal, gap) <==> loss
    ensures SignalStrengthLow in Reasons(loss, signal, gap) <==> signal
    ensures IntermittentMeasurements in Reasons(loss, signal, gap) <==> gap
  {
  }

  /** The reported ratio is at least every value that gave a reason: each loss, the weakest signal's size, the gap. */
  lemma {:induction false} ConnectivityRatio(readings: seq<Reading>, lossThreshold: real, signalThreshold: real, gapMinutes: real,
                          minimumPoints: int, windowStart: real, windowEnd: real)
    requires 0 < minimumPoints <= |readings|
    ensures var hit := ConnectivityHit(readings, lossThreshold, signalThreshold, gapMinutes, minimumPoints, windowStart, windowEnd);
            && (PacketLossHigh in hit.reasons ==> forall v :: Measured(readings, PacketLossPct, v) ==> hit.observedRatio >= v)
            && (SignalStrengthLow in hit.reasons ==>
                  exists v :: Measured(readings, SignalDbm, v) && v <= signalThreshold && hit.observedRatio >= Abs(v))
            && (IntermittentMeasurements in hit.reasons ==> hit.observedRatio >= MaxGap(readings))
  {
    hide SeriesOf, MaxValue, MinValue, MaxGap, ConnectivityFinding, Measured, Reasons, Abs;
    var losses, signals := SeriesOf(readings, PacketLossPct), SeriesOf(readings, SignalDbm);
    FindingObserved(readings, lossThreshold, signalThreshold, gapMinutes);
    FindingReasons(readings, lossThreshold, signalThreshold, gapMinutes);
    ReasonsHold(losses != [] && MaxValue(losses) >= lossThreshold, signals != [] && MinValue(signals) <= signalThreshold,
                MaxGap(readings) >= gapMinutes && |readings| >= 2);
    LossesUpToMax(readings);
    WeakestIsMeasured(readings);
  }

  // ---------------------------------------------------------------- gap coverage

  ghost predicate TimeSorted(readings: seq<Reading>) {
    forall i, j :: 0 <= i <= j < |readings| ==> readings[i].time <= readings[j].time
  }

  /** Some reading falls strictly between `a` and `a + length`. */
  ghost predicate Covered(readings: seq<Reading>, a: real, length: real) {
    exists i :: 0 <= i < |readings| && a < readings[i].time < a + length
  }

  lemma SmallGapsCover(readings: seq<Reading>, gap: real, a: real)
    requires TimeSorted(readings) && readings != [] && gap > 0.0
    requires MaxGap(readings) < gap
    requires readings[0].time <= a && a + gap <= readings[|readings| - 1].time
    ensures Covered(readings, a, gap)
  {
    MaxGapIsMaximum(readings);
    var i := 0;
    while readings[i + 1].time <= a
      invariant 0 <= i < |readings| - 1 && readings[i].time <= a
      decreases |readings| - i
    {
      i := i + 1;
    }
    assert readings[i + 1].time - readings[i].time <= MaxGap(readings);
    assert a < readings[i + 1].time < a + gap;
  }

  lemma WideGapUncovered(readings: seq<Reading>, gap: real) returns (a: real)
    requires TimeSorted(readings) && readings != [] && gap > 0.0
    requires MaxGap(readings) >= gap
    ensures readings[0].time <= a && a + gap <= readings[|readings| - 1].time
    ensures !Covered(readings, a, gap)
  {
    MaxGapIsMaximum(readings);
    var i :| 0 <= i < |readings| - 1 && readings[i + 1].time - readings[i].time == MaxGap(readings);
    a := readings[i].time;
    forall k | 0 <= k < |readings| ensures !(a < readings[k].time < a + gap) {
      if k <= i {
        assert readings[k].time <= readings[i].time;
      } else {
        assert readings[i + 1].time <= readings[k].time;
      }
    }
  }

  lemma {:induction false} IntermittentReported(readings: seq<Reading>, lossThreshold: real, signalThreshold: real, gapMinutes: real,
                             minimumPoints: int, windowStart: real, windowEnd: real)
    requires 0 < minimumPoints <= |readings|
    ensures IntermittentMeasurements in
            ConnectivityHit(readings, lossThreshold, signalThreshold, gapMinutes, minimumPoints, windowStart, windowEnd).reasons
       <==> MaxGap(readings) >= gapMinutes && |readings| >= 2
  {
    hide SeriesOf, MaxValue, MinValue, MaxGap;
    var f := ConnectivityFinding(readings, lossThreshold, signalThreshold, gapMinutes);
    if MaxGap(readings) >= gapMinutes && |readings| >= 2 {
      assert f.reasons[|f.reasons| - 1] == IntermittentMeasurements;
    }
  }

  /**
    Intermittence is reported exactly when some open interval as long as the configured gap, inside the
    span of the readings, holds no reading. (Open: a gap of exactly the configured length is reported.)
   */
  lemma GapCoverage(readings: seq<Reading>, lossThreshold: real, signalThreshold: real, gapMinutes: real,
                    minimumPoints: int, windowStart: real, windowEnd: real)
    requires TimeSorted(readings) && 0 < minimumPoints <= |readings| && gapMinutes > 0.0
    ensures IntermittentMeasurements !in
            ConnectivityHit(readings, lossThreshold, signalThreshold, gapMinutes, minimumPoints, windowStart, windowEnd).reasons
       <==> forall a: real :: readings[0].time <= a && a + gapMinutes <= readings[|readings| - 1].time
                          ==> Covered(readings, a, gapMinutes)
  {
    IntermittentReported(readings, lossThreshold, signalThreshold, gapMinutes, minimumPoints, windowStart, windowEnd);
    if MaxGap(readings) >= gapMinutes {
      var a := WideGapUncovered(readings, gapMinutes);
      assert !Covered(readings, a, gapMinutes);
    } else {
      forall a: real | readings[0].time <= a && a + gapMinutes <= readings[|readings| - 1].time
        ensures Covered(readings, a, gapMinutes)
      {
        SmallGapsCover(readings, gapMinutes, a);
      }
    }
  }

  // ---------------------------------------------------------------- missing telemetry

  function MissingTelemetryHit(latest: Option<real>, hasPrior: bool, freshness: real, now: real, requirePrior: bool): RuleHit {
    if requirePrior && !hasPrior then EmptyHit(now, now, 0)
    else if latest.None? && !hasPrior then EmptyHit(now, now, 0)
    else
      var age := if latest.None? then freshness + 1.0 else now - latest.value;
      var start := if latest.None? then now else latest.value;
      if age < freshness then EmptyHit(now, now, 0)
      else RuleHit(true, [MissingReading], age, 1, start, now, 0)
  }

  // ---------------------------------------------------------------- sensor quality

  datatype Range = Range(low: real, high: real)

  const PHYSICAL: seq<Metric> := [PressureKpa, FlowLps, TemperatureC]

  datatype QualityConfig = QualityConfig(
    types: set<Metric>,
    ranges: map<Metric, Range>,
    frozenMinutes: real,
    frozenMinimumPoints: int,
    inconsistentRatioMax: real)

  /** Index of the first sample outside the range, or the length. */
  function FirstOutside(s: seq<Sample>, r: Range): (k: nat)
    ensures k <= |s|
    ensures k < |s| ==> s[k].value < r.low || s[k].value > r.high
    ensures forall i :: 0 <= i < k ==> r.low <= s[i].value <= r.high
  {
    if s == [] then 0
    else if s[0].value < r.low || s[0].value > r.high then 0
    else 1 + FirstOutside(s[1..], r)
  }

  predicate AllEqual(s: seq<Sample>) {
    forall i :: 0 <= i < |s| ==> s[i].value == s[0].value
  }

  function MetricFinding(readings: seq<Reading>, m: Metric, config: QualityConfig, f: Finding): Finding {
    var s := SeriesOf(readings, m);
    if m !in config.types || s == [] then f
    else
      var f1 := if m !in config.ranges then f
                else
                  var k := FirstOutside(s, config.ranges[m]);
                  if k < |s| then AddIf(f, true, OutOfRange, Abs(s[k].value)) else f;
      if |s| >= config.frozenMinimumPoints && AllEqual(s) then
        var span := s[|s| - 1].time - s[0].time;
        AddIf(f1, span >= config.frozenMinutes || |s| >= config.frozenMinimumPoints, FrozenValue, span)
      else f1
  }

  function MetricFindings(readings: seq<Reading>, metrics: seq<Metric>, config: QualityConfig): Finding {
    if metrics == [] then Finding([], 0.0)
    else
      var n := |metrics| - 1;
      MetricFinding(readings, metrics[n], config, MetricFindings(readings, metrics[..n], config))
  }

  function RatioFinding(readings: seq<Reading>, config: QualityConfig, f: Finding): Finding {
    var p, q := SeriesOf(readings, PressureKpa), SeriesOf(readings, FlowLps);
    if p == [] || q == [] || PressureKpa !in config.types || FlowLps !in config.types then f
    else
      var lastP, lastQ := p[|p| - 1].value, q[|q| - 1].value;
      if lastQ > 0.0 then AddIf(f, lastP / lastQ > config.inconsistentRatioMax, InternallyInconsistent, lastP / lastQ) else f
  }

  /** First occurrences only, in order: `dict.fromkeys`. */
  function Unique(reasons: seq<Reason>): (u: seq<Reason>)
    ensures forall r :: r in u <==> r in reasons
    ensures forall i, j :: 0 <= i < j < |u| ==> u[i] != u[j]
    ensures reasons != [] ==> u != []
  {
    if reasons == [] then []
    else
      var n := |reasons| - 1;
      var u := Unique(reasons[..n]);
      assert reasons == reasons[..n] + [reasons[n]];
      if reasons[n] in u then u else u + [reasons[n]]
  }

  function SensorQualityHit(readings: seq<Reading>, config: QualityConfig, minimumPoints: int,
                            windowStart: real, windowEnd: real): RuleHit
    requires minimumPoints > 0
  {
    if |readings| < minimumPoints then EmptyHit(windowStart, windowEnd, |readings|)
    else
      var f := RatioFinding(readings, config, MetricFindings(readings, PHYSICAL, config));
      if f.reasons == [] then EmptyHit(windowStart, windowEnd, |readings|)
      else
        var u := Unique(f.reasons);
        RuleHit(true, u, f.observed, |u|, MinTime(readings), MaxTime(readings), |readings|)
  }

  /** The loop body for one physical metric. */
  method EvaluateMetric(readings: seq<Reading>, m: Metric, config: QualityConfig, before: Finding) returns (found: Finding)
    ensures found == MetricFinding(readings, m, config, before)
  {
    hide SeriesOf, FirstOutside;
    found := before;
    var s := Series(readings, m);
    if m in config.types && s != [] {
      if m in config.ranges {
        var k := FindOutside(s, config.ranges[m]);
        if k < |s| {
          found := AddIf(found, true, OutOfRange, Abs(s[k].value));
        }
      }
      if |s| >= config.frozenMinimumPoints && AllEqual(s) {
        var span := s[|s| - 1].time - s[0].time;
        found := AddIf(found, span >= config.frozenMinutes || |s| >= config.frozenMinimumPoints, FrozenValue, span);
      }
    }
  }

  method EvaluateSensorQuality(readings: seq<Reading>, config: QualityConfig, minimumPoints: int,
                               windowStart: real, windowEnd: real) returns (hit: RuleHit)
    requires minimumPoints > 0
    ensures hit == SensorQualityHit(readings, config, minimumPoints, windowStart, windowEnd)
  {
    hide SeriesOf, MetricFinding, RatioFinding, Unique, MinTime, MaxTime;
    if |readings| < minimumPoints {
      return EmptyHit(windowStart, windowEnd, |readings|);
    }
    var found := Finding([], 0.0);
    for i := 0 to |PHYSICAL|
      invariant found == MetricFindings(readings, PHYSICAL[..i], config)
    {
      assert PHYSICAL[..i + 1][..i] == PHYSICAL[..i];
      found := EvaluateMetric(readings, PHYSICAL[i], config, found);
    }
    assert PHYSICAL[..|PHYSICAL|] == PHYSICAL;
    found := RatioFinding(readings, config, found);
    if found.reasons == [] {
      return EmptyHit(windowStart, windowEnd, |readings|);
    }
    var u := Unique(found.reasons);
    return RuleHit(true, u, found.observed, |u|, MinTime(readings), MaxTime(readings), |readings|);
  }

  /** The scan that stops at the first sample outside its range. */
  method FindOutside(s: seq<Sample>, r: Range) returns (k: nat)
    ensures k == FirstOutside(s, r)
  {
    k := 0;
    while k < |s|
      invariant k <= |s|
      invariant FirstOutside(s, r) == k + FirstOutside(s[k..], r)
    {
      if s[k].value < r.low || s[k].value > r.high {
        return;
      }
      assert s[k..][1..] == s[k + 1..];
      k := k + 1;
    }
  }

  // ---------------------------------------------------------------- what the quality reasons mean

  /** A measured metric with a range has a value outside it. */
  ghost predicate HasOutlier(readings: seq<Reading>, m: Metric, config: QualityConfig) {
    m in config.types && m in config.ranges &&
    exists v :: Measured(readings, m, v) && !(config.ranges[m].low <= v <= config.ranges[m].high)
  }

  /** A measured metric has enough values, and only one. */
  ghost predicate IsFrozen(readings: seq<Reading>, m: Metric, config: QualityConfig) {
    && m in config.types && |SeriesOf(readings, m)| >= config.frozenMinimumPoints
    && exists v :: Measured(readings, m, v) && forall w :: Measured(readings, m, w) ==> w == v
  }

  lemma OutlierFound(readings: seq<Reading>, m: Metric, config: QualityConfig)
    requires m in config.types && m in config.ranges
    ensures FirstOutside(SeriesOf(readings, m), config.ranges[m]) < |SeriesOf(readings, m)| <==> HasOutlier(readings, m, config)
  {
    var s, r := SeriesOf(readings, m), config.ranges[m];
    var k := FirstOutside(s, r);
    if k < |s| {
      SeriesListsMeasured(readings, m, s[k].value);
      assert Listed(s, s[k].value);
    }
    forall v | Measured(readings, m, v) && !(r.low <= v <= r.high) ensures k < |s| {
      SeriesListsMeasured(readings, m, v);
      var i :| 0 <= i < |s| && s[i].value == v;
    }
  }

  lemma FrozenFound(readings: seq<Reading>, m: Metric)
    ensures var s := SeriesOf(readings, m);
            s != [] && AllEqual(s) <==> exists v :: Measured(readings, m, v) && forall w :: Measured(readings, m, w) ==> w == v
  {
    var s := SeriesOf(readings, m);
    if s != [] && AllEqual(s) {
      SeriesListsMeasured(readings, m, s[0].value);
      assert Listed(s, s[0].value);
      forall w | Measured(readings, m, w) ensures w == s[0].value {
        SeriesListsMeasured(readings, m, w);
        var i :| 0 <= i < |s| && s[i].value == w;
      }
    }
    forall v | Measured(readings, m, v) && forall w :: Measured(readings, m, w) ==> w == v ensures s != [] && AllEqual(s) {
      SeriesListsMeasured(readings, m, v);
      forall i | 0 <= i < |s| ensures s[i].value == v {
        SeriesListsMeasured(readings, m, s[i].value);
        assert Listed(s, s[i].value);
      }
    }
  }

  lemma {:induction false} MetricReasons(readings: seq<Reading>, m: Metric, config: QualityConfig, f: Finding)
    ensures var g := MetricFinding(readings, m, config, f);
            && (OutOfRange in g.reasons <==> OutOfRange in f.reasons || HasOutlier(readings, m, config))
            && (FrozenValue in g.reasons <==> FrozenValue in f.reasons || IsFrozen(readings, m, config))
            && (forall r :: r in g.reasons ==> r in f.reasons || r == OutOfRange || r == FrozenValue)
            && (forall r :: r in f.reasons ==> r in g.reasons)
  {
    hide SeriesOf, FirstOutside, AllEqual, Measured;
    FrozenFound(readings, m);
    if m in config.types && m in config.ranges {
      OutlierFound(readings, m, config);
    }
  }

  lemma {:induction false} MetricsReasons(readings: seq<Reading>, metrics: seq<Metric>, config: QualityConfig)
    ensures var g := MetricFindings(readings, metrics, config);
            && (OutOfRange in g.reasons <==> exists m :: m in metrics && HasOutlier(readings, m, config))
            && (FrozenValue in g.reasons <==> exists m :: m in metrics && IsFrozen(readings, m, config))
            && (forall r :: r in g.reasons ==> r == OutOfRange || r == FrozenValue)
  {
    hide MetricFinding, HasOutlier, IsFrozen;
    if metrics != [] {
      var n := |metrics| - 1;
      MetricsReasons(readings, metrics[..n], config);
      MetricReasons(readings, metrics[n], config, MetricFindings(readings, metrics[..n], config));
      assert metrics == metrics[..n] + [metrics[n]];
    }
  }

  /** The latest present pressure and flow are out of proportion. */
  ghost predicate OutOfProportion(readings: seq<Reading>, config: QualityConfig) {
    var p, q := SeriesOf(readings, PressureKpa), SeriesOf(readings, FlowLps);
    && PressureKpa in config.types && FlowLps in config.types && p != [] && q != []
    && q[|q| - 1].value > 0.0 && p[|p| - 1].value / q[|q| - 1].value > config.inconsistentRatioMax
  }

  /** The last sample of a series is the last reading that has a value. */
  lemma {:induction false} LastOfSeries(readings: seq<Reading>, m: Metric, i: nat)
    requires i < |readings| && readings[i].Value(m).Some?
    requires forall k :: i < k < |readings| ==> readings[k].Value(m).None?
    ensures var s := SeriesOf(readings, m); s != [] && s[|s| - 1] == Sample(readings[i].time, readings[i].Value(m).value)
  {
    var n := |readings| - 1;
    if i < n {
      LastOfSeries(readings[..n], m, i);
    }
  }

  /**
    With enough readings: out of range exactly when a physical metric the sensor measures has a value outside its range,
    frozen exactly when one has enough values and they are all the same, inconsistent exactly when the latest pressure and flow
    are out of proportion; each reason once, and nothing else.
   */
  lemma SensorQualityMeaning(readings: seq<Reading>, config: QualityConfig, minimumPoints: int, windowStart: real, windowEnd: real)
    requires 0 < minimumPoints <= |readings|
    ensures var hit := SensorQualityHit(readings, config, minimumPoints, windowStart, windowEnd);
            && (OutOfRange in hit.reasons <==> exists m :: m in PHYSICAL && HasOutlier(readings, m, config))
            && (FrozenValue in hit.reasons <==> exists m :: m in PHYSICAL && IsFrozen(readings, m, config))
            && (InternallyInconsistent in hit.reasons <==> OutOfProportion(readings, config))
            && (forall r :: r in hit.reasons ==> r == OutOfRange || r == FrozenValue || r == InternallyInconsistent)
            && (forall i, j :: 0 <= i < j < |hit.reasons| ==> hit.reasons[i] != hit.reasons[j])
            && (hit.triggered <==> hit.reasons != []) && hit.metricCount == |hit.reasons|
  {
    hide SeriesOf, MetricFindings, HasOutlier, IsFrozen, Unique, MinTime, MaxTime;
    MetricsReasons(readings, PHYSICAL, config);
  }

  lemma {:induction false} MetricFindingsIgnoreFrozenMinutes(readings: seq<Reading>, metrics: seq<Metric>,
                                                             a: QualityConfig, minutes: real)
    ensures MetricFindings(readings, metrics, a) == MetricFindings(readings, metrics, a.(frozenMinutes := minutes))
  {
    if metrics != [] {
      MetricFindingsIgnoreFrozenMinutes(readings, metrics[..|metrics| - 1], a, minutes);
    }
  }

  /**
    The `frozen_minutes` setting never decides anything: the point-count test that guards the block already
    satisfies its second disjunct, so a value is frozen after enough equal points however short the span.
   */
  lemma FrozenMinutesNeverDecides(readings: seq<Reading>, config: QualityConfig, minutes: real, minimumPoints: int,
                                  windowStart: real, windowEnd: real)
    requires minimumPoints > 0
    ensures SensorQualityHit(readings, config, minimumPoints, windowStart, windowEnd)
         == SensorQualityHit(readings, config.(frozenMinutes := minutes), minimumPoints, windowStart, windowEnd)
  {
    MetricFindingsIgnoreFrozenMinutes(readings, PHYSICAL, config, minutes);
  }

  // ---------------------------------------------------------------- rate rules: what a trigger depends on

  function ScaleMetric(r: Reading, m: Metric, c: real): Reading {
    match m
    case PressureKpa => if r.pressureKpa.Some? then r.(pressureKpa := Some(c * r.pressureKpa.value)) else r
    case FlowLps => if r.flowLps.Some? then r.(flowLps := Some(c * r.flowLps.value)) else r
    case _ => r
  }

  function ScaleAll(readings: seq<Reading>, m: Metric, c: real): (s: seq<Reading>)
    ensures |s| == |readings|
    ensures forall i :: 0 <= i < |s| ==> s[i] == ScaleMetric(readings[i], m, c)
  {
    seq(|readings|, i requires 0 <= i < |readings| => ScaleMetric(readings[i], m, c))
  }

  lemma {:induction false} ScaledSeries(readings: seq<Reading>, m: Metric, c: real)
    requires m == PressureKpa || m == FlowLps
    ensures |SeriesOf(ScaleAll(readings, m, c), m)| == |SeriesOf(readings, m)|
    ensures forall i :: 0 <= i < |SeriesOf(readings, m)| ==>
              SeriesOf(ScaleAll(readings, m, c), m)[i]
              == Sample(SeriesOf(readings, m)[i].time, c * SeriesOf(readings, m)[i].value)
  {
    if readings != [] {
      var n := |readings| - 1;
      ScaledSeries(readings[..n], m, c);
      assert ScaleAll(readings, m, c)[..n] == ScaleAll(readings[..n], m, c);
    }
  }

  lemma PercentChangeScales(first: real, last: real, c: real)
    requires c > 0.0
    ensures PercentChange(c * first, c * last) == PercentChange(first, last)
  {
    if first != 0.0 {
      assert Abs(c * first) == c * Abs(first);
      CancelFactor(last - first, Abs(first), c);
      assert c * last - c * first == c * (last - first);
    } else if last != 0.0 {
      assert c * last != 0.0;
    }
  }

  lemma CancelFactor(a: real, b: real, c: real)
    requires b != 0.0 && c != 0.0
    ensures c * b != 0.0 && (c * a) / (c * b) == a / b
  {
    var q := a / b;
    assert a == q * b;
    assert c * a == q * (c * b);
  }

  /** Everything a rate rule reads of a series: how many samples, the end times, the percent change. */
  lemma RateInputsUnitFree(readings: seq<Reading>, m: Metric, c: real)
    requires c > 0.0 && (m == PressureKpa || m == FlowLps)
    ensures
      var s, t := SeriesOf(readings, m), SeriesOf(ScaleAll(readings, m, c), m);
      && |s| == |t|
      && (s != [] ==>
            && s[0].time == t[0].time && s[|s| - 1].time == t[|t| - 1].time
            && PercentChange(s[0].value, s[|s| - 1].value) == PercentChange(t[0].value, t[|t| - 1].value))
  {
    hide SeriesOf;
    var s := SeriesOf(readings, m);
    var t := SeriesOf(ScaleAll(readings, m, c), m);
    ScaledSeries(readings, m, c);
    if s != [] {
      var n := |s| - 1;
      assert t[0] == Sample(s[0].time, c * s[0].value);
      assert t[n] == Sample(s[n].time, c * s[n].value);
      PercentChangeScales(s[0].value, s[n].value, c);
      assert PercentChange(t[0].value, t[n].value) == PercentChange(s[0].value, s[n].value);
    }
  }

  /** Changing the unit of pressure changes no verdict, ratio or window of the pressure rule. */
  lemma PressureDropIsUnitFree(readings: seq<Reading>, c: real, thresholdPct: real, minimumPoints: int,
                               windowStart: real, windowEnd: real)
    requires c > 0.0 && minimumPoints > 0
    ensures PressureDropHit(ScaleAll(readings, PressureKpa, c), thresholdPct, minimumPoints, windowStart, windowEnd)
         == PressureDropHit(readings, thresholdPct, minimumPoints, windowStart, windowEnd)
  {
    RateInputsUnitFree(readings, PressureKpa, c);
  }

  /** Changing the unit of flow changes no verdict, ratio or window of the flow rule. */
  lemma FlowSurgeIsUnitFree(readings: seq<Reading>, c: real, thresholdPct: real, minimumPoints: int,
                            windowStart: real, windowEnd: real)
    requires c > 0.0 && minimumPoints > 0
    ensures FlowSurgeHit(ScaleAll(readings, FlowLps, c), thresholdPct, minimumPoints, windowStart, windowEnd)
         == FlowSurgeHit(readings, thresholdPct, minimumPoints, windowStart, windowEnd)
  {
    RateInputsUnitFree(readings, FlowLps, c);
  }
}
