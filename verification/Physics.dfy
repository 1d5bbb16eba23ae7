/**
  One tick of one cluster of the pipeline (`physics.py`): mean reversion to the segment's baseline, the active
  fault's effect on the true state, and what the sensor then reports. Every random draw is a parameter.
 */
module Physics {
  import opened Wrappers
  import opened Faults
  import Rounding

  datatype Segment = Segment(baselinePressure: real, baselineFlow: real)

  datatype Noise = Noise(pressure: real, flow: real, temp: real)

  datatype ClusterState = ClusterState(
    truePressure: real,
    trueFlow: real,
    reportedPressure: real,
    reportedFlow: real,
    ambientTemp: real,
    frozenReading: Option<(real, real)>,
    driftPressure: real,
    driftFlow: real)

  datatype Reading = Reading(pressure: real, flow: real, temp: real)

  function MeanRevert(value: real, baseline: real, strength: real, noise: real): real {
    value + (baseline - value) * strength + noise
  }

  /** The step-like faults: a share of the way to a target, growing with the ramp. */
  function Toward(value: real, target: real, ramp: real): real {
    var share := 0.3 * ramp + 0.05;
    value + (target - value) * if share < 1.0 then share else 1.0
  }

  function Rated(value: real, baseline: real, ratePct: real, ramp: real): real {
    value + baseline * (ratePct / 100.0) * ramp
  }

  function AtLeastZero(value: real): real { if value < 0.0 then 0.0 else value }

  /** One physical quantity under a fault of the given rate and target; zero is a floor only while one is active. */
  function Affected(value: real, baseline: real, ratePct: real, targetPct: Option<real>, ramp: real): real {
    var rated := Rated(value, baseline, ratePct, ramp);
    AtLeastZero(match targetPct
                case None => rated
                case Some(t) => Toward(rated, baseline * (t / 100.0), ramp))
  }

  const PRESSURE_STRENGTH := 0.15
  const FLOW_STRENGTH := 0.18

  /** The true pressure after a tick; `fault` has already counted the tick. */
  function PressureAfter(seg: Segment, value: real, fault: Option<ActiveFault>, noise: real): real {
    var drifted := MeanRevert(value, seg.baselinePressure, PRESSURE_STRENGTH, noise);
    match fault
    case None => drifted
    case Some(f) => Affected(drifted, seg.baselinePressure, f.effect.pressureRate, f.effect.pressureTarget, RampFactor(f))
  }

  function FlowAfter(seg: Segment, value: real, fault: Option<ActiveFault>, noise: real): real {
    var drifted := MeanRevert(value, seg.baselineFlow, FLOW_STRENGTH, noise);
    match fault
    case None => drifted
    case Some(f) => Affected(drifted, seg.baselineFlow, f.effect.flowRate, f.effect.flowTarget, RampFactor(f))
  }

  function ModeOf(fault: Option<ActiveFault>): SensorMode {
    match fault
    case None => Faithful
    case Some(f) => f.effect.sensorMode
  }

  function StepCluster(seg: Segment, environment: real, cs: ClusterState, fault: Option<ActiveFault>, noise: Noise): ClusterState {
    var p, q := PressureAfter(seg, cs.truePressure, fault, noise.pressure), FlowAfter(seg, cs.trueFlow, fault, noise.flow);
    var moved := cs.(truePressure := p, trueFlow := q, ambientTemp := environment + noise.temp);
    match ModeOf(fault)
    case Faithful => moved.(reportedPressure := p, reportedFlow := q)
    case Flatline => moved.(reportedPressure := 0.0, reportedFlow := 0.0)
    case Freeze =>
      var snapshot := cs.frozenReading.GetOr((p, q));
      moved.(frozenReading := Some(snapshot), reportedPressure := snapshot.0, reportedFlow := snapshot.1)
    case Drift =>
      var driftPressure := cs.driftPressure + seg.baselinePressure * (fault.value.effect.driftPct / 100.0);
      var driftFlow := cs.driftFlow + seg.baselineFlow * (fault.value.effect.driftPct / 100.0) * 0.3;
      moved.(driftPressure := driftPressure, driftFlow := driftFlow,
             reportedPressure := p - driftPressure, reportedFlow := q + driftFlow)
  }

  function ReadingOf(cs: ClusterState): Reading {
    Reading(Rounding.RoundTo(cs.reportedPressure, 100.0), Rounding.RoundTo(cs.reportedFlow, 100.0),
            Rounding.RoundTo(cs.ambientTemp, 100.0))
  }

  // ---------------------------------------------------------------- the rolling window

  const WINDOW := 10

  function Pushed(window: seq<Reading>, r: Reading): seq<Reading> {
    if |window + [r]| > WINDOW then (window + [r])[1..] else window + [r]
  }

  function LatestOf(all: seq<Reading>): seq<Reading> {
    if |all| <= 10 then all else all[|all| - 10..]
  }

  /** Appending and popping the front keeps exactly the latest ten readings, in order. */
  lemma WindowIsTheLatest(all: seq<Reading>, r: Reading)
    ensures Pushed(LatestOf(all), r) == LatestOf(all + [r])
  {
  }

  // ---------------------------------------------------------------- bounds of one tick

  function Abs(x: real): real { if x < 0.0 then -x else x }

  lemma MulLe(a: real, x: real, y: real)
    requires a >= 0.0 && x <= y
    ensures a * x <= a * y
  {
    assert a * (y - x) >= 0.0;
  }

  /** Mean reversion contracts the distance to the baseline, up to the noise. */
  lemma ReversionContracts(value: real, baseline: real, strength: real, noise: real)
    requires 0.0 <= strength <= 1.0
    ensures Abs(MeanRevert(value, baseline, strength, noise) - baseline) <= (1.0 - strength) * Abs(value - baseline) + Abs(noise)
  {
    var d := value - baseline;
    assert MeanRevert(value, baseline, strength, noise) - baseline == (1.0 - strength) * d + noise;
    MulLe(1.0 - strength, d, Abs(d));
    MulLe(1.0 - strength, -Abs(d), d);
    assert (1.0 - strength) * -Abs(d) == -((1.0 - strength) * Abs(d));
  }

  lemma ErrorStep(value: real, baseline: real, strength: real, noise: real, bound: real, eta: real)
    requires 0.0 <= strength <= 1.0 && Abs(value - baseline) <= bound && Abs(noise) <= eta
    ensures Abs(MeanRevert(value, baseline, strength, noise) - baseline) <= (1.0 - strength) * bound + eta
  {
    ReversionContracts(value, baseline, strength, noise);
    MulLe(1.0 - strength, Abs(value - baseline), bound);
  }

  /** How low, and how high, a rate fault of at least `worst` percent can hold the pressure under noise up to `eta`. */
  function RateFloor(baseline: real, worst: real, eta: real): real {
    baseline * (1.0 + worst / 15.0) - eta / 0.15
  }

  function RateCeiling(baseline: real, eta: real): real {
    baseline + eta / 0.15
  }

  predicate RateOnly(e: FaultEffect, worst: real) {
    worst <= e.pressureRate <= 0.0 && e.pressureTarget == None
  }

  lemma RateEffect(baseline: real, rate: real, worst: real, ramp: real)
    requires baseline >= 0.0 && worst <= rate <= 0.0 && 0.0 <= ramp <= 1.0
    ensures baseline * (worst / 100.0) <= baseline * (rate / 100.0) * ramp <= 0.0
  {
    var full := baseline * (rate / 100.0);
    MulLe(baseline, worst / 100.0, rate / 100.0);
    MulLe(baseline, rate / 100.0, 0.0);
    MulLe(ramp, full, 0.0);
    MulLe(1.0 - ramp, full, 0.0);
    assert full == full * ramp + (1.0 - ramp) * full;
  }

  /** A rate fault's effect on one tick, apart from the reversion. */
  function RateLoss(baseline: real, fault: Option<ActiveFault>): real {
    match fault
    case None => 0.0
    case Some(f) => baseline * (f.effect.pressureRate / 100.0) * RampFactor(f)
  }

  lemma PressureAfterForm(seg: Segment, value: real, fault: Option<ActiveFault>, noise: real)
    requires fault.Some? ==> fault.value.effect.pressureTarget == None
    ensures var moved := 0.85 * value + 0.15 * seg.baselinePressure + noise + RateLoss(seg.baselinePressure, fault);
            PressureAfter(seg, value, fault, noise) == if fault.Some? then AtLeastZero(moved) else moved
  {
  }

  lemma RateLossBounds(baseline: real, fault: Option<ActiveFault>, worst: real)
    requires baseline >= 0.0 && worst <= 0.0
    requires fault.Some? ==> RateOnly(fault.value.effect, worst)
    ensures baseline * (worst / 100.0) <= RateLoss(baseline, fault) <= 0.0
  {
    if fault.Some? {
      RateEffect(baseline, fault.value.effect.pressureRate, worst, RampFactor(fault.value));
    } else {
      MulLe(baseline, worst / 100.0, 0.0);
    }
  }

  /** The band between floor and ceiling is kept by every tick, with or without such a fault. */
  lemma RateKeepsBand(seg: Segment, value: real, fault: Option<ActiveFault>, noise: real, worst: real, eta: real)
    requires seg.baselinePressure >= 0.0 && worst <= 0.0 && Abs(noise) <= eta
    requires fault.Some? ==> RateOnly(fault.value.effect, worst)
    requires RateFloor(seg.baselinePressure, worst, eta) <= value <= RateCeiling(seg.baselinePressure, eta)
    ensures RateFloor(seg.baselinePressure, worst, eta) <= PressureAfter(seg, value, fault, noise) <= RateCeiling(seg.baselinePressure, eta)
  {
    hide PressureAfter, RateFloor, RateLoss;
    var b := seg.baselinePressure;
    FloorForm(b, worst, eta);
    PressureAfterForm(seg, value, fault, noise);
    RateLossBounds(b, fault, worst);
    BandArithmetic(value, b, b * (worst / 100.0), RateLoss(b, fault), noise, eta);
  }

  lemma FloorForm(b: real, worst: real, eta: real)
    ensures RateFloor(b, worst, eta) == b + b * (worst / 100.0) / 0.15 - eta / 0.15
  {
    assert b * (1.0 + worst / 15.0) == b + b * (worst / 15.0);
    assert b * (worst / 15.0) == b * (worst / 100.0) / 0.15;
  }

  lemma BandArithmetic(value: real, b: real, loss: real, effect: real, noise: real, eta: real)
    requires loss <= effect <= 0.0 && Abs(noise) <= eta
    requires b + loss / 0.15 - eta / 0.15 <= value <= b + eta / 0.15
    ensures b + loss / 0.15 - eta / 0.15 <= 0.85 * value + 0.15 * b + noise + effect <= b + eta / 0.15
  {
  }

  // ---------------------------------------------------------------- and of the flow

  /** The flow rates a fault may have, on either side of zero. */
  predicate FlowRateWithin(e: FaultEffect, low: real, high: real) {
    low <= e.flowRate <= high && e.flowTarget == None
  }

  function FlowChange(baseline: real, fault: Option<ActiveFault>): real {
    match fault
    case None => 0.0
    case Some(f) => baseline * (f.effect.flowRate / 100.0) * RampFactor(f)
  }

  lemma FlowAfterForm(seg: Segment, value: real, fault: Option<ActiveFault>, noise: real)
    requires fault.Some? ==> fault.value.effect.flowTarget == None
    ensures var moved := 0.82 * value + 0.18 * seg.baselineFlow + noise + FlowChange(seg.baselineFlow, fault);
            FlowAfter(seg, value, fault, noise) == if fault.Some? then AtLeastZero(moved) else moved
  {
  }

  lemma PartOfBetween(full: real, ramp: real, low: real, high: real)
    requires low <= 0.0 <= high && low <= full <= high && 0.0 <= ramp <= 1.0
    ensures low <= full * ramp <= high
  {
    if full >= 0.0 {
      MulLe(ramp, 0.0, full);
      MulLe(1.0 - ramp, 0.0, full);
    } else {
      MulLe(ramp, full, 0.0);
      MulLe(1.0 - ramp, full, 0.0);
    }
    assert full == full * ramp + (1.0 - ramp) * full;
  }

  lemma FlowChangeBounds(baseline: real, fault: Option<ActiveFault>, low: real, high: real)
    requires baseline >= 0.0 && low <= 0.0 <= high
    requires fault.Some? ==> FlowRateWithin(fault.value.effect, low, high)
    ensures baseline * (low / 100.0) <= FlowChange(baseline, fault) <= baseline * (high / 100.0)
    ensures baseline * (low / 100.0) <= 0.0 <= baseline * (high / 100.0)
  {
    MulLe(baseline, low / 100.0, 0.0);
    MulLe(baseline, 0.0, high / 100.0);
    if fault.Some? {
      var rate := fault.value.effect.flowRate;
      MulLe(baseline, low / 100.0, rate / 100.0);
      MulLe(baseline, rate / 100.0, high / 100.0);
      PartOfBetween(baseline * (rate / 100.0), RampFactor(fault.value), baseline * (low / 100.0), baseline * (high / 100.0));
    }
  }

  lemma FlowBandArithmetic(value: real, b: real, low: real, high: real, effect: real, noise: real, eta: real)
    requires low <= effect <= high && Abs(noise) <= eta
    requires b + low / 0.18 - eta / 0.18 <= value <= b + high / 0.18 + eta / 0.18
    ensures b + low / 0.18 - eta / 0.18 <= 0.82 * value + 0.18 * b + noise + effect <= b + high / 0.18 + eta / 0.18
  {
  }

  lemma FlowRest(b: real, ratePct: real)
    ensures RestingLevel(b, ratePct, FLOW_STRENGTH) == b + b * (ratePct / 100.0) / 0.18
  {
  }

  lemma ClampInBand(moved: real, low: real, high: real)
    requires low <= moved <= high && high >= 0.0
    ensures low <= AtLeastZero(moved) <= high
  {
  }

  /** The flow stays between the resting levels of the two extreme rates, up to the noise. */
  lemma FlowKeepsBand(seg: Segment, value: real, fault: Option<ActiveFault>, noise: real, low: real, high: real, eta: real)
    requires seg.baselineFlow >= 0.0 && low <= 0.0 <= high && Abs(noise) <= eta
    requires fault.Some? ==> FlowRateWithin(fault.value.effect, low, high)
    requires RestingLevel(seg.baselineFlow, low, FLOW_STRENGTH) - eta / 0.18 <= value
               <= RestingLevel(seg.baselineFlow, high, FLOW_STRENGTH) + eta / 0.18
    ensures RestingLevel(seg.baselineFlow, low, FLOW_STRENGTH) - eta / 0.18 <= FlowAfter(seg, value, fault, noise)
              <= RestingLevel(seg.baselineFlow, high, FLOW_STRENGTH) + eta / 0.18
  {
    hide FlowAfter, FlowChange, RestingLevel;
    var b := seg.baselineFlow;
    FlowRest(b, low);
    FlowRest(b, high);
    FlowAfterForm(seg, value, fault, noise);
    FlowChangeBounds(b, fault, low, high);
    var lo, hi, change := b * (low / 100.0), b * (high / 100.0), FlowChange(b, fault);
    FlowBandArithmetic(value, b, lo, hi, change, noise, eta);
    ClampInBand(0.82 * value + 0.18 * b + noise + change, b + lo / 0.18 - eta / 0.18, b + hi / 0.18 + eta / 0.18);
  }

  // ---------------------------------------------------------------- target faults

  /** Where a target of so many percent holds a quantity: a mixture of it and the baseline, for the reversion never stops. */
  function Mixture(baseline: real, targetPct: real, strength: real): real
    requires 0.0 < strength <= 1.0
  {
    baseline * ((0.65 * strength + 0.35 * (targetPct / 100.0)) / (1.0 - 0.65 * (1.0 - strength)))
  }

  predicate TargetOnly(e: FaultEffect, worst: real) {
    e.pressureRate == 0.0 && (e.pressureTarget.Some? ==> e.pressureTarget.value >= worst)
  }

  lemma TargetFloorForm(baseline: real, worst: real)
    requires baseline >= 0.0 && worst <= 100.0
    ensures Mixture(baseline, worst, PRESSURE_STRENGTH) == (0.0975 * baseline + 0.35 * (baseline * (worst / 100.0))) / 0.4475
    ensures baseline * (worst / 100.0) <= Mixture(baseline, worst, PRESSURE_STRENGTH) <= baseline
  {
    MulLe(baseline, worst / 100.0, 1.0);
    var share := (0.0975 + 0.35 * (worst / 100.0)) / 0.4475;
    MulLe(baseline, share, 1.0);
    MulLe(baseline, worst / 100.0, share);
  }

  lemma ShareForm(value: real, target: real, share: real, least: real)
    requires 0.0 <= share <= 0.35 && least <= value && least <= target
    ensures value + (target - value) * share >= 0.65 * value + 0.35 * least
  {
    var above, gap := value - least, target - value;
    MulLe(above, share, 0.35);
    MulLe(share, -above, gap);
    assert share * -above == -(above * share);
    assert gap * share >= -(above * 0.35);
  }

  lemma TowardForm(value: real, target: real, ramp: real, least: real)
    requires 0.0 <= ramp <= 1.0 && least <= value && least <= target
    ensures Toward(value, target, ramp) >= 0.65 * value + 0.35 * least
  {
    ShareForm(value, target, 0.3 * ramp + 0.05, least);
  }

  /**
    A target below the baseline is never reached, because the reversion goes on: without noise the pressure stays
    above a fixed mixture of the two, 29 percent of the baseline for the pump failure whose target is 10.
   */
  lemma TargetNeverReached(seg: Segment, value: real, fault: Option<ActiveFault>, worst: real)
    requires seg.baselinePressure >= 0.0 && worst <= 100.0
    requires fault.Some? ==> TargetOnly(fault.value.effect, worst)
    requires Mixture(seg.baselinePressure, worst, PRESSURE_STRENGTH) <= value
    ensures Mixture(seg.baselinePressure, worst, PRESSURE_STRENGTH) <= PressureAfter(seg, value, fault, 0.0)
  {
    var b := seg.baselinePressure;
    var drifted := MeanRevert(value, b, PRESSURE_STRENGTH, 0.0);
    var least := b * (worst / 100.0);
    TargetFloorForm(b, worst);
    hide Mixture;
    assert drifted == 0.85 * value + 0.15 * b;
    if fault.Some? && fault.value.effect.pressureTarget.Some? {
      var e, ramp := fault.value.effect, RampFactor(fault.value);
      var target := b * (e.pressureTarget.value / 100.0);
      MulLe(b, worst / 100.0, e.pressureTarget.value / 100.0);
      TowardForm(drifted, target, ramp, least);
      assert Rated(drifted, b, 0.0, ramp) == drifted;
      assert PressureAfter(seg, value, fault, 0.0) == AtLeastZero(Toward(drifted, target, ramp));
    } else if fault.Some? {
      assert Rated(drifted, b, 0.0, RampFactor(fault.value)) == drifted;
    }
  }

  /** A reversion without noise. */
  function Reverted(value: real, baseline: real, strength: real): real {
    (1.0 - strength) * value + strength * baseline
  }

  /** A mixture is where the full pull and one reversion balance, and lies between the target and the baseline. */
  lemma MixtureBalances(baseline: real, targetPct: real, strength: real)
    requires baseline >= 0.0 && 0.0 < strength <= 1.0
    ensures var m, t := Mixture(baseline, targetPct, strength), baseline * (targetPct / 100.0);
            && m == 0.65 * Reverted(m, baseline, strength) + 0.35 * t
            && (targetPct <= 100.0 ==> t <= m <= baseline) && (targetPct >= 100.0 ==> baseline <= m <= t)
  {
    var m, t, whole := Mixture(baseline, targetPct, strength), baseline * (targetPct / 100.0), 1.0 - 0.65 * (1.0 - strength);
    var share := (0.65 * strength + 0.35 * (targetPct / 100.0)) / whole;
    assert share * whole == 0.65 * strength + 0.35 * (targetPct / 100.0);
    assert m * whole == baseline * (share * whole);
    assert baseline * (0.65 * strength) == 0.65 * (strength * baseline);
    assert m * whole == 0.65 * (strength * baseline) + 0.35 * t;
    Balance(m, t, baseline, strength);
    if targetPct <= 100.0 {
      MulLe(baseline, targetPct / 100.0, 1.0);
    } else {
      MulLe(baseline, 1.0, targetPct / 100.0);
    }
    Between(m, t, baseline, 0.65 * strength);
  }

  lemma Balance(m: real, t: real, baseline: real, strength: real)
    requires m * (1.0 - 0.65 * (1.0 - strength)) == 0.65 * (strength * baseline) + 0.35 * t
    ensures m == 0.65 * ((1.0 - strength) * m + strength * baseline) + 0.35 * t
    ensures (0.65 * strength) * (m - baseline) + 0.35 * (m - t) == 0.0
  {
  }

  lemma Between(m: real, t: real, baseline: real, weight: real)
    requires weight > 0.0 && weight * (m - baseline) + 0.35 * (m - t) == 0.0
    ensures t <= baseline ==> t <= m <= baseline
    ensures t >= baseline ==> baseline <= m <= t
  {
    if m > baseline {
      assert weight * (m - baseline) > 0.0;
    } else if m < baseline {
      assert weight * (baseline - m) > 0.0;
      assert weight * (m - baseline) == -(weight * (baseline - m));
    }
  }

  /** The pull of a target of at least `least`, at any stage of the ramp, from no further below `from` than `slack`. */
  lemma PulledDown(drifted: real, from: real, target: real, least: real, pull: real, slack: real)
    requires drifted >= from - slack && target >= least && from >= least && 0.0 <= pull <= 0.35 && slack >= 0.0
    ensures drifted + (target - drifted) * pull >= 0.65 * from + 0.35 * least - slack
  {
    var above, further, depth := drifted - (from - slack), target - least, from - least;
    assert (1.0 - pull) * above >= 0.0 && pull * further >= 0.0 && pull * slack >= 0.0;
    MulLe(depth, pull, 0.35);
    assert drifted + (target - drifted) * pull
        == from - slack + pull * slack + (1.0 - pull) * above + pull * further - depth * pull;
  }

  lemma PulledUp(drifted: real, from: real, target: real, most: real, pull: real, slack: real)
    requires drifted <= from + slack && target <= most && from <= most && 0.0 <= pull <= 0.35 && slack >= 0.0
    ensures drifted + (target - drifted) * pull <= 0.65 * from + 0.35 * most + slack
  {
    PulledDown(-drifted, -from, -target, -most, pull, slack);
    assert (-target - -drifted) * pull == -((target - drifted) * pull);
  }

  /** A reversion keeps the slack that the noise can build up. */
  lemma RevertedWithin(value: real, baseline: real, strength: real, noise: real, low: real, high: real, slack: real)
    requires 0.0 < strength <= 1.0 && low - slack <= value <= high + slack && Abs(noise) <= strength * slack
    ensures Reverted(low, baseline, strength) - slack <= MeanRevert(value, baseline, strength, noise)
              <= Reverted(high, baseline, strength) + slack
  {
    MulLe(1.0 - strength, low - slack, value);
    MulLe(1.0 - strength, value, high + slack);
    assert (1.0 - strength) * (low - slack) == (1.0 - strength) * low - slack + strength * slack;
    assert (1.0 - strength) * (high + slack) == (1.0 - strength) * high + slack - strength * slack;
    assert MeanRevert(value, baseline, strength, noise) == (1.0 - strength) * value + strength * baseline + noise;
  }

  predicate TargetWithin(target: Option<real>, low: real, high: real) {
    target.Some? ==> low <= target.value <= high
  }

  function TowardShare(value: real, baseline: real, targetPct: real, ramp: real): real {
    Toward(value, baseline * (targetPct / 100.0), ramp)
  }

  /** The tick of a fault that only pulls, from a reversion that kept its slack. */
  lemma PulledWithin(drifted: real, baseline: real, target: real, ramp: real, low: real, high: real, lower: real, upper: real, slack: real)
    requires baseline >= 0.0 && 0.0 <= ramp <= 1.0 && low <= target <= high && slack >= 0.0
    requires lower - slack <= drifted <= upper + slack && baseline * (low / 100.0) <= lower && upper <= baseline * (high / 100.0)
    ensures 0.65 * lower + 0.35 * (baseline * (low / 100.0)) - slack <= TowardShare(drifted, baseline, target, ramp)
              <= 0.65 * upper + 0.35 * (baseline * (high / 100.0)) + slack
  {
    var goal := baseline * (target / 100.0);
    MulLe(baseline, low / 100.0, target / 100.0);
    MulLe(baseline, target / 100.0, high / 100.0);
    PulledDown(drifted, lower, goal, baseline * (low / 100.0), 0.3 * ramp + 0.05, slack);
    PulledUp(drifted, upper, goal, baseline * (high / 100.0), 0.3 * ramp + 0.05, slack);
  }

  lemma UnratedForm(drifted: real, baseline: real, target: Option<real>, ramp: real)
    ensures Affected(drifted, baseline, 0.0, target, ramp)
         == AtLeastZero(if target.None? then drifted else TowardShare(drifted, baseline, target.value, ramp))
  {
    assert Rated(drifted, baseline, 0.0, ramp) == drifted;
  }

  /** With no fault, or with one that only pulls, at any stage of its ramp, a quantity stays between the two mixtures. */
  lemma TargetKeepsBand(value: real, baseline: real, strength: real, fault: bool, target: Option<real>, ramp: real, noise: real,
                        low: real, high: real, slack: real)
    requires baseline >= 0.0 && 0.0 < strength <= 1.0 && 0.0 <= ramp <= 1.0 && low <= 100.0 <= high && slack >= 0.0
    requires Abs(noise) <= strength * slack && TargetWithin(target, low, high)
    requires Mixture(baseline, low, strength) - slack <= value <= Mixture(baseline, high, strength) + slack
    ensures var drifted := MeanRevert(value, baseline, strength, noise);
            Mixture(baseline, low, strength) - slack <= (if fault then Affected(drifted, baseline, 0.0, target, ramp) else drifted)
              <= Mixture(baseline, high, strength) + slack
  {
    hide Mixture, MeanRevert, Affected, TowardShare, Abs, Reverted;
    var drifted, least, most := MeanRevert(value, baseline, strength, noise), Mixture(baseline, low, strength), Mixture(baseline, high, strength);
    var lower, upper := Reverted(least, baseline, strength), Reverted(most, baseline, strength);
    MixtureBalances(baseline, low, strength);
    MixtureBalances(baseline, high, strength);
    RevertedWithin(value, baseline, strength, noise, least, most, slack);
    Averages(least, baseline, strength);
    Averages(most, baseline, strength);
    if fault {
      UnratedForm(drifted, baseline, target, ramp);
      if target.Some? {
        PulledWithin(drifted, baseline, target.value, ramp, low, high, lower, upper, slack);
      }
    }
  }

  lemma Averages(m: real, baseline: real, strength: real)
    requires 0.0 < strength <= 1.0
    ensures m <= baseline ==> m <= Reverted(m, baseline, strength) <= baseline
    ensures m >= baseline ==> baseline <= Reverted(m, baseline, strength) <= m
  {
    var gap := baseline - m;
    var kept := (1.0 - strength) * gap;
    assert Reverted(m, baseline, strength) == m + strength * gap == baseline - kept;
    hide Reverted;
    if gap >= 0.0 {
      NotNegative(strength, gap);
      NotNegative(1.0 - strength, gap);
    }
    if gap <= 0.0 {
      NotNegative(strength, -gap);
      NotNegative(1.0 - strength, -gap);
      assert strength * -gap == -(strength * gap) && (1.0 - strength) * -gap == -kept;
    }
  }

  lemma NotNegative(a: real, b: real)
    requires a >= 0.0 && b >= 0.0
    ensures a * b >= 0.0
  {
  }

  // ---------------------------------------------------------------- any fault, at any stage of its ramp

  /** The share of the way to its target that a fault covers in one tick; a fault without one pulls nowhere. */
  function Pull(target: Option<real>, ramp: real): real {
    if target.None? then 0.0 else 0.05 + 0.3 * ramp
  }

  /** What one tick leaves of a quantity's distance to its level. */
  function Remaining(strength: real, target: Option<real>, ramp: real): real {
    (1.0 - Pull(target, ramp)) * (1.0 - strength)
  }

  /** What the pull towards the target leaves of a tick's noise. */
  function Kept(target: Option<real>, ramp: real, noise: real): real {
    (1.0 - Pull(target, ramp)) * noise
  }

  /** What one more tick leaves of a bound on the distance to the level, under noise up to `eta`. */
  function Shrunk(strength: real, target: Option<real>, ramp: real, bound: real, eta: real): real {
    Remaining(strength, target, ramp) * bound + Kept(target, ramp, eta)
  }

  function Goal(baseline: real, target: Option<real>): real {
    if target.None? then 0.0 else baseline * (target.value / 100.0)
  }

  /** The level a quantity under such a fault is drawn to: a mixture of the baseline, moved by the rate, and the target. */
  function Level(baseline: real, ratePct: real, target: Option<real>, ramp: real, strength: real): real
    requires 0.0 < strength <= 1.0 && 0.0 <= ramp <= 1.0
  {
    RemainsLess(strength, target, ramp);
    var pull := Pull(target, ramp);
    ((1.0 - pull) * (baseline * strength + baseline * (ratePct / 100.0) * ramp) + pull * Goal(baseline, target))
      / (1.0 - Remaining(strength, target, ramp))
  }

  lemma RemainsLess(strength: real, target: Option<real>, ramp: real)
    requires 0.0 < strength <= 1.0 && 0.0 <= ramp <= 1.0
    ensures 0.0 <= Pull(target, ramp) <= 0.35
    ensures 0.0 <= Remaining(strength, target, ramp) <= 1.0 - strength
  {
    var pull := Pull(target, ramp);
    NotNegative(1.0 - pull, 1.0 - strength);
    NotNegative(pull, 1.0 - strength);
    assert (1.0 - pull) * (1.0 - strength) == (1.0 - strength) - pull * (1.0 - strength);
  }

  lemma PulledForm(value: real, baseline: real, strength: real, noise: real, change: real, pull: real, goal: real, remaining: real)
    requires remaining == (1.0 - pull) * (1.0 - strength)
    ensures var rated := MeanRevert(value, baseline, strength, noise) + change;
            rated + (goal - rated) * pull
            == remaining * value + ((1.0 - pull) * (baseline * strength + change) + pull * goal) + (1.0 - pull) * noise
  {
    var rated := MeanRevert(value, baseline, strength, noise) + change;
    assert rated == (1.0 - strength) * value + (baseline * strength + change) + noise;
    assert rated + (goal - rated) * pull == (1.0 - pull) * rated + pull * goal;
    assert (1.0 - pull) * ((1.0 - strength) * value) == remaining * value;
  }

  lemma AroundLevel(value: real, level: real, remaining: real, sum: real)
    requires level * (1.0 - remaining) == sum
    ensures remaining * value + sum == level + remaining * (value - level)
  {
  }

  /** One tick under a fault, written out with the share it covers towards the target. */
  lemma AffectedForm(drifted: real, baseline: real, ratePct: real, target: Option<real>, ramp: real, moved: real)
    requires 0.0 <= ramp <= 1.0
    requires var rated := drifted + baseline * (ratePct / 100.0) * ramp;
             moved == rated + (Goal(baseline, target) - rated) * Pull(target, ramp)
    ensures Affected(drifted, baseline, ratePct, target, ramp) == AtLeastZero(moved)
  {
  }

  /** Every tick under a fault, apart from the clamp at zero, shrinks the distance to the level and adds its noise. */
  lemma TickTowardsLevel(value: real, baseline: real, ratePct: real, target: Option<real>, ramp: real, strength: real, noise: real)
    requires 0.0 < strength <= 1.0 && 0.0 <= ramp <= 1.0
    ensures var level := Level(baseline, ratePct, target, ramp, strength);
            var moved := level + Remaining(strength, target, ramp) * (value - level) + Kept(target, ramp, noise);
            Affected(MeanRevert(value, baseline, strength, noise), baseline, ratePct, target, ramp) == if moved < 0.0 then 0.0 else moved
  {
    hide MeanRevert, Affected, Level, Goal, Pull;
    var pull, remaining, goal := Pull(target, ramp), Remaining(strength, target, ramp), Goal(baseline, target);
    var change := baseline * (ratePct / 100.0) * ramp;
    var level := Level(baseline, ratePct, target, ramp, strength);
    var sum := (1.0 - pull) * (baseline * strength + change) + pull * goal;
    LevelForm(baseline, ratePct, target, ramp, strength);
    PulledForm(value, baseline, strength, noise, change, pull, goal, remaining);
    hide Remaining;
    AroundLevel(value, level, remaining, sum);
    var rated := MeanRevert(value, baseline, strength, noise) + change;
    var moved := rated + (goal - rated) * pull;
    assert moved == level + remaining * (value - level) + (1.0 - pull) * noise;
    AffectedForm(MeanRevert(value, baseline, strength, noise), baseline, ratePct, target, ramp, moved);
  }

  lemma LevelForm(baseline: real, ratePct: real, target: Option<real>, ramp: real, strength: real)
    requires 0.0 < strength <= 1.0 && 0.0 <= ramp <= 1.0
    ensures var pull := Pull(target, ramp);
            Level(baseline, ratePct, target, ramp, strength) * (1.0 - Remaining(strength, target, ramp))
            == (1.0 - pull) * (baseline * strength + baseline * (ratePct / 100.0) * ramp) + pull * Goal(baseline, target)
  {
    RemainsLess(strength, target, ramp);
    var pull := Pull(target, ramp);
    Rounding.CancelScale(Level(baseline, ratePct, target, ramp, strength), 1.0 - Remaining(strength, target, ramp));
  }

  /** Where a quantity under a fully developed rate fault comes to rest. */
  function RestingLevel(baseline: real, ratePct: real, strength: real): real
    requires strength > 0.0
  {
    baseline + baseline * (ratePct / 100.0) / strength
  }

  lemma ClampTowards(moved: real, level: real)
    requires level >= 0.0
    ensures Abs(AtLeastZero(moved) - level) <= Abs(moved - level)
  {
  }

  lemma ClampedShares(moved: real, level: real, d: real, noise: real, remaining: real, kept: real, bound: real, eta: real)
    requires level >= 0.0 && Abs(d) <= bound && Abs(noise) <= eta && remaining >= 0.0 && kept >= 0.0
    requires moved == level + remaining * d + kept * noise
    ensures Abs(AtLeastZero(moved) - level) <= remaining * bound + kept * eta
  {
    ClampTowards(moved, level);
    TwoShares(d, noise, remaining, kept, bound, eta);
    hide AtLeastZero;
    assert moved - level == remaining * d + kept * noise;
  }

  /** Under a fault the distance to its level contracts, up to the noise. */
  lemma StepTowardsLevel(value: real, baseline: real, ratePct: real, target: Option<real>, ramp: real, strength: real, noise: real,
                         bound: real, eta: real)
    requires 0.0 < strength <= 1.0 && 0.0 <= ramp <= 1.0 && Level(baseline, ratePct, target, ramp, strength) >= 0.0
    requires Abs(value - Level(baseline, ratePct, target, ramp, strength)) <= bound && Abs(noise) <= eta
    ensures Abs(Affected(MeanRevert(value, baseline, strength, noise), baseline, ratePct, target, ramp)
                - Level(baseline, ratePct, target, ramp, strength))
            <= Shrunk(strength, target, ramp, bound, eta)
  {
    hide Level, MeanRevert, Affected, Remaining, Pull;
    var level := Level(baseline, ratePct, target, ramp, strength);
    RemainsLess(strength, target, ramp);
    TickTowardsLevel(value, baseline, ratePct, target, ramp, strength, noise);
    ClampedShares(level + Remaining(strength, target, ramp) * (value - level) + Kept(target, ramp, noise), level, value - level, noise,
                  Remaining(strength, target, ramp), 1.0 - Pull(target, ramp), bound, eta);
  }

  lemma ShareOf(d: real, share: real, bound: real)
    requires Abs(d) <= bound && share >= 0.0
    ensures -(share * bound) <= share * d <= share * bound
  {
    MulLe(share, d, bound);
    MulLe(share, -bound, d);
    assert share * -bound == -(share * bound);
  }

  lemma TwoShares(d: real, noise: real, remaining: real, kept: real, bound: real, eta: real)
    requires Abs(d) <= bound && Abs(noise) <= eta && remaining >= 0.0 && kept >= 0.0
    ensures Abs(remaining * d + kept * noise) <= remaining * bound + kept * eta
  {
    ShareOf(d, remaining, bound);
    ShareOf(noise, kept, eta);
  }

  /** A rate alone moves the level to its resting level; a target alone to a fixed mixture of baseline and target. */
  lemma LevelOfRate(baseline: real, ratePct: real, strength: real)
    requires 0.0 < strength <= 1.0
    ensures Level(baseline, ratePct, None, 1.0, strength) == RestingLevel(baseline, ratePct, strength)
    ensures Remaining(strength, None, 1.0) == 1.0 - strength
    ensures forall eta :: Kept(None, 1.0, eta) == eta
  {
    var loss := baseline * (ratePct / 100.0);
    assert 1.0 - Remaining(strength, None, 1.0) == strength;
    DivideSum(baseline, loss, strength);
  }

  lemma ScaledQuotient(a: real, b: real, c: real)
    requires c > 0.0
    ensures a * b / c == a * (b / c)
  {
    var q := b / c;
    assert q * c == b;
    assert a * b == (a * q) * c;
    Rounding.CancelScale(a * q, c);
  }

  lemma DivideSum(a: real, b: real, c: real)
    requires c > 0.0
    ensures (a * c + b) / c == a + b / c
  {
    var q, r := (a * c + b) / c, b / c;
    assert q * c == a * c + b && r * c == b;
    assert (q - a - r) * c == 0.0;
  }

  lemma LevelOfTarget(baseline: real, targetPct: real, strength: real)
    requires 0.0 < strength <= 1.0
    ensures Level(baseline, 0.0, Some(targetPct), 1.0, strength) == Mixture(baseline, targetPct, strength)
    ensures Remaining(strength, Some(targetPct), 1.0) == 0.65 * (1.0 - strength)
    ensures forall eta :: Kept(Some(targetPct), 1.0, eta) == 0.65 * eta
  {
    var t, whole, pull := targetPct / 100.0, 1.0 - 0.65 * (1.0 - strength), Pull(Some(targetPct), 1.0);
    var sum := 0.65 * (baseline * strength + baseline * (0.0 / 100.0) * 1.0) + 0.35 * (baseline * t);
    assert pull == 0.35 && Remaining(strength, Some(targetPct), 1.0) == 0.65 * (1.0 - strength);
    assert sum == baseline * (0.65 * strength + 0.35 * t) by {
      assert baseline * (0.0 / 100.0) * 1.0 == 0.0;
      assert 0.65 * (baseline * strength) == baseline * (0.65 * strength);
      assert 0.35 * (baseline * t) == baseline * (0.35 * t);
    }
    assert Level(baseline, 0.0, Some(targetPct), 1.0, strength) == sum / whole;
    ScaledQuotient(baseline, 0.65 * strength + 0.35 * t, whole);
  }

  // ---------------------------------------------------------------- many ticks

  function Pow(q: real, k: nat): real {
    if k == 0 then 1.0 else q * Pow(q, k - 1)
  }

  /** 1 + q + ... + q^(k-1). */
  function Geometric(q: real, k: nat): real {
    if k == 0 then 0.0 else q * Geometric(q, k - 1) + 1.0
  }

  lemma {:induction false} GeometricClosed(q: real, k: nat)
    ensures Geometric(q, k) * (1.0 - q) == 1.0 - Pow(q, k)
  {
    if k > 0 {
      GeometricClosed(q, k - 1);
      var g := Geometric(q, k - 1);
      assert (q * g + 1.0) * (1.0 - q) == q * (g * (1.0 - q)) + (1.0 - q);
    }
  }

  /** The distance to the baseline a healthy quantity can have after `k` ticks of noise up to `eta`. */
  function HealthyBound(q: real, start: real, eta: real, k: nat): real {
    Pow(q, k) * start + eta * Geometric(q, k)
  }

  lemma HealthyBoundStep(q: real, start: real, eta: real, k: nat)
    ensures HealthyBound(q, start, eta, k + 1) == q * HealthyBound(q, start, eta, k) + eta
  {
    var p, g := Pow(q, k), Geometric(q, k);
    assert q * p * start == q * (p * start);
    assert eta * (q * g + 1.0) == q * (eta * g) + eta;
  }
}
