/**
  How far the simulated pressure can go over whole runs: a healthy cluster returns to its baseline, a leak or a
  pump failure pulls it down only so far, and a frozen sensor holds its snapshot until the fault is cleared.
 */
module SimulatorBounds {
  import opened Wrappers
  import opened Faults
  import opened Physics
  import opened Simulator
  import Rounding

  // ---------------------------------------------------------------- healthy clusters

  function TicksAfter(topo: Topology, s: Sim, noises: seq<Cluster -> Noise>): (t: Sim)
    requires Shaped(topo, s)
    ensures Shaped(topo, t) && t.active.Keys == s.active.Keys
  {
    if noises == [] then s else Ticked(topo, TicksAfter(topo, s, noises[..|noises| - 1]), noises[|noises| - 1])
  }

  predicate QuietAt(noises: seq<Cluster -> Noise>, c: Cluster, etaPressure: real, etaFlow: real) {
    forall i :: 0 <= i < |noises| ==> Abs(noises[i](c).pressure) <= etaPressure && Abs(noises[i](c).flow) <= etaFlow
  }

  /** The true pressure and flow are within these distances of these levels. */
  predicate Near(cs: ClusterState, pressure: real, flow: real, p: real, q: real) {
    Abs(cs.truePressure - pressure) <= p && Abs(cs.trueFlow - flow) <= q
  }

  lemma NearAtStart(cs: ClusterState, pressure: real, flow: real)
    ensures Near(cs, pressure, flow, Abs(cs.truePressure - pressure), Abs(cs.trueFlow - flow))
  {
  }

  /** A healthy cluster's errors after one more tick. */
  lemma HealthyStep(topo: Topology, s: Sim, noise: Cluster -> Noise, c: Cluster, p: real, q: real, etaPressure: real, etaFlow: real)
    requires Shaped(topo, s) && c in topo && c !in s.active
    requires Abs(noise(c).pressure) <= etaPressure && Abs(noise(c).flow) <= etaFlow
    requires Near(s.clusters[c], topo[c].baselinePressure, topo[c].baselineFlow, p, q)
    ensures Near(Ticked(topo, s, noise).clusters[c], topo[c].baselinePressure, topo[c].baselineFlow,
                 0.85 * p + etaPressure, 0.82 * q + etaFlow)
  {
    hide Abs;
    ErrorStep(s.clusters[c].truePressure, topo[c].baselinePressure, PRESSURE_STRENGTH, noise(c).pressure, p, etaPressure);
    ErrorStep(s.clusters[c].trueFlow, topo[c].baselineFlow, FLOW_STRENGTH, noise(c).flow, q, etaFlow);
  }

  /**
    After `k` ticks without a fault the pressure error is at most 0.85^k of the first one plus the noise that can
    pile up, and the flow error likewise with 0.82.
   */
  lemma {:induction false} HealthyReturnsToBaseline(
      topo: Topology, s: Sim, noises: seq<Cluster -> Noise>, c: Cluster, etaPressure: real, etaFlow: real)
    requires Shaped(topo, s) && c in topo && c !in s.active && QuietAt(noises, c, etaPressure, etaFlow)
    ensures var p0, q0 := Abs(s.clusters[c].truePressure - topo[c].baselinePressure), Abs(s.clusters[c].trueFlow - topo[c].baselineFlow);
            Near(TicksAfter(topo, s, noises).clusters[c], topo[c].baselinePressure, topo[c].baselineFlow,
                 HealthyBound(0.85, p0, etaPressure, |noises|), HealthyBound(0.82, q0, etaFlow, |noises|))
  {
    hide Ticked, HealthyBound, Abs, Near;
    var p0, q0 := Abs(s.clusters[c].truePressure - topo[c].baselinePressure), Abs(s.clusters[c].trueFlow - topo[c].baselineFlow);
    if noises == [] {
      NearAtStart(s.clusters[c], topo[c].baselinePressure, topo[c].baselineFlow);
      HealthyBoundStart(0.85, p0, etaPressure);
      HealthyBoundStart(0.82, q0, etaFlow);
    } else {
      var k := |noises| - 1;
      HealthyReturnsToBaseline(topo, s, noises[..k], c, etaPressure, etaFlow);
      HealthyStep(topo, TicksAfter(topo, s, noises[..k]), noises[k], c,
                  HealthyBound(0.85, p0, etaPressure, k), HealthyBound(0.82, q0, etaFlow, k), etaPressure, etaFlow);
      HealthyBoundStep(0.85, p0, etaPressure, k);
      HealthyBoundStep(0.82, q0, etaFlow, k);
    }
  }

  lemma HealthyBoundStart(q: real, start: real, eta: real)
    ensures HealthyBound(q, start, eta, 0) == start
  {
  }

  /** The bound in closed form. */
  lemma HealthyBoundClosed(q: real, start: real, eta: real, k: nat)
    requires 0.0 <= q < 1.0
    ensures HealthyBound(q, start, eta, k) == Pow(q, k) * start + eta * ((1.0 - Pow(q, k)) / (1.0 - q))
  {
    GeometricClosed(q, k);
    var g := Geometric(q, k);
    hide Pow, Geometric;
    Rounding.CancelScale(g, 1.0 - q);
    assert (1.0 - Pow(q, k)) / (1.0 - q) == g;
  }

  // ---------------------------------------------------------------- where a fault settles

  /** A fault that has reached its full effect by the next tick; its levels are not below zero. */
  predicate Developed(f: ActiveFault) {
    && RampFactor(Aged(f)) == 1.0
    && f.effect.pressureRate >= -15.0 && f.effect.flowRate >= -18.0
    && (f.effect.pressureTarget.Some? ==> f.effect.pressureTarget.value >= 0.0)
    && (f.effect.flowTarget.Some? ==> f.effect.flowTarget.value >= 0.0)
  }

  /** Where the cluster's pressure and flow come to rest under the fault. */
  function LevelsOf(seg: Segment, e: FaultEffect): (real, real) {
    (Level(seg.baselinePressure, e.pressureRate, e.pressureTarget, 1.0, PRESSURE_STRENGTH),
     Level(seg.baselineFlow, e.flowRate, e.flowTarget, 1.0, FLOW_STRENGTH))
  }

  lemma LevelIsPositive(baseline: real, ratePct: real, target: Option<real>, strength: real)
    requires baseline >= 0.0 && 0.0 < strength <= 1.0 && ratePct / 100.0 >= -strength
    requires target.Some? ==> target.value >= 0.0
    ensures Level(baseline, ratePct, target, 1.0, strength) >= 0.0
  {
    var pull := Pull(target, 1.0);
    LevelForm(baseline, ratePct, target, 1.0, strength);
    RemainsLess(strength, target, 1.0);
    MulLe(baseline, -strength, ratePct / 100.0);
    assert baseline * -strength == -(baseline * strength);
    if target.Some? {
      MulLe(baseline, 0.0, target.value / 100.0);
    }
    hide Level, Remaining;
    MulLe(1.0 - pull, 0.0, baseline * strength + baseline * (ratePct / 100.0) * 1.0);
    MulLe(pull, 0.0, Goal(baseline, target));
    NotBelowZero(Level(baseline, ratePct, target, 1.0, strength), 1.0 - Remaining(strength, target, 1.0));
  }

  lemma NotBelowZero(level: real, part: real)
    requires level * part >= 0.0 && part > 0.0
    ensures level >= 0.0
  {
  }

  lemma DevelopedTick(topo: Topology, s: Sim, noise: Cluster -> Noise, c: Cluster, p: real, q: real, etaPressure: real, etaFlow: real)
    requires Shaped(topo, s) && c in topo && c in s.active && Developed(s.active[c])
    requires topo[c].baselinePressure >= 0.0 && topo[c].baselineFlow >= 0.0
    requires Abs(noise(c).pressure) <= etaPressure && Abs(noise(c).flow) <= etaFlow
    requires var rest := LevelsOf(topo[c], s.active[c].effect); Near(s.clusters[c], rest.0, rest.1, p, q)
    ensures var t, e := Ticked(topo, s, noise), s.active[c].effect;
            var rest := LevelsOf(topo[c], e);
            && c in t.active && t.active[c].effect == e && Developed(t.active[c])
            && Near(t.clusters[c], rest.0, rest.1,
                    Shrunk(PRESSURE_STRENGTH, e.pressureTarget, 1.0, p, etaPressure),
                    Shrunk(FLOW_STRENGTH, e.flowTarget, 1.0, q, etaFlow))
  {
    hide Abs, Level, Affected, MeanRevert, ReadingOf, Pushed, RampFactor, Shrunk;
    var e := s.active[c].effect;
    RampGrows(Aged(s.active[c]));
    LevelIsPositive(topo[c].baselinePressure, e.pressureRate, e.pressureTarget, PRESSURE_STRENGTH);
    LevelIsPositive(topo[c].baselineFlow, e.flowRate, e.flowTarget, FLOW_STRENGTH);
    StepTowardsLevel(s.clusters[c].truePressure, topo[c].baselinePressure, e.pressureRate, e.pressureTarget, 1.0,
                     PRESSURE_STRENGTH, noise(c).pressure, p, etaPressure);
    StepTowardsLevel(s.clusters[c].trueFlow, topo[c].baselineFlow, e.flowRate, e.flowTarget, 1.0,
                     FLOW_STRENGTH, noise(c).flow, q, etaFlow);
  }

  /** What is left, after `k` ticks, of the distances to the levels, noise included. */
  function SettlingBounds(e: FaultEffect, p0: real, q0: real, etaPressure: real, etaFlow: real, k: nat): (real, real) {
    (HealthyBound(Remaining(PRESSURE_STRENGTH, e.pressureTarget, 1.0), p0, Kept(e.pressureTarget, 1.0, etaPressure), k),
     HealthyBound(Remaining(FLOW_STRENGTH, e.flowTarget, 1.0), q0, Kept(e.flowTarget, 1.0, etaFlow), k))
  }

  lemma SettlingStep(e: FaultEffect, p0: real, q0: real, etaPressure: real, etaFlow: real, k: nat)
    ensures SettlingBounds(e, p0, q0, etaPressure, etaFlow, 0) == (p0, q0)
    ensures var now, next := SettlingBounds(e, p0, q0, etaPressure, etaFlow, k), SettlingBounds(e, p0, q0, etaPressure, etaFlow, k + 1);
            && next.0 == Shrunk(PRESSURE_STRENGTH, e.pressureTarget, 1.0, now.0, etaPressure)
            && next.1 == Shrunk(FLOW_STRENGTH, e.flowTarget, 1.0, now.1, etaFlow)
  {
    hide Remaining, Kept, HealthyBound;
    HealthyBoundStart(Remaining(PRESSURE_STRENGTH, e.pressureTarget, 1.0), p0, Kept(e.pressureTarget, 1.0, etaPressure));
    HealthyBoundStart(Remaining(FLOW_STRENGTH, e.flowTarget, 1.0), q0, Kept(e.flowTarget, 1.0, etaFlow));
    HealthyBoundStep(Remaining(PRESSURE_STRENGTH, e.pressureTarget, 1.0), p0, Kept(e.pressureTarget, 1.0, etaPressure), k);
    HealthyBoundStep(Remaining(FLOW_STRENGTH, e.flowTarget, 1.0), q0, Kept(e.flowTarget, 1.0, etaFlow), k);
  }

  /**
    A developed fault, of rates, targets or both, brings pressure and flow to rest at its levels: every tick leaves only a fixed
    part of the distance, plus its noise.
   */
  lemma {:induction false} FaultSettles(
      topo: Topology, s: Sim, noises: seq<Cluster -> Noise>, c: Cluster, etaPressure: real, etaFlow: real)
    requires Shaped(topo, s) && c in topo && c in s.active && Developed(s.active[c])
    requires topo[c].baselinePressure >= 0.0 && topo[c].baselineFlow >= 0.0
    requires QuietAt(noises, c, etaPressure, etaFlow)
    ensures var t, e := TicksAfter(topo, s, noises), s.active[c].effect;
            var rest := LevelsOf(topo[c], e);
            var p0, q0 := Abs(s.clusters[c].truePressure - rest.0), Abs(s.clusters[c].trueFlow - rest.1);
            var left := SettlingBounds(e, p0, q0, etaPressure, etaFlow, |noises|);
            && c in t.active && t.active[c].effect == e && Developed(t.active[c])
            && Near(t.clusters[c], rest.0, rest.1, left.0, left.1)
  {
    hide Ticked, SettlingBounds, Abs, LevelsOf, Developed, Near, Shrunk;
    var e := s.active[c].effect;
    var rest := LevelsOf(topo[c], e);
    var p0, q0 := Abs(s.clusters[c].truePressure - rest.0), Abs(s.clusters[c].trueFlow - rest.1);
    if noises == [] {
      NearAtStart(s.clusters[c], rest.0, rest.1);
      SettlingStep(e, p0, q0, etaPressure, etaFlow, 0);
    } else {
      var k := |noises| - 1;
      var now := SettlingBounds(e, p0, q0, etaPressure, etaFlow, k);
      FaultSettles(topo, s, noises[..k], c, etaPressure, etaFlow);
      SettlingStep(e, p0, q0, etaPressure, etaFlow, k);
      DevelopedTick(topo, TicksAfter(topo, s, noises[..k]), noises[k], c, now.0, now.1, etaPressure, etaFlow);
    }
  }

  /** A fault that only has rates and has reached its full effect by the next tick. */
  predicate FullRates(f: ActiveFault) {
    f.effect.pressureTarget == None && f.effect.flowTarget == None && Developed(f)
  }

  /** Where the cluster's pressure and flow come to rest under a fault of rates. */
  function RestOf(seg: Segment, e: FaultEffect): (real, real) {
    (RestingLevel(seg.baselinePressure, e.pressureRate, PRESSURE_STRENGTH),
     RestingLevel(seg.baselineFlow, e.flowRate, FLOW_STRENGTH))
  }

  lemma RatesLead(seg: Segment, e: FaultEffect)
    requires e.pressureTarget == None && e.flowTarget == None
    ensures LevelsOf(seg, e) == RestOf(seg, e)
  {
    LevelOfRate(seg.baselinePressure, e.pressureRate, PRESSURE_STRENGTH);
    LevelOfRate(seg.baselineFlow, e.flowRate, FLOW_STRENGTH);
    hide Level, RestingLevel;
  }

  lemma RatesShrink(e: FaultEffect, p0: real, q0: real, etaPressure: real, etaFlow: real, k: nat)
    requires e.pressureTarget == None && e.flowTarget == None
    ensures SettlingBounds(e, p0, q0, etaPressure, etaFlow, k) == (HealthyBound(0.85, p0, etaPressure, k), HealthyBound(0.82, q0, etaFlow, k))
  {
    LevelOfRate(0.0, 0.0, PRESSURE_STRENGTH);
    LevelOfRate(0.0, 0.0, FLOW_STRENGTH);
    hide HealthyBound, Level, RestingLevel, Remaining, Kept;
  }

  /**
    A developed leak comes to rest: pressure at `b(1 + rate/15)` and flow at `b(1 + rate/18)`, approached as fast as a
    healthy cluster approaches its baseline. So the bounds on leaks below are limits as well.
   */
  lemma LeakSettles(topo: Topology, s: Sim, noises: seq<Cluster -> Noise>, c: Cluster, etaPressure: real, etaFlow: real)
    requires Shaped(topo, s) && c in topo && c in s.active && FullRates(s.active[c])
    requires topo[c].baselinePressure >= 0.0 && topo[c].baselineFlow >= 0.0
    requires QuietAt(noises, c, etaPressure, etaFlow)
    ensures var t, rest := TicksAfter(topo, s, noises), RestOf(topo[c], s.active[c].effect);
            var p0, q0 := Abs(s.clusters[c].truePressure - rest.0), Abs(s.clusters[c].trueFlow - rest.1);
            && c in t.active && t.active[c].effect == s.active[c].effect && FullRates(t.active[c])
            && Near(t.clusters[c], rest.0, rest.1,
                    HealthyBound(0.85, p0, etaPressure, |noises|), HealthyBound(0.82, q0, etaFlow, |noises|))
  {
    hide TicksAfter, HealthyBound, Abs, LevelsOf, RestOf, Near, SettlingBounds, QuietAt, Developed, Shaped;
    var e := s.active[c].effect;
    RatesLead(topo[c], e);
    forall p0, q0 {
      RatesShrink(e, p0, q0, etaPressure, etaFlow, |noises|);
    }
    FaultSettles(topo, s, noises, c, etaPressure, etaFlow);
  }

  /** A fault that only pulls and has reached its full effect by the next tick. */
  predicate FullTargets(f: ActiveFault, pressureTarget: real, flowTarget: Option<real>) {
    f.effect == Targets(Some(pressureTarget), flowTarget, f.effect.onset, f.effect.rampTicks) && Developed(f)
  }

  /** The mixtures a pressure and a flow target lead to. */
  function MixturesOf(seg: Segment, pressureTarget: real, flowTarget: real): (real, real) {
    (Mixture(seg.baselinePressure, pressureTarget, PRESSURE_STRENGTH), Mixture(seg.baselineFlow, flowTarget, FLOW_STRENGTH))
  }

  lemma TargetsLead(seg: Segment, e: FaultEffect, pressureTarget: real, flowTarget: real)
    requires e.pressureTarget == Some(pressureTarget) && e.flowTarget == Some(flowTarget) && e.pressureRate == e.flowRate == 0.0
    ensures LevelsOf(seg, e) == MixturesOf(seg, pressureTarget, flowTarget)
  {
    LevelOfTarget(seg.baselinePressure, pressureTarget, PRESSURE_STRENGTH);
    LevelOfTarget(seg.baselineFlow, flowTarget, FLOW_STRENGTH);
    hide Level, Mixture;
  }

  lemma TargetsShrink(e: FaultEffect, p0: real, q0: real, etaPressure: real, etaFlow: real, k: nat)
    requires e.pressureTarget.Some? && e.flowTarget.Some?
    ensures SettlingBounds(e, p0, q0, etaPressure, etaFlow, k)
         == (HealthyBound(0.5525, p0, 0.65 * etaPressure, k), HealthyBound(0.533, q0, 0.65 * etaFlow, k))
  {
    LevelOfTarget(0.0, e.pressureTarget.value, PRESSURE_STRENGTH);
    LevelOfTarget(0.0, e.flowTarget.value, FLOW_STRENGTH);
    hide HealthyBound, Level, Remaining, Kept;
  }

  /**
    A developed pump failure, pressure spike or stuck valve moves the cluster to a fixed mixture of baseline and target, without
    noise by 0.5525 of the distance left after each tick for the pressure, and 0.533 for the flow if it is targeted.
   */
  lemma TargetSettles(topo: Topology, s: Sim, noises: seq<Cluster -> Noise>, c: Cluster,
                      pressureTarget: real, flowTarget: real, etaPressure: real, etaFlow: real)
    requires Shaped(topo, s) && c in topo && c in s.active && FullTargets(s.active[c], pressureTarget, Some(flowTarget))
    requires topo[c].baselinePressure >= 0.0 && topo[c].baselineFlow >= 0.0
    requires QuietAt(noises, c, etaPressure, etaFlow)
    ensures var cs := TicksAfter(topo, s, noises).clusters[c];
            var rest := MixturesOf(topo[c], pressureTarget, flowTarget);
            var p0, q0 := Abs(s.clusters[c].truePressure - rest.0), Abs(s.clusters[c].trueFlow - rest.1);
            Near(cs, rest.0, rest.1,
                 HealthyBound(0.5525, p0, 0.65 * etaPressure, |noises|), HealthyBound(0.533, q0, 0.65 * etaFlow, |noises|))
  {
    hide TicksAfter, HealthyBound, Abs, LevelsOf, Near, SettlingBounds, QuietAt, Developed, Shaped;
    var e := s.active[c].effect;
    TargetsLead(topo[c], e, pressureTarget, flowTarget);
    forall p0, q0 {
      TargetsShrink(e, p0, q0, etaPressure, etaFlow, |noises|);
    }
    FaultSettles(topo, s, noises, c, etaPressure, etaFlow);
  }

  /** Where every target of the fault library leads, as a share of the baseline. */
  lemma WhereTargetsLead(b: real)
    ensures Level(b, 0.0, DEFAULTS["pump_failure"].pressureTarget, 1.0, PRESSURE_STRENGTH) == b * (1325.0 / 4475.0)
    ensures Level(b, 0.0, DEFAULTS["pump_failure"].flowTarget, 1.0, FLOW_STRENGTH) == b * (1345.0 / 4670.0)
    ensures Level(b, 0.0, DEFAULTS["pressure_spike"].pressureTarget, 1.0, PRESSURE_STRENGTH) == b * (5875.0 / 4475.0)
    ensures Level(b, 0.0, DEFAULTS["valve_stuck_open"].pressureTarget, 1.0, PRESSURE_STRENGTH) == b * (3425.0 / 4475.0)
    ensures Level(b, 0.0, DEFAULTS["valve_stuck_open"].flowTarget, 1.0, FLOW_STRENGTH) == b * (6770.0 / 4670.0)
    ensures Level(b, 0.0, DEFAULTS["valve_stuck_closed"].pressureTarget, 1.0, PRESSURE_STRENGTH) == b * (7275.0 / 4475.0)
    ensures Level(b, 0.0, DEFAULTS["valve_stuck_closed"].flowTarget, 1.0, FLOW_STRENGTH) == b * (1345.0 / 4670.0)
  {
    LevelOfTarget(b, 10.0, PRESSURE_STRENGTH);
    LevelOfTarget(b, 5.0, FLOW_STRENGTH);
    LevelOfTarget(b, 140.0, PRESSURE_STRENGTH);
    LevelOfTarget(b, 70.0, PRESSURE_STRENGTH);
    LevelOfTarget(b, 160.0, FLOW_STRENGTH);
    LevelOfTarget(b, 180.0, PRESSURE_STRENGTH);
    hide Level;
  }

  lemma RestAsShare(b: real, ratePct: real)
    ensures RestingLevel(b, ratePct, PRESSURE_STRENGTH) == b * ((15.0 + ratePct) / 15.0)
    ensures RestingLevel(b, ratePct, FLOW_STRENGTH) == b * ((18.0 + ratePct) / 18.0)
  {
  }

  /** And where every rate of the fault library leads: a pipe rupture to no pressure at all. */
  lemma WhereRatesLead(b: real)
    ensures RestingLevel(b, LEAK["small"].pressureRate, PRESSURE_STRENGTH) == b * (14.2 / 15.0)
    ensures RestingLevel(b, LEAK["small"].flowRate, FLOW_STRENGTH) == b * (19.2 / 18.0)
    ensures RestingLevel(b, LEAK["medium"].pressureRate, PRESSURE_STRENGTH) == b * (12.5 / 15.0)
    ensures RestingLevel(b, LEAK["medium"].flowRate, FLOW_STRENGTH) == b * (22.0 / 18.0)
    ensures RestingLevel(b, LEAK["large"].pressureRate, PRESSURE_STRENGTH) == b * (9.0 / 15.0)
    ensures RestingLevel(b, LEAK["large"].flowRate, FLOW_STRENGTH) == b * (27.0 / 18.0)
    ensures RestingLevel(b, DEFAULTS["pipe_rupture"].pressureRate, PRESSURE_STRENGTH) == 0.0
    ensures RestingLevel(b, DEFAULTS["pipe_rupture"].flowRate, FLOW_STRENGTH) == b * (38.0 / 18.0)
    ensures RestingLevel(b, DEFAULTS["pressure_drop"].pressureRate, PRESSURE_STRENGTH) == b * (13.5 / 15.0)
    ensures RestingLevel(b, DEFAULTS["pump_degradation"].pressureRate, PRESSURE_STRENGTH) == b * (14.4 / 15.0)
    ensures RestingLevel(b, DEFAULTS["pump_degradation"].flowRate, FLOW_STRENGTH) == b * (17.4 / 18.0)
    ensures RestingLevel(b, DEFAULTS["high_flow"].flowRate, FLOW_STRENGTH) == b * (21.0 / 18.0)
    ensures RestingLevel(b, DEFAULTS["low_flow"].flowRate, FLOW_STRENGTH) == b * (15.0 / 18.0)
    ensures RestingLevel(b, DEFAULTS["pressure_drop"].flowRate, FLOW_STRENGTH) == b
    ensures RestingLevel(b, DEFAULTS["high_flow"].pressureRate, PRESSURE_STRENGTH) == b
    ensures RestingLevel(b, DEFAULTS["low_flow"].pressureRate, PRESSURE_STRENGTH) == b
    ensures forall t :: t in {"network_loss", "sensor_failure", "sensor_drift", "sensor_comm_loss", "thermal_cell_degradation"} ==>
              t in DEFAULTS && DEFAULTS[t].pressureTarget == DEFAULTS[t].flowTarget == None
              && RestingLevel(b, DEFAULTS[t].pressureRate, PRESSURE_STRENGTH) == b && RestingLevel(b, DEFAULTS[t].flowRate, FLOW_STRENGTH) == b
  {
    forall rate {
      RestAsShare(b, rate);
    }
    hide RestingLevel;
  }

  /**
    How sensors fail: one reports zero, one stands still, one drifts by a tenth of the baseline pressure in 25 ticks, the
    overheated one in five; every other fault leaves the reports alone.
   */
  lemma HowSensorsFail(b: real)
    ensures DEFAULTS["sensor_failure"].sensorMode == Flatline && DEFAULTS["sensor_comm_loss"].sensorMode == Freeze
    ensures DEFAULTS["sensor_drift"].sensorMode == DEFAULTS["thermal_cell_degradation"].sensorMode == Drift
    ensures DriftAfter(b * (DEFAULTS["sensor_drift"].driftPct / 100.0), 25) == b / 10.0
    ensures DriftAfter(b * (DEFAULTS["thermal_cell_degradation"].driftPct / 100.0), 5) == b / 10.0
    ensures forall m :: m in LEAK ==> LEAK[m].sensorMode == Faithful
    ensures forall t :: t in DEFAULTS && t !in {"sensor_failure", "sensor_comm_loss", "sensor_drift", "thermal_cell_degradation"} ==>
              DEFAULTS[t].sensorMode == Faithful
  {
  }

  /** The tick from which a scenario has its full effect. */
  function CompleteFrom(f: ActiveFault): nat {
    match f.faultType
    case "leak" => (match f.magnitude case "small" => 8 case "medium" => 5 case _ => 0)
    case "pressure_drop" => 10
    case "pump_degradation" => 20
    case "valve_stuck_open" => 4
    case "valve_stuck_closed" => 4
    case "sensor_drift" => 1
    case "high_flow" => 6
    case "low_flow" => 6
    case "network_loss" => 5
    case "thermal_cell_degradation" => 5
    case _ => 0
  }

  /** Every scenario of the library is complete from its own tick on and not before. */
  lemma WhenScenariosAreComplete(faultType: string, magnitude: string, c: Cluster, ticks: nat)
    requires BuildFault(faultType, magnitude, c).Built?
    ensures var f := BuildFault(faultType, magnitude, c).fault.(ticksElapsed := ticks);
            RampFactor(f) == 1.0 <==> ticks >= CompleteFrom(f)
  {
    var f := BuildFault(faultType, magnitude, c).fault.(ticksElapsed := ticks);
    WhatCanBeBuilt(faultType, magnitude, c);
    CompleteExactly(f);
  }

  lemma CompleteExactly(f: ActiveFault)
    ensures RampFactor(f) == 1.0 <==> f.effect.onset.Sudden? || f.ticksElapsed >= (if f.effect.rampTicks > 1 then f.effect.rampTicks else 1)
  {
  }

  // ---------------------------------------------------------------- leaks and pump failures over whole runs

  /** What a run does to one cluster: its noise satisfies `calm`, and its faults satisfy `allowed`. */
  predicate Gentle(cmds: seq<Command>, c: Cluster, calm: Noise -> bool, allowed: FaultEffect -> bool) {
    forall i :: 0 <= i < |cmds| ==> GentleCommand(cmds[i], c, calm, allowed)
  }

  predicate GentleCommand(cmd: Command, c: Cluster, calm: Noise -> bool, allowed: FaultEffect -> bool) {
    match cmd
    case Tick(noise) => calm(noise(c))
    case InjectFault(faultType, magnitude, d) =>
      d == c && BuildFault(faultType, magnitude, d).Built? ==> allowed(BuildFault(faultType, magnitude, d).fault.effect)
    case _ => true
  }

  predicate IsSmallLeak(e: FaultEffect) {
    e == LEAK["small"]
  }

  predicate IsPumpFailure(e: FaultEffect) {
    e == DEFAULTS["pump_failure"]
  }

  function CalmPressure(eta: real): Noise -> bool {
    (n: Noise) => Abs(n.pressure) <= eta
  }

  function CalmFlow(eta: real): Noise -> bool {
    (n: Noise) => Abs(n.flow) <= eta
  }

  function FlowRatesWithin(low: real, high: real): FaultEffect -> bool {
    e => FlowRateWithin(e, low, high)
  }

  function RatesAbove(worst: real): FaultEffect -> bool {
    e => RateOnly(e, worst)
  }

  function TargetsAbove(worst: real): FaultEffect -> bool {
    e => TargetOnly(e, worst)
  }

  predicate FaultAllowed(s: Sim, c: Cluster, allowed: FaultEffect -> bool) {
    c in s.active ==> allowed(s.active[c].effect)
  }

  lemma {:induction false} AllClearedKeeps(topo: Topology, s: Sim, order: seq<Cluster>, c: Cluster)
    requires Shaped(topo, s) && c in topo
    ensures var t := AllCleared(s, order);
            && c in t.clusters && t.clusters[c].truePressure == s.clusters[c].truePressure
            && t.clusters[c].trueFlow == s.clusters[c].trueFlow
            && (c in t.active ==> c in s.active && t.active[c] == s.active[c])
  {
    AllClearedShape(topo, s, order);
    if order != [] {
      AllClearedShape(topo, s, order[..|order| - 1]);
      AllClearedKeeps(topo, s, order[..|order| - 1], c);
    }
  }

  /** One command moves the true pressure and flow only by a tick or a reset, and keeps the faults allowed. */
  lemma TruthOnlyMovesByTicks(topo: Topology, s: Sim, cmd: Command, c: Cluster, calm: Noise -> bool, allowed: FaultEffect -> bool)
    requires Shaped(topo, s) && c in topo && GentleCommand(cmd, c, calm, allowed) && FaultAllowed(s, c, allowed)
    ensures var t := After(topo, s, cmd);
            && c in t.clusters && FaultAllowed(t, c, allowed)
            && (cmd.Tick? ==>
                  t.clusters[c].truePressure
                  == PressureAfter(topo[c], s.clusters[c].truePressure, AgedFaultOf(s, c), cmd.noise(c).pressure))
            && (cmd.Tick? ==>
                  t.clusters[c].trueFlow
                  == FlowAfter(topo[c], s.clusters[c].trueFlow, AgedFaultOf(s, c), cmd.noise(c).flow))
            && (cmd.Reset? ==> t.clusters[c].truePressure == topo[c].baselinePressure && t.clusters[c].trueFlow == topo[c].baselineFlow)
            && (!cmd.Tick? && !cmd.Reset? ==>
                  t.clusters[c].truePressure == s.clusters[c].truePressure && t.clusters[c].trueFlow == s.clusters[c].trueFlow)
  {
    hide PressureAfter, FlowAfter, BuildFault, ReadingOf, Pushed;
    AfterShape(topo, s, cmd);
    if cmd.ClearAllFaults? {
      AllClearedKeeps(topo, s, cmd.order, c);
    }
  }

  /**
    However often rate faults of at least `worst` percent a tick are injected and cleared, the pressure never
    leaves the band from `b(1 + worst/15) - eta/0.15` to `b + eta/0.15`.
   */
  lemma {:induction false} RateFaultsStayInBand(topo: Topology, cmds: seq<Command>, c: Cluster, worst: real, eta: real)
    requires c in topo && topo[c].baselinePressure >= 0.0 && worst <= 0.0 && eta >= 0.0
    requires Gentle(cmds, c, CalmPressure(eta), RatesAbove(worst))
    ensures c in Run(topo, cmds).clusters && FaultAllowed(Run(topo, cmds), c, RatesAbove(worst))
    ensures RateFloor(topo[c].baselinePressure, worst, eta) <= Run(topo, cmds).clusters[c].truePressure
              <= RateCeiling(topo[c].baselinePressure, eta)
  {
    hide PressureAfter, After;
    var allowed := RatesAbove(worst);
    var b := topo[c].baselinePressure;
    assert RateFloor(b, worst, eta) <= b <= RateCeiling(b, eta) by {
      FloorForm(b, worst, eta);
      MulLe(b, worst / 100.0, 0.0);
    }
    if cmds != [] {
      var s, cmd := Run(topo, cmds[..|cmds| - 1]), cmds[|cmds| - 1];
      RateFaultsStayInBand(topo, cmds[..|cmds| - 1], c, worst, eta);
      assert GentleCommand(cmd, c, CalmPressure(eta), allowed);
      TruthOnlyMovesByTicks(topo, s, cmd, c, CalmPressure(eta), allowed);
      if cmd.Tick? {
        RateKeepsBand(topo[c], s.clusters[c].truePressure, AgedFaultOf(s, c), cmd.noise(c).pressure, worst, eta);
      }
    }
  }

  /**
    Likewise the flow, for rate faults between `low` and `high` percent a tick: from `b(1 + low/18) - eta/0.18` to
    `b(1 + high/18) + eta/0.18`.
   */
  lemma {:induction false} FlowFaultsStayInBand(topo: Topology, cmds: seq<Command>, c: Cluster, low: real, high: real, eta: real)
    requires c in topo && topo[c].baselineFlow >= 0.0 && low <= 0.0 <= high && eta >= 0.0
    requires Gentle(cmds, c, CalmFlow(eta), FlowRatesWithin(low, high))
    ensures c in Run(topo, cmds).clusters && FaultAllowed(Run(topo, cmds), c, FlowRatesWithin(low, high))
    ensures RestingLevel(topo[c].baselineFlow, low, FLOW_STRENGTH) - eta / 0.18 <= Run(topo, cmds).clusters[c].trueFlow
              <= RestingLevel(topo[c].baselineFlow, high, FLOW_STRENGTH) + eta / 0.18
  {
    hide FlowAfter, PressureAfter, After;
    var allowed := FlowRatesWithin(low, high);
    FlowChangeBounds(topo[c].baselineFlow, None, low, high);
    if cmds != [] {
      var s, cmd := Run(topo, cmds[..|cmds| - 1]), cmds[|cmds| - 1];
      FlowFaultsStayInBand(topo, cmds[..|cmds| - 1], c, low, high, eta);
      assert GentleCommand(cmd, c, CalmFlow(eta), allowed);
      TruthOnlyMovesByTicks(topo, s, cmd, c, CalmFlow(eta), allowed);
      if cmd.Tick? {
        FlowKeepsBand(topo[c], s.clusters[c].trueFlow, AgedFaultOf(s, c), cmd.noise(c).flow, low, high, eta);
      }
    }
  }

  /** Without noise, faults that only pull towards `worst` percent or more leave this floor standing. */
  lemma {:induction false} TargetsStayAboveFloor(topo: Topology, cmds: seq<Command>, c: Cluster, worst: real)
    requires c in topo && topo[c].baselinePressure >= 0.0 && worst <= 100.0
    requires Gentle(cmds, c, CalmPressure(0.0), TargetsAbove(worst))
    ensures c in Run(topo, cmds).clusters && FaultAllowed(Run(topo, cmds), c, TargetsAbove(worst))
    ensures Mixture(topo[c].baselinePressure, worst, PRESSURE_STRENGTH) <= Run(topo, cmds).clusters[c].truePressure
  {
    hide PressureAfter, After, Mixture;
    var allowed := TargetsAbove(worst);
    TargetFloorForm(topo[c].baselinePressure, worst);
    if cmds != [] {
      var s, cmd := Run(topo, cmds[..|cmds| - 1]), cmds[|cmds| - 1];
      TargetsStayAboveFloor(topo, cmds[..|cmds| - 1], c, worst);
      assert GentleCommand(cmd, c, CalmPressure(0.0), allowed);
      TruthOnlyMovesByTicks(topo, s, cmd, c, CalmPressure(0.0), allowed);
      if cmd.Tick? {
        TargetNeverReached(topo[c], s.clusters[c].truePressure, AgedFaultOf(s, c), worst);
      }
    }
  }

  function CalmBoth(etaPressure: real, etaFlow: real): Noise -> bool {
    (n: Noise) => Abs(n.pressure) <= etaPressure && Abs(n.flow) <= etaFlow
  }

  /** A fault that only pulls, towards targets in this range. */
  function TargetsBetween(low: real, high: real): FaultEffect -> bool {
    (e: FaultEffect) => e.pressureRate == e.flowRate == 0.0 && TargetWithin(e.pressureTarget, low, high) && TargetWithin(e.flowTarget, low, high)
  }

  /** Pressure and flow are within these distances of the band between the mixtures of the two targets. */
  predicate InBand(seg: Segment, cs: ClusterState, low: real, high: real, p: real, q: real) {
    && Mixture(seg.baselinePressure, low, PRESSURE_STRENGTH) - p <= cs.truePressure <= Mixture(seg.baselinePressure, high, PRESSURE_STRENGTH) + p
    && Mixture(seg.baselineFlow, low, FLOW_STRENGTH) - q <= cs.trueFlow <= Mixture(seg.baselineFlow, high, FLOW_STRENGTH) + q
  }

  lemma TargetTickInBand(seg: Segment, cs: ClusterState, fault: Option<ActiveFault>, n: Noise, t: ClusterState,
                         low: real, high: real, p: real, q: real)
    requires seg.baselinePressure >= 0.0 && seg.baselineFlow >= 0.0 && low <= 100.0 <= high && p >= 0.0 && q >= 0.0
    requires CalmBoth(0.15 * p, 0.18 * q)(n) && (fault.Some? ==> TargetsBetween(low, high)(fault.value.effect))
    requires t.truePressure == PressureAfter(seg, cs.truePressure, fault, n.pressure) && t.trueFlow == FlowAfter(seg, cs.trueFlow, fault, n.flow)
    requires InBand(seg, cs, low, high, p, q)
    ensures InBand(seg, t, low, high, p, q)
  {
    hide Mixture, Affected, MeanRevert;
    var ramp := if fault.Some? then RampFactor(fault.value) else 0.0;
    TargetKeepsBand(cs.truePressure, seg.baselinePressure, PRESSURE_STRENGTH, fault.Some?,
                    if fault.Some? then fault.value.effect.pressureTarget else None, ramp, n.pressure, low, high, p);
    TargetKeepsBand(cs.trueFlow, seg.baselineFlow, FLOW_STRENGTH, fault.Some?,
                    if fault.Some? then fault.value.effect.flowTarget else None, ramp, n.flow, low, high, q);
  }

  /**
    However often target faults are injected and cleared, at whatever stage of their ramps and whatever the noise, pressure and flow
    stay between the mixtures of the lowest and the highest target, but for what the noise can build up.
   */
  lemma {:induction false} TargetFaultsStayInBand(topo: Topology, cmds: seq<Command>, c: Cluster, low: real, high: real, p: real, q: real)
    requires c in topo && topo[c].baselinePressure >= 0.0 && topo[c].baselineFlow >= 0.0
    requires low <= 100.0 <= high && p >= 0.0 && q >= 0.0
    requires Gentle(cmds, c, CalmBoth(0.15 * p, 0.18 * q), TargetsBetween(low, high))
    ensures c in Run(topo, cmds).clusters && FaultAllowed(Run(topo, cmds), c, TargetsBetween(low, high))
    ensures InBand(topo[c], Run(topo, cmds).clusters[c], low, high, p, q)
  {
    hide PressureAfter, FlowAfter, After, Mixture, InBand, CalmBoth, TargetsBetween;
    var allowed, calm := TargetsBetween(low, high), CalmBoth(0.15 * p, 0.18 * q);
    var cs := Run(topo, cmds).clusters[c];
    if cmds == [] {
      BaselineInBand(topo[c], cs, low, high, p, q);
    } else {
      var s, cmd := Run(topo, cmds[..|cmds| - 1]), cmds[|cmds| - 1];
      TargetFaultsStayInBand(topo, cmds[..|cmds| - 1], c, low, high, p, q);
      assert GentleCommand(cmd, c, calm, allowed);
      TruthOnlyMovesByTicks(topo, s, cmd, c, calm, allowed);
      if cmd.Tick? {
        TargetTickInBand(topo[c], s.clusters[c], AgedFaultOf(s, c), cmd.noise(c), cs, low, high, p, q);
      } else if cmd.Reset? {
        BaselineInBand(topo[c], cs, low, high, p, q);
      } else {
        SameTruthInBand(topo[c], s.clusters[c], cs, low, high, p, q);
      }
    }
  }

  lemma BaselineInBand(seg: Segment, cs: ClusterState, low: real, high: real, p: real, q: real)
    requires seg.baselinePressure >= 0.0 && seg.baselineFlow >= 0.0 && low <= 100.0 <= high && p >= 0.0 && q >= 0.0
    requires cs.truePressure == seg.baselinePressure && cs.trueFlow == seg.baselineFlow
    ensures InBand(seg, cs, low, high, p, q)
  {
    hide Mixture, Reverted;
    MixtureBalances(seg.baselinePressure, low, PRESSURE_STRENGTH);
    MixtureBalances(seg.baselinePressure, high, PRESSURE_STRENGTH);
    MixtureBalances(seg.baselineFlow, low, FLOW_STRENGTH);
    MixtureBalances(seg.baselineFlow, high, FLOW_STRENGTH);
  }

  lemma SameTruthInBand(seg: Segment, cs: ClusterState, t: ClusterState, low: real, high: real, p: real, q: real)
    requires cs.truePressure == t.truePressure && cs.trueFlow == t.trueFlow && InBand(seg, cs, low, high, p, q)
    ensures InBand(seg, t, low, high, p, q)
  {
  }

  /** "Pressure and flow collapse toward near-zero", yet the pressure keeps 29 percent of its baseline. */
  lemma {:induction false} PumpFailureKeepsPressure(topo: Topology, cmds: seq<Command>, c: Cluster)
    requires c in topo && topo[c].baselinePressure > 0.0
    requires Gentle(cmds, c, CalmPressure(0.0), IsPumpFailure)
    ensures Run(topo, cmds).clusters[c].truePressure >= 0.29 * topo[c].baselinePressure
  {
    var b := topo[c].baselinePressure;
    Widen(cmds, c, CalmPressure(0.0), IsPumpFailure, TargetsAbove(10.0));
    TargetsStayAboveFloor(topo, cmds, c, 10.0);
    TargetFloorForm(b, 10.0);
  }

  lemma Widen(cmds: seq<Command>, c: Cluster, calm: Noise -> bool, narrow: FaultEffect -> bool, wide: FaultEffect -> bool)
    requires Gentle(cmds, c, calm, narrow) && forall e :: narrow(e) ==> wide(e)
    ensures Gentle(cmds, c, calm, wide)
  {
    forall i | 0 <= i < |cmds| ensures GentleCommand(cmds[i], c, calm, wide) {
      assert GentleCommand(cmds[i], c, calm, narrow);
    }
  }

  function TruePressure(topo: Topology, cmds: seq<Command>, c: Cluster): real
    requires c in topo
  {
    Run(topo, cmds).clusters[c].truePressure
  }

  /** The percentage by which a pressure falls from `first` to `last`, as the investigation agent computes it. */
  function DropPercent(first: real, last: real): real
    requires first != 0.0
  {
    (first - last) / first * 100.0
  }

  lemma DropAtMost(first: real, last: real, percent: real)
    requires first > 0.0 && last >= first * (1.0 - percent / 100.0)
    ensures DropPercent(first, last) <= percent
  {
    var d := (first - last) / first;
    assert d * first == first - last;
    assert (percent / 100.0 - d) * first >= 0.0;
    assert d > percent / 100.0 ==> (d - percent / 100.0) * first > 0.0;
  }

  /**
    Without noise, small leaks never lower the pressure by more than 5.34 percent between any two moments of any
    two runs.
   */
  lemma SmallLeakDropsLittle(topo: Topology, early: seq<Command>, late: seq<Command>, c: Cluster)
    requires c in topo && topo[c].baselinePressure > 0.0
    requires Gentle(early, c, CalmPressure(0.0), IsSmallLeak) && Gentle(late, c, CalmPressure(0.0), IsSmallLeak)
    ensures TruePressure(topo, early, c) > 0.0
    ensures DropPercent(TruePressure(topo, early, c), TruePressure(topo, late, c)) <= 5.34
  {
    hide TruePressure, Gentle, IsSmallLeak;
    SmallLeakBand(topo, early, c);
    SmallLeakBand(topo, late, c);
    DropAtMost(TruePressure(topo, early, c), TruePressure(topo, late, c), 5.34);
  }

  lemma SmallLeakBand(topo: Topology, cmds: seq<Command>, c: Cluster)
    requires c in topo && topo[c].baselinePressure > 0.0
    requires Gentle(cmds, c, CalmPressure(0.0), IsSmallLeak)
    ensures topo[c].baselinePressure * 14.2 / 15.0 <= TruePressure(topo, cmds, c) <= topo[c].baselinePressure
  {
    Widen(cmds, c, CalmPressure(0.0), IsSmallLeak, RatesAbove(-0.8));
    RateFaultsStayInBand(topo, cmds, c, -0.8, 0.0);
  }

  lemma RunStep(topo: Topology, cmds: seq<Command>)
    requires cmds != []
    ensures Run(topo, cmds) == After(topo, Run(topo, cmds[..|cmds| - 1]), cmds[|cmds| - 1])
  {
  }

  lemma FaithfulReport(topo: Topology, cmds: seq<Command>, c: Cluster)
    requires c in topo && cmds != [] && cmds[|cmds| - 1].Tick? && Gentle(cmds, c, CalmPressure(0.0), IsSmallLeak)
    ensures var cs := Run(topo, cmds).clusters[c]; cs.reportedPressure == cs.truePressure
  {
    hide PressureAfter, FlowAfter, Run;
    var init := cmds[..|cmds| - 1];
    RunStep(topo, cmds);
    FaultsAreAllowed(topo, init, c, CalmPressure(0.0), IsSmallLeak);
    assert ModeOf(AgedFaultOf(Run(topo, init), c)) == Faithful;
  }

  lemma {:induction false} FaultsAreAllowed(topo: Topology, cmds: seq<Command>, c: Cluster, calm: Noise -> bool, allowed: FaultEffect -> bool)
    requires c in topo && Gentle(cmds, c, calm, allowed)
    ensures FaultAllowed(Run(topo, cmds), c, allowed)
  {
    if cmds != [] {
      FaultsAreAllowed(topo, cmds[..|cmds| - 1], c, calm, allowed);
      TruthOnlyMovesByTicks(topo, Run(topo, cmds[..|cmds| - 1]), cmds[|cmds| - 1], c, calm, allowed);
    }
  }

  lemma {:induction false} ReadingBand(topo: Topology, cmds: seq<Command>, c: Cluster, r: Reading)
    requires c in topo && topo[c].baselinePressure > 0.0 && Gentle(cmds, c, CalmPressure(0.0), IsSmallLeak)
    requires r in ReadingsOf(topo, cmds, c)
    ensures topo[c].baselinePressure * 14.2 / 15.0 - 0.005 <= r.pressure <= topo[c].baselinePressure + 0.005
  {
    hide Run, IsSmallLeak;
    var init := cmds[..|cmds| - 1];
    if r in ReadingsOf(topo, init, c) {
      ReadingBand(topo, init, c, r);
    } else {
      FaithfulReport(topo, cmds, c);
      SmallLeakBand(topo, cmds, c);
    }
  }

  /**
    So on any segment of at least 37 psi, the least of the shipped topology, a small leak shows at most a 5.4
    percent drop between any two readings of a window, whatever rounding does.
   */
  lemma SmallLeakWindowDropsLittle(topo: Topology, cmds: seq<Command>, c: Cluster, i: nat, j: nat)
    requires c in topo && topo[c].baselinePressure >= 37.0 && Gentle(cmds, c, CalmPressure(0.0), IsSmallLeak)
    requires i < j < |Run(topo, cmds).windows[c]|
    ensures var w := Run(topo, cmds).windows[c]; w[i].pressure > 0.0 && DropPercent(w[i].pressure, w[j].pressure) <= 5.4
  {
    hide Run, Gentle, IsSmallLeak, ReadingsOf;
    var w, all := Run(topo, cmds).windows[c], ReadingsOf(topo, cmds, c);
    WindowsHoldTheLatest(topo, cmds, c);
    assert w[i] in all && w[j] in all;
    ReadingBand(topo, cmds, c, w[i]);
    ReadingBand(topo, cmds, c, w[j]);
    DropAtMost(w[i].pressure, w[j].pressure, 5.4);
  }

  // ---------------------------------------------------------------- frozen sensors

  predicate Spares(cmd: Command, c: Cluster) {
    match cmd
    case ClearFault(d) => d != c
    case ClearAllFaults(order) => c !in order
    case Reset => false
    case _ => true
  }

  function AfterAll(topo: Topology, s: Sim, cmds: seq<Command>): (t: Sim)
    requires Shaped(topo, s)
    ensures Shaped(topo, t)
  {
    if cmds == [] then s
    else
      var before := AfterAll(topo, s, cmds[..|cmds| - 1]);
      AfterShape(topo, before, cmds[|cmds| - 1]);
      After(topo, before, cmds[|cmds| - 1])
  }

  predicate Frozen(s: Sim, c: Cluster, snapshot: (real, real)) {
    && c in s.active && s.active[c].effect.sensorMode.Freeze? && c in s.clusters
    && s.clusters[c].frozenReading == Some(snapshot)
    && (s.clusters[c].reportedPressure, s.clusters[c].reportedFlow) == snapshot
  }

  lemma {:induction false} AllClearedSpares(topo: Topology, s: Sim, order: seq<Cluster>, c: Cluster, snapshot: (real, real))
    requires Shaped(topo, s) && c !in order && Frozen(s, c, snapshot)
    ensures Frozen(AllCleared(s, order), c, snapshot)
  {
    if order != [] {
      AllClearedSpares(topo, s, order[..|order| - 1], c, snapshot);
      assert order[|order| - 1] in order;
    }
  }

  lemma StaysFrozen(topo: Topology, s: Sim, cmd: Command, c: Cluster, snapshot: (real, real))
    requires Shaped(topo, s) && Frozen(s, c, snapshot) && Spares(cmd, c)
    ensures Frozen(After(topo, s, cmd), c, snapshot)
  {
    hide PressureAfter, FlowAfter, BuildFault, ReadingOf, Pushed;
    if cmd.ClearAllFaults? {
      AllClearedSpares(topo, s, cmd.order, c, snapshot);
    }
  }

  /** The first tick of a freezing fault takes the snapshot: the true state of that tick, not the last healthy one. */
  lemma {:induction false} FirstTickFreezes(topo: Topology, cmds: seq<Command>, noise: Cluster -> Noise, c: Cluster)
    requires var s := Run(topo, cmds);
             c in s.active && s.active[c].effect.sensorMode.Freeze? && s.active[c].ticksElapsed == 0
    ensures var t := Run(topo, cmds + [Tick(noise)]);
            c in t.clusters && Frozen(t, c, (t.clusters[c].truePressure, t.clusters[c].trueFlow))
  {
    hide PressureAfter, FlowAfter, ReadingOf, Pushed, Run;
    var s := Run(topo, cmds);
    SensorsAtEveryState(topo, cmds);
    assert SensorFits(topo[c], s.clusters[c], FaultOf(s, c));
    RunStep(topo, cmds + [Tick(noise)]);
    assert (cmds + [Tick(noise)])[..|cmds|] == cmds;
  }

  /** From then on the sensor repeats the snapshot until its fault is cleared or the simulator reset. */
  lemma {:induction false} FrozenUntilCleared(topo: Topology, s: Sim, cmds: seq<Command>, c: Cluster, snapshot: (real, real))
    requires Shaped(topo, s) && Frozen(s, c, snapshot) && forall i :: 0 <= i < |cmds| ==> Spares(cmds[i], c)
    ensures Frozen(AfterAll(topo, s, cmds), c, snapshot)
  {
    if cmds != [] {
      FrozenUntilCleared(topo, s, cmds[..|cmds| - 1], c, snapshot);
      StaysFrozen(topo, AfterAll(topo, s, cmds[..|cmds| - 1]), cmds[|cmds| - 1], c, snapshot);
    }
  }
}
