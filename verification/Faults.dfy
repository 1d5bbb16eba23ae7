/**
  The fault library of the testbed simulator (`faults.py`): every scenario is a set of per-tick effects on one
  cluster. Network overrides and descriptions are not modelled.
 */
module Faults {
  import opened Wrappers

  type Cluster = string

  datatype Onset = Sudden | Gradual

  datatype SensorMode = Faithful | Freeze | Flatline | Drift

  datatype FaultEffect = FaultEffect(
    pressureRate: real,
    flowRate: real,
    pressureTarget: Option<real>,
    flowTarget: Option<real>,
    onset: Onset,
    rampTicks: int,
    sensorMode: SensorMode,
    driftPct: real)

  function Rates(pressure: real, flow: real, onset: Onset, ramp: int): FaultEffect {
    FaultEffect(pressure, flow, None, None, onset, ramp, Faithful, 0.0)
  }

  function Targets(pressure: Option<real>, flow: Option<real>, onset: Onset, ramp: int): FaultEffect {
    FaultEffect(0.0, 0.0, pressure, flow, onset, ramp, Faithful, 0.0)
  }

  function Sensor(mode: SensorMode, drift: real, onset: Onset, ramp: int): FaultEffect {
    FaultEffect(0.0, 0.0, None, None, onset, ramp, mode, drift)
  }

  const LEAK: map<string, FaultEffect> := map[
    "small" := Rates(-0.8, 1.2, Gradual, 8),
    "medium" := Rates(-2.5, 4.0, Gradual, 5),
    "large" := Rates(-6.0, 9.0, Sudden, 2)]

  /** The only variant of every fault type but the leak. */
  const DEFAULTS: map<string, FaultEffect> := map[
    "pipe_rupture" := Rates(-15.0, 20.0, Sudden, 1),
    "pressure_spike" := Targets(Some(140.0), None, Sudden, 3),
    "pressure_drop" := Rates(-1.5, 0.0, Gradual, 10),
    "pump_failure" := Targets(Some(10.0), Some(5.0), Sudden, 2),
    "pump_degradation" := Rates(-0.6, -0.6, Gradual, 20),
    "valve_stuck_open" := Targets(Some(70.0), Some(160.0), Gradual, 4),
    "valve_stuck_closed" := Targets(Some(180.0), Some(5.0), Gradual, 4),
    "sensor_failure" := Sensor(Flatline, 0.0, Sudden, 1),
    "sensor_drift" := Sensor(Drift, 0.4, Gradual, 1),
    "sensor_comm_loss" := Sensor(Freeze, 0.0, Sudden, 1),
    "high_flow" := Rates(0.0, 3.0, Gradual, 6),
    "low_flow" := Rates(0.0, -3.0, Gradual, 6),
    "network_loss" := Rates(0.0, 0.0, Gradual, 5),
    "thermal_cell_degradation" := Sensor(Drift, 2.0, Gradual, 5)]

  /** The entry of `FAULT_LIBRARY`, if any. */
  function Variants(faultType: string): Option<map<string, FaultEffect>> {
    if faultType == "leak" then Some(LEAK)
    else if faultType in DEFAULTS then Some(map["default" := DEFAULTS[faultType]])
    else None
  }

  datatype ActiveFault = ActiveFault(cluster: Cluster, faultType: string, magnitude: string, effect: FaultEffect, ticksElapsed: nat)

  /** `current_ramp_factor`: how much of the effect applies so far. */
  function RampFactor(f: ActiveFault): (ramp: real)
    ensures 0.0 <= ramp <= 1.0
  {
    if f.effect.onset.Sudden? then 1.0
    else
      var ticks := if f.effect.rampTicks > 1 then f.effect.rampTicks else 1;
      if f.ticksElapsed >= ticks then 1.0 else Share(f.ticksElapsed as real, ticks as real)
  }

  function Share(part: real, whole: real): (q: real)
    requires 0.0 <= part < whole
    ensures 0.0 <= q < 1.0
  {
    var q := part / whole;
    assert q * whole == part;
    assert q >= 1.0 ==> (q - 1.0) * whole >= 0.0;
    q
  }

  lemma ShareMonotone(a: real, b: real, whole: real)
    requires 0.0 <= a <= b < whole
    ensures Share(a, whole) <= Share(b, whole)
  {
    assert b / whole - a / whole == (b - a) / whole >= 0.0;
  }

  function Aged(f: ActiveFault): ActiveFault {
    f.(ticksElapsed := f.ticksElapsed + 1)
  }

  /** A fault only ever grows into its full effect. */
  lemma RampGrows(f: ActiveFault)
    ensures RampFactor(f) <= RampFactor(Aged(f))
    ensures f.ticksElapsed > 0 ==> RampFactor(f) > 0.0
    ensures f.ticksElapsed >= f.effect.rampTicks && f.ticksElapsed > 0 ==> RampFactor(f) == 1.0
    ensures f.effect.onset.Sudden? ==> RampFactor(f) == 1.0
    ensures f.effect.onset.Gradual? && f.ticksElapsed <= f.effect.rampTicks && f.effect.rampTicks > 0 ==>
              RampFactor(f) * f.effect.rampTicks as real == f.ticksElapsed as real
  {
    var ticks := if f.effect.rampTicks > 1 then f.effect.rampTicks else 1;
    if f.effect.onset.Gradual? && f.ticksElapsed + 1 < ticks {
      ShareMonotone(f.ticksElapsed as real, (f.ticksElapsed + 1) as real, ticks as real);
    }
    if f.effect.onset.Gradual? && 0 < f.ticksElapsed < ticks {
      assert Share(f.ticksElapsed as real, ticks as real) * ticks as real == f.ticksElapsed as real;
    }
  }

  datatype Built = Built(fault: ActiveFault) | UnknownFaultType | UnknownMagnitude

  function BuildFault(faultType: string, magnitude: string, cluster: Cluster): (b: Built)
    ensures b.Built? ==> b.fault.cluster == cluster && b.fault.faultType == faultType && b.fault.magnitude == magnitude
    ensures b.Built? ==> b.fault.ticksElapsed == 0
  {
    match Variants(faultType)
    case None => UnknownFaultType
    case Some(variants) =>
      var key := if magnitude in variants then magnitude else "default";
      if key !in variants then UnknownMagnitude
      else Built(ActiveFault(cluster, faultType, magnitude, variants[key], 0))
  }

  /**
    A leak needs one of its three magnitudes; every other known fault accepts any magnitude at all, applies its
    only effect and still records the magnitude that was asked for.
   */
  lemma WhatCanBeBuilt(faultType: string, magnitude: string, cluster: Cluster)
    ensures BuildFault(faultType, magnitude, cluster) == UnknownFaultType <==>
              faultType != "leak" && faultType !in DEFAULTS
    ensures BuildFault(faultType, magnitude, cluster) == UnknownMagnitude <==>
              faultType == "leak" && magnitude !in {"small", "medium", "large"}
    ensures faultType in DEFAULTS && faultType != "leak" ==>
              BuildFault(faultType, magnitude, cluster) == Built(ActiveFault(cluster, faultType, magnitude, DEFAULTS[faultType], 0))
    ensures magnitude in {"small", "medium", "large"} ==>
              BuildFault("leak", magnitude, cluster) == Built(ActiveFault(cluster, "leak", magnitude, LEAK[magnitude], 0))
  {
    hide DEFAULTS;
    assert |"default"| == 7 && |"small"| == 5 && |"medium"| == 6 && |"large"| == 5;
  }
}
