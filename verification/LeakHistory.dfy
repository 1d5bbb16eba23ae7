/**
  The combined leak pattern over whole histories: with the shipped rules a combined detection of a sensor is open exactly
  while a pressure and a flow detection of it both are.
 */
module LeakHistory {
  import opened Wrappers
  import opened Catalog
  import opened Deduplication
  import opened DetectionRun
  import opened DetectionHistory

  /** The three shipped rules an operator reads together. */
  datatype LeakRules = LeakRules(drop: Rule, surge: Rule, both: Rule) {
    ghost predicate Valid() {
      && Shipped(drop) && Shipped(surge) && Shipped(both)
      && drop.code.PRESSURE_DROP? && surge.code.FLOW_SURGE? && both.code.COMBINED_LEAK_PATTERN?
    }
  }

  function KeyFor(sensorId: int, externalId: string, rule: Rule): Key {
    Key(sensorId, rule.id, externalId, rule.code, ConditionToken(rule.code))
  }

  ghost predicate UniqueIds(rules: seq<Rule>) {
    forall i, j :: 0 <= i < j < |rules| ==> rules[i].id != rules[j].id
  }

  /** A rule that is run at a readable sensor is evaluated there. */
  lemma {:induction false} RuleIsEvaluated(run: RunInput, sensor: Sensor, rules: seq<Rule>, rule: Rule)
    requires sensor.feed.Some? && rule in rules && UniqueIds(rules)
    ensures RuleEvaluation(run, sensor, rules, KeyOf(sensor, rule)) == Some(EvaluationFor(run, sensor, rule))
  {
    hide EvaluationFor;
    var n := |rules| - 1;
    if rules[n] != rule {
      var j :| 0 <= j < |rules| && rules[j] == rule;
      assert rules[..n][j] == rule;
      RuleIsEvaluated(run, sensor, rules[..n], rule);
    }
  }

  /** What one run finds of the three keys. */
  ghost predicate Agree(p: Option<Evaluation>, f: Option<Evaluation>, c: Option<Evaluation>, clock: real) {
    && p.Some? == f.Some? == c.Some?
    && (c.Some? ==> (c.value.triggered <==> p.value.triggered && f.value.triggered))
    && (c.Some? ==> p.value.clock == f.value.clock == c.value.clock == clock)
  }

  lemma SensorAgrees(run: RunInput, sensor: Sensor, externalId: string, three: LeakRules)
    requires three.Valid() && sensor.feed.Some? && UniqueIds(run.rules)
    requires three.drop in run.rules && three.surge in run.rules && three.both in run.rules
    ensures Agree(RuleEvaluation(run, sensor, run.rules, KeyFor(sensor.id, externalId, three.drop)),
                  RuleEvaluation(run, sensor, run.rules, KeyFor(sensor.id, externalId, three.surge)),
                  RuleEvaluation(run, sensor, run.rules, KeyFor(sensor.id, externalId, three.both)), run.clock)
  {
    hide RuleEvaluation, EvaluateRule, NewRow, Shipped;
    if sensor.externalId == externalId {
      RuleIsEvaluated(run, sensor, run.rules, three.drop);
      RuleIsEvaluated(run, sensor, run.rules, three.surge);
      RuleIsEvaluated(run, sensor, run.rules, three.both);
      CombinedExactlyWhenBothRateRules(three.drop, three.surge, three.both, sensor.feed.value, run.clock, run.windowStart);
    }
  }

  lemma {:induction false} SensorsAgree(run: RunInput, sensors: seq<Sensor>, sensorId: int, externalId: string, three: LeakRules)
    requires three.Valid() && UniqueIds(run.rules)
    requires three.drop in run.rules && three.surge in run.rules && three.both in run.rules
    ensures Agree(SensorEvaluation(run, sensors, KeyFor(sensorId, externalId, three.drop)),
                  SensorEvaluation(run, sensors, KeyFor(sensorId, externalId, three.surge)),
                  SensorEvaluation(run, sensors, KeyFor(sensorId, externalId, three.both)), run.clock)
  {
    hide RuleEvaluation, Shipped;
    if sensors != [] {
      var n := |sensors| - 1;
      if sensors[n].id != sensorId {
        SensorsAgree(run, sensors[..n], sensorId, externalId, three);
      } else if sensors[n].feed.Some? {
        SensorAgrees(run, sensors[n], externalId, three);
      }
    }
  }

  /** Every run evaluates the three rules and can store what they find. */
  ghost predicate RunsAll(runs: seq<RunInput>, three: LeakRules) {
    forall i :: 0 <= i < |runs| ==>
      && runs[i].hasOrganization
      && three.drop in runs[i].rules && three.surge in runs[i].rules && three.both in runs[i].rules
  }

  ghost predicate InStep(p: seq<Evaluation>, f: seq<Evaluation>, c: seq<Evaluation>) {
    && |p| == |f| == |c|
    && forall k :: 0 <= k < |c| ==>
         && p[k].clock == f[k].clock == c[k].clock
         && (c[k].triggered <==> p[k].triggered && f[k].triggered)
  }

  lemma NothingInStep()
    ensures InStep([], [], [])
  {
  }

  lemma StayInStep(p: seq<Evaluation>, f: seq<Evaluation>, c: seq<Evaluation>, dp: seq<Evaluation>, df: seq<Evaluation>, dc: seq<Evaluation>)
    requires InStep(p, f, c) && InStep(dp, df, dc)
    ensures InStep(p + dp, f + df, c + dc)
  {
  }

  lemma LiveInStep(run: RunInput, rows: seq<Row>, sensorId: int, externalId: string, three: LeakRules)
    requires three.Valid() && Distinct(run) && run.hasOrganization
    requires three.drop in run.rules && three.surge in run.rules && three.both in run.rules
    ensures InStep(LiveEvaluation(run, rows, KeyFor(sensorId, externalId, three.drop)),
                   LiveEvaluation(run, rows, KeyFor(sensorId, externalId, three.surge)),
                   LiveEvaluation(run, rows, KeyFor(sensorId, externalId, three.both)))
  {
    hide SensorEvaluation, Shipped;
    SensorsAgree(run, run.sensors, sensorId, externalId, three);
  }

  lemma {:induction false} HistoriesInStep(runs: seq<RunInput>, sensorId: int, externalId: string, three: LeakRules)
    requires three.Valid() && Scheduled(runs) && RunsAll(runs, three)
    ensures InStep(Evaluations(runs, KeyFor(sensorId, externalId, three.drop)),
                   Evaluations(runs, KeyFor(sensorId, externalId, three.surge)),
                   Evaluations(runs, KeyFor(sensorId, externalId, three.both)))
  {
    hide LiveEvaluation, Shipped, InStep;
    if runs == [] {
      NothingInStep();
    } else {
      var n := |runs| - 1;
      var p, f, c := KeyFor(sensorId, externalId, three.drop), KeyFor(sensorId, externalId, three.surge), KeyFor(sensorId, externalId, three.both);
      HistoriesInStep(runs[..n], sensorId, externalId, three);
      LiveInStep(runs[n], RunAll(runs[..n]), sensorId, externalId, three);
      StayInStep(Evaluations(runs[..n], p), Evaluations(runs[..n], f), Evaluations(runs[..n], c),
                 LiveEvaluation(runs[n], RunAll(runs[..n]), p), LiveEvaluation(runs[n], RunAll(runs[..n]), f),
                 LiveEvaluation(runs[n], RunAll(runs[..n]), c));
    }
  }

  ghost predicate SomeOpen(rows: seq<Row>, t: real) {
    exists r :: r in rows && OpenAt(r, t)
  }

  /**
    At the clock of every evaluation, a combined detection of the sensor was open if and only if a pressure detection and a
    flow detection of it both were.
   */
  lemma {:induction false} CombinedOpenExactlyWhenBothOpen(runs: seq<RunInput>, sensorId: int, externalId: string, three: LeakRules, k: nat)
    requires three.Valid() && Scheduled(runs) && RunsAll(runs, three)
    requires k < |Evaluations(runs, KeyFor(sensorId, externalId, three.both))|
    ensures var rows, t := RunAll(runs), Evaluations(runs, KeyFor(sensorId, externalId, three.both))[k].clock;
            (SomeOpen(KeyRows(rows, KeyFor(sensorId, externalId, three.both)), t) <==>
              SomeOpen(KeyRows(rows, KeyFor(sensorId, externalId, three.drop)), t)
              && SomeOpen(KeyRows(rows, KeyFor(sensorId, externalId, three.surge)), t))
  {
    hide Evaluations, RunAll, KeyRows, OpenAt, Shipped, Scheduled;
    HistoriesInStep(runs, sensorId, externalId, three);
    HistoryFromRows(runs, KeyFor(sensorId, externalId, three.both), k);
    HistoryFromRows(runs, KeyFor(sensorId, externalId, three.drop), k);
    HistoryFromRows(runs, KeyFor(sensorId, externalId, three.surge), k);
  }
}
