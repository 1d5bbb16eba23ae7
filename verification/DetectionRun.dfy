/**
  One run of the detection engine on values (`DetectionEngine.run`): sensors by rules, with the per-sensor
  error handling, the dry-run switch and the summary counters.
 */
module DetectionRun {
  import opened Wrappers
  import opened Rules
  import opened Catalog
  import opened Deduplication

  /** `feed` is `None` when reading the sensor's telemetry raises. */
  datatype Sensor = Sensor(id: int, externalId: string, feed: Option<Feed>)

  datatype RunInput = RunInput(
    clock: real,
    windowStart: real,
    dryRun: bool,
    hasOrganization: bool,
    sensors: seq<Sensor>,
    rules: seq<Rule>)

  datatype RunSummary = RunSummary(
    sensorsChecked: nat,
    rulesEvaluated: nat,
    created: nat,
    deduplicated: nat,
    recovered: nat,
    errors: nat)

  datatype RunState = RunState(rows: seq<Row>, summary: RunSummary)

  /** `failed`: an exception left the rule loop, so the sensor's remaining rules are skipped. */
  datatype Outcome = Outcome(state: RunState, failed: bool)

  function KeyOf(sensor: Sensor, rule: Rule): Key {
    Key(sensor.id, rule.id, sensor.externalId, rule.code, ConditionToken(rule.code))
  }

  function NewRow(key: Key, rule: Rule, hit: RuleHit, feed: Feed, clock: real): Row {
    Row(key, clock, ScoreOf(rule, hit, feed), PriorityOf(rule, hit, feed), hit.reasons, New,
        Summary(Some(true), Some(1), None, None, Some(hit.windowEnd)), clock)
  }

  function EvaluationFor(run: RunInput, sensor: Sensor, rule: Rule): (e: Evaluation)
    requires sensor.feed.Some?
    ensures Stamped(e, KeyOf(sensor, rule)) && e.clock == run.clock
  {
    var hit := EvaluateRule(rule, sensor.feed.value, run.clock, run.windowStart);
    Evaluation(hit.triggered, run.clock, hit.windowEnd,
               NewRow(KeyOf(sensor, rule), rule, hit, sensor.feed.value, run.clock))
  }

  function EvaluateOne(run: RunInput, st: RunState, sensor: Sensor, rule: Rule): Outcome
    requires sensor.feed.Some?
  {
    var key := KeyOf(sensor, rule);
    var e := EvaluationFor(run, sensor, rule);
    var d := Decide(st.rows, key, e.triggered);
    var rows := if run.dryRun then st.rows else Store(st.rows, d, e);
    var counted := st.summary.(rulesEvaluated := st.summary.rulesEvaluated + 1);
    match d
    case Ignore => Outcome(RunState(rows, counted), false)
    case Recover(_) =>
      Outcome(RunState(rows, if run.dryRun then counted else counted.(recovered := counted.recovered + 1)), false)
    case Repeat(_) => Outcome(RunState(rows, counted.(deduplicated := counted.deduplicated + 1)), false)
    case Create =>
      if !run.dryRun && !run.hasOrganization then Outcome(RunState(st.rows, counted), true)
      else Outcome(RunState(rows, counted.(created := counted.created + 1)), false)
  }

  function RunRules(run: RunInput, st: RunState, sensor: Sensor, rules: seq<Rule>): Outcome
    requires sensor.feed.Some?
  {
    if rules == [] then Outcome(st, false)
    else
      var n := |rules| - 1;
      var before := RunRules(run, st, sensor, rules[..n]);
      if before.failed then before else EvaluateOne(run, before.state, sensor, rules[n])
  }

  function CountError(st: RunState): RunState {
    st.(summary := st.summary.(errors := st.summary.errors + 1))
  }

  function RunSensor(run: RunInput, st: RunState, sensor: Sensor): RunState {
    if sensor.feed.None? then CountError(st)
    else
      var out := RunRules(run, st, sensor, run.rules);
      if out.failed then CountError(out.state) else out.state
  }

  function RunSensors(run: RunInput, st: RunState, sensors: seq<Sensor>): RunState {
    if sensors == [] then st
    else
      var n := |sensors| - 1;
      RunSensor(run, RunSensors(run, st, sensors[..n]), sensors[n])
  }

  function Start(run: RunInput, rows: seq<Row>): RunState {
    RunState(rows, RunSummary(|run.sensors|, 0, 0, 0, 0, 0))
  }

  function Run(run: RunInput, rows: seq<Row>): RunState {
    RunSensors(run, Start(run, rows), run.sensors)
  }

  // ---------------------------------------------------------------- what a run evaluates, key by key

  /** Primary keys: no sensor and no rule is listed twice. */
  ghost predicate Distinct(run: RunInput) {
    && (forall i, j :: 0 <= i < j < |run.sensors| ==> run.sensors[i].id != run.sensors[j].id)
    && (forall i, j :: 0 <= i < j < |run.rules| ==> run.rules[i].id != run.rules[j].id)
  }

  function RuleEvaluation(run: RunInput, sensor: Sensor, rules: seq<Rule>, key: Key): (r: Option<Evaluation>)
    requires sensor.feed.Some?
    ensures r.Some? <==> exists i :: 0 <= i < |rules| && KeyOf(sensor, rules[i]) == key
    ensures r.Some? ==> Stamped(r.value, key) && r.value.clock == run.clock
  {
    if rules == [] then None
    else
      var n := |rules| - 1;
      if KeyOf(sensor, rules[n]) == key then Some(EvaluationFor(run, sensor, rules[n]))
      else
        var r := RuleEvaluation(run, sensor, rules[..n], key);
        assert r.Some? ==> exists i :: 0 <= i < n && KeyOf(sensor, rules[..n][i]) == key && rules[..n][i] == rules[i];
        r
  }

  function SensorEvaluation(run: RunInput, sensors: seq<Sensor>, key: Key): (r: Option<Evaluation>)
    ensures r.Some? ==> Stamped(r.value, key) && r.value.clock == run.clock
    ensures r.Some? ==> exists i :: 0 <= i < |sensors| && sensors[i].id == key.sensorId
  {
    if sensors == [] then None
    else
      var n := |sensors| - 1;
      if sensors[n].id == key.sensorId then
        if sensors[n].feed.Some? then RuleEvaluation(run, sensors[n], run.rules, key) else None
      else
        var r := SensorEvaluation(run, sensors[..n], key);
        assert r.Some? ==> exists i :: 0 <= i < n && sensors[..n][i].id == key.sensorId && sensors[..n][i] == sensors[i];
        r
  }

  /** The evaluation of `key` in this run, if its sensor could be read and its rule is among those run. */
  function EvaluationOf(run: RunInput, key: Key): (r: Option<Evaluation>)
    ensures r.Some? ==> Stamped(r.value, key) && r.value.clock == run.clock
  {
    SensorEvaluation(run, run.sensors, key)
  }

  function StepIf(rows: seq<Row>, key: Key, e: Option<Evaluation>): seq<Row> {
    if e.None? then rows else Step(rows, key, e.value)
  }

  // ---------------------------------------------------------------- what a run takes, key by key

  /** From these rows, evaluating the rule would store a new detection. */
  predicate Creates(run: RunInput, rows: seq<Row>, sensor: Sensor, rule: Rule)
    requires sensor.feed.Some?
  {
    Decide(rows, KeyOf(sensor, rule), EvaluationFor(run, sensor, rule).triggered).Create?
  }

  /** Without an organization row, the first rule that would create raises and ends the sensor's loop. */
  predicate Aborts(run: RunInput, rows: seq<Row>, sensor: Sensor, rules: seq<Rule>)
    requires sensor.feed.Some?
  {
    !run.hasOrganization && exists j :: 0 <= j < |rules| && Creates(run, rows, sensor, rules[j])
  }

  function RuleTaken(run: RunInput, rows: seq<Row>, sensor: Sensor, rules: seq<Rule>, key: Key): (r: Option<Evaluation>)
    requires sensor.feed.Some?
    ensures r.Some? ==> Stamped(r.value, key) && r.value.clock == run.clock
    ensures r.Some? ==> r == RuleEvaluation(run, sensor, rules, key)
    ensures r.None? ==> RuleEvaluation(run, sensor, rules, key).None? || !run.hasOrganization
  {
    if rules == [] then None
    else
      var n := |rules| - 1;
      if KeyOf(sensor, rules[n]) == key then
        if Aborts(run, rows, sensor, rules) then None else Some(EvaluationFor(run, sensor, rules[n]))
      else RuleTaken(run, rows, sensor, rules[..n], key)
  }

  function SensorTaken(run: RunInput, rows: seq<Row>, sensors: seq<Sensor>, key: Key): (r: Option<Evaluation>)
    ensures r.Some? ==> Stamped(r.value, key) && r.value.clock == run.clock
    ensures r.Some? ==> r == SensorEvaluation(run, sensors, key)
    ensures r.None? ==> SensorEvaluation(run, sensors, key).None? || !run.hasOrganization
    ensures r.Some? ==> exists i :: 0 <= i < |sensors| && sensors[i].id == key.sensorId
  {
    if sensors == [] then None
    else
      var n := |sensors| - 1;
      if sensors[n].id == key.sensorId then
        if sensors[n].feed.Some? then RuleTaken(run, rows, sensors[n], run.rules, key) else None
      else
        var r := SensorTaken(run, rows, sensors[..n], key);
        assert r.Some? ==> exists i :: 0 <= i < n && sensors[..n][i].id == key.sensorId && sensors[..n][i] == sensors[i];
        r
  }

  /**
    The evaluation of `key` that takes effect in this run: none if the sensor cannot be read or the rule is not run, and,
    while there is no organization row, none if this rule or one before it at the sensor would have to create.
   */
  function Taken(run: RunInput, rows: seq<Row>, key: Key): (r: Option<Evaluation>)
    ensures r.Some? ==> Stamped(r.value, key) && r.value.clock == run.clock && r == EvaluationOf(run, key)
    ensures run.hasOrganization ==> r == EvaluationOf(run, key)
  {
    SensorTaken(run, rows, run.sensors, key)
  }

  /** Both runs decide alike at a key whose rows they still agree on. */
  lemma SameDecision(a: seq<Row>, b: seq<Row>, key: Key, triggered: bool)
    requires KeyRows(a, key) == KeyRows(b, key)
    ensures var d, e := Decide(a, key, triggered), Decide(b, key, triggered);
            d.Create? == e.Create? && d.Repeat? == e.Repeat? && d.Recover? == e.Recover?
  {
    DecideOnKeyRows(a, key, triggered);
    DecideOnKeyRows(b, key, triggered);
  }

  lemma EvaluateOneFrame(run: RunInput, st: RunState, sensor: Sensor, rule: Rule, key: Key)
    requires sensor.feed.Some? && !run.dryRun
    ensures
      var out := EvaluateOne(run, st, sensor, rule);
      && (out.failed <==> !run.hasOrganization && Creates(run, st.rows, sensor, rule))
      && KeyRows(out.state.rows, key)
         == if !out.failed && KeyOf(sensor, rule) == key
            then Step(KeyRows(st.rows, key), key, EvaluationFor(run, sensor, rule))
            else KeyRows(st.rows, key)
  {
    hide EvaluationFor;
    StepFrame(st.rows, KeyOf(sensor, rule), EvaluationFor(run, sensor, rule), key);
  }

  lemma OneLeavesOthers(run: RunInput, st: RunState, sensor: Sensor, rule: Rule, key: Key)
    requires sensor.feed.Some? && KeyOf(sensor, rule) != key
    ensures KeyRows(EvaluateOne(run, st, sensor, rule).state.rows, key) == KeyRows(st.rows, key)
  {
    hide EvaluationFor;
    StepFrame(st.rows, KeyOf(sensor, rule), EvaluationFor(run, sensor, rule), key);
  }

  /** A real run leaves the rows of a key alone until it reaches that key. */
  lemma {:induction false} RulesLeaveOthers(run: RunInput, st: RunState, sensor: Sensor, rules: seq<Rule>, key: Key)
    requires sensor.feed.Some?
    requires forall i :: 0 <= i < |rules| ==> KeyOf(sensor, rules[i]) != key
    ensures KeyRows(RunRules(run, st, sensor, rules).state.rows, key) == KeyRows(st.rows, key)
  {
    hide EvaluateOne, KeyRows;
    if rules != [] {
      var n := |rules| - 1;
      RulesLeaveOthers(run, st, sensor, rules[..n], key);
      OneLeavesOthers(run, RunRules(run, st, sensor, rules[..n]).state, sensor, rules[n], key);
    }
  }

  lemma {:induction false} SensorsLeaveOthers(run: RunInput, st: RunState, sensors: seq<Sensor>, key: Key)
    requires forall i :: 0 <= i < |sensors| ==> sensors[i].id != key.sensorId
    ensures KeyRows(RunSensors(run, st, sensors).rows, key) == KeyRows(st.rows, key)
  {
    if sensors != [] {
      var n := |sensors| - 1;
      SensorsLeaveOthers(run, st, sensors[..n], key);
      if sensors[n].feed.Some? {
        RulesLeaveOthers(run, RunSensors(run, st, sensors[..n]), sensors[n], run.rules, key);
      }
    }
  }

  lemma AbortsSnoc(run: RunInput, rows: seq<Row>, sensor: Sensor, rules: seq<Rule>)
    requires sensor.feed.Some? && rules != []
    ensures var n := |rules| - 1;
            Aborts(run, rows, sensor, rules) <==>
              Aborts(run, rows, sensor, rules[..n]) || (!run.hasOrganization && Creates(run, rows, sensor, rules[n]))
  {
    hide Creates;
    var n := |rules| - 1;
    forall j | 0 <= j < n ensures rules[..n][j] == rules[j] {}
    if Aborts(run, rows, sensor, rules[..n]) {
      var j :| 0 <= j < n && Creates(run, rows, sensor, rules[..n][j]);
      assert Creates(run, rows, sensor, rules[j]);
    }
    if Aborts(run, rows, sensor, rules) {
      var j :| 0 <= j < |rules| && Creates(run, rows, sensor, rules[j]);
      assert j < n ==> Creates(run, rows, sensor, rules[..n][j]);
    }
  }

  lemma NoEarlierRule(run: RunInput, rows: seq<Row>, sensor: Sensor, rules: seq<Rule>, key: Key)
    requires sensor.feed.Some? && rules != [] && KeyOf(sensor, rules[|rules| - 1]) == key
    requires forall i, j :: 0 <= i < j < |rules| ==> rules[i].id != rules[j].id
    ensures RuleTaken(run, rows, sensor, rules[..|rules| - 1], key).None?
    ensures var before := rules[..|rules| - 1];
            forall i :: 0 <= i < |before| ==> KeyOf(sensor, before[i]) != key
  {
    var n := |rules| - 1;
    forall i | 0 <= i < n ensures KeyOf(sensor, rules[..n][i]) != key {
      assert rules[..n][i] == rules[i];
    }
  }

  /** Without an organization row, the rules of a sensor take effect exactly up to the first one that would create. */
  lemma {:induction false} TakenExactlyWhen(run: RunInput, rows: seq<Row>, sensor: Sensor, rules: seq<Rule>, i: nat)
    requires sensor.feed.Some? && i < |rules|
    requires forall j, k :: 0 <= j < k < |rules| ==> rules[j].id != rules[k].id
    ensures RuleTaken(run, rows, sensor, rules, KeyOf(sensor, rules[i])) ==
              if run.hasOrganization || forall j :: 0 <= j <= i ==> !Creates(run, rows, sensor, rules[j])
              then Some(EvaluationFor(run, sensor, rules[i])) else None
  {
    hide Creates, EvaluationFor;
    var n := |rules| - 1;
    if i < n {
      TakenExactlyWhen(run, rows, sensor, rules[..n], i);
      assert rules[..n][i] == rules[i] && forall j :: 0 <= j <= i ==> rules[..n][j] == rules[j];
    }
  }

  /** A sensor's loop fails exactly when it aborts, and every key takes exactly its taken step. */
  lemma {:induction false} RunRulesFrame(run: RunInput, st: RunState, sensor: Sensor, rules: seq<Rule>, key: Key)
    requires sensor.feed.Some? && !run.dryRun
    requires forall i, j :: 0 <= i < j < |rules| ==> rules[i].id != rules[j].id
    ensures
      var out := RunRules(run, st, sensor, rules);
      && (out.failed <==> Aborts(run, st.rows, sensor, rules))
      && KeyRows(out.state.rows, key) == StepIf(KeyRows(st.rows, key), key, RuleTaken(run, st.rows, sensor, rules, key))
  {
    hide EvaluateOne, Aborts, Creates, KeyRows, Step;
    if rules == [] {
      NothingAborts(run, st.rows, sensor);
    } else {
      var n := |rules| - 1;
      var before, own := RunRules(run, st, sensor, rules[..n]), KeyOf(sensor, rules[n]);
      RunRulesFrame(run, st, sensor, rules[..n], key);
      EvaluateOneFrame(run, before.state, sensor, rules[n], key);
      AbortsSnoc(run, st.rows, sensor, rules);
      NoEarlierRule(run, st.rows, sensor, rules, own);
      RulesLeaveOthers(run, st, sensor, rules[..n], own);
      SameCreation(run, before.state.rows, st.rows, sensor, rules[n]);
    }
  }

  lemma NothingAborts(run: RunInput, rows: seq<Row>, sensor: Sensor)
    requires sensor.feed.Some?
    ensures !Aborts(run, rows, sensor, [])
  {
  }

  lemma SameCreation(run: RunInput, a: seq<Row>, b: seq<Row>, sensor: Sensor, rule: Rule)
    requires sensor.feed.Some? && KeyRows(a, KeyOf(sensor, rule)) == KeyRows(b, KeyOf(sensor, rule))
    ensures Creates(run, a, sensor, rule) == Creates(run, b, sensor, rule)
  {
    SameDecision(a, b, KeyOf(sensor, rule), EvaluationFor(run, sensor, rule).triggered);
  }

  lemma {:induction false} SameTaken(run: RunInput, a: seq<Row>, b: seq<Row>, sensor: Sensor, rules: seq<Rule>, key: Key)
    requires sensor.feed.Some?
    requires forall k: Key :: k.sensorId == sensor.id ==> KeyRows(a, k) == KeyRows(b, k)
    ensures RuleTaken(run, a, sensor, rules, key) == RuleTaken(run, b, sensor, rules, key)
    ensures Aborts(run, a, sensor, rules) == Aborts(run, b, sensor, rules)
  {
    hide Creates, KeyRows, Aborts;
    if rules == [] {
      NothingAborts(run, a, sensor);
      NothingAborts(run, b, sensor);
    } else {
      var n := |rules| - 1;
      SameTaken(run, a, b, sensor, rules[..n], key);
      AbortsSnoc(run, a, sensor, rules);
      AbortsSnoc(run, b, sensor, rules);
      assert KeyOf(sensor, rules[n]).sensorId == sensor.id;
      SameCreation(run, a, b, sensor, rules[n]);
    }
  }

  lemma {:induction false} RunSensorsFrame(run: RunInput, st: RunState, sensors: seq<Sensor>, key: Key)
    requires !run.dryRun
    requires forall i, j :: 0 <= i < j < |run.rules| ==> run.rules[i].id != run.rules[j].id
    requires forall i, j :: 0 <= i < j < |sensors| ==> sensors[i].id != sensors[j].id
    ensures KeyRows(RunSensors(run, st, sensors).rows, key)
         == StepIf(KeyRows(st.rows, key), key, SensorTaken(run, st.rows, sensors, key))
  {
    hide RunRules, RuleTaken, KeyRows, Step;
    if sensors != [] {
      var n := |sensors| - 1;
      var sensor, before := sensors[n], RunSensors(run, st, sensors[..n]);
      RunSensorsFrame(run, st, sensors[..n], key);
      forall i | 0 <= i < n ensures sensors[..n][i].id != sensor.id {
        assert sensors[..n][i] == sensors[i];
      }
      if sensor.feed.Some? {
        RunRulesFrame(run, before, sensor, run.rules, key);
        forall k: Key | k.sensorId == sensor.id ensures KeyRows(before.rows, k) == KeyRows(st.rows, k) {
          SensorsLeaveOthers(run, st, sensors[..n], k);
        }
        SameTaken(run, before.rows, st.rows, sensor, run.rules, key);
        if sensor.id != key.sensorId {
          ElsewhereUntaken(run, before.rows, sensor, run.rules, key);
        }
      }
    }
  }

  lemma {:induction false} ElsewhereUntaken(run: RunInput, rows: seq<Row>, sensor: Sensor, rules: seq<Rule>, key: Key)
    requires sensor.feed.Some? && sensor.id != key.sensorId
    ensures RuleTaken(run, rows, sensor, rules, key).None?
  {
    if rules != [] {
      ElsewhereUntaken(run, rows, sensor, rules[..|rules| - 1], key);
    }
  }

  /**
    The frame of a whole run: every key's rows take exactly the one step of its own taken evaluation, or none, whatever
    the nested loops do to all the other keys.
   */
  lemma RunFrame(run: RunInput, rows: seq<Row>, key: Key)
    requires Distinct(run) && !run.dryRun
    ensures KeyRows(Run(run, rows).rows, key) == StepIf(KeyRows(rows, key), key, Taken(run, rows, key))
  {
    RunSensorsFrame(run, Start(run, rows), run.sensors, key);
  }

  // ---------------------------------------------------------------- dry runs

  lemma {:induction false} DryRulesKeepRows(run: RunInput, st: RunState, sensor: Sensor, rules: seq<Rule>)
    requires sensor.feed.Some? && run.dryRun
    ensures RunRules(run, st, sensor, rules).state.rows == st.rows && !RunRules(run, st, sensor, rules).failed
  {
    if rules != [] {
      DryRulesKeepRows(run, st, sensor, rules[..|rules| - 1]);
    }
  }

  lemma {:induction false} DrySensorsKeepRows(run: RunInput, st: RunState, sensors: seq<Sensor>)
    requires run.dryRun
    ensures RunSensors(run, st, sensors).rows == st.rows
  {
    if sensors != [] {
      var n := |sensors| - 1;
      DrySensorsKeepRows(run, st, sensors[..n]);
      if sensors[n].feed.Some? {
        DryRulesKeepRows(run, RunSensors(run, st, sensors[..n]), sensors[n], run.rules);
      }
    }
  }

  /** The counters a dry and a real run are compared on. */
  ghost predicate SameCounts(a: RunSummary, b: RunSummary) {
    && a.sensorsChecked == b.sensorsChecked && a.rulesEvaluated == b.rulesEvaluated
    && a.created == b.created && a.deduplicated == b.deduplicated && a.errors == b.errors
  }

  lemma CreatedGrows(run: RunInput, st: RunState, sensor: Sensor, rules: seq<Rule>)
    requires sensor.feed.Some?
    ensures RunRules(run, st, sensor, rules).state.summary.created >= st.summary.created
  {
    if rules != [] {
      CreatedGrows(run, st, sensor, rules[..|rules| - 1]);
    }
  }

  /** One rule counts alike in both runs when both meet the same rows of its key. */
  lemma RuleAgrees(actual: RunInput, dry: RunInput, st: RunState, dst: RunState, sensor: Sensor, rule: Rule)
    requires sensor.feed.Some? && !actual.dryRun && dry == actual.(dryRun := true)
    requires KeyRows(st.rows, KeyOf(sensor, rule)) == KeyRows(dst.rows, KeyOf(sensor, rule))
    requires SameCounts(st.summary, dst.summary)
    requires actual.hasOrganization || EvaluateOne(dry, dst, sensor, rule).state.summary.created == dst.summary.created
    ensures !EvaluateOne(actual, st, sensor, rule).failed
    ensures SameCounts(EvaluateOne(actual, st, sensor, rule).state.summary, EvaluateOne(dry, dst, sensor, rule).state.summary)
  {
    hide EvaluateRule, NewRow, Decide, Store;
    assert EvaluationFor(dry, sensor, rule) == EvaluationFor(actual, sensor, rule);
    SameDecision(st.rows, dst.rows, KeyOf(sensor, rule), EvaluationFor(actual, sensor, rule).triggered);
  }

  lemma {:induction false} RulesAgree(actual: RunInput, dry: RunInput, st: RunState, dst: RunState, sensor: Sensor, rules: seq<Rule>)
    requires sensor.feed.Some? && !actual.dryRun && dry == actual.(dryRun := true)
    requires forall i, j :: 0 <= i < j < |rules| ==> rules[i].id != rules[j].id
    requires forall key: Key :: key.sensorId == sensor.id ==> KeyRows(st.rows, key) == KeyRows(dst.rows, key)
    requires SameCounts(st.summary, dst.summary)
    requires actual.hasOrganization || RunRules(dry, dst, sensor, rules).state.summary.created == 0
    ensures !RunRules(actual, st, sensor, rules).failed
    ensures SameCounts(RunRules(actual, st, sensor, rules).state.summary, RunRules(dry, dst, sensor, rules).state.summary)
  {
    hide EvaluateOne, KeyRows;
    if rules != [] {
      var n := |rules| - 1;
      DryRulesKeepRows(dry, dst, sensor, rules[..n]);
      DryRulesKeepRows(dry, dst, sensor, rules);
      CreatedGrows(dry, dst, sensor, rules[..n]);
      CreatedGrows(dry, RunRules(dry, dst, sensor, rules[..n]).state, sensor, [rules[n]]);
      assert [rules[n]][..0] == [];
      RulesAgree(actual, dry, st, dst, sensor, rules[..n]);
      var key := KeyOf(sensor, rules[n]);
      forall i | 0 <= i < n ensures KeyOf(sensor, rules[..n][i]) != key {
        assert rules[..n][i] == rules[i];
      }
      RulesLeaveOthers(actual, st, sensor, rules[..n], key);
      RuleAgrees(actual, dry, RunRules(actual, st, sensor, rules[..n]).state, RunRules(dry, dst, sensor, rules[..n]).state,
                 sensor, rules[n]);
    }
  }

  lemma {:induction false} SensorsAgree(actual: RunInput, dry: RunInput, st: RunState, sensors: seq<Sensor>)
    requires !actual.dryRun && dry == actual.(dryRun := true)
    requires forall i, j :: 0 <= i < j < |sensors| ==> sensors[i].id != sensors[j].id
    requires forall i, j :: 0 <= i < j < |actual.rules| ==> actual.rules[i].id != actual.rules[j].id
    requires actual.hasOrganization || RunSensors(dry, st, sensors).summary.created == 0
    ensures SameCounts(RunSensors(actual, st, sensors).summary, RunSensors(dry, st, sensors).summary)
  {
    hide RunRules;
    if sensors != [] {
      var n := |sensors| - 1;
      var sensor := sensors[n];
      var dst := RunSensors(dry, st, sensors[..n]);
      if sensor.feed.Some? {
        CreatedGrows(dry, dst, sensor, dry.rules);
        DryRulesKeepRows(dry, dst, sensor, dry.rules);
      }
      SensorsAgree(actual, dry, st, sensors[..n]);
      DrySensorsKeepRows(dry, st, sensors[..n]);
      if sensor.feed.Some? {
        var rst := RunSensors(actual, st, sensors[..n]);
        forall key: Key | key.sensorId == sensor.id ensures KeyRows(rst.rows, key) == KeyRows(dst.rows, key) {
          SensorsLeaveOthers(actual, st, sensors[..n], key);
        }
        RulesAgree(actual, dry, rst, dst, sensor, actual.rules);
      }
    }
  }

  lemma {:induction false} NothingCreatedWithoutOrganization(run: RunInput, st: RunState, sensor: Sensor, rules: seq<Rule>)
    requires sensor.feed.Some? && !run.dryRun && !run.hasOrganization
    ensures RunRules(run, st, sensor, rules).state.summary.created == st.summary.created
  {
    if rules != [] {
      NothingCreatedWithoutOrganization(run, st, sensor, rules[..|rules| - 1]);
    }
  }

  lemma {:induction false} NoCreationWithoutOrganization(run: RunInput, st: RunState, sensors: seq<Sensor>)
    requires !run.dryRun && !run.hasOrganization
    ensures RunSensors(run, st, sensors).summary.created == st.summary.created
  {
    if sensors != [] {
      var n := |sensors| - 1;
      NoCreationWithoutOrganization(run, st, sensors[..n]);
      if sensors[n].feed.Some? {
        NothingCreatedWithoutOrganization(run, RunSensors(run, st, sensors[..n]), sensors[n], run.rules);
      }
    }
  }

  /**
    A dry run leaves the store as it was and reports the counts of the real run from the same store, clock and
    readings, exactly when the organization row exists or nothing new would be stored.
   */
  lemma DryRunAgreement(run: RunInput, rows: seq<Row>)
    requires Distinct(run) && !run.dryRun
    ensures
      var dry := Run(run.(dryRun := true), rows);
      && dry.rows == rows
      && (SameCounts(dry.summary, Run(run, rows).summary) <==> run.hasOrganization || dry.summary.created == 0)
  {
    var dry := run.(dryRun := true);
    assert Start(dry, rows) == Start(run, rows);
    DrySensorsKeepRows(dry, Start(dry, rows), dry.sensors);
    if run.hasOrganization || Run(dry, rows).summary.created == 0 {
      SensorsAgree(run, dry, Start(run, rows), run.sensors);
    } else {
      NoCreationWithoutOrganization(run, Start(run, rows), run.sensors);
    }
  }
}
