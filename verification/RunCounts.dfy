/**
  What the summary of a detection run counts, told from the rows the run began with: how many rules were evaluated, and how
  many of those evaluations created, repeated or recovered a detection.
 */
module RunCounts {
  import opened Wrappers
  import opened Catalog
  import opened Deduplication
  import opened DetectionRun

  datatype Counter = Evaluated | Created | Repeated | Recovered

  /** The decision the rows of the rule's own key call for. */
  function DecisionOn(run: RunInput, rows: seq<Row>, sensor: Sensor, rule: Rule): Decision
    requires sensor.feed.Some?
  {
    Decide(rows, KeyOf(sensor, rule), EvaluationFor(run, sensor, rule).triggered)
  }

  /** The sensor's loop gets as far as rule `i`: a real run without an organization row ends at the first one to create. */
  predicate Reached(run: RunInput, rows: seq<Row>, sensor: Sensor, rules: seq<Rule>, i: nat)
    requires sensor.feed.Some? && i <= |rules|
  {
    run.dryRun || !Aborts(run, rows, sensor, rules[..i])
  }

  /** Rule `i` is reached and adds to this counter; a dry run reports no recoveries. */
  predicate Adds(run: RunInput, rows: seq<Row>, sensor: Sensor, rules: seq<Rule>, i: nat, counter: Counter)
    requires sensor.feed.Some? && i < |rules|
  {
    && Reached(run, rows, sensor, rules, i)
    && match counter
       case Evaluated => true
       case Created => DecisionOn(run, rows, sensor, rules[i]).Create? && (run.dryRun || run.hasOrganization)
       case Repeated => DecisionOn(run, rows, sensor, rules[i]).Repeat?
       case Recovered => DecisionOn(run, rows, sensor, rules[i]).Recover? && !run.dryRun
  }

  /** How many of the first `n` rules add to the counter. */
  function Tally(run: RunInput, rows: seq<Row>, sensor: Sensor, rules: seq<Rule>, n: nat, counter: Counter): nat
    requires sensor.feed.Some? && n <= |rules|
  {
    if n == 0 then 0
    else Tally(run, rows, sensor, rules, n - 1, counter) + if Adds(run, rows, sensor, rules, n - 1, counter) then 1 else 0
  }

  /** What a sensor adds to the counter: nothing if its telemetry cannot be read. */
  function SensorTally(run: RunInput, rows: seq<Row>, sensor: Sensor, counter: Counter): nat {
    if sensor.feed.None? then 0 else Tally(run, rows, sensor, run.rules, |run.rules|, counter)
  }

  function RunTally(run: RunInput, rows: seq<Row>, sensors: seq<Sensor>, counter: Counter): nat {
    if sensors == [] then 0
    else RunTally(run, rows, sensors[..|sensors| - 1], counter) + SensorTally(run, rows, sensors[|sensors| - 1], counter)
  }

  /** The sensor counts as an error: its telemetry cannot be read, or its loop is cut short. */
  predicate Errs(run: RunInput, rows: seq<Row>, sensor: Sensor) {
    sensor.feed.None? || (!run.dryRun && Aborts(run, rows, sensor, run.rules))
  }

  function ErrorTally(run: RunInput, rows: seq<Row>, sensors: seq<Sensor>): nat {
    if sensors == [] then 0
    else ErrorTally(run, rows, sensors[..|sensors| - 1]) + if Errs(run, rows, sensors[|sensors| - 1]) then 1 else 0
  }

  function CountOf(s: RunSummary, counter: Counter): nat {
    match counter
    case Evaluated => s.rulesEvaluated
    case Created => s.created
    case Repeated => s.deduplicated
    case Recovered => s.recovered
  }

  // ---------------------------------------------------------------- only a key's own rows matter

  ghost predicate AgreeOn(a: seq<Row>, b: seq<Row>, sensor: Sensor, rules: seq<Rule>) {
    forall i :: 0 <= i < |rules| ==> KeyRows(a, KeyOf(sensor, rules[i])) == KeyRows(b, KeyOf(sensor, rules[i]))
  }

  lemma SameDecisionOn(run: RunInput, a: seq<Row>, b: seq<Row>, sensor: Sensor, rule: Rule)
    requires sensor.feed.Some? && KeyRows(a, KeyOf(sensor, rule)) == KeyRows(b, KeyOf(sensor, rule))
    ensures var d, e := DecisionOn(run, a, sensor, rule), DecisionOn(run, b, sensor, rule);
            d.Create? == e.Create? && d.Repeat? == e.Repeat? && d.Recover? == e.Recover?
    ensures Creates(run, a, sensor, rule) == Creates(run, b, sensor, rule)
  {
    hide EvaluationFor;
    SameDecision(a, b, KeyOf(sensor, rule), EvaluationFor(run, sensor, rule).triggered);
  }

  lemma SameAborts(run: RunInput, a: seq<Row>, b: seq<Row>, sensor: Sensor, rules: seq<Rule>, n: nat)
    requires sensor.feed.Some? && n <= |rules| && AgreeOn(a, b, sensor, rules)
    ensures Aborts(run, a, sensor, rules[..n]) == Aborts(run, b, sensor, rules[..n])
  {
    hide Creates;
    forall j | 0 <= j < n ensures Creates(run, a, sensor, rules[..n][j]) == Creates(run, b, sensor, rules[..n][j]) {
      assert rules[..n][j] == rules[j];
      SameDecisionOn(run, a, b, sensor, rules[j]);
    }
  }

  lemma {:induction false} SameTally(run: RunInput, a: seq<Row>, b: seq<Row>, sensor: Sensor, rules: seq<Rule>, n: nat, counter: Counter)
    requires sensor.feed.Some? && n <= |rules| && AgreeOn(a, b, sensor, rules)
    ensures Tally(run, a, sensor, rules, n, counter) == Tally(run, b, sensor, rules, n, counter)
  {
    hide Aborts, DecisionOn, Creates;
    if n > 0 {
      SameTally(run, a, b, sensor, rules, n - 1, counter);
      SameAborts(run, a, b, sensor, rules, n - 1);
      SameDecisionOn(run, a, b, sensor, rules[n - 1]);
    }
  }

  // ---------------------------------------------------------------- one sensor's rules

  lemma OneCounted(run: RunInput, st: RunState, sensor: Sensor, rule: Rule, counter: Counter)
    requires sensor.feed.Some?
    ensures var out, d := EvaluateOne(run, st, sensor, rule), DecisionOn(run, st.rows, sensor, rule);
            && (out.failed <==> !run.dryRun && !run.hasOrganization && d.Create?)
            && CountOf(out.state.summary, counter) == CountOf(st.summary, counter) +
                 (match counter
                  case Evaluated => 1
                  case Created => if d.Create? && (run.dryRun || run.hasOrganization) then 1 else 0
                  case Repeated => if d.Repeat? then 1 else 0
                  case Recovered => if d.Recover? && !run.dryRun then 1 else 0)
            && out.state.summary.errors == st.summary.errors && out.state.summary.sensorsChecked == st.summary.sensorsChecked
  {
    hide EvaluationFor;
  }

  lemma {:induction false} RulesCounted(run: RunInput, st: RunState, sensor: Sensor, rules: seq<Rule>, n: nat, counter: Counter)
    requires sensor.feed.Some? && n <= |rules|
    requires forall i, j :: 0 <= i < j < |rules| ==> rules[i].id != rules[j].id
    ensures var out := RunRules(run, st, sensor, rules[..n]);
            && (out.failed <==> !run.dryRun && Aborts(run, st.rows, sensor, rules[..n]))
            && CountOf(out.state.summary, counter) == CountOf(st.summary, counter) + Tally(run, st.rows, sensor, rules, n, counter)
            && out.state.summary.errors == st.summary.errors && out.state.summary.sensorsChecked == st.summary.sensorsChecked
  {
    hide EvaluateOne, Aborts, DecisionOn, Creates, EvaluationFor, CountOf;
    if n == 0 {
      NoneAbort(run, st.rows, sensor, rules[..0]);
    } else {
      var rule, prefix := rules[n - 1], rules[..n];
      RulesCounted(run, st, sensor, rules, n - 1, counter);
      assert prefix[..n - 1] == rules[..n - 1] && prefix[n - 1] == rule;
      var before := RunRules(run, st, sensor, rules[..n - 1]);
      AbortsSnoc(run, st.rows, sensor, prefix);
      if !before.failed {
        assert forall i :: 0 <= i < n - 1 ==> rules[..n - 1][i] == rules[i];
        OtherKeys(sensor, rules, n - 1);
        RulesLeaveOthers(run, st, sensor, rules[..n - 1], KeyOf(sensor, rule));
        SameDecisionOn(run, before.state.rows, st.rows, sensor, rule);
        OneCounted(run, before.state, sensor, rule, counter);
        CreatesIsDecision(run, st.rows, sensor, rule);
      }
    }
  }

  lemma NoneAbort(run: RunInput, rows: seq<Row>, sensor: Sensor, rules: seq<Rule>)
    requires sensor.feed.Some? && rules == []
    ensures !Aborts(run, rows, sensor, rules)
  {
  }

  lemma CreatesIsDecision(run: RunInput, rows: seq<Row>, sensor: Sensor, rule: Rule)
    requires sensor.feed.Some?
    ensures Creates(run, rows, sensor, rule) == DecisionOn(run, rows, sensor, rule).Create?
  {
  }

  lemma OtherKeys(sensor: Sensor, rules: seq<Rule>, n: nat)
    requires n < |rules| && forall i, j :: 0 <= i < j < |rules| ==> rules[i].id != rules[j].id
    ensures forall i :: 0 <= i < n ==> KeyOf(sensor, rules[..n][i]) != KeyOf(sensor, rules[n])
  {
  }

  // ---------------------------------------------------------------- the whole run

  lemma {:induction false} SensorsCounted(run: RunInput, st: RunState, n: nat, counter: Counter)
    requires Distinct(run) && n <= |run.sensors|
    ensures var out := RunSensors(run, st, run.sensors[..n]);
            && CountOf(out.summary, counter) == CountOf(st.summary, counter) + RunTally(run, st.rows, run.sensors[..n], counter)
            && out.summary.errors == st.summary.errors + ErrorTally(run, st.rows, run.sensors[..n])
            && out.summary.sensorsChecked == st.summary.sensorsChecked
  {
    hide Aborts, CountOf, Tally, RunRules;
    if n > 0 {
      var sensor, prefix := run.sensors[n - 1], run.sensors[..n];
      SensorsCounted(run, st, n - 1, counter);
      assert prefix[..n - 1] == run.sensors[..n - 1] && prefix[n - 1] == sensor;
      var mid := RunSensors(run, st, run.sensors[..n - 1]);
      if sensor.feed.Some? {
        forall i | 0 <= i < |run.rules| ensures KeyRows(mid.rows, KeyOf(sensor, run.rules[i])) == KeyRows(st.rows, KeyOf(sensor, run.rules[i])) {
          SensorsLeaveOthers(run, st, run.sensors[..n - 1], KeyOf(sensor, run.rules[i]));
        }
        assert run.rules[..|run.rules|] == run.rules;
        RulesCounted(run, mid, sensor, run.rules, |run.rules|, counter);
        SameTally(run, mid.rows, st.rows, sensor, run.rules, |run.rules|, counter);
        SameAborts(run, mid.rows, st.rows, sensor, run.rules, |run.rules|);
        ErrorsOnly(RunRules(run, mid, sensor, run.rules).state, counter);
      } else {
        ErrorsOnly(mid, counter);
      }
    }
  }

  lemma ErrorsOnly(st: RunState, counter: Counter)
    ensures CountOf(CountError(st).summary, counter) == CountOf(st.summary, counter)
    ensures CountError(st).summary.errors == st.summary.errors + 1 && CountError(st).summary.sensorsChecked == st.summary.sensorsChecked
  {
  }

  /**
    Every counter of a run's summary is a number of evaluations decided by the rows the run began with, real and dry runs
    alike: no evaluation of the run changes what another one counts as.
   */
  lemma SummaryCounts(run: RunInput, rows: seq<Row>, counter: Counter)
    requires Distinct(run)
    ensures var s := Run(run, rows).summary;
            && CountOf(s, counter) == RunTally(run, rows, run.sensors, counter)
            && s.errors == ErrorTally(run, rows, run.sensors)
            && s.sensorsChecked == |run.sensors|
  {
    hide RunTally, ErrorTally;
    SensorsCounted(run, Start(run, rows), |run.sensors|, counter);
    assert run.sensors[..|run.sensors|] == run.sensors;
  }
}
