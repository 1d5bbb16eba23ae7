/**
  What the catalog, the scoring and the engine together guarantee about every row ever stored.
 */
module StoredPriorities {
  import opened Wrappers
  import opened Rules
  import opened Scoring
  import opened Catalog
  import opened Deduplication
  import opened DetectionRun
  import opened OperatorMoves

  /** Operators triage by priority: these are the readings of a stored priority they may rely on. */
  ghost predicate Sound(r: Row) {
    && (r.key.code.COMBINED_LEAK_PATTERN? ==> r.anomalyScore >= 0.56 && r.priority.Rank() >= High.Rank())
    && (r.priority.Critical? ==>
          r.key.code.COMBINED_LEAK_PATTERN?
          || (r.key.code.CONNECTIVITY_DEGRADATION?
              && r.reasons == [PacketLossHigh, SignalStrengthLow, IntermittentMeasurements]))
    && r.priority == PriorityForScore(r.anomalyScore)
  }

  ghost predicate AllSound(rows: seq<Row>) {
    forall i :: 0 <= i < |rows| ==> Sound(rows[i])
  }

  lemma CreatedRowIsSound(run: RunInput, sensor: Sensor, rule: Rule)
    requires sensor.feed.Some? && Shipped(rule)
    requires EvaluationFor(run, sensor, rule).triggered
    ensures Sound(EvaluationFor(run, sensor, rule).created)
  {
    hide EvaluateRule, ScoreOf;
    var feed := sensor.feed.value;
    var hit := EvaluateRule(rule, feed, run.clock, run.windowStart);
    if rule.code.COMBINED_LEAK_PATTERN? {
      CombinedIsAtLeastHigh(rule, feed, run.clock, run.windowStart);
    }
    if PriorityOf(rule, hit, feed).Critical? {
      CriticalOnlyFrom(rule, feed, run.clock, run.windowStart);
    }
  }

  lemma EvaluateOneKeepsSound(run: RunInput, st: RunState, sensor: Sensor, rule: Rule)
    requires sensor.feed.Some? && Shipped(rule) && AllSound(st.rows)
    ensures AllSound(EvaluateOne(run, st, sensor, rule).state.rows)
  {
    hide EvaluationFor, FindOpen;
    if EvaluationFor(run, sensor, rule).triggered {
      CreatedRowIsSound(run, sensor, rule);
    }
  }

  lemma {:induction false} RunRulesKeepsSound(run: RunInput, st: RunState, sensor: Sensor, rules: seq<Rule>)
    requires sensor.feed.Some? && AllSound(st.rows)
    requires forall i :: 0 <= i < |rules| ==> Shipped(rules[i])
    ensures AllSound(RunRules(run, st, sensor, rules).state.rows)
  {
    hide Shipped, EvaluateOne, Sound;
    if rules != [] {
      var n := |rules| - 1;
      RunRulesKeepsSound(run, st, sensor, rules[..n]);
      EvaluateOneKeepsSound(run, RunRules(run, st, sensor, rules[..n]).state, sensor, rules[n]);
    }
  }

  lemma {:induction false} RunSensorsKeepsSound(run: RunInput, st: RunState, sensors: seq<Sensor>)
    requires AllSound(st.rows)
    requires forall i :: 0 <= i < |run.rules| ==> Shipped(run.rules[i])
    ensures AllSound(RunSensors(run, st, sensors).rows)
  {
    hide Shipped, RunRules, Sound;
    if sensors != [] {
      var n := |sensors| - 1;
      RunSensorsKeepsSound(run, st, sensors[..n]);
      if sensors[n].feed.Some? {
        RunRulesKeepsSound(run, RunSensors(run, st, sensors[..n]), sensors[n], run.rules);
      }
    }
  }

  /** After any interleaving of runs of shipped rules with any operator moves, every stored row is sound. */
  lemma {:induction false} StoredRowsAreSound(events: seq<Event>)
    requires forall i :: 0 <= i < |events| && events[i].Ran? ==>
               forall k :: 0 <= k < |events[i].run.rules| ==> Shipped(events[i].run.rules[k])
    ensures AllSound(After(events))
  {
    hide Shipped, RunSensors;
    if events != [] {
      var n := |events| - 1;
      StoredRowsAreSound(events[..n]);
      var rows := After(events[..n]);
      match events[n]
      case Ran(run) => RunSensorsKeepsSound(run, Start(run, rows), run.sensors);
      case Moved(m) =>
    }
  }
}
