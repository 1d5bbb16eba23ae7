/**
  `engine.py` and `deduplication.py` in their own form: stored detections are objects whose evidence summary
  is updated in place, and the run is a loop over sensors and rules. Specified by `DetectionRun.Run`.
 */
module DetectionEngine {
  import opened Wrappers
  import opened Rules
  import opened Scoring
  import opened Catalog
  import opened Deduplication
  import Spec = DetectionRun

  class AnomalyDetection {
    const key: Key
    const detectedAt: real
    const anomalyScore: real
    const priority: Priority
    const reasons: seq<Reason>
    var status: Status
    var summary: Summary
    var updatedAt: real

    constructor (r: Row)
      ensures View() == r
    {
      key, detectedAt, anomalyScore, priority, reasons := r.key, r.detectedAt, r.anomalyScore, r.priority, r.reasons;
      status, summary, updatedAt := r.status, r.summary, r.updatedAt;
    }

    function View(): Row
      reads this
    {
      Row(key, detectedAt, anomalyScore, priority, reasons, status, summary, updatedAt)
    }

    method MarkRecovered(now: real)
      modifies this`summary, this`updatedAt
      ensures View() == Recovered(old(View()), now)
    {
      summary := summary.(conditionOpen := Some(false), recoveredAt := Some(now));
      updatedAt := now;
    }

    method RecordRepeat(now: real, windowEnd: real) returns (count: int)
      modifies this`summary, this`updatedAt
      ensures View() == Repeated(old(View()), now, windowEnd)
      ensures View().summary.repeatCount == Some(count)
    {
      count := summary.repeatCount.GetOr(1) + 1;
      summary := summary.(repeatCount := Some(count), conditionOpen := Some(true),
                          lastSeenAt := Some(now), windowEnd := Some(windowEnd));
      updatedAt := now;
    }
  }

  lemma NextRule(run: Spec.RunInput, start: Spec.RunState, sensor: Spec.Sensor, i: nat)
    requires sensor.feed.Some? && i < |run.rules|
    requires !Spec.RunRules(run, start, sensor, run.rules[..i]).failed
    ensures Spec.RunRules(run, start, sensor, run.rules[..i + 1])
         == Spec.EvaluateOne(run, Spec.RunRules(run, start, sensor, run.rules[..i]).state, sensor, run.rules[i])
  {
    assert run.rules[..i + 1][..i] == run.rules[..i];
  }

  /** Once an exception has left the loop the remaining rules change nothing. */
  lemma FailureSticks(run: Spec.RunInput, start: Spec.RunState, sensor: Spec.Sensor, i: nat)
    requires sensor.feed.Some? && i <= |run.rules|
    requires Spec.RunRules(run, start, sensor, run.rules[..i]).failed || i == |run.rules|
    ensures Spec.RunRules(run, start, sensor, run.rules) == Spec.RunRules(run, start, sensor, run.rules[..i])
    decreases |run.rules| - i
  {
    hide Spec.EvaluateOne;
    if i < |run.rules| {
      assert run.rules[..i + 1][..i] == run.rules[..i];
      FailureSticks(run, start, sensor, i + 1);
    } else {
      assert run.rules[..i] == run.rules;
    }
  }

  class Engine {
    /** The detections table, in insertion order. */
    var rows: seq<AnomalyDetection>

    constructor ()
      ensures Valid() && Contents() == []
    {
      rows := [];
    }

    ghost predicate Valid()
      reads this
    {
      forall i, j :: 0 <= i < j < |rows| ==> rows[i] != rows[j]
    }

    function Contents(): (c: seq<Row>)
      reads this, rows
      ensures |c| == |rows|
      ensures forall i :: 0 <= i < |rows| ==> c[i] == rows[i].View()
    {
      seq(|rows|, i requires 0 <= i < |rows| reads this, rows => rows[i].View())
    }

    /** One pass of the inner loop. `failed` is the exception raised when no organization row exists. */
    method EvaluateOne(run: Spec.RunInput, sensor: Spec.Sensor, rule: Rule, counted: Spec.RunSummary)
      returns (summary: Spec.RunSummary, failed: bool)
      requires Valid() && sensor.feed.Some?
      modifies this, rows
      ensures Valid() && forall k :: 0 <= k < |rows| ==> rows[k] in old(rows) || fresh(rows[k])
      ensures Spec.Outcome(Spec.RunState(Contents(), summary), failed)
           == Spec.EvaluateOne(run, Spec.RunState(old(Contents()), counted), sensor, rule)
    {
      hide EvaluateRule, ScoreOf, PriorityOf, FindOpen;
      ghost var before := Contents();
      failed := false;
      summary := counted.(rulesEvaluated := counted.rulesEvaluated + 1);
      var hit := EvaluateRule(rule, sensor.feed.value, run.clock, run.windowStart);
      var key := Spec.KeyOf(sensor, rule);
      var found := FindOpen(Contents(), key);
      var still := found.Some? && IsStillOpen(rows[found.value].View());
      if !hit.triggered {
        if still && !run.dryRun {
          rows[found.value].MarkRecovered(run.clock);
          summary := summary.(recovered := summary.recovered + 1);
          assert Contents() == before[found.value := Recovered(before[found.value], run.clock)];
        }
      } else if still {
        summary := summary.(deduplicated := summary.deduplicated + 1);
        if !run.dryRun {
          var _ := rows[found.value].RecordRepeat(run.clock, hit.windowEnd);
          assert Contents() == before[found.value := Repeated(before[found.value], run.clock, hit.windowEnd)];
        }
      } else if run.dryRun {
        summary := summary.(created := summary.created + 1);
      } else if !run.hasOrganization {
        failed := true;
      } else {
        var row := new AnomalyDetection(Spec.NewRow(key, rule, hit, sensor.feed.value, run.clock));
        rows := rows + [row];
        summary := summary.(created := summary.created + 1);
        assert Contents() == before + [row.View()];
      }
    }

    /** The `try` block of one sensor: rule after rule until the list ends or an exception leaves the loop. */
    method RunRules(run: Spec.RunInput, sensor: Spec.Sensor, counted: Spec.RunSummary)
      returns (summary: Spec.RunSummary, failed: bool)
      requires Valid() && sensor.feed.Some?
      modifies this, rows
      ensures Valid() && forall k :: 0 <= k < |rows| ==> rows[k] in old(rows) || fresh(rows[k])
      ensures Spec.Outcome(Spec.RunState(Contents(), summary), failed)
           == Spec.RunRules(run, Spec.RunState(old(Contents()), counted), sensor, run.rules)
    {
      assert Spec.RunRules(run, Spec.RunState(Contents(), counted), sensor, run.rules[..0])
          == Spec.Outcome(Spec.RunState(Contents(), counted), false);
      hide Spec.EvaluateOne, Spec.RunRules;
      ghost var start := Spec.RunState(Contents(), counted);
      summary, failed := counted, false;
      var i := 0;
      while i < |run.rules| && !failed
        invariant 0 <= i <= |run.rules|
        invariant Valid() && forall k :: 0 <= k < |rows| ==> rows[k] in old(rows) || fresh(rows[k])
        invariant Spec.Outcome(Spec.RunState(Contents(), summary), failed)
               == Spec.RunRules(run, start, sensor, run.rules[..i])
        decreases |run.rules| - i, !failed
      {
        NextRule(run, start, sensor, i);
        summary, failed := EvaluateOne(run, sensor, run.rules[i], summary);
        i := i + 1;
      }
      FailureSticks(run, start, sensor, i);
    }

    /** The whole run: every sensor, with its own exception handler. */
    method Run(run: Spec.RunInput) returns (summary: Spec.RunSummary)
      requires Valid()
      modifies this, rows
      ensures Valid() && forall k :: 0 <= k < |rows| ==> rows[k] in old(rows) || fresh(rows[k])
      ensures Spec.RunState(Contents(), summary) == Spec.Run(run, old(Contents()))
    {
      hide Spec.RunRules;
      ghost var start := Spec.Start(run, Contents());
      summary := Spec.RunSummary(|run.sensors|, 0, 0, 0, 0, 0);
      for i := 0 to |run.sensors|
        invariant Valid() && forall k :: 0 <= k < |rows| ==> rows[k] in old(rows) || fresh(rows[k])
        invariant Spec.RunState(Contents(), summary) == Spec.RunSensors(run, start, run.sensors[..i])
      {
        assert run.sensors[..i + 1][..i] == run.sensors[..i];
        var sensor := run.sensors[i];
        var failed := true;
        if sensor.feed.Some? {
          summary, failed := RunRules(run, sensor, summary);
        }
        if failed {
          summary := summary.(errors := summary.errors + 1);
        }
      }
      assert run.sensors[..|run.sensors|] == run.sensors;
    }
  }
}
