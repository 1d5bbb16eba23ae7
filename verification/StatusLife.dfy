/**
  The statuses a detection goes through: the services of `services/investigation.py` follow the transition table of
  `detection/workflow.py`, runs leave statuses alone, and a detection ends where the table says.
 */
module StatusLife {
  import opened Wrappers
  import opened Deduplication
  import opened DetectionRun
  import opened OperatorMoves
  import Catalog

  datatype Action = StartingReview | AddingNote | Dismissing | Merging | Promoting | Reopening

  /** The table `ACTION_MAP`. */
  function AllowedActions(s: Status): set<Action> {
    match s
    case New => {StartingReview, AddingNote, Dismissing, Merging}
    case Queued => {StartingReview, AddingNote, Dismissing, Merging}
    case UnderReview => {AddingNote, Dismissing, Merging, Promoting}
    case Dismissed => {AddingNote, Reopening}
    case Promoted => {}
    case Merged => {}
  }

  function ActionOf(m: Move): Action {
    match m
    case StartReview(_) => StartingReview
    case AddNote(_) => AddingNote
    case Dismiss(_) => Dismissing
    case Reopen(_) => Reopening
    case Merge(_, _) => Merging
    case Promote(_, _) => Promoting
  }

  /** Where an action leads that the service carries out. */
  function Destination(s: Status, a: Action): Status {
    match a
    case StartingReview => UnderReview
    case AddingNote => s
    case Dismissing => Dismissed
    case Merging => Merged
    case Promoting => Promoted
    case Reopening => Queued
  }

  /**
    The services agree with the table: a move is carried out exactly when the row's status allows it, a merge moreover when its
    target is another row that could itself be merged, a promotion when there is a location; starting a review under way is
    accepted as well and changes nothing.
   */
  lemma ServicesFollowTheTable(rows: seq<Row>, m: Move)
    ensures NextStatus(rows, m).Some? <==>
              && m.at < |rows|
              && (ActionOf(m) in AllowedActions(rows[m.at].status) || (m.StartReview? && rows[m.at].status.UnderReview?))
              && (m.Merge? ==> m.target != m.at && m.target < |rows| && Merging in AllowedActions(rows[m.target].status))
              && (m.Promote? ==> m.hasLocation)
    ensures NextStatus(rows, m).Some? ==> NextStatus(rows, m).value == Destination(rows[m.at].status, ActionOf(m))
  {
  }

  /** A move that is carried out changes the status of its row and nothing else; any other changes nothing. */
  lemma MovesAreCarriedOut(rows: seq<Row>, m: Move)
    ensures var t := Apply(rows, Moved(m));
            if NextStatus(rows, m).Some?
            then |t| == |rows| && t[m.at] == rows[m.at].(status := Destination(rows[m.at].status, ActionOf(m)))
                 && forall i :: 0 <= i < |rows| && i != m.at ==> t[i] == rows[i]
            else t == rows
  {
    ServicesFollowTheTable(rows, m);
    hide NextStatus, Destination;
  }

  // ---------------------------------------------------------------- along a run and a trace

  /** Rows stay where they are with their statuses, and new ones begin as new. */
  ghost predicate KeepsStatuses(before: seq<Row>, rows: seq<Row>) {
    && |before| <= |rows|
    && (forall i :: 0 <= i < |before| ==> rows[i].status == before[i].status && rows[i].key == before[i].key)
    && (forall i :: |before| <= i < |rows| ==> rows[i].status == New)
  }

  lemma OneKeepsStatuses(run: RunInput, st: RunState, sensor: Sensor, rule: Catalog.Rule)
    requires sensor.feed.Some?
    ensures KeepsStatuses(st.rows, EvaluateOne(run, st, sensor, rule).state.rows)
  {
  }

  lemma {:induction false} RulesKeepStatuses(run: RunInput, st: RunState, sensor: Sensor, rules: seq<Catalog.Rule>)
    requires sensor.feed.Some?
    ensures KeepsStatuses(st.rows, RunRules(run, st, sensor, rules).state.rows)
  {
    hide EvaluateOne;
    if rules != [] {
      var n := |rules| - 1;
      RulesKeepStatuses(run, st, sensor, rules[..n]);
      var before := RunRules(run, st, sensor, rules[..n]);
      OneKeepsStatuses(run, before.state, sensor, rules[n]);
    }
  }

  lemma {:induction false} SensorsKeepStatuses(run: RunInput, st: RunState, sensors: seq<Sensor>)
    ensures KeepsStatuses(st.rows, RunSensors(run, st, sensors).rows)
  {
    hide RunRules;
    if sensors != [] {
      var n := |sensors| - 1;
      SensorsKeepStatuses(run, st, sensors[..n]);
      if sensors[n].feed.Some? {
        RulesKeepStatuses(run, RunSensors(run, st, sensors[..n]), sensors[n], run.rules);
      }
    }
  }

  lemma RunKeepsStatuses(run: RunInput, rows: seq<Row>)
    ensures KeepsStatuses(rows, Run(run, rows).rows)
  {
    hide RunSensors;
    SensorsKeepStatuses(run, Start(run, rows), run.sensors);
  }

  /** An action the table allows leads from `s` to `t`. */
  ghost predicate Arrow(s: Status, t: Status) {
    exists a :: a in AllowedActions(s) && t == Destination(s, a)
  }

  lemma EventFollowsTheTable(rows: seq<Row>, ev: Event, i: nat)
    requires i < |rows|
    ensures i < |Apply(rows, ev)|
    ensures var s, t := rows[i].status, Apply(rows, ev)[i].status; s == t || Arrow(s, t)
  {
    match ev
    case Ran(run) => RunKeepsStatuses(run, rows);
    case Moved(m) =>
      ServicesFollowTheTable(rows, m);
      hide NextStatus, AllowedActions, Destination;
      if m.at == i && NextStatus(rows, m).Some? && ActionOf(m) in AllowedActions(rows[i].status) {
        assert Arrow(rows[i].status, NextStatus(rows, m).value);
      } else {
        ReviewUnderWay();
      }
  }

  lemma ReviewUnderWay()
    ensures Destination(UnderReview, StartingReview) == UnderReview
  {
  }

  lemma ArrowsEnd(s: Status, t: Status)
    requires Arrow(s, t)
    ensures !s.Promoted? && !s.Merged?
    ensures t.Promoted? ==> s.UnderReview?
    ensures t.Queued? && !s.Queued? ==> s.Dismissed?
    ensures t.Merged? ==> s.Active()
  {
  }

  lemma LastEvent(events: seq<Event>)
    requires events != []
    ensures After(events) == Apply(After(events[..|events| - 1]), events[|events| - 1])
  {
  }

  /** Promotion and merging are final: whatever happens afterwards, the row keeps its status. */
  lemma {:induction false} EndsAreFinal(events: seq<Event>, n: nat, i: nat)
    requires n <= |events| && i < |After(events[..n])|
    requires After(events[..n])[i].status.Promoted? || After(events[..n])[i].status.Merged?
    ensures i < |After(events)| && After(events)[i].status == After(events[..n])[i].status
    decreases |events|
  {
    hide *;
    if n == |events| {
      assert events[..n] == events;
    } else {
      var k := |events| - 1;
      assert events[..k][..n] == events[..n];
      EndsAreFinal(events[..k], n, i);
      LastEvent(events);
      EventFollowsTheTable(After(events[..k]), events[k], i);
      if After(events)[i].status != After(events[..k])[i].status {
        ArrowsEnd(After(events[..k])[i].status, After(events)[i].status);
      }
    }
  }

  /** No detection is promoted that was not under review before. */
  lemma {:induction false} PromotedWasReviewed(events: seq<Event>, i: nat)
    requires i < |After(events)| && After(events)[i].status.Promoted?
    ensures exists n: nat :: n < |events| && i < |After(events[..n])| && After(events[..n])[i].status.UnderReview?
  {
    NoRowsAtFirst();
    hide *;
    var k := |events| - 1;
    var before := After(events[..k]);
    LastEvent(events);
    if i < |before| {
      EventFollowsTheTable(before, events[k], i);
      if before[i].status.Promoted? {
        PromotedWasReviewed(events[..k], i);
        var n: nat :| n < k && i < |After(events[..k][..n])| && After(events[..k][..n])[i].status.UnderReview?;
        assert events[..k][..n] == events[..n];
      } else {
        ArrowsEnd(before[i].status, After(events)[i].status);
      }
    } else {
      NewRowsAreNew(before, events[k], i);
    }
  }

  lemma NoRowsAtFirst()
    ensures After([]) == []
  {
  }

  lemma NewRowsAreNew(rows: seq<Row>, ev: Event, i: nat)
    requires |rows| <= i < |Apply(rows, ev)|
    ensures Apply(rows, ev)[i].status.New?
  {
    if ev.Ran? {
      RunKeepsStatuses(ev.run, rows);
    }
  }
}
