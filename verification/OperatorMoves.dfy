/**
  Detection runs interleaved with the operators' status changes (`services/investigation.py`,
  `detection/workflow.py`): what keeps at most one open active row per key, and exactly which reopen breaks it.
 */
module OperatorMoves {
  import opened Wrappers
  import opened Deduplication
  import opened DetectionRun
  import opened DetectionHistory

  /** `at` and `target` are row indices; a row that does not exist is the not-found error. */
  datatype Move =
    | StartReview(at: nat)
    | AddNote(at: nat)
    | Dismiss(at: nat)
    | Reopen(at: nat)
    | Merge(at: nat, target: nat)
    | Promote(at: nat, hasLocation: bool)

  /** The new status, or `None` where the service raises a conflict. */
  function NextStatus(rows: seq<Row>, m: Move): Option<Status> {
    if m.at >= |rows| then None
    else
      var s := rows[m.at].status;
      match m
      case StartReview(_) => if s.Active() then Some(UnderReview) else None
      case AddNote(_) => if s.Active() || s.Dismissed? then Some(s) else None
      case Dismiss(_) => if s.Active() then Some(Dismissed) else None
      case Reopen(_) => if s.Dismissed? then Some(Queued) else None
      case Merge(at, target) =>
        if at != target && target < |rows| && s.Active() && rows[target].status.Active() then Some(Merged) else None
      case Promote(_, hasLocation) => if s.UnderReview? && hasLocation then Some(Promoted) else None
  }

  function ApplyMove(rows: seq<Row>, m: Move): seq<Row> {
    var next := NextStatus(rows, m);
    if next.None? then rows else rows[m.at := rows[m.at].(status := next.value)]
  }

  // ---------------------------------------------------------------- the invariant, on the rows of one key

  ghost predicate OpenRow(r: Row, key: Key) {
    Candidate(r, key) && IsStillOpen(r)
  }

  /** An open active row is the one the query finds: there is no second one, and no newer active row hides it. */
  ghost predicate SingleOpen(s: seq<Row>, key: Key) {
    forall i :: 0 <= i < |s| && OpenRow(s[i], key) ==> FindOpen(s, key) == Some(i)
  }

  ghost predicate DistinctTimes(s: seq<Row>) {
    forall i, j :: 0 <= i < j < |s| ==> s[i].detectedAt != s[j].detectedAt
  }

  ghost predicate Before(s: seq<Row>, later: real) {
    forall i :: 0 <= i < |s| ==> s[i].detectedAt < later
  }

  /** With distinct times the query's answer is whatever meets its promise. */
  lemma Found(s: seq<Row>, key: Key, answer: Option<nat>)
    requires DistinctTimes(s) && IsNewestActive(s, key, answer)
    ensures FindOpen(s, key) == answer
  {
    QueryAnswerIsUnique(s, key, answer);
  }

  /** Status, time and key decide the query; the evidence summary does not. */
  lemma SummaryIsInvisible(s: seq<Row>, key: Key, i: nat, r: Row)
    requires i < |s| && DistinctTimes(s)
    requires r.key == s[i].key && r.status == s[i].status && r.detectedAt == s[i].detectedAt
    ensures DistinctTimes(s[i := r]) && FindOpen(s[i := r], key) == FindOpen(s, key)
  {
    Found(s[i := r], key, FindOpen(s, key));
  }

  lemma NewestIsFound(s: seq<Row>, key: Key, r: Row)
    requires DistinctTimes(s) && r.key == key && r.status.Active()
    requires forall i :: 0 <= i < |s| ==> s[i].detectedAt != r.detectedAt
    requires forall i :: 0 <= i < |s| && Candidate(s[i], key) ==> s[i].detectedAt < r.detectedAt
    ensures DistinctTimes(s + [r]) && FindOpen(s + [r], key) == Some(|s|)
  {
    Found(s + [r], key, Some(|s|));
  }

  /** One evaluation under a fresh clock keeps the invariant. */
  lemma StepKeepsSingleOpen(s: seq<Row>, key: Key, e: Evaluation, later: real)
    requires DistinctTimes(s) && SingleOpen(s, key) && Before(s, e.clock)
    requires Stamped(e, key) && e.clock < later
    ensures DistinctTimes(Step(s, key, e)) && SingleOpen(Step(s, key, e), key) && Before(Step(s, key, e), later)
  {
    match Decide(s, key, e.triggered)
    case Ignore =>
    case Recover(i) => SummaryIsInvisible(s, key, i, Recovered(s[i], e.clock));
    case Repeat(i) => SummaryIsInvisible(s, key, i, Repeated(s[i], e.clock, e.windowEnd));
    case Create => CreationKeepsSingleOpenIff(s, key, e);
  }

  lemma StepBy(s: seq<Row>, key: Key, e: Evaluation, answer: Option<nat>)
    requires DistinctTimes(s) && IsNewestActive(s, key, answer)
    ensures var still := answer.Some? && IsStillOpen(s[answer.value]);
            Step(s, key, e) ==
              if e.triggered then (if still then s[answer.value := Repeated(s[answer.value], e.clock, e.windowEnd)] else s + [e.created])
              else (if still then s[answer.value := Recovered(s[answer.value], e.clock)] else s)
  {
    Found(s, key, answer);
  }

  lemma NewerRowHides(s: seq<Row>, key: Key, e: Evaluation, i: nat)
    requires Stamped(e, key) && i < |s| && Candidate(s[i], key) && s[i].detectedAt > e.clock
    ensures !SingleOpen(s + [e.created], key)
  {
    hide FindOpen;
    var next := s + [e.created];
    assert next[i] == s[i] && OpenRow(next[|s|], key);
    assert IsNewestActive(next, key, FindOpen(next, key));
  }

  lemma NewestRowIsSingle(s: seq<Row>, key: Key, e: Evaluation)
    requires DistinctTimes(s) && SingleOpen(s, key) && Stamped(e, key)
    requires forall i :: 0 <= i < |s| ==> s[i].detectedAt != e.clock
    requires forall i :: 0 <= i < |s| && Candidate(s[i], key) ==> s[i].detectedAt < e.clock
    requires forall i :: 0 <= i < |s| ==> !OpenRow(s[i], key)
    ensures SingleOpen(s + [e.created], key)
  {
    hide FindOpen;
    NewestIsFound(s, key, e.created);
    forall i | 0 <= i < |s| ensures !OpenRow((s + [e.created])[i], key) {
      assert (s + [e.created])[i] == s[i];
    }
  }

  /**
    A creation keeps the invariant exactly when no active row of the key carries a later time than the run's
    clock: replaying an old clock (the `now` argument) can store a second open row behind a closed newer one.
   */
  lemma CreationKeepsSingleOpenIff(s: seq<Row>, key: Key, e: Evaluation)
    requires DistinctTimes(s) && SingleOpen(s, key) && Stamped(e, key)
    requires forall i :: 0 <= i < |s| ==> s[i].detectedAt != e.clock
    requires Decide(s, key, e.triggered).Create?
    ensures DistinctTimes(s + [e.created])
    ensures SingleOpen(Step(s, key, e), key) <==> forall i :: 0 <= i < |s| && Candidate(s[i], key) ==> s[i].detectedAt < e.clock
  {
    hide FindOpen;
    assert forall i :: 0 <= i < |s| ==> !OpenRow(s[i], key);
    assert Step(s, key, e) == s + [e.created];
    if forall i :: 0 <= i < |s| && Candidate(s[i], key) ==> s[i].detectedAt < e.clock {
      NewestRowIsSingle(s, key, e);
    } else {
      var i :| 0 <= i < |s| && Candidate(s[i], key) && s[i].detectedAt >= e.clock;
      NewerRowHides(s, key, e, i);
    }
  }

  lemma FirstTrigger(key: Key, e: Evaluation)
    requires Stamped(e, key) && e.triggered
    ensures Step([], key, e) == [e.created] && OpenRow(e.created, key) && e.created.detectedAt == e.clock
  {
    hide Step;
    StepBy([], key, e, None);
    assert [] + [e.created] == [e.created];
  }

  lemma ThenRecovers(key: Key, r: Row, f: Evaluation)
    requires OpenRow(r, key) && !f.triggered
    ensures Step([r], key, f) == [Recovered(r, f.clock)]
    ensures Candidate(Recovered(r, f.clock), key) && !IsStillOpen(Recovered(r, f.clock))
  {
    hide Step;
    StepBy([r], key, f, Some(0));
    assert [r][0 := Recovered(r, f.clock)] == [Recovered(r, f.clock)];
  }

  lemma ThenBackdated(key: Key, r: Row, g: Evaluation)
    requires Candidate(r, key) && !IsStillOpen(r) && g.triggered
    ensures Step([r], key, g) == [r, g.created]
  {
    hide Step;
    StepBy([r], key, g, Some(0));
    assert [r] + [g.created] == [r, g.created];
  }

  lemma ThenAgain(key: Key, r: Row, q: Row, h: Evaluation)
    requires Candidate(r, key) && !IsStillOpen(r) && q.detectedAt < r.detectedAt && h.triggered
    ensures Step([r, q], key, h) == [r, q, h.created]
  {
    hide Step;
    assert IsNewestActive([r, q], key, Some(0));
    StepBy([r, q], key, h, Some(0));
    assert [r, q] + [h.created] == [r, q, h.created];
  }

  /**
    The failing family of clocks: trigger, recover, trigger at an older clock, trigger again. The closed newest row hides
    the backdated open one, so a second open row is stored beside it.
   */
  lemma BackdatedClockLeavesTwoOpen(key: Key, e: Evaluation, f: Evaluation, g: Evaluation, h: Evaluation)
    requires Stamped(e, key) && Stamped(f, key) && Stamped(g, key) && Stamped(h, key)
    requires e.triggered && !f.triggered && g.triggered && h.triggered
    requires g.clock < e.clock < f.clock < h.clock
    ensures Step(Step(Step(Step([], key, e), key, f), key, g), key, h) == [Recovered(e.created, f.clock), g.created, h.created]
    ensures OpenRow(g.created, key) && OpenRow(h.created, key)
    ensures g.created.detectedAt == g.clock && h.created.detectedAt == h.clock
  {
    hide Step, OpenRow;
    var closed := Recovered(e.created, f.clock);
    FirstTrigger(key, e);
    FirstTrigger(key, g);
    FirstTrigger(key, h);
    ThenRecovers(key, e.created, f);
    ThenBackdated(key, closed, g);
    ThenAgain(key, closed, g.created, h);
  }

  /** Taking a row out of the active statuses keeps the invariant. */
  lemma ClosingKeepsSingleOpen(s: seq<Row>, key: Key, p: nat, status: Status)
    requires p < |s| && DistinctTimes(s) && SingleOpen(s, key)
    requires s[p].status.Active() || !status.Active()
    ensures DistinctTimes(s[p := s[p].(status := status)])
    ensures SingleOpen(s[p := s[p].(status := status)], key)
  {
    var next := s[p := s[p].(status := status)];
    forall i | 0 <= i < |next| && OpenRow(next[i], key) ensures FindOpen(next, key) == Some(i) {
      assert OpenRow(s[i], key);
      Found(next, key, Some(i));
    }
  }

  /**
    What an operator would have to check before reopening: an open row must have no active newer row and no
    open active sibling; a recovered one must not be newer than an open active sibling.
   */
  ghost predicate ReopenSafe(s: seq<Row>, key: Key, p: nat)
    requires p < |s|
  {
    forall i :: 0 <= i < |s| && i != p && Candidate(s[i], key) ==>
      if IsStillOpen(s[p]) then !IsStillOpen(s[i]) && s[i].detectedAt < s[p].detectedAt
      else IsStillOpen(s[i]) ==> s[p].detectedAt < s[i].detectedAt
  }

  /** Reopening a dismissed row keeps the invariant exactly when it is safe in that sense. */
  lemma ReopenKeepsSingleOpenIff(s: seq<Row>, key: Key, p: nat)
    requires p < |s| && DistinctTimes(s) && SingleOpen(s, key)
    requires s[p].key == key && s[p].status.Dismissed?
    ensures DistinctTimes(s[p := s[p].(status := Queued)])
    ensures SingleOpen(s[p := s[p].(status := Queued)], key) <==> ReopenSafe(s, key, p)
  {
    var next := s[p := s[p].(status := Queued)];
    if ReopenSafe(s, key, p) {
      forall i | 0 <= i < |next| && OpenRow(next[i], key) ensures FindOpen(next, key) == Some(i) {
        if i != p {
          assert OpenRow(s[i], key);
        }
        Found(next, key, Some(i));
      }
    }
    if SingleOpen(next, key) {
      forall i | 0 <= i < |s| && i != p && Candidate(s[i], key)
        ensures if IsStillOpen(s[p]) then !IsStillOpen(s[i]) && s[i].detectedAt < s[p].detectedAt
                else IsStillOpen(s[i]) ==> s[p].detectedAt < s[i].detectedAt
      {
        assert Candidate(next[p], key) && Candidate(next[i], key);
        if IsStillOpen(s[p]) {
          assert OpenRow(next[p], key);
        }
        if IsStillOpen(s[i]) {
          assert OpenRow(next[i], key);
        }
      }
    }
  }

  /** The failing family: dismiss an open row, let the condition fire again, reopen. Two open rows remain. */
  lemma ReopenAfterRecurrence(key: Key, e: Evaluation, f: Evaluation)
    requires Stamped(e, key) && Stamped(f, key) && e.triggered && f.triggered && e.clock < f.clock
    ensures
      var dismissed := ApplyMove(Step([], key, e), Dismiss(0));
      var again := Step(dismissed, key, f);
      var reopened := ApplyMove(again, Reopen(0));
      && |reopened| == 2 && OpenRow(reopened[0], key) && OpenRow(reopened[1], key)
      && !ReopenSafe(again, key, 0)
  {
    var first := Step([], key, e);
    assert first == [e.created];
    var dismissed := ApplyMove(first, Dismiss(0));
    assert FindOpen(dismissed, key).None?;
    var again := Step(dismissed, key, f);
    assert again == dismissed + [f.created];
    assert Candidate(again[1], key);
  }

  // ---------------------------------------------------------------- whole traces

  datatype Event = Ran(run: RunInput) | Moved(move: Move)

  function Apply(rows: seq<Row>, ev: Event): seq<Row> {
    match ev
    case Ran(run) => Run(run, rows).rows
    case Moved(m) => ApplyMove(rows, m)
  }

  function After(events: seq<Event>): seq<Row> {
    if events == [] then [] else Apply(After(events[..|events| - 1]), events[|events| - 1])
  }

  /** A reopen is checked against the rows of its key in the store it meets. */
  ghost predicate Guarded(rows: seq<Row>, ev: Event) {
    ev.Moved? && ev.move.Reopen? && ev.move.at < |rows| && rows[ev.move.at].status.Dismissed? ==>
      var key := rows[ev.move.at].key;
      RowAtPosition(rows, key, ev.move.at);
      ReopenSafe(KeyRows(rows, key), key, Position(rows, key, ev.move.at))
  }

  ghost predicate Live(ev: Event) {
    ev.Ran? && !ev.run.dryRun
  }

  ghost predicate Orderly(events: seq<Event>) {
    && (forall i :: 0 <= i < |events| && events[i].Ran? ==> Distinct(events[i].run))
    && (forall i, j :: 0 <= i < j < |events| && Live(events[i]) && Live(events[j]) ==>
          events[i].run.clock < events[j].run.clock)
    && (forall i :: 0 <= i < |events| ==> Guarded(After(events[..i]), events[i]))
  }

  ghost predicate Good(rows: seq<Row>, key: Key, later: real) {
    var s := KeyRows(rows, key);
    DistinctTimes(s) && SingleOpen(s, key) && Before(s, later)
  }

  lemma RunKeepsGood(rows: seq<Row>, run: RunInput, key: Key, later: real)
    requires Distinct(run)
    requires Good(rows, key, if run.dryRun then later else run.clock)
    requires run.dryRun || run.clock < later
    ensures Good(Run(run, rows).rows, key, later)
  {
    hide Taken, Run;
    if run.dryRun {
      DryRunKeepsRows(run, rows);
    } else {
      RunFrame(run, rows, key);
      var e := Taken(run, rows, key);
      if e.Some? {
        StepKeepsSingleOpen(KeyRows(rows, key), key, e.value, later);
      }
    }
  }

  lemma DryRunKeepsRows(run: RunInput, rows: seq<Row>)
    requires run.dryRun
    ensures Run(run, rows).rows == rows
  {
    DrySensorsKeepRows(run, Start(run, rows), run.sensors);
  }

  lemma MoveKeepsGood(rows: seq<Row>, m: Move, key: Key, later: real)
    requires Good(rows, key, later) && Guarded(rows, Moved(m))
    ensures Good(ApplyMove(rows, m), key, later)
  {
    var next := NextStatus(rows, m);
    if next.Some? {
      var i := m.at;
      var r := rows[i].(status := next.value);
      KeyRowsUpdate(rows, key, i, r);
      if rows[i].key == key {
        RowAtPosition(rows, key, i);
        var p := Position(rows, key, i);
        if m.Reopen? {
          ReopenKeepsSingleOpenIff(KeyRows(rows, key), key, p);
        } else {
          ClosingKeepsSingleOpen(KeyRows(rows, key), key, p, next.value);
        }
      }
    }
  }

  lemma {:induction false} OrderlyPrefix(events: seq<Event>)
    requires Orderly(events) && events != []
    ensures var n := |events| - 1;
            && Orderly(events[..n]) && Guarded(After(events[..n]), events[n])
            && (events[n].Ran? ==> Distinct(events[n].run))
            && (Live(events[n]) ==> forall i :: 0 <= i < n && Live(events[i]) ==> events[i].run.clock < events[n].run.clock)
  {
    var n := |events| - 1;
    forall i | 0 <= i < n ensures Guarded(After(events[..n][..i]), events[..n][i]) {
      assert events[..n][..i] == events[..i];
    }
  }

  lemma NothingIsGood(key: Key, later: real)
    ensures Good([], key, later)
  {
  }

  lemma {:induction false} OrderlyTracesAreGood(events: seq<Event>, key: Key, later: real)
    requires Orderly(events)
    requires forall i :: 0 <= i < |events| && Live(events[i]) ==> events[i].run.clock < later
    ensures Good(After(events), key, later)
  {
    hide Good, Orderly, Guarded, Run;
    if events == [] {
      NothingIsGood(key, later);
    } else {
      var n := |events| - 1;
      var before := events[..n];
      OrderlyPrefix(events);
      match events[n]
      case Ran(run) =>
        OrderlyTracesAreGood(before, key, if run.dryRun then later else run.clock);
        RunKeepsGood(After(before), run, key, later);
      case Moved(m) =>
        OrderlyTracesAreGood(before, key, later);
        MoveKeepsGood(After(before), m, key, later);
    }
  }

  lemma LaterThanAll(events: seq<Event>) returns (later: real)
    ensures forall i :: 0 <= i < |events| && Live(events[i]) ==> events[i].run.clock < later
  {
    later := 0.0;
    for i := 0 to |events|
      invariant forall k :: 0 <= k < i && Live(events[k]) ==> events[k].run.clock < later
    {
      if Live(events[i]) && events[i].run.clock >= later {
        later := events[i].run.clock + 1.0;
      }
    }
  }

  /**
    At every point of every orderly interleaving of runs and operator moves: beside an open active row, every
    other active row of its key has recovered and is older.
   */
  lemma {:induction false} OneOpenRowPerKey(events: seq<Event>, i: nat, j: nat)
    requires Orderly(events)
    requires i < |After(events)| && j < |After(events)| && i != j
    requires After(events)[i].key == After(events)[j].key
    requires After(events)[i].status.Active() && IsStillOpen(After(events)[i])
    requires After(events)[j].status.Active()
    ensures !IsStillOpen(After(events)[j])
    ensures After(events)[j].detectedAt < After(events)[i].detectedAt
  {
    var rows := After(events);
    var key := rows[i].key;
    var later := LaterThanAll(events);
    OrderlyTracesAreGood(events, key, later);
    RowAtPosition(rows, key, i);
    RowAtPosition(rows, key, j);
    var p, q := Position(rows, key, i), Position(rows, key, j);
    if i < j {
      PositionsIncrease(rows, key, i, j);
    } else {
      PositionsIncrease(rows, key, j, i);
    }
    var s := KeyRows(rows, key);
    assert OpenRow(s[p], key) && Candidate(s[q], key);
    assert FindOpen(s, key) == Some(p);
  }
}
