/**
  `deduplication.py` on values: stored detection rows, the open-row query, and what one evaluation of one
  (sensor, rule) key does to the rows of that key.
 */
module Deduplication {
  import opened Wrappers
  import opened Rules
  import opened Scoring
  import opened Catalog

  datatype Status = New | Queued | UnderReview | Dismissed | Promoted | Merged {
    predicate Active() { New? || Queued? || UnderReview? }
  }

  /** The bookkeeping keys of `evidence_summary`; `None` where the JSON key is missing. */
  datatype Summary = Summary(
    conditionOpen: Option<bool>,
    repeatCount: Option<int>,
    recoveredAt: Option<real>,
    lastSeenAt: Option<real>,
    windowEnd: Option<real>)

  function ConditionToken(code: RuleCode): string {
    match code
    case MISSING_TELEMETRY => "outage"
    case SENSOR_QUALITY => "quality"
    case CONNECTIVITY_DEGRADATION => "connectivity"
    case _ => "active"
  }

  /** What the open-row query filters on: both ids and the three parts of the correlation key. */
  datatype Key = Key(sensorId: int, ruleId: int, externalId: string, code: RuleCode, condition: string)

  datatype Row = Row(
    key: Key,
    detectedAt: real,
    anomalyScore: real,
    priority: Priority,
    reasons: seq<Reason>,
    status: Status,
    summary: Summary,
    updatedAt: real)

  predicate IsStillOpen(r: Row) {
    r.summary.conditionOpen.GetOr(true)
  }

  predicate Candidate(r: Row, key: Key) {
    r.key == key && r.status.Active()
  }

  function Recovered(r: Row, now: real): Row {
    r.(summary := r.summary.(conditionOpen := Some(false), recoveredAt := Some(now)), updatedAt := now)
  }

  function Repeated(r: Row, now: real, windowEnd: real): Row {
    r.(summary := r.summary.(repeatCount := Some(r.summary.repeatCount.GetOr(1) + 1), conditionOpen := Some(true),
                             lastSeenAt := Some(now), windowEnd := Some(windowEnd)),
       updatedAt := now)
  }

  // ---------------------------------------------------------------- the open-row query

  /** What the query promises: an active row of the key, none of them newer; nothing when there is none. */
  ghost predicate IsNewestActive(rows: seq<Row>, key: Key, answer: Option<nat>) {
    match answer
    case None => forall i :: 0 <= i < |rows| ==> !Candidate(rows[i], key)
    case Some(k) =>
      && k < |rows| && Candidate(rows[k], key)
      && forall i :: 0 <= i < |rows| && Candidate(rows[i], key) ==> rows[i].detectedAt <= rows[k].detectedAt
  }

  /** One answer the database may give (the last stored among equally new rows). */
  function FindOpen(rows: seq<Row>, key: Key): (answer: Option<nat>)
    ensures IsNewestActive(rows, key, answer)
  {
    if rows == [] then None
    else
      var n := |rows| - 1;
      var before := FindOpen(rows[..n], key);
      if Candidate(rows[n], key) && (before.None? || rows[n].detectedAt >= rows[before.value].detectedAt)
      then Some(n) else before
  }

  /** When no two rows of a key carry the same time, the database has no choice. */
  lemma QueryAnswerIsUnique(rows: seq<Row>, key: Key, answer: Option<nat>)
    requires forall i, j :: 0 <= i < j < |rows| && rows[i].key == key && rows[j].key == key
                        ==> rows[i].detectedAt != rows[j].detectedAt
    requires IsNewestActive(rows, key, answer)
    ensures answer == FindOpen(rows, key)
  {
    var found := FindOpen(rows, key);
    if answer.Some? && found.Some? {
      var i, j := answer.value, found.value;
      assert rows[i].detectedAt <= rows[j].detectedAt && rows[j].detectedAt <= rows[i].detectedAt;
    }
  }

  // ---------------------------------------------------------------- one evaluation

  datatype Decision = Ignore | Recover(at: nat) | Repeat(at: nat) | Create

  function Decide(rows: seq<Row>, key: Key, triggered: bool): (d: Decision)
    ensures (d.Recover? || d.Repeat?) ==> d.at < |rows| && Candidate(rows[d.at], key) && IsStillOpen(rows[d.at])
  {
    var found := FindOpen(rows, key);
    var still := found.Some? && IsStillOpen(rows[found.value]);
    if triggered then (if still then Repeat(found.value) else Create)
    else (if still then Recover(found.value) else Ignore)
  }

  /** One evaluation of a key: the verdict, its window end, the clock, and the row it would store. */
  datatype Evaluation = Evaluation(triggered: bool, clock: real, windowEnd: real, created: Row)

  /** The row an evaluation would store is a brand-new open row of its key, stamped with the run's clock. */
  ghost predicate Stamped(e: Evaluation, key: Key) {
    && e.created.key == key && e.created.status == New
    && e.created.detectedAt == e.clock == e.created.updatedAt
    && e.created.summary == Summary(Some(true), Some(1), None, None, Some(e.windowEnd))
  }

  function Store(rows: seq<Row>, d: Decision, e: Evaluation): seq<Row>
    requires (d.Recover? || d.Repeat?) ==> d.at < |rows|
  {
    match d
    case Ignore => rows
    case Recover(i) => rows[i := Recovered(rows[i], e.clock)]
    case Repeat(i) => rows[i := Repeated(rows[i], e.clock, e.windowEnd)]
    case Create => rows + [e.created]
  }

  function Step(rows: seq<Row>, key: Key, e: Evaluation): seq<Row> {
    Store(rows, Decide(rows, key, e.triggered), e)
  }

  /** A row stored without the bookkeeping keys counts as open and as seen once. */
  lemma BareRow(rows: seq<Row>, key: Key, e: Evaluation, i: nat)
    requires FindOpen(rows, key) == Some(i) && rows[i].summary.conditionOpen.None? && rows[i].summary.repeatCount.None?
    ensures var t := Step(rows, key, e);
            |t| == |rows| && t[i].key == rows[i].key && t[i].updatedAt == e.clock && (forall j :: 0 <= j < |t| && j != i ==> t[j] == rows[j])
    ensures var s := Step(rows, key, e)[i].summary;
            if e.triggered then s.conditionOpen == Some(true) && s.repeatCount == Some(2) && s.lastSeenAt == Some(e.clock)
            else s.conditionOpen == Some(false) && s.repeatCount == None && s.recoveredAt == Some(e.clock)
  {
  }

  // ---------------------------------------------------------------- the rows of one key

  function KeyRows(rows: seq<Row>, key: Key): (s: seq<Row>)
    ensures |s| <= |rows|
    ensures forall r :: r in s ==> r.key == key
  {
    if rows == [] then []
    else
      var n := |rows| - 1;
      var before := KeyRows(rows[..n], key);
      if rows[n].key == key then before + [rows[n]] else before
  }

  /** Where row `i` of the store sits among the rows of `key`. */
  function Position(rows: seq<Row>, key: Key, i: nat): (p: nat)
    requires i <= |rows|
  {
    |KeyRows(rows[..i], key)|
  }

  lemma {:induction false} RowAtPosition(rows: seq<Row>, key: Key, i: nat)
    requires i < |rows| && rows[i].key == key
    ensures Position(rows, key, i) < |KeyRows(rows, key)|
    ensures KeyRows(rows, key)[Position(rows, key, i)] == rows[i]
  {
    var n := |rows| - 1;
    if i < n {
      RowAtPosition(rows[..n], key, i);
      assert rows[..n][..i] == rows[..i];
    }
  }

  lemma {:induction false} PositionsIncrease(rows: seq<Row>, key: Key, i: nat, j: nat)
    requires i < j <= |rows| && rows[i].key == key
    ensures Position(rows, key, i) < Position(rows, key, j)
  {
    assert rows[..i + 1][..i] == rows[..i];
    KeyRowsGrow(rows[..j], key, i + 1);
    assert rows[..j][..i + 1] == rows[..i + 1];
  }

  lemma {:induction false} KeyRowsGrow(rows: seq<Row>, key: Key, i: nat)
    requires i <= |rows|
    ensures |KeyRows(rows[..i], key)| <= |KeyRows(rows, key)|
  {
    var n := |rows| - 1;
    if i <= n {
      KeyRowsGrow(rows[..n], key, i);
      assert rows[..n][..i] == rows[..i];
      assert |KeyRows(rows[..n], key)| <= |KeyRows(rows, key)|;
    } else {
      assert rows[..i] == rows;
    }
  }

  /** Overwriting a row without changing its key touches the rows of that key only, at its position. */
  lemma {:induction false} KeyRowsUpdate(rows: seq<Row>, key: Key, i: nat, r: Row)
    requires i < |rows| && r.key == rows[i].key
    ensures rows[i].key != key ==> KeyRows(rows[i := r], key) == KeyRows(rows, key)
    ensures rows[i].key == key ==>
              Position(rows, key, i) < |KeyRows(rows, key)|
              && KeyRows(rows[i := r], key) == KeyRows(rows, key)[Position(rows, key, i) := r]
  {
    var n := |rows| - 1;
    if i < n {
      KeyRowsUpdate(rows[..n], key, i, r);
      assert rows[i := r][..n] == rows[..n][i := r];
      assert rows[..n][..i] == rows[..i];
    } else {
      assert rows[i := r][..n] == rows[..n];
    }
  }

  lemma KeyRowsAppend(rows: seq<Row>, key: Key, r: Row)
    ensures KeyRows(rows + [r], key) == if r.key == key then KeyRows(rows, key) + [r] else KeyRows(rows, key)
  {
    assert (rows + [r])[..|rows|] == rows;
  }

  lemma FindOpenSnoc(rows: seq<Row>, key: Key, r: Row)
    ensures
      var before := FindOpen(rows, key);
      FindOpen(rows + [r], key)
      == if Candidate(r, key) && (before.None? || r.detectedAt >= rows[before.value].detectedAt) then Some(|rows|) else before
  {
    assert (rows + [r])[..|rows|] == rows;
  }

  /** The query sees only the rows of its key. */
  lemma {:induction false} FindOpenOnKeyRows(rows: seq<Row>, key: Key)
    ensures
      var found := FindOpen(rows, key);
      FindOpen(KeyRows(rows, key), key) == if found.None? then None else Some(Position(rows, key, found.value))
  {
    if rows != [] {
      var n := |rows| - 1;
      var before, last := rows[..n], rows[n];
      assert rows == before + [last];
      FindOpenOnKeyRows(before, key);
      FindOpenSnoc(before, key, last);
      KeyRowsAppend(before, key, last);
      var found := FindOpen(before, key);
      if found.Some? {
        RowAtPosition(before, key, found.value);
        assert before[..found.value] == rows[..found.value];
      }
      if last.key == key {
        FindOpenSnoc(KeyRows(before, key), key, last);
      }
    }
  }

  /** The same decision, pointing into the rows of the key instead of the whole store. */
  function Localize(d: Decision, rows: seq<Row>, key: Key): Decision
    requires (d.Recover? || d.Repeat?) ==> d.at < |rows|
  {
    match d
    case Recover(i) => Recover(Position(rows, key, i))
    case Repeat(i) => Repeat(Position(rows, key, i))
    case _ => d
  }

  /** Deciding from the whole store and from the rows of the key alone is the same, up to positions. */
  lemma {:induction false} DecideOnKeyRows(rows: seq<Row>, key: Key, triggered: bool)
    ensures Decide(KeyRows(rows, key), key, triggered) == Localize(Decide(rows, key, triggered), rows, key)
  {
    FindOpenOnKeyRows(rows, key);
    var found := FindOpen(rows, key);
    if found.Some? {
      RowAtPosition(rows, key, found.value);
    }
  }

  lemma StoreFrame(rows: seq<Row>, key: Key, d: Decision, e: Evaluation, other: Key)
    requires e.created.key == key
    requires (d.Recover? || d.Repeat?) ==> d.at < |rows| && rows[d.at].key == key
    ensures other != key ==> KeyRows(Store(rows, d, e), other) == KeyRows(rows, other)
    ensures (d.Recover? || d.Repeat?) ==> Position(rows, key, d.at) < |KeyRows(rows, key)|
    ensures KeyRows(Store(rows, d, e), key) == Store(KeyRows(rows, key), Localize(d, rows, key), e)
  {
    match d
    case Ignore =>
    case Create => KeyRowsAppend(rows, other, e.created); KeyRowsAppend(rows, key, e.created);
    case Recover(i) =>
      RowAtPosition(rows, key, i);
      KeyRowsUpdate(rows, other, i, Recovered(rows[i], e.clock));
      KeyRowsUpdate(rows, key, i, Recovered(rows[i], e.clock));
    case Repeat(i) =>
      RowAtPosition(rows, key, i);
      KeyRowsUpdate(rows, other, i, Repeated(rows[i], e.clock, e.windowEnd));
      KeyRowsUpdate(rows, key, i, Repeated(rows[i], e.clock, e.windowEnd));
  }

  /** Stepping the store at `key` steps that key's rows and leaves every other key's rows alone. */
  lemma StepFrame(rows: seq<Row>, key: Key, e: Evaluation, other: Key)
    requires e.created.key == key
    ensures KeyRows(Step(rows, key, e), other)
         == if other == key then Step(KeyRows(rows, key), key, e) else KeyRows(rows, other)
  {
    DecideOnKeyRows(rows, key, e.triggered);
    StoreFrame(rows, key, Decide(rows, key, e.triggered), e, other);
  }
}
