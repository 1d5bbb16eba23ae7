/**
  The two polling loops around a slice: `create_preprovisioned_slice` in `runner.py` and
  `delete_network_slice` in `camara_api.py`. The slice's answers, the network's acceptance of calls and the
  clock are arbitrary functions of the poll number; only the loops' own sleeps are known to pass.
 */
module SlicePolling {
  import opened Wrappers

  datatype Remote = PENDING | AVAILABLE | OPERATING | FAILED | REJECTED | DELETED | UNKNOWN | NOT_FOUND

  predicate Terminal(s: Remote) {
    s.FAILED? || s.REJECTED? || s.DELETED?
  }

  /** A poll that raises counts as UNKNOWN. */
  function Seen(answer: Option<Remote>): Remote {
    answer.GetOr(UNKNOWN)
  }

  /** At least `pause` seconds pass between one look at the clock and the next. */
  ghost predicate Paced(clock: nat -> real, pause: real) {
    forall i: nat :: clock(i) + pause <= clock(i + 1)
  }

  lemma NextLook(clock: nat -> real, pause: real, n: nat)
    requires Paced(clock, pause)
    ensures clock(n) + pause <= clock(n + 1)
  {
  }

  lemma {:induction false} TimePasses(clock: nat -> real, pause: real, n: nat)
    requires Paced(clock, pause)
    ensures clock(0) + pause * n as real <= clock(n)
  {
    if n > 0 {
      TimePasses(clock, pause, n - 1);
      assert clock(n - 1) + pause <= clock(n - 1 + 1);
      assert pause * n as real == pause * (n - 1) as real + pause;
    }
  }

  /** A loop that polls only while less than `limit` has elapsed makes at most ceil(limit / pause) polls. */
  lemma PollsAreBounded(clock: nat -> real, pause: real, start: real, limit: real, polls: nat)
    requires Paced(clock, pause) && start <= clock(0) && polls > 0
    requires clock(polls - 1) - start < limit
    ensures pause * (polls - 1) as real < limit
  {
    TimePasses(clock, pause, polls - 1);
  }

  // ---------------------------------------------------------------- activation requests

  /** The polls, among the first `n`, at which activation was requested: AVAILABLE ones, until a request is accepted. */
  function Attempts(answers: nat -> Option<Remote>, accepted: nat -> bool, n: nat): (a: seq<nat>)
    ensures forall i :: 0 <= i < |a| ==> a[i] < n && Seen(answers(a[i])) == AVAILABLE
  {
    if n == 0 then []
    else
      var before := Attempts(answers, accepted, n - 1);
      if Seen(answers(n - 1)) == AVAILABLE && !Requested(before, accepted) then before + [n - 1] else before
  }

  predicate Requested(attempts: seq<nat>, accepted: nat -> bool) {
    attempts != [] && accepted(attempts[|attempts| - 1])
  }

  lemma NextAttempt(answers: nat -> Option<Remote>, accepted: nat -> bool, n: nat)
    ensures Attempts(answers, accepted, 0) == [] && !Requested([], accepted)
    ensures accepted(n) == Requested(Attempts(answers, accepted, n) + [n], accepted)
    ensures Attempts(answers, accepted, n + 1)
         == if Seen(answers(n)) == AVAILABLE && !Requested(Attempts(answers, accepted, n), accepted)
            then Attempts(answers, accepted, n) + [n] else Attempts(answers, accepted, n)
  {
  }

  /** Only the last request can have been accepted, so at most one is; each of the others is retried. */
  lemma {:induction false} AtMostOneAccepted(answers: nat -> Option<Remote>, accepted: nat -> bool, n: nat)
    ensures
      var a := Attempts(answers, accepted, n);
      forall i :: 0 <= i < |a| - 1 ==> !accepted(a[i])
    ensures
      var a := Attempts(answers, accepted, n);
      forall k :: 0 <= k < n && Seen(answers(k)) == AVAILABLE ==> k in a || Requested(a, accepted)
  {
    if n > 0 {
      AtMostOneAccepted(answers, accepted, n - 1);
    }
  }

  // ---------------------------------------------------------------- provisioning at start-up

  predicate NeedsCreation(initial: Remote) {
    initial.NOT_FOUND? || Terminal(initial)
  }

  /** No poll among the first `n` ended the loop. */
  ghost predicate KeptPolling(answers: nat -> Option<Remote>, n: nat) {
    forall k :: 0 <= k < n ==> Seen(answers(k)) != OPERATING && !Terminal(Seen(answers(k)))
  }

  lemma KeptOneMore(answers: nat -> Option<Remote>, n: nat)
    ensures KeptPolling(answers, n + 1) <==>
              KeptPolling(answers, n) && Seen(answers(n)) != OPERATING && !Terminal(Seen(answers(n)))
  {
  }

  lemma NothingPolled(answers: nat -> Option<Remote>)
    ensures KeptPolling(answers, 0)
  {
  }

  /** The poll / activate loop. Its deadline bounds the polls (see `PollsAreBounded`). */
  method PollUntilOperating(answers: nat -> Option<Remote>, accepted: nat -> bool, start: real, clock: nat -> real,
                            maxWait: real)
    returns (reached: bool, polls: nat, attempts: seq<nat>)
    requires Paced(clock, 3.0)
    ensures reached <==> polls > 0 && Seen(answers(polls - 1)) == OPERATING
    ensures KeptPolling(answers, if polls > 0 then polls - 1 else 0)
    ensures !reached ==> (polls > 0 && Terminal(Seen(answers(polls - 1)))) || clock(polls) - start >= maxWait
    ensures polls > 0 ==> clock(polls - 1) - start < maxWait
    ensures attempts == Attempts(answers, accepted, polls)
  {
    NextAttempt(answers, accepted, 0);
    NothingPolled(answers);
    hide Attempts, Paced, Requested, KeptPolling, Seen, Terminal;
    reached, polls, attempts := false, 0, [];
    var activationRequested := false;
    while clock(polls) - start < maxWait
      invariant !reached && KeptPolling(answers, polls)
      invariant polls > 0 ==> clock(polls - 1) - start < maxWait
      invariant attempts == Attempts(answers, accepted, polls)
      invariant activationRequested == Requested(attempts, accepted)
      decreases start + maxWait + 3.0 - clock(polls)
    {
      NextAttempt(answers, accepted, polls);
      NextLook(clock, 3.0, polls);
      KeptOneMore(answers, polls);
      var current := Seen(answers(polls));
      polls := polls + 1;
      if current == OPERATING {
        reached := true;
        return;
      } else if current == AVAILABLE {
        if !activationRequested {
          attempts := attempts + [polls - 1];
          activationRequested := accepted(polls - 1);
        }
      } else if Terminal(current) {
        return;
      }
    }
  }

  /**
    `initial`: the first state query (`None` when it raises); `created`: the name the create call returns
    (`None` when it raises). Returns the slice id or `None`, and the process environment entry it leaves.
   */
  method CreatePreprovisionedSlice(
    baseName: string, initial: Option<Remote>, created: Option<string>,
    answers: nat -> Option<Remote>, accepted: nat -> bool, start: real, clock: nat -> real, maxWait: real)
    returns (id: Option<string>, env: string, polls: nat, attempts: seq<nat>)
    requires Paced(clock, 3.0) && start <= clock(0)
    // the returned id and the environment agree
    ensures env == id.GetOr("")
    ensures id.Some? ==>
              id.value == if initial.None? || initial.value in {NOT_FOUND, FAILED, REJECTED, DELETED} then created.GetOr("") else baseName
    // success exactly when the last poll saw OPERATING
    ensures id.Some? <==> polls > 0 && answers(polls - 1) == Some(OPERATING)
    // nothing earlier ended the loop, and a failure has one of three causes
    ensures KeptPolling(answers, if polls > 0 then polls - 1 else 0)
    ensures id.None? ==>
              || ((initial.None? || initial.value in {NOT_FOUND, FAILED, REJECTED, DELETED}) && created.None? && polls == 0)
              || (polls > 0 && answers(polls - 1) in {Some(FAILED), Some(REJECTED), Some(DELETED)})
              || clock(polls) - start >= maxWait
    // at most ceil(maxWait / 3) polls
    ensures polls > 0 ==> 3.0 * (polls - 1) as real < maxWait
    // activation is requested at AVAILABLE polls only, and as long as no request is accepted at each of them
    ensures attempts == Attempts(answers, accepted, polls)
    ensures forall i :: 0 <= i < |attempts| ==> attempts[i] < polls && answers(attempts[i]) == Some(AVAILABLE)
  {
    hide KeptPolling;
    id, env, polls, attempts := None, "", 0, [];
    assert KeptPolling(answers, 0) by {
      NothingPolled(answers);
    }
    var current := initial.GetOr(NOT_FOUND);
    var name := baseName;
    if NeedsCreation(current) {
      if created.None? {
        return;
      }
      name := created.value;
    }
    var reached;
    reached, polls, attempts := PollUntilOperating(answers, accepted, start, clock, maxWait);
    if polls > 0 {
      PollsAreBounded(clock, 3.0, start, maxWait, polls);
    }
    if reached {
      id, env := Some(name), name;
    }
  }

  // ---------------------------------------------------------------- deactivate, wait, delete

  /** The state the loop last managed to read: a poll that raises leaves the previous one standing. */
  function LastRead(initial: Remote, answers: nat -> Option<Remote>, n: nat): Remote {
    if n == 0 then initial else answers(n - 1).GetOr(LastRead(initial, answers, n - 1))
  }

  datatype DeleteReport = Deleted | NotDeleted

  method DeleteNetworkSlice(
    initial: Option<Remote>, answers: nat -> Option<Remote>, deleteAccepted: bool, start: real, clock: nat -> real,
    maxPoll: real)
    returns (report: DeleteReport, deactivated: bool, deleteIssued: bool, polls: nat)
    requires Paced(clock, 5.0) && start <= clock(0)
    // the report is honest
    ensures report == Deleted <==> deleteIssued && deleteAccepted
    // deactivation comes first, and only for an operating slice
    ensures deactivated <==> initial == Some(OPERATING)
    // an operating slice is deleted only once it has been read as AVAILABLE again
    ensures deleteIssued <==>
              initial.Some? && (initial.value != OPERATING || LastRead(initial.value, answers, polls) == AVAILABLE)
    ensures initial == Some(OPERATING) ==> (deleteIssued <==> polls > 0 && answers(polls - 1) == Some(AVAILABLE))
    ensures deleteIssued ==> LastRead(initial.value, answers, polls) != OPERATING
    ensures forall k :: 0 <= k < polls - 1 ==> answers(k) != Some(AVAILABLE)
    ensures polls > 0 ==> initial == Some(OPERATING) && 5.0 * (polls - 1) as real < maxPoll
    ensures initial == Some(OPERATING) && !deleteIssued ==> clock(polls) - start >= maxPoll
  {
    report, deactivated, deleteIssued, polls := NotDeleted, false, false, 0;
    if initial.None? {
      return;
    }
    var current := initial.value;
    if current == OPERATING {
      deactivated := true;
      while current != AVAILABLE && clock(polls) - start < maxPoll
        invariant current == LastRead(OPERATING, answers, polls)
        invariant current == AVAILABLE <==> polls > 0 && answers(polls - 1) == Some(AVAILABLE)
        invariant forall k :: 0 <= k < polls - 1 ==> answers(k) != Some(AVAILABLE)
        invariant current != AVAILABLE ==> forall k :: 0 <= k < polls ==> answers(k) != Some(AVAILABLE)
        invariant polls > 0 ==> clock(polls - 1) - start < maxPoll
        decreases start + maxPoll + 5.0 - clock(polls)
      {
        assert clock(polls) + 5.0 <= clock(polls + 1);
        if answers(polls).Some? {
          current := answers(polls).value;
        }
        polls := polls + 1;
      }
      if polls > 0 {
        PollsAreBounded(clock, 5.0, start, maxPoll, polls);
      }
      if current != AVAILABLE {
        return;
      }
    }
    deleteIssued := true;
    report := if deleteAccepted then Deleted else NotDeleted;
  }
}
