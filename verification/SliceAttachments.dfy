/**
  How often each registration of one slice id is attached: at most once if every registration is made when it is
  safe, and for an unsafe one a continuation that attaches some registration again.
 */
module SliceAttachments {
  import opened Wrappers
  import opened AttachJob
  import opened SliceLifecycle

  /** The watcher can still come to claim an attachment: it has neither finished nor read what will finish it. */
  predicate MayStillAttach(w: Watcher) {
    match w
    case Polling => true
    case Read(state, timedOut) => state != Terminal && !(state == PENDING && timedOut)
    case Finished => false
  }

  ghost predicate Attached(s: State, r: nat) {
    Count(s.tasks, AttachmentsOf(r)) > 0
  }

  /** Registering the slice id again is safe: no registration already attached has a watcher that may attach again. */
  ghost predicate SafeToRegister(s: State)
    requires WellFormed(s)
  {
    forall r: nat :: r < |s.regs| && Attached(s, r) ==> !MayStillAttach(s.watchers[r])
  }

  ghost predicate OnlySafeRegistrations(actions: seq<Action>) {
    forall i :: 0 <= i < |actions| && actions[i].Register? ==> SafeToRegister(After(actions[..i]))
  }

  ghost predicate AttachedOnce(s: State)
    requires WellFormed(s)
  {
    && (forall r: nat :: Count(s.tasks, AttachmentsOf(r)) <= 1)
    && (forall r: nat :: r >= |s.regs| ==> Count(s.tasks, AttachmentsOf(r)) == 0)
    && (s.pending.Some? ==> SafeToRegister(s) && !Attached(s, s.pending.value))
  }

  lemma AttachKeepsAttachedOnce(s: State, t: State, r: nat)
    requires WellFormed(s) && WellFormed(t) && AttachedOnce(s) && s.pending.Some? && r < |s.regs| && !Attached(s, r)
    requires |t.regs| == |s.regs| && t.pending.None? && t.tasks == s.tasks + [Attach(r, [])]
    ensures AttachedOnce(t)
  {
    hide Count, WellFormed;
    forall k: Kind { CountSnoc(s.tasks, Attach(r, []), k); }
  }

  /** Steps that start no attach job: the entry stays or goes, and no watcher becomes able to attach. */
  lemma OtherStepsKeepAttachedOnce(s: State, t: State)
    requires WellFormed(s) && WellFormed(t) && AttachedOnce(s)
    requires |t.regs| == |s.regs| && t.pending == s.pending
    requires forall r: nat :: Count(t.tasks, AttachmentsOf(r)) == Count(s.tasks, AttachmentsOf(r))
    requires forall r: nat :: r < |s.watchers| && MayStillAttach(t.watchers[r]) ==> MayStillAttach(s.watchers[r])
    ensures AttachedOnce(t)
  {
    hide Count;
  }

  lemma SameAttachments(tasks: seq<Task>, t: Task)
    requires !t.Attach?
    ensures forall r: nat :: Count(tasks + [t], AttachmentsOf(r)) == Count(tasks, AttachmentsOf(r))
  {
    forall r: nat { CountSnoc(tasks, t, AttachmentsOf(r)); }
  }

  lemma WatcherKeepsAttachedOnce(s: State, w: nat)
    requires Inv(s) && AttachedOnce(s) && w < |s.watchers| && s.watchers[w].Read?
    requires WellFormed(WatcherActs(s, w))
    ensures AttachedOnce(WatcherActs(s, w))
  {
    hide Count, Processed, Deniable, AttachedOnce;
    var t := WatcherActs(s, w);
    match s.watchers[w].state
    case PENDING =>
      if s.watchers[w].timedOut && s.pending.Some? {
        SameAttachments(s.tasks, Deny(s.pending.value, 0));
      }
      OtherStepsKeepAttachedOnce(s, t);
    case AVAILABLE =>
      SameAttachments(s.tasks, Activate(w, false, false));
      OtherStepsKeepAttachedOnce(s, t);
    case OPERATING =>
      if s.pending.Some? {
        PendingIsUnattached(s, w);
        AttachKeepsAttachedOnce(s, t, w);
      } else {
        OtherStepsKeepAttachedOnce(s, t);
      }
    case Terminal =>
      SameAttachments(s.tasks, Deny(w, 0));
      OtherStepsKeepAttachedOnce(s, t);
    case OtherState => OtherStepsKeepAttachedOnce(s, t);
  }

  lemma PendingIsUnattached(s: State, w: nat)
    requires WellFormed(s) && AttachedOnce(s) && s.pending.Some? && w < |s.watchers| && MayStillAttach(s.watchers[w])
    ensures !Attached(s, w)
  {
  }

  lemma RegisterKeepsAttachedOnce(s: State, r: Registration)
    requires WellFormed(s) && AttachedOnce(s) && SafeToRegister(s) && WellFormed(Next(s, Register(r)))
    ensures AttachedOnce(Next(s, Register(r)))
  {
    hide Count;
    var t := Next(s, Register(r));
    assert t.tasks == s.tasks;
    assert Count(s.tasks, AttachmentsOf(|s.regs|)) == 0;
  }

  lemma AdvanceKeepsAttachedOnce(s: State, t: nat, a: Action)
    requires WellFormed(s) && AttachedOnce(s) && t < |s.tasks|
    requires WellFormed(s.(tasks := s.tasks[t := Advance(s, s.tasks[t], a)]))
    ensures AttachedOnce(s.(tasks := s.tasks[t := Advance(s, s.tasks[t], a)]))
  {
    hide Count, AttachedOnce;
    var moved := Advance(s, s.tasks[t], a);
    forall r: nat ensures Count(s.tasks[t := moved], AttachmentsOf(r)) == Count(s.tasks, AttachmentsOf(r)) {
      CountUpdate(s.tasks, t, moved, AttachmentsOf(r));
    }
    OtherStepsKeepAttachedOnce(s, s.(tasks := s.tasks[t := moved]));
  }

  lemma HandlerKeepsAttachedOnce(s: State, state: SliceState)
    requires WellFormed(s) && AttachedOnce(s) && WellFormed(HandlerActs(s, state))
    ensures AttachedOnce(HandlerActs(s, state))
  {
    hide Count, Processed, Deniable;
    var t := HandlerActs(s, state);
    if s.pending.Some? && state == OPERATING {
      AttachKeepsAttachedOnce(s, t, s.pending.value);
    } else {
      if s.pending.Some? {
        SameAttachments(s.tasks, Activate(s.pending.value, false, false));
      }
      OtherStepsKeepAttachedOnce(s, t);
    }
  }

  lemma NextKeepsAttachedOnce(s: State, a: Action)
    requires Inv(s) && AttachedOnce(s) && (a.Register? ==> SafeToRegister(s))
    ensures WellFormed(Next(s, a)) && AttachedOnce(Next(s, a))
  {
    NextKeepsInv(s, a);
    hide Count, AttachedOnce, WellFormed, WatcherActs, HandlerActs, Advance;
    match a
    case Register(r) => RegisterKeepsAttachedOnce(s, r);
    case Poll(_, _, _) => OtherStepsKeepAttachedOnce(s, Next(s, a));
    case Act(w) => if w < |s.watchers| && s.watchers[w].Read? { WatcherKeepsAttachedOnce(s, w); }
    case Notify(state) => HandlerKeepsAttachedOnce(s, state);
    case CallActivate(t, _) => if t < |s.tasks| { AdvanceKeepsAttachedOnce(s, t, a); }
    case AttachNext(t, _) => if t < |s.tasks| { AdvanceKeepsAttachedOnce(s, t, a); }
    case DenyNext(t) => if t < |s.tasks| { AdvanceKeepsAttachedOnce(s, t, a); }
  }

  lemma NothingAttached()
    ensures AttachedOnce(After([]))
  {
  }

  lemma SafePrefix(actions: seq<Action>)
    requires OnlySafeRegistrations(actions) && actions != []
    ensures var n := |actions| - 1;
            && OnlySafeRegistrations(actions[..n])
            && (actions[n].Register? ==> SafeToRegister(After(actions[..n])))
  {
    hide SafeToRegister, After;
    var n := |actions| - 1;
    forall i | 0 <= i < n && actions[..n][i].Register? ensures SafeToRegister(After(actions[..n][..i])) {
      assert actions[..n][..i] == actions[..i];
    }
  }

  lemma {:induction false} SafeRunsAttachOnce(actions: seq<Action>)
    requires OnlySafeRegistrations(actions)
    ensures AttachedOnce(After(actions))
  {
    hide AttachedOnce, SafeToRegister, OnlySafeRegistrations, After, Next, Inv;
    if actions == [] {
      NothingAttached();
    } else {
      var n := |actions| - 1;
      SafePrefix(actions);
      SafeRunsAttachOnce(actions[..n]);
      AfterHoldsInv(actions[..n]);
      NextKeepsAttachedOnce(After(actions[..n]), actions[n]);
      AfterSnoc(actions[..n], actions[n]);
      assert actions[..n] + [actions[n]] == actions;
    }
  }

  /**
    Any number of registrations of the slice id: if each is made only when no registration already attached has a watcher
    that may still attach, no registration is ever attached twice. (See `UnsafeRegistrationAttachesTwice`.)
   */
  lemma {:induction false} AttachedAtMostOnce(actions: seq<Action>, r: nat)
    requires OnlySafeRegistrations(actions)
    ensures Count(After(actions).tasks, AttachmentsOf(r)) <= 1
  {
    SafeRunsAttachOnce(actions);
    assert AttachedOnce(After(actions));
  }

  /** What a watcher that may still attach does when the slice is OPERATING from now on. */
  function Claiming(w: Watcher, r: nat): seq<Action> {
    match w
    case Read(OPERATING, _) => [Act(r)]
    case Polling => [Poll(r, OPERATING, false), Act(r)]
    case _ => [Act(r), Poll(r, OPERATING, false), Act(r)]
  }

  /** A watcher's own step while an entry is pending: an attach job if it read OPERATING, else back to polling. */
  lemma WatcherStep(s: State, r: nat)
    requires Inv(s) && r < |s.watchers| && s.watchers[r].Read? && MayStillAttach(s.watchers[r]) && s.pending.Some?
    ensures var t := Next(s, Act(r));
            if s.watchers[r].state == OPERATING then t.tasks == s.tasks + [Attach(r, [])]
            else t.watchers == s.watchers[r := Polling] && t.pending == s.pending &&
                 Count(t.tasks, AttachmentsOf(r)) == Count(s.tasks, AttachmentsOf(r))
  {
    if s.watchers[r].state == AVAILABLE {
      SameAttachments(s.tasks, Activate(r, false, false));
    }
  }

  lemma {:induction false} ClaimingClaims(s: State, r: nat)
    requires Inv(s) && r < |s.watchers| && MayStillAttach(s.watchers[r]) && s.pending.Some?
    ensures Count(Steps(s, Claiming(s.watchers[r], r)).tasks, AttachmentsOf(r)) == Count(s.tasks, AttachmentsOf(r)) + 1
    decreases if s.watchers[r].Read? then (if s.watchers[r].state == OPERATING then 0 else 2) else 1
  {
    hide Count, FlagsCountClaims, SoleRegistration, WatcherActs;
    var w := s.watchers[r];
    var acts := Claiming(w, r);
    NextKeepsInv(s, acts[0]);
    if w.Read? {
      WatcherStep(s, r);
      if w.state == OPERATING {
        CountSnoc(s.tasks, Attach(r, []), AttachmentsOf(r));
        assert acts[1..] == [];
      } else {
        assert acts[1..] == Claiming(Polling, r);
        ClaimingClaims(Next(s, acts[0]), r);
      }
    } else {
      assert acts[1..] == Claiming(Read(OPERATING, false), r);
      ClaimingClaims(Next(s, acts[0]), r);
    }
  }

  /**
    The condition is exact: at any reachable state, registering while an attached registration's watcher may still attach
    lets that watcher, once the slice is seen OPERATING, attach the same devices again.
   */
  lemma UnsafeRegistrationAttachesTwice(actions: seq<Action>, x: Registration)
    requires !SafeToRegister(After(actions))
    ensures exists r: nat, more: seq<Action> ::
              && (forall i :: 0 <= i < |more| ==> !more[i].Register?)
              && Count(After(actions + [Register(x)] + more).tasks, AttachmentsOf(r)) >= 2
  {
    hide Count, After;
    var s := After(actions);
    var r: nat :| r < |s.regs| && Attached(s, r) && MayStillAttach(s.watchers[r]);
    AfterSnoc(actions, Register(x));
    var t := After(actions + [Register(x)]);
    assert t.watchers[r] == s.watchers[r] && t.tasks == s.tasks;
    AfterAppend(actions + [Register(x)], Claiming(t.watchers[r], r));
    ClaimingClaims(t, r);
  }

  function AttachedThenRegistered(r: Registration, x: Registration): seq<Action> {
    [] + [Register(r)] + [Notify(OPERATING)] + [Register(x)]
  }

  lemma FirstWatcherStillPolls(r: Registration, x: Registration)
    ensures After(AttachedThenRegistered(r, x))
            == State([r, x], [false, false], [Polling, Polling], Some(1), [Attach(0, [])], true, false)
  {
    hide After, Inv;
    var t1 := [] + [Register(r)];
    var t2 := t1 + [Notify(OPERATING)];
    StartsEmpty();
    AfterSnoc([], Register(r));
    AfterSnoc(t1, Notify(OPERATING));
    AfterSnoc(t2, Register(x));
    assert After(t1) == State([r], [false], [Polling], Some(0), [], false, false);
    assert After(t2) == State([r], [false], [Polling], None, [Attach(0, [])], true, false);
  }

  /**
    Registering the same slice id again breaks "attached at most once": the first watcher pops the second
    registration's entry but attaches its own devices, for the second time; the second's are never attached.
   */
  lemma ReRegistrationAttachesTwice(r: Registration, x: Registration)
    ensures var s := After(AttachedThenRegistered(r, x) + [Poll(0, OPERATING, false)] + [Act(0)]);
            && s == State([r, x], [false, false], [Finished, Polling], None, [Attach(0, []), Attach(0, [])], true, false)
            && Count(s.tasks, AttachmentsOf(0)) == 2 && Count(s.tasks, AttachmentsOf(1)) == 0
  {
    hide After, Inv, Count, AttachedThenRegistered;
    var t := AttachedThenRegistered(r, x);
    FirstWatcherStillPolls(r, x);
    AfterSnoc(t, Poll(0, OPERATING, false));
    AfterSnoc(t + [Poll(0, OPERATING, false)], Act(0));
    assert After(t + [Poll(0, OPERATING, false)]) == After(t).(watchers := [Read(OPERATING, false), Polling]);
    CountTwo(Attach(0, []), Attach(0, []), AttachmentsOf(0));
    CountTwo(Attach(0, []), Attach(0, []), AttachmentsOf(1));
  }
}
