/**
  The slice lifecycle of `webhook_server.py` for one slice id: watcher threads, webhook handlers and the jobs
  they start, interleaved step by step against a slice that may report any state at any time.

  Atomic steps, by assumption: the activation flag's check-and-set, and the check-and-pop of the pending entry.
  Reading the slice state and acting on it are two steps, so an observation may be stale when acted on.
 */
module SliceLifecycle {
  import opened Wrappers
  import opened AttachJob

  /** `Terminal` is FAILED, DELETED or REJECTED. */
  datatype SliceState = PENDING | AVAILABLE | OPERATING | Terminal | OtherState

  /** Where a watcher stands; `timedOut` is its own clock check, made on a PENDING read. */
  datatype Watcher = Polling | Read(state: SliceState, timedOut: bool) | Finished

  /** Work started by a watcher or a handler: it then proceeds on its own. */
  datatype Task =
    | Activate(reg: nat, called: bool, gaveUp: bool)
    | Attach(reg: nat, results: seq<bool>)
    | Deny(reg: nat, sent: nat)

  datatype State = State(
    regs: seq<Registration>,
    flags: seq<bool>,              // activation_attempted, per registered dictionary
    watchers: seq<Watcher>,
    pending: Option<nat>,          // which dictionary PENDING_ATTACHMENTS holds
    tasks: seq<Task>,
    sawOperating: bool,            // OPERATING was read or notified
    sawEnd: bool)                  // a terminal state or a reap was acted on

  const INIT := State([], [], [], None, [], false, false)

  datatype Action =
    | Register(r: Registration)
    | Poll(w: nat, state: SliceState, timedOut: bool)
    | Act(w: nat)
    | Notify(state: SliceState)
    | CallActivate(t: nat, reached: bool)
    | AttachNext(t: nat, answer: bool)
    | DenyNext(t: nat)

  // ---------------------------------------------------------------- steps

  /** The flag's check-and-set for dictionary `r`. */
  function ClaimActivation(s: State, r: nat): State
    requires r < |s.flags|
  {
    if s.flags[r] then s
    else s.(flags := s.flags[r := true], tasks := s.tasks + [Activate(r, false, false)])
  }

  /** The check-and-pop: whoever removes the entry attaches the devices of dictionary `r`. */
  function ClaimAttachment(s: State, r: nat): State {
    if s.pending.None? then s
    else s.(pending := None, tasks := s.tasks + [Attach(r, [])])
  }

  function WatcherActs(s: State, w: nat): State
    requires w < |s.watchers| == |s.flags| && s.watchers[w].Read?
  {
    var done := s.(watchers := s.watchers[w := Finished]);
    var again := s.(watchers := s.watchers[w := Polling]);
    match s.watchers[w].state
    case PENDING =>
      if !s.watchers[w].timedOut then again
      else
        var reaped := done.(sawEnd := true);
        if s.pending.None? then reaped else reaped.(tasks := s.tasks + [Deny(s.pending.value, 0)])
    case AVAILABLE => ClaimActivation(again, w)
    case OPERATING => ClaimAttachment(done, w)
    case Terminal => done.(sawEnd := true, tasks := s.tasks + [Deny(w, 0)])
    case OtherState => again
  }

  function HandlerActs(s: State, state: SliceState): State
    requires s.pending.Some? ==> s.pending.value < |s.flags|
  {
    match state
    case AVAILABLE => if s.pending.None? then s else ClaimActivation(s, s.pending.value)
    case OPERATING =>
      var seen := s.(sawOperating := true);
      if s.pending.None? then seen else ClaimAttachment(seen, s.pending.value)
    case _ => s
  }

  /** A job is over when its list is exhausted, or when the device or context that follows has crashed it. */
  predicate TaskDone(s: State, t: Task)
    requires t.reg < |s.regs|
  {
    match t
    case Activate(_, called, gaveUp) => called || gaveUp
    case Attach(r, results) => |results| >= Processed(s.regs[r])
    case Deny(r, sent) => sent >= Deniable(s.regs[r])
  }

  function Advance(s: State, t: Task, a: Action): Task
    requires t.reg < |s.regs|
  {
    if TaskDone(s, t) then t
    else if a.CallActivate? && t.Activate? then (if a.reached then t.(called := true) else t.(gaveUp := true))
    else if a.AttachNext? && t.Attach? then t.(results := t.results + [a.answer])
    else if a.DenyNext? && t.Deny? then t.(sent := t.sent + 1)
    else t
  }

  ghost predicate WellFormed(s: State) {
    && |s.flags| == |s.watchers| == |s.regs|
    && (s.pending.Some? ==> s.pending.value < |s.regs|)
    && (forall t :: 0 <= t < |s.tasks| ==> s.tasks[t].reg < |s.regs|)
    && (forall t :: 0 <= t < |s.tasks| && s.tasks[t].Attach? ==>
          |s.tasks[t].results| <= Processed(s.regs[s.tasks[t].reg]))
    && (forall t :: 0 <= t < |s.tasks| && s.tasks[t].Deny? ==> s.tasks[t].sent <= Deniable(s.regs[s.tasks[t].reg]))
  }

  /** One step; an action that is not enabled changes nothing. */
  function Next(s: State, a: Action): State
    requires WellFormed(s)
  {
    match a
    case Register(r) =>
      s.(regs := s.regs + [r], flags := s.flags + [false], watchers := s.watchers + [Polling], pending := Some(|s.regs|))
    case Poll(w, state, timedOut) =>
      if w >= |s.watchers| || !s.watchers[w].Polling? then s
      else s.(watchers := s.watchers[w := Read(state, timedOut)], sawOperating := s.sawOperating || state == OPERATING)
    case Act(w) => if w >= |s.watchers| || !s.watchers[w].Read? then s else WatcherActs(s, w)
    case Notify(state) => HandlerActs(s, state)
    case _ =>
      if a.t >= |s.tasks| then s else s.(tasks := s.tasks[a.t := Advance(s, s.tasks[a.t], a)])
  }

  // ---------------------------------------------------------------- counting tasks

  datatype Kind = Activations(reg: nat) | Attachments | AttachmentsOf(reg: nat) | Denials | DenialsOf(reg: nat)

  predicate Is(t: Task, k: Kind) {
    match k
    case Activations(r) => t.Activate? && t.reg == r
    case Attachments => t.Attach?
    case AttachmentsOf(r) => t.Attach? && t.reg == r
    case Denials => t.Deny?
    case DenialsOf(r) => t.Deny? && t.reg == r
  }

  /** How many of the first `n` tasks are of kind `k`. */
  function CountFirst(tasks: seq<Task>, n: nat, k: Kind): nat
    requires n <= |tasks|
  {
    if n == 0 then 0 else CountFirst(tasks, n - 1, k) + (if Is(tasks[n - 1], k) then 1 else 0)
  }

  function Count(tasks: seq<Task>, k: Kind): nat { CountFirst(tasks, |tasks|, k) }

  lemma {:induction false} CountSamePrefix(tasks: seq<Task>, others: seq<Task>, n: nat, k: Kind)
    requires n <= |tasks| && n <= |others|
    requires forall i :: 0 <= i < n ==> Is(tasks[i], k) == Is(others[i], k)
    ensures CountFirst(tasks, n, k) == CountFirst(others, n, k)
  {
    if n > 0 {
      CountSamePrefix(tasks, others, n - 1, k);
    }
  }

  lemma {:induction false} CountSnoc(tasks: seq<Task>, t: Task, k: Kind)
    ensures Count(tasks + [t], k) == Count(tasks, k) + (if Is(t, k) then 1 else 0)
  {
    CountSamePrefix(tasks, tasks + [t], |tasks|, k);
  }

  lemma {:induction false} CountUpdate(tasks: seq<Task>, i: nat, t: Task, k: Kind)
    requires i < |tasks| && Is(t, k) == Is(tasks[i], k)
    ensures Count(tasks[i := t], k) == Count(tasks, k)
  {
    CountSamePrefix(tasks, tasks[i := t], |tasks|, k);
  }

  lemma {:induction false} CountInit(tasks: seq<Task>, k: Kind)
    requires tasks != []
    ensures Count(tasks, k) == Count(tasks[..|tasks| - 1], k) + (if Is(tasks[|tasks| - 1], k) then 1 else 0)
  {
    CountSamePrefix(tasks, tasks[..|tasks| - 1], |tasks| - 1, k);
  }

  lemma {:induction false} SomeCounted(tasks: seq<Task>, k: Kind, i: nat)
    requires i < |tasks| && Is(tasks[i], k)
    ensures Count(tasks, k) >= 1
  {
    var n := |tasks| - 1;
    CountInit(tasks, k);
    if i < n {
      SomeCounted(tasks[..n], k, i);
    }
  }

  // ---------------------------------------------------------------- the invariant

  /** How often a dictionary's flag has been claimed. */
  ghost predicate FlagsCountClaims(s: State) {
    forall r: nat :: Count(s.tasks, Activations(r)) == if r < |s.flags| && s.flags[r] then 1 else 0
  }

  function Held(s: State): nat { if s.pending.Some? then 1 else 0 }

  /** With a single registration the entry is gone exactly when its attachment has been claimed. */
  ghost predicate SoleRegistration(s: State)
    requires WellFormed(s)
  {
    && (|s.regs| == 0 ==> s.tasks == [] && s.pending.None?)
    && (|s.regs| == 1 ==>
          && (s.pending.None? <==> Count(s.tasks, Attachments) == 1)
          && (if s.watchers[0].Finished? then Count(s.tasks, Attachments) + Count(s.tasks, Denials) >= 1
              else Count(s.tasks, Denials) == 0)
          && Count(s.tasks, Denials) <= 1)
  }

  ghost predicate Inv(s: State) {
    && WellFormed(s)
    && FlagsCountClaims(s)
    && Count(s.tasks, Attachments) + Held(s) <= |s.regs|
    && (Count(s.tasks, Attachments) > 0 ==> s.sawOperating)
    && (Count(s.tasks, Denials) > 0 ==> s.sawEnd)
    && (forall w :: 0 <= w < |s.watchers| && s.watchers[w].Read? && s.watchers[w].state == OPERATING ==> s.sawOperating)
    && SoleRegistration(s)
  }

  lemma ClaimActivationKeepsInv(s: State, r: nat)
    requires Inv(s) && r < |s.regs|
    ensures Inv(ClaimActivation(s, r))
  {
    hide Count;
    forall k: Kind ensures Count(s.tasks + [Activate(r, false, false)], k)
                        == Count(s.tasks, k) + (if Is(Activate(r, false, false), k) then 1 else 0) {
      CountSnoc(s.tasks, Activate(r, false, false), k);
    }
  }

  lemma ClaimAttachmentKeepsInv(s: State, r: nat)
    requires WellFormed(s) && r < |s.regs| && s.sawOperating && s.pending.Some?
    requires Inv(s)
    ensures Inv(ClaimAttachment(s, r))
  {
    hide Count;
    forall k: Kind ensures Count(s.tasks + [Attach(r, [])], k)
                        == Count(s.tasks, k) + (if Is(Attach(r, []), k) then 1 else 0) {
      CountSnoc(s.tasks, Attach(r, []), k);
    }
  }

  lemma WatcherAttachKeepsInv(s: State, w: nat)
    requires Inv(s) && w < |s.watchers| && s.watchers[w].Read? && s.watchers[w].state == OPERATING
    ensures Inv(WatcherActs(s, w))
  {
    hide Count, Processed, Deniable;
    forall k: Kind { CountSnoc(s.tasks, Attach(w, []), k); }
  }

  lemma WatcherDenyKeepsInv(s: State, w: nat, reg: nat)
    requires Inv(s) && w < |s.watchers| && s.watchers[w].Read? && reg < |s.regs|
    ensures Inv(s.(watchers := s.watchers[w := Finished], sawEnd := true, tasks := s.tasks + [Deny(reg, 0)]))
  {
    hide Count, Processed, Deniable;
    forall k: Kind { CountSnoc(s.tasks, Deny(reg, 0), k); }
  }

  lemma WatcherStopsKeepsInv(s: State, w: nat)
    requires Inv(s) && w < |s.watchers| && s.watchers[w].Read? && s.pending.None?
    ensures Inv(s.(watchers := s.watchers[w := Finished], sawEnd := true))
  {
    hide Count, Processed, Deniable;
  }

  lemma WatcherActsKeepsInv(s: State, w: nat)
    requires Inv(s) && w < |s.watchers| && s.watchers[w].Read?
    ensures Inv(WatcherActs(s, w))
  {
    hide Count, Processed, Deniable;
    match s.watchers[w].state
    case AVAILABLE => WatcherResumesKeepsInv(s, w); ClaimActivationKeepsInv(s.(watchers := s.watchers[w := Polling]), w);
    case OPERATING => WatcherAttachKeepsInv(s, w);
    case Terminal => WatcherDenyKeepsInv(s, w, w);
    case PENDING =>
      WatcherResumesKeepsInv(s, w);
      if s.pending.Some? {
        WatcherDenyKeepsInv(s, w, s.pending.value);
      } else {
        WatcherStopsKeepsInv(s, w);
      }
    case OtherState => WatcherResumesKeepsInv(s, w);
  }

  lemma WatcherResumesKeepsInv(s: State, w: nat)
    requires Inv(s) && w < |s.watchers| && s.watchers[w].Read?
    ensures Inv(s.(watchers := s.watchers[w := Polling]))
  {
    hide Count, Processed, Deniable;
  }

  lemma AdvanceKeepsInv(s: State, t: nat, a: Action)
    requires Inv(s) && t < |s.tasks|
    ensures Inv(s.(tasks := s.tasks[t := Advance(s, s.tasks[t], a)]))
  {
    hide Count, Processed, Deniable;
    var moved := Advance(s, s.tasks[t], a);
    forall k: Kind ensures Count(s.tasks[t := moved], k) == Count(s.tasks, k) {
      CountUpdate(s.tasks, t, moved, k);
    }
  }

  lemma RegisterKeepsWellFormed(s: State, r: Registration)
    requires WellFormed(s)
    ensures WellFormed(Next(s, Register(r)))
  {
    hide Processed;
    forall i | 0 <= i < |s.regs| ensures (s.regs + [r])[i] == s.regs[i] {
    }
  }

  lemma NoTasks(k: Kind)
    ensures Count([], k) == 0
  {
  }

  lemma RegisterKeepsInv(s: State, r: Registration)
    requires Inv(s)
    ensures Inv(Next(s, Register(r)))
  {
    RegisterKeepsWellFormed(s, r);
    NoTasks(Attachments);
    NoTasks(Denials);
    hide Count, Processed, WellFormed;
    var next := Next(s, Register(r));
    assert next.tasks == s.tasks;
    forall i: nat
      ensures (i < |next.flags| && next.flags[i]) == (i < |s.flags| && s.flags[i])
    {
    }
    assert FlagsCountClaims(next);
  }

  lemma InvIsWellFormed(s: State)
    requires Inv(s)
    ensures WellFormed(s) && (s.pending.Some? ==> s.pending.value < |s.regs|)
    ensures |s.flags| == |s.watchers| == |s.regs| && forall t :: 0 <= t < |s.tasks| ==> s.tasks[t].reg < |s.regs|
  {
  }

  lemma PollKeepsInv(s: State, w: nat, state: SliceState, timedOut: bool)
    requires Inv(s)
    ensures Inv(Next(s, Poll(w, state, timedOut)))
  {
    hide Count, Processed, Deniable;
  }

  lemma SeeingKeepsInv(s: State)
    requires Inv(s)
    ensures Inv(s.(sawOperating := true)) && WellFormed(s.(sawOperating := true))
  {
    hide Count, Processed, Deniable;
  }

  /** Every step, of whatever actor, keeps the invariant. */
  lemma NextKeepsInv(s: State, a: Action)
    requires Inv(s)
    ensures Inv(Next(s, a))
  {
    InvIsWellFormed(s);
    hide Count, WatcherActs, Advance, Inv, WellFormed;
    match a
    case Register(r) => RegisterKeepsInv(s, r);
    case Poll(w, state, timedOut) => PollKeepsInv(s, w, state, timedOut);
    case Act(w) =>
      if w < |s.watchers| && s.watchers[w].Read? {
        WatcherActsKeepsInv(s, w);
      }
    case Notify(state) =>
      if state == OPERATING {
        SeeingKeepsInv(s);
      }
      if state == OPERATING && s.pending.Some? {
        ClaimAttachmentKeepsInv(s.(sawOperating := true), s.pending.value);
      } else if state == AVAILABLE && s.pending.Some? {
        ClaimActivationKeepsInv(s, s.pending.value);
      }
    case CallActivate(t, _) => if t < |s.tasks| { AdvanceKeepsInv(s, t, a); }
    case AttachNext(t, _) => if t < |s.tasks| { AdvanceKeepsInv(s, t, a); }
    case DenyNext(t) => if t < |s.tasks| { AdvanceKeepsInv(s, t, a); }
  }

  // ---------------------------------------------------------------- every interleaving

  lemma InitInv()
    ensures Inv(INIT)
  {
  }

  ghost function After(actions: seq<Action>): (s: State)
    ensures Inv(s)
  {
    if actions == [] then
      InitInv();
      INIT
    else
      var before := After(actions[..|actions| - 1]);
      NextKeepsInv(before, actions[|actions| - 1]);
      Next(before, actions[|actions| - 1])
  }

  lemma AfterSnoc(actions: seq<Action>, a: Action)
    ensures After(actions + [a]) == Next(After(actions), a)
  {
    assert (actions + [a])[..|actions|] == actions;
  }

  /**
    Under every interleaving: each registration's activation is claimed at most once, the attach jobs and a
    still-pending entry together never outnumber the registrations (so a sole registration is attached at most
    once), and no attach job starts unless OPERATING was read or notified.
   */
  lemma {:induction false} AtMostOnce(actions: seq<Action>)
    ensures
      var s := After(actions);
      && (forall r: nat :: Count(s.tasks, Activations(r)) <= 1)
      && Count(s.tasks, Attachments) + Held(s) <= |s.regs|
      && (|s.regs| == 1 ==> Count(s.tasks, Attachments) <= 1)
      && (Count(s.tasks, Attachments) > 0 ==> s.sawOperating)
  {
    hide Count;
    var s := After(actions);
    assert FlagsCountClaims(s);
  }

  lemma StartsEmpty()
    ensures After([]) == INIT
  {
  }

  lemma AfterHoldsInv(actions: seq<Action>)
    ensures Inv(After(actions))
  {
  }

  function Steps(s: State, actions: seq<Action>): (t: State)
    requires Inv(s)
    ensures Inv(t)
    decreases |actions|
  {
    if actions == [] then s
    else
      NextKeepsInv(s, actions[0]);
      Steps(Next(s, actions[0]), actions[1..])
  }

  lemma {:induction false} AfterAppend(actions: seq<Action>, more: seq<Action>)
    ensures After(actions + more) == Steps(After(actions), more)
    decreases |more|
  {
    hide Inv, Next;
    if more == [] {
      assert actions + more == actions;
    } else {
      AfterSnoc(actions, more[0]);
      AfterAppend(actions + [more[0]], more[1..]);
      assert actions + more == actions + [more[0]] + more[1..];
    }
  }

  lemma {:induction false} FindCounted(tasks: seq<Task>, k: Kind) returns (i: nat)
    requires Count(tasks, k) >= 1
    ensures i < |tasks| && Is(tasks[i], k)
  {
    var n := |tasks| - 1;
    if Is(tasks[n], k) {
      i := n;
    } else {
      CountInit(tasks, k);
      i := FindCounted(tasks[..n], k);
    }
  }

  lemma CountTwo(t: Task, u: Task, k: Kind)
    ensures Count([t, u], k) == (if Is(t, k) then 1 else 0) + (if Is(u, k) then 1 else 0)
  {
    NoTasks(k);
    CountSnoc([], t, k);
    CountSnoc([t], u, k);
    assert [] + [t] == [t] && [t] + [u] == [t, u];
  }

  /** The entry of a single registration leaves the dictionary exactly when its attach job is claimed: never on reap. */
  lemma {:induction false} EntryLeavesOnlyByAttachment(actions: seq<Action>)
    requires |After(actions).regs| == 1
    ensures After(actions).pending.None? <==> Count(After(actions).tasks, Attachments) == 1
  {
    hide Count;
    assert SoleRegistration(After(actions));
  }
}
