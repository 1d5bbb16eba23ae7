/**
  What brings each job of a slice about, and how far it has come: for every run, the jobs started for a registration,
  the pending entry, the watchers and the progress of each job are told from the actions alone.
 */
module SliceJobs {
  import opened Wrappers
  import opened AttachJob
  import opened SliceLifecycle

  // ---------------------------------------------------------------- which steps start jobs

  /** Watcher `w` is about to act on having read this state. */
  predicate ActsOn(s: State, a: Action, w: nat, state: SliceState) {
    a == Act(w) && w < |s.watchers| && s.watchers[w].Read? && s.watchers[w].state == state
  }

  /** The slice is seen AVAILABLE on behalf of registration `r`, by its own watcher or while it holds the entry. */
  predicate Activates(s: State, a: Action, r: nat) {
    ActsOn(s, a, r, AVAILABLE) || (a == Notify(AVAILABLE) && s.pending == Some(r))
  }

  /** The entry is popped on behalf of `r`: by its watcher, whoever's entry it is, or as its own by the handler. */
  predicate Attaches(s: State, a: Action, r: nat) {
    s.pending.Some? && (ActsOn(s, a, r, OPERATING) || (a == Notify(OPERATING) && s.pending == Some(r)))
  }

  /** The incidents of `r` are denied: its watcher saw the slice end, or some watcher timed out while `r` held the entry. */
  predicate Denies(s: State, a: Action, r: nat) {
    || ActsOn(s, a, r, Terminal)
    || (a.Act? && ActsOn(s, a, a.w, PENDING) && s.watchers[a.w].timedOut && s.pending == Some(r))
  }

  lemma OneTaskMore(tasks: seq<Task>, t: Task, r: nat)
    ensures Count(tasks + [t], Activations(r)) == Count(tasks, Activations(r)) + if t.Activate? && t.reg == r then 1 else 0
    ensures Count(tasks + [t], AttachmentsOf(r)) == Count(tasks, AttachmentsOf(r)) + if t.Attach? && t.reg == r then 1 else 0
    ensures Count(tasks + [t], DenialsOf(r)) == Count(tasks, DenialsOf(r)) + if t.Deny? && t.reg == r then 1 else 0
  {
    CountSnoc(tasks, t, Activations(r));
    CountSnoc(tasks, t, AttachmentsOf(r));
    CountSnoc(tasks, t, DenialsOf(r));
  }

  lemma SameTasks(s: State, t: nat, a: Action, r: nat)
    requires WellFormed(s) && t < |s.tasks|
    ensures var moved := s.tasks[t := Advance(s, s.tasks[t], a)];
            && Count(moved, Activations(r)) == Count(s.tasks, Activations(r))
            && Count(moved, AttachmentsOf(r)) == Count(s.tasks, AttachmentsOf(r))
            && Count(moved, DenialsOf(r)) == Count(s.tasks, DenialsOf(r))
  {
    hide Count, Processed, Deniable;
    var moved := Advance(s, s.tasks[t], a);
    CountUpdate(s.tasks, t, moved, Activations(r));
    CountUpdate(s.tasks, t, moved, AttachmentsOf(r));
    CountUpdate(s.tasks, t, moved, DenialsOf(r));
  }

  /** The jobs one step starts for `r`; an activation only the first time. */
  ghost predicate JobsStarted(s: State, a: Action, r: nat)
    requires WellFormed(s)
  {
    var t := Next(s, a);
    && Count(t.tasks, Activations(r)) == (if Activates(s, a, r) then 1 else Count(s.tasks, Activations(r)))
    && Count(t.tasks, AttachmentsOf(r)) == Count(s.tasks, AttachmentsOf(r)) + (if Attaches(s, a, r) then 1 else 0)
    && Count(t.tasks, DenialsOf(r)) == Count(s.tasks, DenialsOf(r)) + (if Denies(s, a, r) then 1 else 0)
  }

  lemma WatcherStartsJobs(s: State, w: nat, r: nat)
    requires Inv(s) && w < |s.watchers| && s.watchers[w].Read?
    ensures JobsStarted(s, Act(w), r)
  {
    hide Count, Processed, Deniable, SoleRegistration;
    OneTaskMore(s.tasks, Activate(w, false, false), r);
    OneTaskMore(s.tasks, Attach(w, []), r);
    OneTaskMore(s.tasks, Deny(w, 0), r);
    if s.pending.Some? {
      OneTaskMore(s.tasks, Deny(s.pending.value, 0), r);
    }
  }

  lemma HandlerStartsJobs(s: State, state: SliceState, r: nat)
    requires Inv(s)
    ensures JobsStarted(s, Notify(state), r)
  {
    hide Count, Processed, Deniable, SoleRegistration;
    if s.pending.Some? {
      OneTaskMore(s.tasks, Activate(s.pending.value, false, false), r);
      OneTaskMore(s.tasks, Attach(s.pending.value, []), r);
    }
  }

  lemma OwnStepStartsNone(s: State, a: Action, r: nat)
    requires WellFormed(s) && (a.CallActivate? || a.AttachNext? || a.DenyNext?)
    ensures JobsStarted(s, a, r)
  {
    hide Count, WellFormed, Advance;
    if a.t < |s.tasks| {
      SameTasks(s, a.t, a, r);
    }
  }

  lemma NoJobStarted(s: State, a: Action, r: nat)
    requires WellFormed(s) && (a.Register? || a.Poll?)
    ensures JobsStarted(s, a, r)
  {
    hide Count, WellFormed;
  }

  lemma IdleWatcherStartsNone(s: State, w: nat, r: nat)
    requires WellFormed(s) && (w >= |s.watchers| || !s.watchers[w].Read?)
    ensures JobsStarted(s, Act(w), r)
  {
    hide Count, WellFormed;
  }

  lemma StepStartsJobs(s: State, a: Action, r: nat)
    requires Inv(s)
    ensures WellFormed(s) && JobsStarted(s, a, r)
  {
    InvIsWellFormed(s);
    hide Count, Inv, WellFormed, JobsStarted, Next;
    match a
    case Register(_) => NoJobStarted(s, a, r);
    case Poll(_, _, _) => NoJobStarted(s, a, r);
    case Act(w) =>
      if w < |s.watchers| && s.watchers[w].Read? {
        WatcherStartsJobs(s, w, r);
      } else {
        IdleWatcherStartsNone(s, w, r);
      }
    case Notify(state) => HandlerStartsJobs(s, state, r);
    case _ => OwnStepStartsNone(s, a, r);
  }

  // ---------------------------------------------------------------- jobs of a whole run

  /** At how many of the steps the cause was there for `r`. */
  ghost function Times(actions: seq<Action>, cause: (State, Action, nat) -> bool, r: nat): nat {
    if actions == [] then 0
    else
      var n := |actions| - 1;
      Times(actions[..n], cause, r) + if cause(After(actions[..n]), actions[n], r) then 1 else 0
  }

  /** The cause was there for `r` at step `i`. */
  ghost predicate CauseAt(actions: seq<Action>, i: int, cause: (State, Action, nat) -> bool, r: nat) {
    0 <= i < |actions| && cause(After(actions[..i]), actions[i], r)
  }

  lemma CauseInPrefix(actions: seq<Action>, i: int, cause: (State, Action, nat) -> bool, r: nat)
    requires actions != []
    ensures i < |actions| - 1 ==> CauseAt(actions[..|actions| - 1], i, cause, r) == CauseAt(actions, i, cause, r)
  {
    if 0 <= i < |actions| - 1 {
      assert actions[..|actions| - 1][..i] == actions[..i];
    }
  }

  lemma {:induction false} TimesPositive(actions: seq<Action>, cause: (State, Action, nat) -> bool, r: nat)
    ensures Times(actions, cause, r) > 0 <==> exists i :: CauseAt(actions, i, cause, r)
  {
    if actions != [] {
      var n := |actions| - 1;
      var prefix := actions[..n];
      TimesPositive(prefix, cause, r);
      if Times(prefix, cause, r) > 0 {
        var i :| CauseAt(prefix, i, cause, r);
        CauseInPrefix(actions, i, cause, r);
      } else if Times(actions, cause, r) > 0 {
        assert CauseAt(actions, n, cause, r);
      }
      forall i | CauseAt(actions, i, cause, r) ensures Times(actions, cause, r) > 0 {
        CauseInPrefix(actions, i, cause, r);
      }
    }
  }

  lemma LastStep(actions: seq<Action>)
    requires actions != []
    ensures After(actions) == Next(After(actions[..|actions| - 1]), actions[|actions| - 1])
  {
  }

  lemma {:induction false} JobsHaveTheirCauses(actions: seq<Action>, r: nat)
    ensures Count(After(actions).tasks, Activations(r)) == if Times(actions, Activates, r) > 0 then 1 else 0
    ensures Count(After(actions).tasks, AttachmentsOf(r)) == Times(actions, Attaches, r)
    ensures Count(After(actions).tasks, DenialsOf(r)) == Times(actions, Denies, r)
  {
    if actions == [] {
      NoTasks(Activations(r));
      NoTasks(AttachmentsOf(r));
      NoTasks(DenialsOf(r));
    } else {
      var n := |actions| - 1;
      JobsHaveTheirCauses(actions[..n], r);
      AfterHoldsInv(actions[..n]);
      LastStep(actions);
      hide Count, After, Inv, Next, Activates, Attaches, Denies;
      StepStartsJobs(After(actions[..n]), actions[n], r);
    }
  }

  /**
    An available slice is activated: a registration has its one activation exactly when some step saw the slice AVAILABLE on
    its behalf, and as many attach jobs and deny loops as there were steps calling for them.
   */
  lemma StartedExactlyWhenCalledFor(actions: seq<Action>, r: nat)
    ensures Count(After(actions).tasks, Activations(r)) == 1
       <==> exists i :: CauseAt(actions, i, Activates, r)
    ensures Count(After(actions).tasks, AttachmentsOf(r)) == Times(actions, Attaches, r)
    ensures Count(After(actions).tasks, DenialsOf(r)) == Times(actions, Denies, r)
  {
    hide Count, CauseAt, Times, Activates, Attaches, Denies;
    JobsHaveTheirCauses(actions, r);
    TimesPositive(actions, Activates, r);
  }

  // ---------------------------------------------------------------- registrations and the entry

  /** The registrations made, in order. */
  function Made(actions: seq<Action>): seq<Registration> {
    if actions == [] then []
    else
      var n := |actions| - 1;
      if actions[n].Register? then Made(actions[..n]) + [actions[n].r] else Made(actions[..n])
  }

  /** The step attaches, on whoever's behalf. */
  ghost predicate Claims(s: State, a: Action) {
    exists r: nat :: Attaches(s, a, r)
  }

  /** Whether the entry is there: the latest registration puts it, and whoever attaches takes it. */
  ghost function EntryHeld(actions: seq<Action>): bool {
    if actions == [] then false
    else
      var n := |actions| - 1;
      actions[n].Register? || (EntryHeld(actions[..n]) && !Claims(After(actions[..n]), actions[n]))
  }

  lemma StepAtEntry(s: State, a: Action)
    requires Inv(s)
    ensures var t := Next(s, a);
            && t.regs == (if a.Register? then s.regs + [a.r] else s.regs)
            && t.pending == if a.Register? then Some(|s.regs|)
                            else if Claims(s, a) then None else s.pending
  {
    hide Count, Processed, Deniable, SoleRegistration, FlagsCountClaims, Advance;
    if a.Act? && ActsOn(s, a, a.w, OPERATING) && s.pending.Some? {
      assert Attaches(s, a, a.w);
    }
    if a == Notify(OPERATING) && s.pending.Some? {
      assert Attaches(s, a, s.pending.value);
    }
  }

  lemma EntrySnoc(actions: seq<Action>)
    requires actions != []
    ensures var n := |actions| - 1;
            && Made(actions) == (if actions[n].Register? then Made(actions[..n]) + [actions[n].r] else Made(actions[..n]))
            && EntryHeld(actions) == (actions[n].Register? || (EntryHeld(actions[..n]) && !Claims(After(actions[..n]), actions[n])))
  {
  }

  lemma NothingMade()
    ensures After([]).regs == Made([]) == [] && !EntryHeld([]) && After([]).pending == None
  {
  }

  /** The dictionary's entry is the latest registration's, and is there from then until a step attaches. */
  lemma {:induction false} EntryIsTheLatest(actions: seq<Action>)
    ensures After(actions).regs == Made(actions)
    ensures After(actions).pending == if EntryHeld(actions) then Some(|Made(actions)| - 1) else None
    ensures EntryHeld(actions) ==> Made(actions) != []
  {
    hide *;
    if actions == [] {
      NothingMade();
    } else {
      var n := |actions| - 1;
      EntryIsTheLatest(actions[..n]);
      AfterHoldsInv(actions[..n]);
      LastStep(actions);
      EntrySnoc(actions);
      StepAtEntry(After(actions[..n]), actions[n]);
      assert !actions[n].Register? ==> Made(actions) == Made(actions[..n]);
    }
  }

  // ---------------------------------------------------------------- watchers

  /** The watcher's last act: it has read OPERATING, an end, or PENDING past its time. */
  predicate Ends(s: State, a: Action, w: nat) {
    ActsOn(s, a, w, OPERATING) || ActsOn(s, a, w, Terminal) || (ActsOn(s, a, w, PENDING) && s.watchers[w].timedOut)
  }

  lemma StepOfWatcher(s: State, a: Action, w: nat)
    requires Inv(s) && w < |s.watchers|
    ensures var v := Next(s, a).watchers;
            && w < |v|
            && v[w] == if s.watchers[w].Polling? && a.Poll? && a.w == w then Read(a.state, a.timedOut)
                       else if Ends(s, a, w) then Finished
                       else if s.watchers[w].Read? && a == Act(w) then Polling
                       else s.watchers[w]
  {
    InvIsWellFormed(s);
    hide Inv, WellFormed, Advance;
  }

  /**
    Every registration has a watcher from its own step on, and it polls until it acts on OPERATING, on an end of the slice, or
    on a PENDING read past its time: it has finished exactly when some step was such an act.
   */
  lemma {:induction false} WatcherRunsUntilItEnds(actions: seq<Action>, w: nat)
    ensures |After(actions).watchers| == |Made(actions)|
    ensures w < |Made(actions)| ==> (After(actions).watchers[w].Finished? <==> Times(actions, Ends, w) > 0)
    ensures w >= |Made(actions)| ==> Times(actions, Ends, w) == 0
  {
    hide After, Inv, Next, Made;
    EntryIsTheLatest(actions);
    AfterHoldsInv(actions);
    InvIsWellFormed(After(actions));
    if actions == [] {
      NothingMade();
    } else {
      var n := |actions| - 1;
      var s := After(actions[..n]);
      WatcherRunsUntilItEnds(actions[..n], w);
      AfterHoldsInv(actions[..n]);
      InvIsWellFormed(s);
      LastStep(actions);
      if w < |s.watchers| {
        StepOfWatcher(s, actions[n], w);
      } else {
        NewWatcherPolls(s, actions[n], w);
      }
      assert Times(actions, Ends, w) == Times(actions[..n], Ends, w) + if Ends(s, actions[n], w) then 1 else 0;
    }
  }

  lemma NewWatcherPolls(s: State, a: Action, w: nat)
    requires Inv(s) && w >= |s.watchers|
    ensures !Ends(s, a, w)
    ensures w < |Next(s, a).watchers| ==> Next(s, a).watchers[w].Polling?
  {
    hide Count, Processed, Deniable, SoleRegistration, FlagsCountClaims, Advance;
  }

  // ---------------------------------------------------------------- what the run has seen

  /** OPERATING is read by a watcher or notified. */
  predicate SeesOperating(s: State, a: Action, any: nat) {
    a == Notify(OPERATING) || (a.Poll? && a.w < |s.watchers| && s.watchers[a.w].Polling? && a.state == OPERATING)
  }

  /** A watcher acts on an end of the slice, or reaps it. */
  predicate SeesEnd(s: State, a: Action, any: nat) {
    a.Act? && (ActsOn(s, a, a.w, Terminal) || (ActsOn(s, a, a.w, PENDING) && s.watchers[a.w].timedOut))
  }

  lemma StepSees(s: State, a: Action)
    requires Inv(s)
    ensures Next(s, a).sawOperating == (s.sawOperating || SeesOperating(s, a, 0))
    ensures Next(s, a).sawEnd == (s.sawEnd || SeesEnd(s, a, 0))
  {
    InvIsWellFormed(s);
    hide Inv, WellFormed, Advance;
  }

  /** The two marks the outcome theorems speak of are set exactly by the steps that see what they stand for. */
  lemma {:induction false} MarksTellTheRun(actions: seq<Action>)
    ensures After(actions).sawOperating <==> Times(actions, SeesOperating, 0) > 0
    ensures After(actions).sawEnd <==> Times(actions, SeesEnd, 0) > 0
  {
    hide After, Inv, Next, SeesOperating, SeesEnd;
    if actions == [] {
      StartsEmpty();
    } else {
      var n := |actions| - 1;
      MarksTellTheRun(actions[..n]);
      AfterHoldsInv(actions[..n]);
      InvIsWellFormed(After(actions[..n]));
      LastStep(actions);
      StepSees(After(actions[..n]), actions[n]);
    }
  }

  // ---------------------------------------------------------------- how far a job has come

  predicate IsOwnStep(a: Action) {
    a.CallActivate? || a.AttachNext? || a.DenyNext?
  }

  /** What a step of this kind answers a job with, if it is a step for jobs of that kind. */
  function AnswerTo(job: Task, a: Action): seq<bool> {
    match job
    case Activate(_, _, _) => if a.CallActivate? then [a.reached] else []
    case Attach(_, _) => if a.AttachNext? then [a.answer] else []
    case Deny(_, _) => if a.DenyNext? then [true] else []
  }

  /** The answer the step gives to job `t`, if it is a step of that job. */
  function AnswerFor(s: State, a: Action, t: nat): seq<bool> {
    if t < |s.tasks| && IsOwnStep(a) && a.t == t then AnswerTo(s.tasks[t], a) else []
  }

  /** All answers job `t` was given since it was started. */
  ghost function Answers(actions: seq<Action>, t: nat): seq<bool> {
    if actions == [] then []
    else
      var n := |actions| - 1;
      Answers(actions[..n], t) + AnswerFor(After(actions[..n]), actions[n], t)
  }

  function Upto(answers: seq<bool>, n: nat): seq<bool> {
    if n <= |answers| then answers[..n] else answers
  }

  /** The one activation call, the devices and the contexts are taken in order until the job is over; later answers are lost. */
  ghost predicate Progress(reg: Registration, job: Task, answers: seq<bool>) {
    match job
    case Activate(_, called, gaveUp) =>
      called == (answers != [] && answers[0]) && gaveUp == (answers != [] && !answers[0])
    case Attach(_, results) => results == Upto(answers, Processed(reg))
    case Deny(_, sent) => sent == |Upto(answers, Deniable(reg))|
  }

  /** A job's own step takes the answer, unless the job is over. */
  lemma JobAdvances(s: State, job: Task, a: Action, answers: seq<bool>)
    requires job.reg < |s.regs| && Progress(s.regs[job.reg], job, answers) && IsOwnStep(a)
    ensures Progress(s.regs[job.reg], Advance(s, job, a), answers + AnswerTo(job, a))
    ensures Advance(s, job, a).reg == job.reg
  {
    hide Processed, Deniable;
  }

  /** Where job `t` stands; a job that is not there yet has been given no answers. */
  ghost predicate StandsAt(s: State, t: nat, answers: seq<bool>)
    requires WellFormed(s)
  {
    if t < |s.tasks| then Progress(s.regs[s.tasks[t].reg], s.tasks[t], answers) else answers == []
  }

  /** A job no step has touched yet. */
  predicate JustStarted(t: Task) {
    match t
    case Activate(_, called, gaveUp) => !called && !gaveUp
    case Attach(_, results) => results == []
    case Deny(_, sent) => sent == 0
  }

  lemma NoProgressYet(reg: Registration, job: Task)
    requires JustStarted(job)
    ensures Progress(reg, job, [])
  {
    hide Processed, Deniable;
  }

  /** A step other than a job's own leaves every job as it is, starts at most one, and keeps the registrations made. */
  lemma OtherSteps(s: State, a: Action)
    requires Inv(s) && !IsOwnStep(a)
    ensures var s' := Next(s, a);
            && |s.regs| <= |s'.regs| && s'.regs[..|s.regs|] == s.regs
            && |s.tasks| <= |s'.tasks| <= |s.tasks| + 1 && s'.tasks[..|s.tasks|] == s.tasks
            && (|s'.tasks| > |s.tasks| ==> JustStarted(s'.tasks[|s.tasks|]))
  {
    hide Count, Processed, Deniable, SoleRegistration, FlagsCountClaims;
  }

  lemma JobsHaveRegistrations(s: State)
    requires WellFormed(s)
    ensures forall t :: 0 <= t < |s.tasks| ==> s.tasks[t].reg < |s.regs|
  {
  }

  lemma AfterOtherStep(s: State, a: Action, t: nat, answers: seq<bool>)
    requires Inv(s) && WellFormed(s) && WellFormed(Next(s, a)) && !IsOwnStep(a) && StandsAt(s, t, answers)
    ensures StandsAt(Next(s, a), t, answers)
  {
    hide Inv, WellFormed, Next, Progress, JustStarted;
    OtherSteps(s, a);
    InvIsWellFormed(s);
    JobsHaveRegistrations(Next(s, a));
    var s' := Next(s, a);
    if t < |s.tasks| {
      assert s'.tasks[..|s.tasks|][t] == s.tasks[t];
      assert s'.regs[..|s.regs|][s.tasks[t].reg] == s.regs[s.tasks[t].reg];
    } else if t < |s'.tasks| {
      NoProgressYet(s'.regs[s'.tasks[t].reg], s'.tasks[t]);
    }
  }

  lemma AfterOwnStep(s: State, a: Action, t: nat, answers: seq<bool>)
    requires WellFormed(s) && WellFormed(Next(s, a)) && IsOwnStep(a) && StandsAt(s, t, answers)
    ensures StandsAt(Next(s, a), t, answers + AnswerFor(s, a, t))
  {
    hide Progress, Advance, AnswerTo;
    if a.t < |s.tasks| {
      assert Next(s, a) == s.(tasks := s.tasks[a.t := Advance(s, s.tasks[a.t], a)]);
      if t == a.t {
        JobAdvances(s, s.tasks[t], a, answers);
      }
    }
    assert AnswerFor(s, a, t) == [] ==> answers + AnswerFor(s, a, t) == answers;
  }

  lemma StepOfJob(s: State, a: Action, t: nat, answers: seq<bool>)
    requires Inv(s) && WellFormed(s) && WellFormed(Next(s, a)) && StandsAt(s, t, answers)
    ensures StandsAt(Next(s, a), t, answers + AnswerFor(s, a, t))
  {
    hide Inv, WellFormed, Next, StandsAt;
    if IsOwnStep(a) {
      AfterOwnStep(s, a, t, answers);
    } else {
      assert answers + AnswerFor(s, a, t) == answers;
      AfterOtherStep(s, a, t, answers);
    }
  }

  /** At every moment of every run each job stands where the answers given to it have brought it. */
  lemma {:induction false} JobsFollowTheirAnswers(actions: seq<Action>, t: nat)
    ensures WellFormed(After(actions)) && StandsAt(After(actions), t, Answers(actions, t))
  {
    AfterHoldsInv(actions);
    InvIsWellFormed(After(actions));
    if actions != [] {
      var n := |actions| - 1;
      JobsFollowTheirAnswers(actions[..n], t);
      AfterHoldsInv(actions[..n]);
      LastStep(actions);
      hide After, Inv, Next, StandsAt, WellFormed;
      StepOfJob(After(actions[..n]), actions[n], t, Answers(actions[..n], t));
    }
  }
}
