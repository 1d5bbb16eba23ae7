/**
  What each affected incident hears of a finished slice: the grants and denials of all its jobs together.
 */
module SliceOutcomes {
  import opened Wrappers
  import opened AttachJob
  import opened SliceLifecycle

  ghost function TaskOutcomes(s: State, t: Task): seq<Outcome>
    requires TaskFits(s, t)
  {
    match t
    case Activate(_, _, _) => []
    case Attach(r, results) => AttachOutcomes(s.regs[r], results)
    case Deny(_, sent) => DenyOutcomes(sent)
  }

  ghost predicate TaskFits(s: State, t: Task) {
    && t.reg < |s.regs|
    && (t.Attach? ==> |t.results| <= Processed(s.regs[t.reg]))
    && (t.Deny? ==> t.sent <= Deniable(s.regs[t.reg]))
  }

  ghost predicate TasksFit(s: State, tasks: seq<Task>) {
    forall t :: 0 <= t < |tasks| ==> TaskFits(s, tasks[t])
  }

  /** How many grants and denials incident `i` has been sent. */
  ghost function Heard(s: State, tasks: seq<Task>, i: nat): nat
    requires TasksFit(s, tasks)
  {
    if tasks == [] then 0
    else Heard(s, tasks[..|tasks| - 1], i) + CountFor(TaskOutcomes(s, tasks[|tasks| - 1]), i)
  }

  ghost function Granted(s: State, tasks: seq<Task>, i: nat): nat
    requires TasksFit(s, tasks)
  {
    if tasks == [] then 0
    else Granted(s, tasks[..|tasks| - 1], i) + GrantsFor(TaskOutcomes(s, tasks[|tasks| - 1]), i)
  }

  /** The one registration made, its devices and incidents paired off by phone. */
  ghost predicate Matched(s: State) {
    |s.regs| == 1 && OneToOne(s.regs[0])
  }

  ghost predicate AllDone(s: State, tasks: seq<Task>)
    requires TasksFit(s, tasks)
  {
    forall t :: 0 <= t < |tasks| ==> TaskDone(s, tasks[t])
  }

  /** How often one finished job of a kind reaches incident `i`, whose device is `k`. */
  function AttachReach(reg: Registration, k: nat): nat { if k < Processed(reg) then 1 else 0 }

  function DenyReach(reg: Registration, i: nat): nat { if i < Deniable(reg) then 1 else 0 }

  lemma DoneTaskReaches(s: State, t: Task, i: nat, k: nat)
    requires Matched(s) && DeviceOf(s.regs[0], i, k) && TaskFits(s, t) && TaskDone(s, t)
    ensures CountFor(TaskOutcomes(s, t), i) ==
              if t.Activate? then 0 else if t.Attach? then AttachReach(s.regs[0], k) else DenyReach(s.regs[0], i)
    ensures GrantsFor(TaskOutcomes(s, t), i) == if t.Attach? && k < |t.results| && t.results[k] then 1 else 0
  {
    hide Processed, Deniable, OneToOne, AttachOutcomes, DenyOutcomes;
    match t
    case Activate(_, _, _) =>
    case Attach(_, results) => DeviceDecides(s.regs[0], results, i, k);
    case Deny(_, sent) => DenyDecides(sent, i);
  }

  function Times(n: nat, once: nat): nat
    requires once <= 1
  {
    if once == 1 then n else 0
  }

  lemma {:induction false} HeardIsTaskCount(s: State, tasks: seq<Task>, i: nat, k: nat)
    requires Matched(s) && DeviceOf(s.regs[0], i, k) && TasksFit(s, tasks) && AllDone(s, tasks)
    ensures Heard(s, tasks, i) == Times(Count(tasks, Attachments), AttachReach(s.regs[0], k))
                                + Times(Count(tasks, Denials), DenyReach(s.regs[0], i))
    ensures Count(tasks, Attachments) == 0 ==> Granted(s, tasks, i) == 0
  {
    hide Processed, Deniable, Matched, TaskOutcomes, CountFor, GrantsFor, TaskDone;
    if tasks != [] {
      var n := |tasks| - 1;
      assert TasksFit(s, tasks[..n]) && AllDone(s, tasks[..n]);
      HeardIsTaskCount(s, tasks[..n], i, k);
      CountInit(tasks, Attachments);
      CountInit(tasks, Denials);
      DoneTaskReaches(s, tasks[n], i, k);
    }
  }

  /** With a single attach job the grants of incident `i` are decided by that job's answer for its device. */
  lemma {:induction false} GrantedIsAttached(s: State, tasks: seq<Task>, i: nat, k: nat, t: nat)
    requires Matched(s) && DeviceOf(s.regs[0], i, k) && TasksFit(s, tasks) && AllDone(s, tasks)
    requires t < |tasks| && tasks[t].Attach? && Count(tasks, Attachments) == 1
    ensures Granted(s, tasks, i) == if k < |tasks[t].results| && tasks[t].results[k] then 1 else 0
  {
    hide Processed, Deniable, TaskOutcomes, CountFor, GrantsFor, OneToOne;
    var n := |tasks| - 1;
    assert TasksFit(s, tasks[..n]) && AllDone(s, tasks[..n]);
    DoneTaskReaches(s, tasks[n], i, k);
    CountInit(tasks, Attachments);
    if t < n {
      SomeCounted(tasks[..n], Attachments, t);
      GrantedIsAttached(s, tasks[..n], i, k, t);
    } else {
      HeardIsTaskCount(s, tasks[..n], i, k);
    }
  }

  ghost predicate Settled(s: State)
    requires WellFormed(s)
  {
    |s.regs| == 1 && s.watchers[0].Finished? && AllDone(s, s.tasks)
  }

  /** The attach job, if there is one, gets as far as device `k`; the deny loop, if there is one, as far as context `i`. */
  ghost predicate Reached(s: State, i: nat, k: nat)
    requires |s.regs| == 1
  {
    || (Count(s.tasks, Attachments) == 1 && k < Processed(s.regs[0]))
    || (Count(s.tasks, Denials) == 1 && i < Deniable(s.regs[0]))
  }

  /**
    Once the watcher and every handler have finished, incident `i` has been answered by the attach job if its device
    comes before the one that ends that job, and by the deny loop if its context comes before the one that ends
    that loop. So it is never answered exactly when neither reaches it, and twice only when OPERATING was observed as well
    as a terminal state or a reap acted on.
   */
  lemma IncidentsAreAnswered(actions: seq<Action>, i: nat, k: nat)
    requires Settled(After(actions)) && Matched(After(actions)) && DeviceOf(After(actions).regs[0], i, k)
    ensures
      var s := After(actions);
      var attach, deny := Count(s.tasks, Attachments), Count(s.tasks, Denials);
      && attach <= 1 && deny <= 1 && attach + deny >= 1
      && Heard(s, s.tasks, i) == Times(attach, AttachReach(s.regs[0], k)) + Times(deny, DenyReach(s.regs[0], i))
      && (Heard(s, s.tasks, i) == 0 <==> !Reached(s, i, k))
      && (attach + deny == 2 ==> s.sawOperating && s.sawEnd)
  {
    hide Count, Processed, Deniable, Heard, AllDone;
    HeardIsTaskCount(After(actions), After(actions).tasks, i, k);
  }

  /**
    If OPERATING excludes terminal states and reaps, each incident hears at most one grant or denial, exactly one if and
    only if the one job that runs gets as far as it, and a grant exactly when that job recorded its device as attached.
   */
  lemma ExactlyOneOutcome(actions: seq<Action>, i: nat, k: nat)
    requires Settled(After(actions)) && Matched(After(actions)) && DeviceOf(After(actions).regs[0], i, k)
    requires !(After(actions).sawOperating && After(actions).sawEnd)
    ensures
      var s := After(actions);
      && Heard(s, s.tasks, i) <= 1
      && (Heard(s, s.tasks, i) == 1 <==>
            if Count(s.tasks, Attachments) == 1 then k < Processed(s.regs[0]) else i < Deniable(s.regs[0]))
      && Granted(s, s.tasks, i) <= Heard(s, s.tasks, i)
      && (Granted(s, s.tasks, i) == 1 <==>
            exists t :: 0 <= t < |s.tasks| && s.tasks[t].Attach? && k < |s.tasks[t].results| && s.tasks[t].results[k])
  {
    hide Count, Processed, Deniable, Heard, Granted, AllDone, OneToOne, Inv;
    IncidentsAreAnswered(actions, i, k);
    AfterHoldsInv(actions);
    GrantedExactlyWhenAttached(After(actions), i, k);
  }

  lemma GrantedExactlyWhenAttached(s: State, i: nat, k: nat)
    requires WellFormed(s) && Matched(s) && DeviceOf(s.regs[0], i, k) && TasksFit(s, s.tasks) && AllDone(s, s.tasks)
    requires Count(s.tasks, Attachments) <= 1
    ensures Granted(s, s.tasks, i) <= Times(Count(s.tasks, Attachments), AttachReach(s.regs[0], k))
    ensures Granted(s, s.tasks, i) == 1 <==>
              exists t :: 0 <= t < |s.tasks| && s.tasks[t].Attach? && k < |s.tasks[t].results| && s.tasks[t].results[k]
  {
    hide Count, Processed, Deniable, Granted, AllDone, OneToOne;
    HeardIsTaskCount(s, s.tasks, i, k);
    forall t | 0 <= t < |s.tasks| && s.tasks[t].Attach?
      ensures Granted(s, s.tasks, i) == if k < |s.tasks[t].results| && s.tasks[t].results[k] then 1 else 0
      ensures |s.tasks[t].results| <= Processed(s.regs[0])
    {
      SomeCounted(s.tasks, Attachments, t);
      GrantedIsAttached(s, s.tasks, i, k, t);
    }
    if Count(s.tasks, Attachments) == 1 {
      var t := FindCounted(s.tasks, Attachments);
      assert s.tasks[t].Attach?;
    }
  }

  /** With readable IMSIs and complete contexts every incident is reached by whichever job runs. */
  lemma CleanRegistrationsReachAll(s: State, i: nat, k: nat)
    requires |s.regs| == 1 && DeviceOf(s.regs[0], i, k)
    requires forall d :: 0 <= d < |s.regs[0].devices| ==> !s.regs[0].devices[d].imsi.Malformed?
    requires forall c :: 0 <= c < |s.regs[0].incidents| ==> s.regs[0].incidents[c].complete
    requires Count(s.tasks, Attachments) == 1 || Count(s.tasks, Denials) == 1
    ensures Reached(s, i, k)
  {
    assert forall d :: 0 <= d < |s.regs[0].devices| ==> !Breaks(s.regs[0], d);
  }

  /** Register, read OPERATING and act on it: the entry is gone and the attach job stands at its first device. */
  function Operating(r: Registration): seq<Action> {
    [] + [Register(r)] + [Poll(0, OPERATING, false)] + [Act(0)]
  }

  lemma OperatingCourse(r: Registration)
    ensures After(Operating(r)) == State([r], [false], [Finished], None, [Attach(0, [])], true, false)
  {
    hide After, Inv;
    var t1 := [] + [Register(r)];
    var t2 := t1 + [Poll(0, OPERATING, false)];
    StartsEmpty();
    AfterSnoc([], Register(r));
    AfterSnoc(t1, Poll(0, OPERATING, false));
    AfterSnoc(t2, Act(0));
    assert After(t1) == State([r], [false], [Polling], Some(0), [], false, false);
    assert After(t2) == State([r], [false], [Read(OPERATING, false)], Some(0), [], true, false);
  }

  lemma OneAttachJob(results: seq<bool>)
    ensures Count([Attach(0, results)], Attachments) == 1
  {
    NoTasks(Attachments);
    CountSnoc([], Attach(0, results), Attachments);
    assert [] + [Attach(0, results)] == [Attach(0, results)];
  }

  /** The expected course, as a run: the one device is attached after that. It meets the premises of both theorems. */
  lemma ExpectedCourse(phone: string)
    ensures var r := Registration([Device(phone, Missing)], [Context(phone, true)]);
            var s := After(Operating(r) + [AttachNext(0, true)]);
            && Settled(s) && Matched(s) && DeviceOf(s.regs[0], 0, 0) && s.sawOperating && !s.sawEnd
            && Heard(s, s.tasks, 0) == Granted(s, s.tasks, 0) == 1
  {
    hide After, Inv, Processed;
    var r := Registration([Device(phone, Missing)], [Context(phone, true)]);
    var t := Operating(r);
    assert Processed(r) == 1 by { assert !Breaks(r, 0); }
    OperatingCourse(r);
    AfterSnoc(t, AttachNext(0, true));
    assert !TaskDone(After(t), Attach(0, [])) && [] + [true] == [true];
    assert [Attach(0, [])][0 := Attach(0, [true])] == [Attach(0, [true])];
    assert After(t + [AttachNext(0, true)]) == State([r], [false], [Finished], None, [Attach(0, [true])], true, false);
    assert DeviceOf(r, 0, 0);
    assert Settled(After(t + [AttachNext(0, true)]));
    OneAttachJob([true]);
    ExactlyOneOutcome(t + [AttachNext(0, true)], 0, 0);
  }

  lemma BreaksAtOnce(r: Registration)
    requires r.devices != [] && Breaks(r, 0)
    ensures Processed(r) == 0
  {
  }

  /**
    An unreadable IMSI costs every incident from its device on: the entry has been removed, the job has died at its first
    device, and neither that device's incident nor the next, whose own device is in order, is ever answered.
   */
  lemma UnansweredIncidents(bad: string, good: string)
    requires bad != good
    ensures var r := Registration([Device(bad, Malformed), Device(good, Missing)], [Context(bad, true), Context(good, true)]);
            var s := After(Operating(r));
            && Settled(s) && Matched(s) && s.pending.None? && !s.sawEnd
            && Heard(s, s.tasks, 0) == 0 && Heard(s, s.tasks, 1) == 0
  {
    hide After, Inv, Processed, Deniable;
    var r := Registration([Device(bad, Malformed), Device(good, Missing)], [Context(bad, true), Context(good, true)]);
    OperatingCourse(r);
    assert Breaks(r, 0);
    assert DeviceOf(r, 0, 0) && DeviceOf(r, 1, 1);
    BreaksAtOnce(r);
    IncidentsAreAnswered(Operating(r), 0, 0);
    IncidentsAreAnswered(Operating(r), 1, 1);
  }

  // ---------------------------------------------------------------- when incidents are answered twice

  /** The step pops the entry and starts the attach job: an OPERATING notification, or a watcher acting on that state. */
  predicate ClaimsAttachment(s: State, a: Action) {
    s.pending.Some? &&
    match a
    case Notify(state) => state == OPERATING
    case Act(w) => w < |s.watchers| && s.watchers[w].Read? && s.watchers[w].state == OPERATING
    case _ => false
  }

  /** The step starts a deny loop: a watcher acting on a terminal state, or reaping while the entry is still there. */
  predicate StartsDenial(s: State, a: Action) {
    a.Act? && a.w < |s.watchers| && s.watchers[a.w].Read? &&
    (s.watchers[a.w].state == Terminal || (s.watchers[a.w] == Read(PENDING, true) && s.pending.Some?))
  }

  ghost predicate BothJobs(s: State) {
    Count(s.tasks, Attachments) >= 1 && Count(s.tasks, Denials) >= 1
  }

  lemma OneMore(tasks: seq<Task>, t: Task)
    ensures Count(tasks + [t], Attachments) == Count(tasks, Attachments) + if t.Attach? then 1 else 0
    ensures Count(tasks + [t], Denials) == Count(tasks, Denials) + if t.Deny? then 1 else 0
  {
    CountSnoc(tasks, t, Attachments);
    CountSnoc(tasks, t, Denials);
  }

  lemma StepCounts(s: State, a: Action)
    requires Inv(s)
    ensures Count(Next(s, a).tasks, Attachments) == Count(s.tasks, Attachments) + if ClaimsAttachment(s, a) then 1 else 0
    ensures Count(Next(s, a).tasks, Denials) == Count(s.tasks, Denials) + if StartsDenial(s, a) then 1 else 0
  {
    hide Count, Processed, Deniable, FlagsCountClaims, SoleRegistration;
    match a
    case Register(_) =>
    case Poll(_, _, _) =>
    case Act(w) =>
      if w < |s.watchers| && s.watchers[w].Read? {
        OneMore(s.tasks, Activate(w, false, false));
        OneMore(s.tasks, Attach(w, []));
        OneMore(s.tasks, Deny(w, 0));
        if s.pending.Some? { OneMore(s.tasks, Deny(s.pending.value, 0)); }
      }
    case Notify(_) =>
      if s.pending.Some? {
        OneMore(s.tasks, Activate(s.pending.value, false, false));
        OneMore(s.tasks, Attach(s.pending.value, []));
      }
    case _ =>
      if a.t < |s.tasks| {
        CountUpdate(s.tasks, a.t, Advance(s, s.tasks[a.t], a), Attachments);
        CountUpdate(s.tasks, a.t, Advance(s, s.tasks[a.t], a), Denials);
      }
  }

  /**
    What a step would have to check, with one registration: it makes both jobs exist exactly when it claims the attachment
    while a deny loop exists, or starts a deny loop when the entry is already gone.
   */
  lemma BothJobsExactlyWhen(s: State, a: Action)
    requires Inv(s) && |s.regs| == 1 && !a.Register? && !BothJobs(s)
    ensures BothJobs(Next(s, a)) <==>
              || (ClaimsAttachment(s, a) && Count(s.tasks, Denials) >= 1)
              || (StartsDenial(s, a) && s.pending.None?)
  {
    hide Count, Processed, Deniable, FlagsCountClaims, WellFormed;
    StepCounts(s, a);
  }

  /** Jobs are never taken back, and without a registration the one dictionary stays the same. */
  lemma {:induction false} JobsRemain(s: State, more: seq<Action>)
    requires Inv(s) && forall i :: 0 <= i < |more| ==> !more[i].Register?
    ensures Steps(s, more).regs == s.regs
    ensures Count(Steps(s, more).tasks, Attachments) >= Count(s.tasks, Attachments)
    ensures Count(Steps(s, more).tasks, Denials) >= Count(s.tasks, Denials)
    decreases |more|
  {
    if more != [] {
      SameRegistrations(s, more[0]);
      StepCounts(s, more[0]);
      NextKeepsInv(s, more[0]);
      hide Count, Next, Inv;
      JobsRemain(Next(s, more[0]), more[1..]);
    }
  }

  lemma SameRegistrations(s: State, a: Action)
    requires WellFormed(s) && !a.Register?
    ensures Next(s, a).regs == s.regs
  {
  }

  // ---------------------------------------------------------------- where the exclusions are needed

  function LateOperating(r: Registration): seq<Action> {
    [] + [Register(r)] + [Poll(0, Terminal, false)] + [Act(0)] + [Notify(OPERATING)]
  }

  lemma LateOperatingStartsBoth(r: Registration)
    ensures After(LateOperating(r)) == State([r], [false], [Finished], None, [Deny(0, 0), Attach(0, [])], true, true)
  {
    hide After, Inv;
    var t1 := [] + [Register(r)];
    var t2 := t1 + [Poll(0, Terminal, false)];
    var t3 := t2 + [Act(0)];
    StartsEmpty();
    AfterSnoc([], Register(r));
    AfterSnoc(t1, Poll(0, Terminal, false));
    AfterSnoc(t2, Act(0));
    AfterSnoc(t3, Notify(OPERATING));
    assert After(t1) == State([r], [false], [Polling], Some(0), [], false, false);
    assert After(t2) == State([r], [false], [Read(Terminal, false)], Some(0), [], false, false);
    assert After(t3) == State([r], [false], [Finished], Some(0), [Deny(0, 0)], false, true);
  }

  /**
    A webhook that reports OPERATING after the watcher saw a terminal state starts an attach job beside the deny loop.
    However the run goes on from there, when all jobs are over every incident that both get as far as has been answered
    twice.
   */
  lemma LateOperatingAnswersTwice(r: Registration, more: seq<Action>, i: nat, k: nat)
    requires forall j :: 0 <= j < |more| ==> !more[j].Register?
    requires Settled(After(LateOperating(r) + more)) && Matched(After(LateOperating(r) + more))
    requires DeviceOf(After(LateOperating(r) + more).regs[0], i, k)
    requires k < Processed(After(LateOperating(r) + more).regs[0]) && i < Deniable(After(LateOperating(r) + more).regs[0])
    ensures var s := After(LateOperating(r) + more); Heard(s, s.tasks, i) == 2
  {
    hide After, Inv, Processed, Deniable, Heard, Settled, Steps, LateOperating;
    LateOperatingStartsBoth(r);
    CountTwo(Deny(0, 0), Attach(0, []), Attachments);
    CountTwo(Deny(0, 0), Attach(0, []), Denials);
    AfterAppend(LateOperating(r), more);
    AfterHoldsInv(LateOperating(r));
    JobsRemain(After(LateOperating(r)), more);
    IncidentsAreAnswered(LateOperating(r) + more, i, k);
  }

  /** Such a run: the one device of a slice attached, and its incident granted as well as denied. */
  lemma GrantedAndDenied(phone: string)
    ensures var r := Registration([Device(phone, Missing)], [Context(phone, true)]);
            var s := After(LateOperating(r) + [DenyNext(0), AttachNext(1, true)]);
            Settled(s) && Matched(s) && Heard(s, s.tasks, 0) == 2 && Granted(s, s.tasks, 0) == 1
  {
    hide After, Inv, LateOperating, Heard;
    var r := Registration([Device(phone, Missing)], [Context(phone, true)]);
    var t := LateOperating(r);
    assert Processed(r) == 1 && Deniable(r) == 1 by { assert !Breaks(r, 0); }
    hide Processed, Deniable;
    LateOperatingStartsBoth(r);
    AfterSnoc(t, DenyNext(0));
    AfterSnoc(t + [DenyNext(0)], AttachNext(1, true));
    assert t + [DenyNext(0), AttachNext(1, true)] == t + [DenyNext(0)] + [AttachNext(1, true)];
    var u := State([r], [false], [Finished], None, [Deny(0, 1), Attach(0, [])], true, true);
    assert [Deny(0, 0), Attach(0, [])][0 := Deny(0, 1)] == u.tasks;
    assert After(t + [DenyNext(0)]) == u;
    assert [] + [true] == [true] && u.tasks[1 := Attach(0, [true])] == [Deny(0, 1), Attach(0, [true])];
    assert After(t + [DenyNext(0), AttachNext(1, true)]) == u.(tasks := [Deny(0, 1), Attach(0, [true])]);
    assert DeviceOf(r, 0, 0);
    LateOperatingAnswersTwice(r, [DenyNext(0), AttachNext(1, true)], 0, 0);
    CountTwo(Deny(0, 1), Attach(0, [true]), Attachments);
    GrantedIsAttached(u.(tasks := [Deny(0, 1), Attach(0, [true])]), [Deny(0, 1), Attach(0, [true])], 0, 0, 1);
  }
}
