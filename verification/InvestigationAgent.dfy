/**
  `AnomalyInvestigationAgent.process_batch` of `aia/pipeline.py`: every window of a batch ends in exactly one
  place, and what is alerted does not depend on the order in which the parallel investigations complete.
 */
module InvestigationAgent {
  import opened Wrappers
  import opened IncidentTracker
  import opened IncidentPipeline

  datatype Window = Window(id: nat, cluster: Cluster, suspicious: bool)

  /** One finished investigation, with the clock reads its registration will make. */
  datatype Investigated = Investigated(window: Window, verdict: Classification, severityTier: Option<int>,
                                       checked: real, now: real)

  function Init<T>(s: seq<T>): seq<T> requires s != [] { s[..|s| - 1] }

  function Last<T>(s: seq<T>): T requires s != [] { s[|s| - 1] }

  // ---------------------------------------------------------------- stage 1: detection

  /** What detection asks of the tracker: `looks[k]` is the clock read made if window `k` is suspicious. */
  function DetectionEvents(ws: seq<Window>, looks: seq<real>): (es: seq<Event>)
    requires |looks| == |ws|
    ensures |es| == |ws|
    ensures forall e :: e in es ==> !e.Confirmed?
  {
    if ws == [] then []
    else
      var w := Last(ws);
      DetectionEvents(Init(ws), Init(looks)) +
      [DetectionEvent(w, Last(looks))]
  }

  function DetectionEvent(w: Window, look: real): Event {
    if w.suspicious then Suspected(w.cluster, look) else NormalSeen(w.cluster)
  }

  /** Whether a window is passed on: suspicious, and its cluster not active when it is looked up. */
  predicate Forwards(cfg: Settings, before: seq<Event>, w: Window, look: real) {
    w.suspicious && !ActiveAt(cfg, StateAfter(cfg, before), w.cluster, look)
  }

  predicate LastForwarded(cfg: Settings, before: seq<Event>, ws: seq<Window>, looks: seq<real>)
    requires |looks| == |ws| > 0
  {
    Forwards(cfg, before + DetectionEvents(Init(ws), Init(looks)), Last(ws), Last(looks))
  }

  function Forwarded(cfg: Settings, before: seq<Event>, ws: seq<Window>, looks: seq<real>): seq<Window>
    requires |looks| == |ws|
  {
    if ws == [] then []
    else
      Forwarded(cfg, before, Init(ws), Init(looks)) + if LastForwarded(cfg, before, ws, looks) then [Last(ws)] else []
  }

  function Archived(cfg: Settings, before: seq<Event>, ws: seq<Window>, looks: seq<real>): seq<Window>
    requires |looks| == |ws|
  {
    if ws == [] then []
    else
      Archived(cfg, before, Init(ws), Init(looks)) + if LastForwarded(cfg, before, ws, looks) then [] else [Last(ws)]
  }

  lemma {:induction false} DetectionSplits(cfg: Settings, before: seq<Event>, ws: seq<Window>, looks: seq<real>)
    requires |looks| == |ws|
    ensures multiset(Archived(cfg, before, ws, looks)) + multiset(Forwarded(cfg, before, ws, looks)) == multiset(ws)
  {
    if ws != [] {
      DetectionSplits(cfg, before, Init(ws), Init(looks));
      assert ws == Init(ws) + [Last(ws)];
    }
  }

  /** When detection ends, no forwarded window's cluster has an incident. */
  lemma {:induction false} ForwardedAreInactive(cfg: Settings, before: seq<Event>, ws: seq<Window>, looks: seq<real>)
    requires |looks| == |ws|
    ensures forall w :: w in Forwarded(cfg, before, ws, looks) ==>
              w.cluster !in StateAfter(cfg, before + DetectionEvents(ws, looks)).startedAt
  {
    if ws != [] {
      ForwardedAreInactive(cfg, before, Init(ws), Init(looks));
      var es := before + DetectionEvents(Init(ws), Init(looks));
      var e := Last(DetectionEvents(ws, looks));
      assert before + DetectionEvents(ws, looks) == es + [e];
      StateSnoc(cfg, es, e);
      assert After(cfg, StateAfter(cfg, es), e).startedAt.Keys <= StateAfter(cfg, es).startedAt.Keys;
    }
  }

  // ---------------------------------------------------------------- which windows are investigated, by the trace alone

  /** Some alert of the cluster is still open after the events. */
  ghost predicate AlertOpen(cfg: Settings, es: seq<Event>, c: Cluster) {
    exists i: nat :: OpenSince(cfg, es, c, i)
  }

  /** Window `k` is suspicious, and once it has been looked at no alert of its cluster is open. */
  ghost predicate NeedsInvestigation(cfg: Settings, before: seq<Event>, ws: seq<Window>, looks: seq<real>, k: nat)
    requires k < |ws| == |looks|
  {
    ws[k].suspicious && !AlertOpen(cfg, before + DetectionEvents(ws[..k + 1], looks[..k + 1]), ws[k].cluster)
  }

  /** The windows whose flag is as wanted, in order. */
  function Picked(ws: seq<Window>, flags: seq<bool>, wanted: bool): (picked: seq<Window>)
    requires |flags| == |ws|
    ensures forall k :: 0 <= k < |ws| && flags[k] == wanted ==> ws[k] in picked
    ensures forall w :: w in picked ==> exists k :: 0 <= k < |ws| && flags[k] == wanted && ws[k] == w
  {
    if ws == [] then []
    else
      var picked := Picked(Init(ws), Init(flags), wanted);
      assert forall k :: 0 <= k < |ws| - 1 ==> Init(ws)[k] == ws[k] && Init(flags)[k] == flags[k];
      if Last(flags) == wanted then picked + [Last(ws)] else picked
  }

  lemma LookedAt(cfg: Settings, es: seq<Event>, w: Window, look: real)
    ensures Forwards(cfg, es, w, look) <==>
              w.suspicious && !AlertOpen(cfg, es + [DetectionEvent(w, look)], w.cluster)
  {
    StateSnoc(cfg, es, DetectionEvent(w, look));
    hide OpenSince, StateAfter;
    ActiveExactlyWhenOpen(cfg, es + [DetectionEvent(w, look)], w.cluster);
  }

  /** One event a window: a look at the tracker if it is suspicious, a normal window counted if it is not. */
  lemma {:induction false} DetectionEventAt(ws: seq<Window>, looks: seq<real>, k: nat)
    requires k < |ws| == |looks|
    ensures DetectionEvents(ws, looks)[k] == if ws[k].suspicious then Suspected(ws[k].cluster, looks[k]) else NormalSeen(ws[k].cluster)
  {
    if k < |ws| - 1 {
      DetectionEventAt(Init(ws), Init(looks), k);
    }
  }

  /**
    Detection told from the trace alone: exactly the suspicious windows whose cluster has no open alert at their look are
    passed on to be investigated, in order, and exactly the others are archived.
   */
  lemma {:induction false} InvestigatedByTheTrace(cfg: Settings, before: seq<Event>, ws: seq<Window>, looks: seq<real>, needs: seq<bool>)
    requires |looks| == |ws| == |needs|
    requires forall k: nat :: k < |ws| ==> needs[k] == NeedsInvestigation(cfg, before, ws, looks, k)
    ensures Forwarded(cfg, before, ws, looks) == Picked(ws, needs, true)
    ensures Archived(cfg, before, ws, looks) == Picked(ws, needs, false)
  {
    hide Forwards, AlertOpen, DetectionEvent;
    if ws != [] {
      var n := |ws| - 1;
      forall k: nat | k < n ensures Init(needs)[k] == NeedsInvestigation(cfg, before, Init(ws), Init(looks), k) {
        assert Init(ws)[..k + 1] == ws[..k + 1] && Init(looks)[..k + 1] == looks[..k + 1];
      }
      InvestigatedByTheTrace(cfg, before, Init(ws), Init(looks), Init(needs));
      var es := before + DetectionEvents(Init(ws), Init(looks));
      LookedAt(cfg, es, Last(ws), Last(looks));
      assert ws[..n + 1] == ws && looks[..n + 1] == looks;
      assert es + [DetectionEvent(Last(ws), Last(looks))] == before + DetectionEvents(ws, looks);
    }
  }

  // ---------------------------------------------------------------- stages 2-4: what the investigations settle

  /** `severity_tier or 1`: absent and zero both become tier 1. */
  function TierOf(r: Investigated): int {
    if r.severityTier == None || r.severityTier == Some(0) then 1 else r.severityTier.value
  }

  function SettleEvent(r: Investigated): seq<Event> {
    if r.verdict.ConfirmedAnomaly? then [Confirmed(r.window.cluster, TierOf(r), r.checked, r.now)] else []
  }

  function SettleEvents(rs: seq<Investigated>): seq<Event> {
    if rs == [] then [] else SettleEvents(Init(rs)) + SettleEvent(Last(rs))
  }

  /** Whether an investigation is alerted. */
  predicate Dispatches(cfg: Settings, before: seq<Event>, r: Investigated) {
    r.verdict.ConfirmedAnomaly? && !ActiveAt(cfg, StateAfter(cfg, before), r.window.cluster, r.checked)
  }

  predicate LastDispatched(cfg: Settings, before: seq<Event>, rs: seq<Investigated>)
    requires rs != []
  {
    Dispatches(cfg, before + SettleEvents(Init(rs)), Last(rs))
  }

  function Dispatched(cfg: Settings, before: seq<Event>, rs: seq<Investigated>): seq<Window> {
    if rs == [] then []
    else Dispatched(cfg, before, Init(rs)) + if LastDispatched(cfg, before, rs) then [Last(rs).window] else []
  }

  function SuppressedLate(cfg: Settings, before: seq<Event>, rs: seq<Investigated>): seq<Window> {
    if rs == [] then []
    else
      SuppressedLate(cfg, before, Init(rs)) +
      if Last(rs).verdict.ConfirmedAnomaly? && !LastDispatched(cfg, before, rs) then [Last(rs).window] else []
  }

  function ArchivedLate(rs: seq<Investigated>): seq<Window> {
    if rs == [] then []
    else ArchivedLate(Init(rs)) + if Last(rs).verdict.ConfirmedAnomaly? then [] else [Last(rs).window]
  }

  function WindowsOf(rs: seq<Investigated>): seq<Window> {
    if rs == [] then [] else WindowsOf(Init(rs)) + [Last(rs).window]
  }

  lemma {:induction false} SettlementSplits(cfg: Settings, before: seq<Event>, rs: seq<Investigated>)
    ensures multiset(WindowsOf(rs)) == multiset(Dispatched(cfg, before, rs)) +
                                       multiset(SuppressedLate(cfg, before, rs)) + multiset(ArchivedLate(rs))
  {
    if rs != [] {
      hide LastDispatched;
      SettlementSplits(cfg, before, Init(rs));
    }
  }

  /**
    Batch accounting: every window of the batch is archived, alerted, suppressed after investigation, or lost to a
    failed investigation, exactly once.
   */
  lemma {:induction false} BatchAccounting(cfg: Settings, before: seq<Event>, ws: seq<Window>, looks: seq<real>, rs: seq<Investigated>)
    requires |looks| == |ws|
    requires multiset(WindowsOf(rs)) <= multiset(Forwarded(cfg, before, ws, looks))
    ensures var settled := before + DetectionEvents(ws, looks);
            var failed := multiset(Forwarded(cfg, before, ws, looks)) - multiset(WindowsOf(rs));
            multiset(ws) == multiset(Archived(cfg, before, ws, looks)) + multiset(ArchivedLate(rs)) +
                            multiset(Dispatched(cfg, settled, rs)) + multiset(SuppressedLate(cfg, settled, rs)) + failed
  {
    hide Forwarded, Archived, WindowsOf, Dispatched, SuppressedLate, ArchivedLate, DetectionEvents, SettleEvents;
    DetectionSplits(cfg, before, ws, looks);
    SettlementSplits(cfg, before + DetectionEvents(ws, looks), rs);
  }

  lemma {:induction false} WindowAt(rs: seq<Investigated>, k: nat)
    requires k < |rs|
    ensures |WindowsOf(rs)| == |rs| && WindowsOf(rs)[k] == rs[k].window
  {
    if rs != [] && k < |rs| - 1 {
      WindowAt(Init(rs), k);
    } else if |rs| > 1 {
      WindowAt(Init(rs), 0);
    }
  }

  lemma {:induction false} EveryResultHasItsWindow(rs: seq<Investigated>)
    ensures |WindowsOf(rs)| == |rs|
  {
    if rs != [] {
      EveryResultHasItsWindow(Init(rs));
    }
  }

  /** After an investigation exactly the windows without a confirmed anomaly are archived, in the order they settle. */
  lemma {:induction false} ArchivedLateExactly(rs: seq<Investigated>, confirmed: seq<bool>)
    requires |confirmed| == |rs| && forall k :: 0 <= k < |rs| ==> confirmed[k] == rs[k].verdict.ConfirmedAnomaly?
    ensures |WindowsOf(rs)| == |rs| && ArchivedLate(rs) == Picked(WindowsOf(rs), confirmed, false)
  {
    EveryResultHasItsWindow(rs);
    if rs != [] {
      ArchivedLateExactly(Init(rs), Init(confirmed));
      assert Init(WindowsOf(rs)) == WindowsOf(Init(rs)) && Last(WindowsOf(rs)) == Last(rs).window;
    }
  }

  /** An alerted cluster is held at the investigation's tier, or at 1 when that is absent or zero. */
  lemma TierOfAnAlert(cfg: Settings, before: seq<Event>, r: Investigated)
    requires Dispatches(cfg, before, r)
    ensures var tiers, c := StateAfter(cfg, before + SettleEvent(r)).tiers, r.window.cluster;
            c in tiers && tiers[c] == (match r.severityTier case None => 1 case Some(t) => if t == 0 then 1 else t)
  {
    StateSnoc(cfg, before, Confirmed(r.window.cluster, TierOf(r), r.checked, r.now));
  }

  // ---------------------------------------------------------------- what is alerted, whatever the order

  function ClustersOf(ws: seq<Window>): set<Cluster> {
    set w | w in ws :: w.cluster
  }

  function ConfirmedClusters(rs: seq<Investigated>): set<Cluster> {
    set r | r in rs && r.verdict.ConfirmedAnomaly? :: r.window.cluster
  }

  lemma SettleSnoc(cfg: Settings, before: seq<Event>, rs: seq<Investigated>)
    requires rs != []
    ensures var s, t, r := StateAfter(cfg, before + SettleEvents(Init(rs))), StateAfter(cfg, before + SettleEvents(rs)), Last(rs);
            t == if r.verdict.ConfirmedAnomaly? then Registered(cfg, s, r.window.cluster, TierOf(r), r.checked, r.now) else s
  {
    if Last(rs).verdict.ConfirmedAnomaly? {
      var es, e := before + SettleEvents(Init(rs)), Last(SettleEvents(rs));
      assert before + SettleEvents(rs) == es + [e];
      StateSnoc(cfg, es, e);
    } else {
      assert SettleEvents(rs) == SettleEvents(Init(rs));
    }
  }

  lemma ConfirmedSnoc(rs: seq<Investigated>)
    requires rs != []
    ensures ConfirmedClusters(rs) == ConfirmedClusters(Init(rs)) +
                                     if Last(rs).verdict.ConfirmedAnomaly? then {Last(rs).window.cluster} else {}
  {
    assert rs == Init(rs) + [Last(rs)];
    var r := Last(rs);
    assert r in rs;
    forall q | q in Init(rs) ensures q in rs {}
    forall q | q in rs ensures q in Init(rs) || q == r {}
  }

  lemma RegistrationAddsItsCluster(cfg: Settings, s: Incidents, r: Investigated)
    ensures var t := Registered(cfg, s, r.window.cluster, TierOf(r), r.checked, r.now);
            t.startedAt.Keys <= s.startedAt.Keys + {r.window.cluster}
    ensures ActiveAt(cfg, s, r.window.cluster, r.checked) ==> r.window.cluster in s.startedAt
  {
  }

  lemma NoneConfirmed()
    ensures ConfirmedClusters([]) == {}
  {
  }

  /**
    The clusters alerted are exactly those confirmed: nothing settled before them in the batch, in whatever order,
    can suppress a cluster's first confirmed anomaly.
   */
  lemma {:induction false} AlertedAreTheConfirmed(cfg: Settings, before: seq<Event>, rs: seq<Investigated>)
    requires forall r :: r in rs ==> r.window.cluster !in StateAfter(cfg, before).startedAt
    ensures ClustersOf(Dispatched(cfg, before, rs)) == ConfirmedClusters(rs)
    ensures StateAfter(cfg, before + SettleEvents(rs)).startedAt.Keys <= StateAfter(cfg, before).startedAt.Keys + ConfirmedClusters(rs)
  {
    hide StateAfter, ConfirmedClusters, ActiveAt, Registered;
    if rs == [] {
      assert before + SettleEvents(rs) == before;
      assert ConfirmedClusters(rs) == {} by { NoneConfirmed(); }
    } else {
      AlertedAreTheConfirmed(cfg, before, Init(rs));
      SettleSnoc(cfg, before, rs);
      ConfirmedSnoc(rs);
      RegistrationAddsItsCluster(cfg, StateAfter(cfg, before + SettleEvents(Init(rs))), Last(rs));
      var r, d := Last(rs), Dispatched(cfg, before, Init(rs));
      assert ClustersOf(d + [r.window]) == ClustersOf(d) + {r.window.cluster} by {
        assert forall w :: w in d + [r.window] <==> w in d || w == r.window;
      }
    }
  }

  predicate NoDuplicateClusters(ws: seq<Window>) {
    forall i, j :: 0 <= i < j < |ws| ==> ws[i].cluster != ws[j].cluster
  }

  /** All clock reads of the settlement fall within one cooldown. */
  predicate WithinCooldown(cfg: Settings, rs: seq<Investigated>, start: real) {
    forall r :: r in rs ==> start <= r.now && r.checked <= start + cfg.cooldownSeconds
  }

  /** A batch settled within one cooldown never alerts a cluster twice. */
  lemma {:induction false} AlertedOnce(cfg: Settings, before: seq<Event>, rs: seq<Investigated>, start: real)
    requires WithinCooldown(cfg, rs, start)
    ensures NoDuplicateClusters(Dispatched(cfg, before, rs))
    ensures forall w :: w in Dispatched(cfg, before, rs) ==>
              var s := StateAfter(cfg, before + SettleEvents(rs)).startedAt; w.cluster in s && start <= s[w.cluster]
  {
    hide StateAfter;
    if rs != [] {
      AlertedOnce(cfg, before, Init(rs), start);
      SettleSnoc(cfg, before, rs);
      var r, d := Last(rs), Dispatched(cfg, before, Init(rs));
      assert r in rs;
    }
  }

  lemma {:induction false} DistinctClustersCount(ws: seq<Window>)
    requires NoDuplicateClusters(ws)
    ensures |ClustersOf(ws)| == |ws|
  {
    if ws != [] {
      DistinctClustersCount(Init(ws));
      assert ws == Init(ws) + [Last(ws)];
      assert ClustersOf(ws) == ClustersOf(Init(ws)) + {Last(ws).cluster} by {
        assert forall w :: w in ws <==> w in Init(ws) || w == Last(ws);
      }
    }
  }

  /** The same verdicts for the same windows, whatever the completion order, tiers and clock reads. */
  predicate SameVerdicts(rs: seq<Investigated>, qs: seq<Investigated>) {
    && (forall r :: r in rs ==> exists q :: q in qs && q.window == r.window && q.verdict == r.verdict)
    && (forall q :: q in qs ==> exists r :: r in rs && q.window == r.window && q.verdict == r.verdict)
  }

  /** Two completion orders of a batch alert the same clusters, and equally many of them. */
  lemma CompletionOrderDoesNotMatter(cfg: Settings, before: seq<Event>, ws: seq<Window>, looks: seq<real>,
                                     rs: seq<Investigated>, qs: seq<Investigated>)
    requires |looks| == |ws| && SameVerdicts(rs, qs)
    requires forall r :: r in rs ==> r.window in Forwarded(cfg, before, ws, looks)
    ensures var settled := before + DetectionEvents(ws, looks);
            && ClustersOf(Dispatched(cfg, settled, rs)) == ClustersOf(Dispatched(cfg, settled, qs)) == ConfirmedClusters(rs)
            && forall a, b :: WithinCooldown(cfg, rs, a) && WithinCooldown(cfg, qs, b) ==>
                 |Dispatched(cfg, settled, rs)| == |Dispatched(cfg, settled, qs)| == |ConfirmedClusters(rs)|
  {
    var settled := before + DetectionEvents(ws, looks);
    ForwardedAreInactive(cfg, before, ws, looks);
    AlertedAreTheConfirmed(cfg, settled, rs);
    AlertedAreTheConfirmed(cfg, settled, qs);
    assert ConfirmedClusters(rs) == ConfirmedClusters(qs);
    forall a, b | WithinCooldown(cfg, rs, a) && WithinCooldown(cfg, qs, b)
      ensures |Dispatched(cfg, settled, rs)| == |Dispatched(cfg, settled, qs)| == |ConfirmedClusters(rs)|
    {
      AlertedOnce(cfg, settled, rs, a);
      AlertedOnce(cfg, settled, qs, b);
      DistinctClustersCount(Dispatched(cfg, settled, rs));
      DistinctClustersCount(Dispatched(cfg, settled, qs));
    }
  }

  // ---------------------------------------------------------------- the agent

  class AnomalyInvestigationAgent {
    const tracker: ActiveIncidentTracker
    var archive: seq<Window>
    /** Every call made to the tracker so far. */
    ghost var trace: seq<Event>

    constructor (cfg: Settings)
      ensures Valid() && trace == [] && archive == [] && tracker.cfg == cfg && fresh(tracker)
    {
      tracker := new ActiveIncidentTracker(cfg);
      archive, trace := [], [];
    }

    ghost predicate Valid()
      reads this, tracker
    {
      tracker.Valid() && tracker.Contents() == StateAfter(tracker.cfg, trace)
    }

    method DetectWindow(w: Window, look: real) returns (forward: bool)
      requires Valid()
      modifies this, tracker
      ensures Valid() && trace == old(trace) + [DetectionEvent(w, look)]
      ensures forward == Forwards(tracker.cfg, old(trace), w, look)
      ensures archive == old(archive) + if forward then [] else [w]
    {
      if w.suspicious {
        var active := tracker.IsActive(w.cluster, look);
        Remember(Suspected(w.cluster, look));
        if active {
          archive := archive + [w];
        }
        return !active;
      }
      var _ := tracker.RecordNormal(w.cluster);
      Remember(NormalSeen(w.cluster));
      archive := archive + [w];
      return false;
    }

    method RunDetection(ws: seq<Window>, looks: seq<real>) returns (suspicious: seq<Window>)
      requires Valid() && |looks| == |ws|
      modifies this, tracker
      ensures Valid() && trace == old(trace) + DetectionEvents(ws, looks)
      ensures suspicious == Forwarded(tracker.cfg, old(trace), ws, looks)
      ensures archive == old(archive) + Archived(tracker.cfg, old(trace), ws, looks)
    {
      hide Forwards, DetectionEvent, Valid;
      suspicious := [];
      for k := 0 to |ws|
        invariant Valid() && trace == old(trace) + DetectionEvents(ws[..k], looks[..k])
        invariant suspicious == Forwarded(tracker.cfg, old(trace), ws[..k], looks[..k])
        invariant archive == old(archive) + Archived(tracker.cfg, old(trace), ws[..k], looks[..k])
      {
        assert Init(ws[..k + 1]) == ws[..k] && Init(looks[..k + 1]) == looks[..k];
        var forward := DetectWindow(ws[k], looks[k]);
        if forward {
          suspicious := suspicious + [ws[k]];
        }
      }
      assert ws[..|ws|] == ws && looks[..|looks|] == looks;
    }

    ghost method Remember(e: Event)
      requires tracker.Valid() && tracker.Contents() == After(tracker.cfg, StateAfter(tracker.cfg, trace), e)
      modifies this`trace
      ensures Valid() && trace == old(trace) + [e]
    {
      StateSnoc(tracker.cfg, trace, e);
      trace := trace + [e];
    }

    method Settle(r: Investigated) returns (alert: bool)
      requires Valid()
      modifies this, tracker
      ensures Valid() && trace == old(trace) + SettleEvent(r)
      ensures alert == Dispatches(tracker.cfg, old(trace), r)
      ensures archive == old(archive) + if r.verdict.ConfirmedAnomaly? then [] else [r.window]
    {
      if r.verdict.ConfirmedAnomaly? {
        alert := tracker.RegisterIncident(r.window.cluster, TierOf(r), r.checked, r.now);
        Remember(Confirmed(r.window.cluster, TierOf(r), r.checked, r.now));
      } else {
        archive := archive + [r.window];
        alert := false;
      }
    }

    /** `investigate` is whatever the thread pool returns: any verdicts, in any order, some windows perhaps lost. */
    method ProcessBatch(ws: seq<Window>, looks: seq<real>, investigate: seq<Window> -> seq<Investigated>)
      returns (alerts: seq<Window>)
      requires Valid() && |looks| == |ws|
      modifies this, tracker
      ensures Valid()
      ensures var detected := old(trace) + DetectionEvents(ws, looks);
              var rs := investigate(Forwarded(tracker.cfg, old(trace), ws, looks));
              && trace == detected + SettleEvents(rs)
              && alerts == Dispatched(tracker.cfg, detected, rs)
              && archive == old(archive) + Archived(tracker.cfg, old(trace), ws, looks) + ArchivedLate(rs)
    {
      hide Dispatches, SettleEvent, Valid;
      var suspicious := RunDetection(ws, looks);
      var rs := investigate(suspicious);
      ghost var detected, archived := trace, archive;
      alerts := [];
      for k := 0 to |rs|
        invariant Valid() && trace == detected + SettleEvents(rs[..k])
        invariant alerts == Dispatched(tracker.cfg, detected, rs[..k])
        invariant archive == archived + ArchivedLate(rs[..k])
      {
        assert Init(rs[..k + 1]) == rs[..k];
        var alert := Settle(rs[k]);
        if alert {
          alerts := alerts + [rs[k].window];
        }
      }
      assert rs[..|rs|] == rs;
    }
  }

  // ---------------------------------------------------------------- alerts over many batches

  /** The clusters alerted over a whole trace, in order. */
  function AlertLog(cfg: Settings, es: seq<Event>): seq<Cluster> {
    if es == [] then []
    else AlertLog(cfg, Init(es)) + if Alerts(cfg, StateAfter(cfg, Init(es)), Last(es)) then [Last(es).cluster] else []
  }

  function ClusterList(ws: seq<Window>): seq<Cluster> {
    seq(|ws|, i requires 0 <= i < |ws| => ws[i].cluster)
  }

  lemma {:induction false} DetectionAlertsNothing(cfg: Settings, before: seq<Event>, es: seq<Event>)
    requires forall e :: e in es ==> !e.Confirmed?
    ensures AlertLog(cfg, before + es) == AlertLog(cfg, before)
  {
    if es == [] {
      assert before + es == before;
    } else {
      DetectionAlertsNothing(cfg, before, Init(es));
      assert Init(before + es) == before + Init(es);
      assert Last(before + es) == Last(es) && Last(es) in es;
    }
  }

  /**
    A batch's dispatched windows are the alerts of its stretch of the trace, so what holds of alerts over traces
    (`OneAlertPerLifecycle`) holds of dispatched threats over runs of batches.
   */
  lemma {:induction false} DispatchedAreTheAlerts(cfg: Settings, before: seq<Event>, rs: seq<Investigated>)
    ensures AlertLog(cfg, before + SettleEvents(rs)) == AlertLog(cfg, before) + ClusterList(Dispatched(cfg, before, rs))
  {
    if rs == [] {
      assert before + SettleEvents(rs) == before;
    } else {
      hide AlertLog, Dispatches, SettleEvent, SettleEvents, Dispatched, ClusterList;
      var es, r := before + SettleEvents(Init(rs)), Last(rs);
      DispatchedAreTheAlerts(cfg, before, Init(rs));
      DispatchedStep(cfg, before, rs);
      AlertLogStep(cfg, es, r);
      Associative(before, SettleEvents(Init(rs)), SettleEvent(r));
      Associative(AlertLog(cfg, before), ClusterList(Dispatched(cfg, before, Init(rs))),
                  if Dispatches(cfg, es, r) then [r.window.cluster] else []);
    }
  }

  lemma Associative<T>(a: seq<T>, b: seq<T>, c: seq<T>)
    ensures a + (b + c) == a + b + c
  {
  }

  lemma DispatchedStep(cfg: Settings, before: seq<Event>, rs: seq<Investigated>)
    requires rs != []
    ensures SettleEvents(rs) == SettleEvents(Init(rs)) + SettleEvent(Last(rs))
    ensures ClusterList(Dispatched(cfg, before, rs)) ==
              ClusterList(Dispatched(cfg, before, Init(rs))) +
              if Dispatches(cfg, before + SettleEvents(Init(rs)), Last(rs)) then [Last(rs).window.cluster] else []
  {
    hide Dispatches, SettleEvent;
    var d := Dispatched(cfg, before, Init(rs));
    assert Dispatched(cfg, before, rs) == d + if LastDispatched(cfg, before, rs) then [Last(rs).window] else [];
  }

  lemma AlertLogStep(cfg: Settings, es: seq<Event>, r: Investigated)
    ensures AlertLog(cfg, es + SettleEvent(r)) ==
              AlertLog(cfg, es) + if Dispatches(cfg, es, r) then [r.window.cluster] else []
  {
    if r.verdict.ConfirmedAnomaly? {
      assert Init(es + SettleEvent(r)) == es;
    } else {
      assert es + SettleEvent(r) == es;
    }
  }

  lemma BatchAlerts(cfg: Settings, before: seq<Event>, ws: seq<Window>, looks: seq<real>, rs: seq<Investigated>)
    requires |looks| == |ws|
    ensures var detected := before + DetectionEvents(ws, looks);
            AlertLog(cfg, detected + SettleEvents(rs)) == AlertLog(cfg, before) + ClusterList(Dispatched(cfg, detected, rs))
  {
    DetectionAlertsNothing(cfg, before, DetectionEvents(ws, looks));
    DispatchedAreTheAlerts(cfg, before + DetectionEvents(ws, looks), rs);
  }
}
