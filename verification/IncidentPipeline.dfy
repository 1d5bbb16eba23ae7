/**
  The batch pipeline of `aia/pipeline.py`: detection suppresses the windows of clusters already alerted, the rest
  are investigated in parallel, and confirmed anomalies are alerted unless their cluster is active. The detector's
  flag, the investigation verdicts, the completion order and every clock read are arbitrary inputs.
 */
module IncidentPipeline {
  import opened Wrappers
  import opened IncidentTracker

  /** What the pipeline asks of its tracker, in order. Only `NormalSeen` reads no clock. */
  datatype Event =
    | Suspected(cluster: Cluster, checked: real)
    | NormalSeen(cluster: Cluster)
    | Confirmed(cluster: Cluster, tier: int, checked: real, now: real)

  function After(cfg: Settings, s: Incidents, e: Event): Incidents {
    match e
    case Suspected(c, checked) => Looked(cfg, s, c, checked)
    case NormalSeen(c) => AfterNormal(cfg, s, c)
    case Confirmed(c, tier, checked, now) => Registered(cfg, s, c, tier, checked, now)
  }

  function StateAfter(cfg: Settings, es: seq<Event>): (s: Incidents)
    ensures s.SameKeys()
  {
    if es == [] then NO_INCIDENTS else After(cfg, StateAfter(cfg, es[..|es| - 1]), es[|es| - 1])
  }

  predicate Alerts(cfg: Settings, s: Incidents, e: Event) {
    e.Confirmed? && !ActiveAt(cfg, s, e.cluster, e.checked)
  }

  predicate AlertAt(cfg: Settings, es: seq<Event>, i: nat) {
    i < |es| && Alerts(cfg, StateAfter(cfg, es[..i]), es[i])
  }

  lemma StateSnoc(cfg: Settings, es: seq<Event>, e: Event)
    ensures StateAfter(cfg, es + [e]) == After(cfg, StateAfter(cfg, es), e)
  {
    assert (es + [e])[..|es|] == es;
  }

  // ---------------------------------------------------------------- one cluster at a time

  /** What the tracker knows of one cluster. */
  datatype View = Idle | Active(since: real, normals: int)

  function ViewOf(s: Incidents, c: Cluster): View {
    if c in s.startedAt then Active(s.startedAt[c], NormalCount(s, c)) else Idle
  }

  function ViewAfter(cfg: Settings, es: seq<Event>, c: Cluster): View {
    ViewOf(StateAfter(cfg, es), c)
  }

  predicate Blocks(cfg: Settings, v: View, checked: real) {
    v.Active? && checked - v.since <= cfg.cooldownSeconds
  }

  /** The life of one cluster's incident, written without the others. */
  function ViewStep(cfg: Settings, v: View, c: Cluster, e: Event): View {
    if e.cluster != c then v
    else match e
      case Suspected(_, checked) => if Blocks(cfg, v, checked) then v else Idle
      case NormalSeen(_) =>
        if v.Idle? || v.normals + 1 >= cfg.normalClearThreshold then Idle else Active(v.since, v.normals + 1)
      case Confirmed(_, _, checked, now) => if Blocks(cfg, v, checked) then Active(v.since, 0) else Active(now, 0)
  }

  lemma StepOfView(cfg: Settings, s: Incidents, c: Cluster, e: Event)
    requires s.SameKeys()
    ensures ViewOf(After(cfg, s, e), c) == ViewStep(cfg, ViewOf(s, c), c, e)
    ensures e.cluster == c ==> (Alerts(cfg, s, e) <==> e.Confirmed? && !Blocks(cfg, ViewOf(s, c), e.checked))
  {
    assert c in s.startedAt ==> c in s.normals;
  }

  /** The tracker's three dictionaries keep one independent life per cluster. */
  lemma {:induction false} ClustersAreIndependent(cfg: Settings, es: seq<Event>, c: Cluster)
    ensures es == [] ==> ViewAfter(cfg, es, c) == Idle
    ensures es != [] ==>
              ViewAfter(cfg, es, c) == ViewStep(cfg, ViewAfter(cfg, es[..|es| - 1], c), c, es[|es| - 1])
    ensures forall i: nat :: i < |es| && es[i].cluster == c ==>
              (AlertAt(cfg, es, i) <==> es[i].Confirmed? && !Blocks(cfg, ViewAfter(cfg, es[..i], c), es[i].checked))
  {
    if es != [] {
      StepOfView(cfg, StateAfter(cfg, es[..|es| - 1]), c, es[|es| - 1]);
    }
    forall i: nat | i < |es| && es[i].cluster == c
      ensures AlertAt(cfg, es, i) <==> es[i].Confirmed? && !Blocks(cfg, ViewAfter(cfg, es[..i], c), es[i].checked)
    {
      StepOfView(cfg, StateAfter(cfg, es[..i]), c, es[i]);
    }
  }

  lemma NextView(cfg: Settings, es: seq<Event>, c: Cluster, n: nat)
    requires 0 < n <= |es|
    ensures ViewAfter(cfg, es[..n], c) == ViewStep(cfg, ViewAfter(cfg, es[..n - 1], c), c, es[n - 1])
  {
    assert es[..n][..n - 1] == es[..n - 1];
    ClustersAreIndependent(cfg, es[..n], c);
  }

  // ---------------------------------------------------------------- one alert per lifecycle

  /** The normal windows of `c` among the events. */
  function Normals(es: seq<Event>, c: Cluster): nat {
    if es == [] then 0
    else Normals(es[..|es| - 1], c) + if es[|es| - 1] == NormalSeen(c) then 1 else 0
  }

  /** The normal windows of `c` since its last confirmed threat; suspicious windows in between do not matter. */
  function NormalsSinceThreat(es: seq<Event>, c: Cluster): nat {
    if es == [] then 0
    else
      var e, before := es[|es| - 1], NormalsSinceThreat(es[..|es| - 1], c);
      if e.cluster != c || e.Suspected? then before else if e.Confirmed? then 0 else before + 1
  }

  /** A monotone clock: no read returns less than an earlier one. */
  predicate ClockOrdered(es: seq<Event>) {
    && (forall i :: 0 <= i < |es| && es[i].Confirmed? ==> es[i].checked <= es[i].now)
    && (forall i, j :: 0 <= i < j < |es| && !es[i].NormalSeen? && !es[j].NormalSeen? ==> es[i].checked <= es[j].checked)
    && (forall i, j :: 0 <= i < j < |es| && es[i].Confirmed? && !es[j].NormalSeen? ==> es[i].now <= es[j].checked)
  }

  /**
    Two alerts of one cluster are more than the cooldown apart, or enough normal windows of that cluster came in
    between, however the events of other clusters interleave.
   */
  lemma OneAlertPerLifecycle(cfg: Settings, es: seq<Event>, i: nat, j: nat)
    requires ClockOrdered(es) && i < j
    requires AlertAt(cfg, es, i) && AlertAt(cfg, es, j) && es[i].cluster == es[j].cluster
    ensures || es[j].checked - es[i].now > cfg.cooldownSeconds
            || Normals(es[i + 1..j], es[i].cluster) >= Max(1, cfg.normalClearThreshold)
  {
    hide Alerts, ViewAfter;
    ClustersAreIndependent(cfg, es, es[i].cluster);
    AlertHoldsUntil(cfg, es, i, j, j);
  }

  lemma NormalsOneMore(es: seq<Event>, c: Cluster, from: nat, n: nat)
    requires from < n <= |es|
    ensures Normals(es[from..n], c) == Normals(es[from..n - 1], c) + if es[n - 1] == NormalSeen(c) then 1 else 0
  {
    var t := es[from..n];
    assert t[..|t| - 1] == es[from..n - 1];
    assert t[|t| - 1] == es[n - 1];
  }

  /** Until event `n` the incident alerted at `i` is still open, or one of the two ways out was taken. */
  lemma {:induction false} AlertHoldsUntil(cfg: Settings, es: seq<Event>, i: nat, n: nat, j: nat)
    requires ClockOrdered(es) && i < n <= j < |es|
    requires AlertAt(cfg, es, i) && es[j].Confirmed?
    ensures var v, since := ViewAfter(cfg, es[..n], es[i].cluster), Normals(es[i + 1..n], es[i].cluster);
            || (v.Active? && v.since == es[i].now && v.normals <= since)
            || es[j].checked - es[i].now > cfg.cooldownSeconds
            || since >= Max(1, cfg.normalClearThreshold)
  {
    hide Alerts, ViewAfter;
    var c := es[i].cluster;
    NextView(cfg, es, c, n);
    if n == i + 1 {
      ClustersAreIndependent(cfg, es, c);
    } else {
      AlertHoldsUntil(cfg, es, i, n - 1, j);
      NormalsOneMore(es, c, i + 1, n);
      assert !es[n - 1].NormalSeen? && n - 1 < j ==> es[n - 1].checked <= es[j].checked;
    }
  }

  /** `c`'s incident, alerted at `i`, never outlived the cooldown nor reached its clearing count since. */
  ghost predicate OpenSince(cfg: Settings, es: seq<Event>, c: Cluster, i: nat) {
    && AlertAt(cfg, es, i) && es[i].cluster == c
    && (forall k :: i < k < |es| ==> KeepsOpen(cfg, es, c, i, k))
  }

  predicate KeepsOpen(cfg: Settings, es: seq<Event>, c: Cluster, i: nat, k: nat)
    requires i < k < |es| && es[i].Confirmed?
  {
    es[k].cluster == c ==>
      if es[k].NormalSeen? then NormalsSinceThreat(es[i + 1..k + 1], c) < cfg.normalClearThreshold
      else es[k].checked - es[i].now <= cfg.cooldownSeconds
  }

  /** By the trace alone: the alert of `c` at `i` is open after the events, with so many normal windows counted. */
  lemma {:induction false} AlertStaysOpen(cfg: Settings, es: seq<Event>, c: Cluster, i: nat)
    requires AlertAt(cfg, es, i) && es[i].cluster == c
    ensures OpenSince(cfg, es, c, i) ==>
              ViewAfter(cfg, es, c) == Active(es[i].now, NormalsSinceThreat(es[i + 1..], c))
    decreases |es|
  {
    hide Alerts, ViewAfter;
    var n := |es| - 1;
    ClustersAreIndependent(cfg, es, c);
    if i == n {
      assert es[i + 1..] == [];
    } else if OpenSince(cfg, es, c, i) {
      AlertInPrefix(cfg, es, i);
      OpenShrinks(cfg, es, c, i);
      AlertStaysOpen(cfg, es[..n], c, i);
      LastEvent(es, c, i);
      assert KeepsOpen(cfg, es, c, i, n);
      assert es[i + 1..n + 1] == es[i + 1..];
    }
  }

  lemma LastEvent(es: seq<Event>, c: Cluster, i: nat)
    requires i < |es| - 1
    ensures NormalsSinceThreat(es[i + 1..], c) ==
              var e, before := es[|es| - 1], NormalsSinceThreat(es[..|es| - 1][i + 1..], c);
              if e.cluster != c || e.Suspected? then before else if e.Confirmed? then 0 else before + 1
  {
    var t := es[i + 1..];
    assert t[..|t| - 1] == es[..|es| - 1][i + 1..] && t[|t| - 1] == es[|es| - 1];
  }

  lemma AlertInPrefix(cfg: Settings, es: seq<Event>, i: nat)
    requires i < |es| - 1
    ensures AlertAt(cfg, es[..|es| - 1], i) == AlertAt(cfg, es, i)
  {
    assert es[..|es| - 1][..i] == es[..i];
  }

  lemma OpenShrinks(cfg: Settings, es: seq<Event>, c: Cluster, i: nat)
    requires i < |es| - 1 && AlertAt(cfg, es, i) && es[i].cluster == c
    ensures OpenSince(cfg, es, c, i) <==> OpenSince(cfg, es[..|es| - 1], c, i) && KeepsOpen(cfg, es, c, i, |es| - 1)
  {
    var init := es[..|es| - 1];
    AlertInPrefix(cfg, es, i);
    forall k | i < k < |init| ensures KeepsOpen(cfg, init, c, i, k) == KeepsOpen(cfg, es, c, i, k) {
      assert init[i + 1..k + 1] == es[i + 1..k + 1];
    }
    if OpenSince(cfg, init, c, i) && KeepsOpen(cfg, es, c, i, |es| - 1) {
      forall k | i < k < |es| ensures KeepsOpen(cfg, es, c, i, k) {
        assert k < |init| ==> KeepsOpen(cfg, init, c, i, k);
      }
    }
  }

  /** An active cluster always has an alert still open. */
  lemma {:induction false} OpenAlert(cfg: Settings, es: seq<Event>, c: Cluster) returns (i: nat)
    requires ViewAfter(cfg, es, c).Active?
    ensures OpenSince(cfg, es, c, i)
    decreases |es|
  {
    ClustersAreIndependent(cfg, es, c);
    var n := |es| - 1;
    if AlertAt(cfg, es, n) && es[n].cluster == c {
      return n;
    }
    i := OpenAlert(cfg, es[..n], c);
    AlertStaysOpen(cfg, es[..n], c, i);
    AlertInPrefix(cfg, es, i);
    LastEvent(es, c, i);
    assert es[i + 1..n + 1] == es[i + 1..];
    OpenShrinks(cfg, es, c, i);
  }

  /**
    The tracker holds an incident of `c` exactly when some alert of `c` is still open by the trace alone: every
    later look came within the cooldown of it, and no normal window completed a count to the threshold. Nothing is
    assumed of the clock.
   */
  lemma ActiveExactlyWhenOpen(cfg: Settings, es: seq<Event>, c: Cluster)
    ensures c in StateAfter(cfg, es).startedAt <==> exists i: nat :: OpenSince(cfg, es, c, i)
  {
    if c in StateAfter(cfg, es).startedAt {
      var i := OpenAlert(cfg, es, c);
    }
    forall i: nat | OpenSince(cfg, es, c, i) ensures c in StateAfter(cfg, es).startedAt {
      AlertStaysOpen(cfg, es, c, i);
    }
  }

  /** A tier is set by an alert and stays until the incident is gone: an open alert is held at its own tier. */
  lemma {:induction false} AlertKeepsItsTier(cfg: Settings, es: seq<Event>, c: Cluster, i: nat)
    requires OpenSince(cfg, es, c, i)
    ensures var tiers := StateAfter(cfg, es).tiers; c in tiers && tiers[c] == es[i].tier
    decreases |es|
  {
    var n := |es| - 1;
    AlertStaysOpen(cfg, es, c, i);
    StateSnoc(cfg, es[..n], es[n]);
    assert es[..n] + [es[n]] == es;
    if i < n {
      OpenShrinks(cfg, es, c, i);
      AlertInPrefix(cfg, es, i);
      AlertStaysOpen(cfg, es[..n], c, i);
      AlertKeepsItsTier(cfg, es[..n], c, i);
      assert KeepsOpen(cfg, es, c, i, n);
      hide StateAfter, OpenSince, AlertAt, KeepsOpen;
      TierStays(cfg, StateAfter(cfg, es[..n]), es[n], c);
    }
  }

  lemma TierStays(cfg: Settings, s: Incidents, e: Event, c: Cluster)
    requires c in s.tiers && c in After(cfg, s, e).startedAt && c in s.startedAt && s.SameKeys()
    requires e.cluster == c && e.Confirmed? ==> ActiveAt(cfg, s, c, e.checked)
    ensures c in After(cfg, s, e).tiers && After(cfg, s, e).tiers[c] == s.tiers[c]
  {
  }

  /** The events of one cluster after its alert at time 0, one second apart, all well within any longer cooldown. */
  function Interrupted(c: Cluster): seq<Event> {
    [Confirmed(c, 1, 0.0, 0.0), NormalSeen(c), Suspected(c, 1.0), NormalSeen(c), Suspected(c, 2.0), NormalSeen(c),
     Confirmed(c, 1, 3.0, 3.0)]
  }

  /**
    "Three consecutive normal windows" is not what the pipeline requires: a suspicious window of an active cluster
    leaves the count alone, so three interrupted normal windows clear the incident and a second alert goes out.
   */
  lemma SuspicionDoesNotResetTheCount(c: Cluster)
    ensures var cfg, es := Settings(600.0, 3), Interrupted(c);
            && ClockOrdered(es) && AlertAt(cfg, es, 0) && AlertAt(cfg, es, 6)
            && es[6].checked - es[0].now < cfg.cooldownSeconds
            && forall k :: 1 <= k < 5 ==> !(es[k].NormalSeen? && es[k + 1].NormalSeen?)
  {
    var cfg, es := Settings(600.0, 3), Interrupted(c);
    hide AlertAt;
    Unrolled(cfg, es, c);
  }

  lemma Unrolled(cfg: Settings, es: seq<Event>, c: Cluster)
    requires cfg == Settings(600.0, 3) && es == Interrupted(c)
    ensures AlertAt(cfg, es, 0) && AlertAt(cfg, es, 6)
  {
    hide Alerts, ViewAfter;
    ClustersAreIndependent(cfg, es, c);
    ClustersAreIndependent(cfg, es[..0], c);
    assert es[0].cluster == es[6].cluster == c;
    NextView(cfg, es, c, 1);
    assert ViewAfter(cfg, es[..1], c) == Active(0.0, 0);
    NextView(cfg, es, c, 2);
    NextView(cfg, es, c, 3);
    assert ViewAfter(cfg, es[..3], c) == Active(0.0, 1);
    NextView(cfg, es, c, 4);
    NextView(cfg, es, c, 5);
    assert ViewAfter(cfg, es[..5], c) == Active(0.0, 2);
    NextView(cfg, es, c, 6);
  }
}
