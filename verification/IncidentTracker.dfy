/**
  The trackers of `aia/pipeline.py`. `ActiveIncidentTracker` suppresses repeated alerts of a cluster until
  enough normal windows or a maximum lifetime clear it; `RetryTracker` counts inconclusive investigations.
  Every read of the monotonic clock is a parameter.
 */
module IncidentTracker {
  import opened Wrappers

  type Cluster = string

  datatype Settings = Settings(cooldownSeconds: real, normalClearThreshold: int)

  /** The tracker's three dictionaries. */
  datatype Incidents = Incidents(startedAt: map<Cluster, real>, tiers: map<Cluster, int>, normals: map<Cluster, int>) {
    ghost predicate SameKeys() {
      startedAt.Keys == tiers.Keys == normals.Keys
    }
  }

  const NO_INCIDENTS := Incidents(map[], map[], map[])

  function Cleared(s: Incidents, c: Cluster): (t: Incidents)
    ensures s.SameKeys() ==> t.SameKeys()
    ensures t.startedAt.Keys == s.startedAt.Keys - {c}
  {
    Incidents(s.startedAt - {c}, s.tiers - {c}, s.normals - {c})
  }

  predicate Expired(cfg: Settings, s: Incidents, c: Cluster, now: real) {
    c in s.startedAt && now - s.startedAt[c] > cfg.cooldownSeconds
  }

  /** `is_active`: looking at an expired incident clears it. */
  function Looked(cfg: Settings, s: Incidents, c: Cluster, now: real): (t: Incidents)
    ensures s.SameKeys() ==> t.SameKeys()
  {
    if Expired(cfg, s, c, now) then Cleared(s, c) else s
  }

  predicate ActiveAt(cfg: Settings, s: Incidents, c: Cluster, now: real) {
    c in s.startedAt && !Expired(cfg, s, c, now)
  }

  /** `register_incident`: the clock is read once for the activity check and again for the start time. */
  function Registered(cfg: Settings, s: Incidents, c: Cluster, tier: int, checked: real, now: real): (t: Incidents)
    ensures s.SameKeys() ==> t.SameKeys()
    ensures c in t.startedAt
  {
    if ActiveAt(cfg, s, c, checked) then s.(normals := s.normals[c := 0])
    else
      var looked := Looked(cfg, s, c, checked);
      Incidents(looked.startedAt[c := now], looked.tiers[c := tier], looked.normals[c := 0])
  }

  function NormalCount(s: Incidents, c: Cluster): int {
    if c in s.normals then s.normals[c] else 0
  }

  /** `record_normal`: one more normal window, clearing the incident when the threshold is reached. */
  function AfterNormal(cfg: Settings, s: Incidents, c: Cluster): (t: Incidents)
    ensures s.SameKeys() ==> t.SameKeys()
  {
    if c !in s.startedAt then s
    else if NormalCount(s, c) + 1 >= cfg.normalClearThreshold then Cleared(s, c)
    else s.(normals := s.normals[c := NormalCount(s, c) + 1])
  }

  function Max(a: int, b: int): int { if a >= b then a else b }

  function Updated(cfg: Settings, s: Incidents, c: Cluster, tier: int, checked: real, rechecked: real, now: real): (t: Incidents)
    ensures s.SameKeys() ==> t.SameKeys()
  {
    if ActiveAt(cfg, s, c, checked) then
      var known := if c in s.tiers then s.tiers[c] else 1;
      s.(tiers := s.tiers[c := Max(tier, known)], normals := s.normals[c := 0])
    else Registered(cfg, Looked(cfg, s, c, checked), c, tier, rechecked, now)
  }

  /** An update never lowers the tier of an active incident, keeps its start and starts its count over; else it is a new incident. */
  lemma UpdateRaisesTheTier(cfg: Settings, s: Incidents, c: Cluster, tier: int, checked: real, rechecked: real, now: real)
    requires s.SameKeys()
    ensures var t := Updated(cfg, s, c, tier, checked, rechecked, now);
            && c in t.startedAt && c in t.tiers && c in t.normals && t.normals[c] == 0
            && (if ActiveAt(cfg, s, c, checked)
                then t.startedAt[c] == s.startedAt[c] && t.tiers[c] >= s.tiers[c] && t.tiers[c] >= tier && t.tiers[c] in {tier, s.tiers[c]}
                else t.startedAt[c] == now && t.tiers[c] == tier)
            && forall d :: d != c ==>
                 (d in s.startedAt <==> d in t.startedAt) && (d in s.startedAt ==> t.startedAt[d] == s.startedAt[d] && t.tiers[d] == s.tiers[d])
  {
  }

  // ---------------------------------------------------------------- the tracker object

  class ActiveIncidentTracker {
    const cfg: Settings
    var activeIncidents: map<Cluster, real>
    var activeTiers: map<Cluster, int>
    var normalCounts: map<Cluster, int>

    constructor (cfg: Settings)
      ensures this.cfg == cfg && Contents() == NO_INCIDENTS && Valid()
    {
      this.cfg := cfg;
      activeIncidents, activeTiers, normalCounts := map[], map[], map[];
    }

    function Contents(): Incidents
      reads this
    {
      Incidents(activeIncidents, activeTiers, normalCounts)
    }

    /** The three dictionaries always have the same keys. */
    ghost predicate Valid()
      reads this
    {
      Contents().SameKeys()
    }

    method Clear(c: Cluster)
      requires Valid()
      modifies this
      ensures Valid() && Contents() == Cleared(old(Contents()), c)
    {
      activeIncidents := activeIncidents - {c};
      activeTiers := activeTiers - {c};
      normalCounts := normalCounts - {c};
    }

    method IsActive(c: Cluster, now: real) returns (active: bool)
      requires Valid()
      modifies this
      ensures Valid() && active == ActiveAt(cfg, old(Contents()), c, now)
      ensures Contents() == Looked(cfg, old(Contents()), c, now)
      ensures active <==> c in activeIncidents
    {
      if c !in activeIncidents {
        return false;
      }
      var elapsed := now - activeIncidents[c];
      if elapsed > cfg.cooldownSeconds {
        Clear(c);
        return false;
      }
      return true;
    }

    method RegisterIncident(c: Cluster, tier: int, checked: real, now: real) returns (isNew: bool)
      requires Valid()
      modifies this
      ensures Valid() && isNew == !ActiveAt(cfg, old(Contents()), c, checked)
      ensures Contents() == Registered(cfg, old(Contents()), c, tier, checked, now)
    {
      var active := IsActive(c, checked);
      if active {
        normalCounts := normalCounts[c := 0];
        return false;
      }
      activeIncidents := activeIncidents[c := now];
      activeTiers := activeTiers[c := tier];
      normalCounts := normalCounts[c := 0];
      return true;
    }

    method UpdateIncident(c: Cluster, tier: int, checked: real, rechecked: real, now: real)
      requires Valid()
      modifies this
      ensures Valid() && Contents() == Updated(cfg, old(Contents()), c, tier, checked, rechecked, now)
    {
      var active := IsActive(c, checked);
      if active {
        var known := if c in activeTiers then activeTiers[c] else 1;
        activeTiers := activeTiers[c := Max(tier, known)];
        normalCounts := normalCounts[c := 0];
      } else {
        var _ := RegisterIncident(c, tier, rechecked, now);
      }
    }

    method RecordNormal(c: Cluster) returns (cleared: bool)
      requires Valid()
      modifies this
      ensures Valid() && Contents() == AfterNormal(cfg, old(Contents()), c)
      ensures cleared <==> c in old(activeIncidents) && c !in activeIncidents
    {
      if c in activeIncidents {
        normalCounts := normalCounts[c := NormalCount(Contents(), c) + 1];
        if normalCounts[c] >= cfg.normalClearThreshold {
          Clear(c);
          return true;
        }
      }
      return false;
    }
  }

  // ---------------------------------------------------------------- what the tracker itself counts

  /** One cluster's calls: a confirmed threat, with its two clock reads, or a normal window. */
  datatype Call = Threat(tier: int, checked: real, now: real) | NormalWindow

  /** The unbroken run of normal windows at the end. */
  function Trailing(calls: seq<Call>): nat {
    if calls == [] || calls[|calls| - 1].Threat? then 0 else 1 + Trailing(calls[..|calls| - 1])
  }

  predicate EverThreatened(calls: seq<Call>) {
    exists k :: 0 <= k < |calls| && calls[k].Threat?
  }

  function Driven(cfg: Settings, c: Cluster, calls: seq<Call>): Incidents {
    if calls == [] then NO_INCIDENTS
    else
      var s := Driven(cfg, c, calls[..|calls| - 1]);
      match calls[|calls| - 1]
      case Threat(tier, checked, now) => Registered(cfg, s, c, tier, checked, now)
      case NormalWindow => AfterNormal(cfg, s, c)
  }

  /**
    Over the tracker's own calls, whatever the clock says, the counter is the length of the current unbroken run of normal
    windows, and an incident is held exactly when there was a threat and no threshold-long run has followed it since: each
    threat starts over, also after a clearing or an expiry.
   */
  lemma {:induction false} TrackerCountsConsecutive(cfg: Settings, c: Cluster, calls: seq<Call>)
    ensures var s := Driven(cfg, c, calls);
            && (c in s.startedAt <==> EverThreatened(calls) && Trailing(calls) < Max(1, cfg.normalClearThreshold))
            && (c in s.startedAt ==> c in s.normals && s.normals[c] == Trailing(calls))
  {
    if calls != [] {
      var n := |calls| - 1;
      TrackerCountsConsecutive(cfg, c, calls[..n]);
      if EverThreatened(calls[..n]) {
        var k :| 0 <= k < n && calls[..n][k].Threat?;
        assert calls[k].Threat?;
      }
      if EverThreatened(calls) && calls[n].NormalWindow? {
        var k :| 0 <= k < |calls| && calls[k].Threat?;
        assert calls[..n][k].Threat?;
      }
    }
  }

  // ---------------------------------------------------------------- retries

  datatype Classification = ConfirmedAnomaly | InsufficientData | OtherVerdict

  const MAX_INSUFFICIENT_DATA_RETRIES := 3

  class RetryTracker {
    var consecutiveCycles: map<Cluster, nat>

    constructor ()
      ensures consecutiveCycles == map[]
    {
      consecutiveCycles := map[];
    }

    /** After one investigation: count it or start over, and say whether to escalate to an operator. */
    method Record(c: Cluster, verdict: Classification) returns (escalate: bool, requeue: bool)
      modifies this
      ensures consecutiveCycles == Retried(old(consecutiveCycles), c, verdict)
      ensures escalate <==> verdict.InsufficientData? && Cycles(consecutiveCycles, c) >= 3
      ensures requeue <==> verdict.InsufficientData? && !escalate
    {
      escalate, requeue := false, false;
      if verdict.InsufficientData? {
        var cycles := Cycles(consecutiveCycles, c) + 1;
        consecutiveCycles := consecutiveCycles[c := cycles];
        escalate := cycles >= MAX_INSUFFICIENT_DATA_RETRIES;
        requeue := !escalate;
      } else {
        consecutiveCycles := consecutiveCycles - {c};
      }
    }
  }

  function Cycles(m: map<Cluster, nat>, c: Cluster): nat {
    if c in m then m[c] else 0
  }

  function Retried(m: map<Cluster, nat>, c: Cluster, verdict: Classification): map<Cluster, nat> {
    if verdict.InsufficientData? then m[c := Cycles(m, c) + 1] else m - {c}
  }

  datatype Investigation = Investigation(cluster: Cluster, verdict: Classification)

  function RetriesAfter(history: seq<Investigation>): map<Cluster, nat> {
    if history == [] then map[]
    else
      var last := history[|history| - 1];
      Retried(RetriesAfter(history[..|history| - 1]), last.cluster, last.verdict)
  }

  /** How many of the cluster's latest investigations, without a break, were inconclusive. */
  function InconclusiveRun(history: seq<Investigation>, c: Cluster): nat {
    if history == [] then 0
    else
      var last := history[|history| - 1];
      var before := InconclusiveRun(history[..|history| - 1], c);
      if last.cluster != c then before else if last.verdict.InsufficientData? then before + 1 else 0
  }

  /** A cluster's count is its own unbroken inconclusive run, however other clusters' investigations interleave. */
  lemma {:induction false} RetriesCountTheRun(history: seq<Investigation>, c: Cluster)
    ensures Cycles(RetriesAfter(history), c) == InconclusiveRun(history, c)
  {
    if history != [] {
      RetriesCountTheRun(history[..|history| - 1], c);
    }
  }
}
