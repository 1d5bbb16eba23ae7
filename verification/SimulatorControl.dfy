/**
  The simulator object of `physics.py`, updated in place, and the control routes of `main.py` that guard it. Every
  method is tied to the state machine of `Simulator`.
 */
module SimulatorControl {
  import opened Wrappers
  import opened Faults
  import opened Physics
  import opened Simulator

  predicate Distinct(order: seq<Cluster>) {
    forall i, j :: 0 <= i < j < |order| ==> order[i] != order[j]
  }

  ghost predicate Lists(order: seq<Cluster>, keys: set<Cluster>) {
    Distinct(order) && forall c :: c in order <==> c in keys
  }

  // ---------------------------------------------------------------- the loops over the segments

  function TickedOne(topo: Topology, s: Sim, c: Cluster, noise: Noise): (t: Sim)
    requires Shaped(topo, s) && c in topo
    ensures Shaped(topo, t)
  {
    var cs := StepCluster(topo[c], s.environment, s.clusters[c], AgedFaultOf(s, c), noise);
    s.(clusters := s.clusters[c := cs],
       windows := s.windows[c := Pushed(s.windows[c], ReadingOf(cs))],
       active := if c in s.active then s.active[c := Aged(s.active[c])] else s.active)
  }

  function TickedThrough(topo: Topology, s: Sim, noise: Cluster -> Noise, done: seq<Cluster>): (t: Sim)
    requires Shaped(topo, s) && forall c :: c in done ==> c in topo
    ensures Shaped(topo, t)
  {
    if done == [] then s.(tickCount := s.tickCount + 1)
    else TickedOne(topo, TickedThrough(topo, s, noise, done[..|done| - 1]), done[|done| - 1], noise(done[|done| - 1]))
  }

  /** A cluster's part of a state. */
  datatype Part = Part(cluster: Option<ClusterState>, window: Option<seq<Reading>>, fault: Option<ActiveFault>)

  function PartOf(s: Sim, c: Cluster): Part {
    Part(if c in s.clusters then Some(s.clusters[c]) else None,
         if c in s.windows then Some(s.windows[c]) else None, FaultOf(s, c))
  }

  /** A tick of one part. */
  function StepPart(seg: Segment, environment: real, p: Part, noise: Noise): Part
    requires p.cluster.Some? && p.window.Some?
  {
    var aged := if p.fault.Some? then Some(Aged(p.fault.value)) else None;
    var cs := StepCluster(seg, environment, p.cluster.value, aged, noise);
    Part(Some(cs), Some(Pushed(p.window.value, ReadingOf(cs))), aged)
  }

  lemma OneMovesOnePart(topo: Topology, s: Sim, d: Cluster, noise: Noise, c: Cluster)
    requires Shaped(topo, s) && d in topo && c in topo
    ensures var t := TickedOne(topo, s, d, noise);
            && PartOf(s, c).cluster.Some? && PartOf(s, c).window.Some?
            && PartOf(t, c) == if c == d then StepPart(topo[c], s.environment, PartOf(s, c), noise) else PartOf(s, c)
  {
    hide StepCluster, Pushed, ReadingOf;
  }

  lemma TickMovesEveryPart(topo: Topology, s: Sim, noise: Cluster -> Noise, c: Cluster)
    requires Shaped(topo, s) && c in topo
    ensures PartOf(s, c).cluster.Some? && PartOf(s, c).window.Some?
    ensures PartOf(Ticked(topo, s, noise), c) == StepPart(topo[c], s.environment, PartOf(s, c), noise(c))
  {
    hide StepCluster, Pushed, ReadingOf;
  }

  lemma {:induction false} ThroughKeeps(topo: Topology, s: Sim, noise: Cluster -> Noise, done: seq<Cluster>)
    requires Shaped(topo, s) && forall d :: d in done ==> d in topo
    ensures var t := TickedThrough(topo, s, noise, done);
            && t == s.(clusters := t.clusters, windows := t.windows, active := t.active, tickCount := s.tickCount + 1)
            && t.active.Keys == s.active.Keys
  {
    if done != [] {
      ThroughKeeps(topo, s, noise, done[..|done| - 1]);
    }
  }

  lemma {:induction false} ThroughAt(topo: Topology, s: Sim, noise: Cluster -> Noise, done: seq<Cluster>, c: Cluster)
    requires Shaped(topo, s) && c in topo && Distinct(done) && forall d :: d in done ==> d in topo
    ensures PartOf(TickedThrough(topo, s, noise, done), c) == PartOf(if c in done then Ticked(topo, s, noise) else s, c)
  {
    hide StepPart, TickedOne, Ticked, Shaped;
    if done == [] {
      assert PartOf(s.(tickCount := s.tickCount + 1), c) == PartOf(s, c);
    } else {
      var init, d := done[..|done| - 1], done[|done| - 1];
      assert done == init + [d];
      ThroughAt(topo, s, noise, init, c);
      ThroughKeeps(topo, s, noise, init);
      OneMovesOnePart(topo, TickedThrough(topo, s, noise, init), d, noise(d), c);
      TickMovesEveryPart(topo, s, noise, c);
    }
  }

  lemma SameParts(topo: Topology, t: Sim, u: Sim)
    requires Shaped(topo, t) && Shaped(topo, u)
    requires u == t.(clusters := u.clusters, windows := u.windows, active := u.active)
    requires forall c :: c in topo ==> PartOf(t, c) == PartOf(u, c)
    ensures t == u
  {
    assert t.clusters == u.clusters by { assert forall c :: c in topo ==> PartOf(t, c).cluster == PartOf(u, c).cluster; }
    assert t.windows == u.windows by { assert forall c :: c in topo ==> PartOf(t, c).window == PartOf(u, c).window; }
    assert t.active == u.active by { assert forall c :: c in topo ==> PartOf(t, c).fault == PartOf(u, c).fault; }
  }

  /** Ticking the clusters one after the other is ticking them all at once: none sees another's new state. */
  lemma ThroughAllIsTicked(topo: Topology, s: Sim, noise: Cluster -> Noise, order: seq<Cluster>)
    requires Shaped(topo, s) && Lists(order, topo.Keys)
    ensures TickedThrough(topo, s, noise, order) == Ticked(topo, s, noise)
  {
    hide StepOf, Pushed, ReadingOf, TickedThrough, PartOf;
    ThroughKeeps(topo, s, noise, order);
    forall c | c in topo ensures PartOf(TickedThrough(topo, s, noise, order), c) == PartOf(Ticked(topo, s, noise), c) {
      ThroughAt(topo, s, noise, order, c);
    }
    SameParts(topo, TickedThrough(topo, s, noise, order), Ticked(topo, s, noise));
  }

  function BackOne(topo: Topology, s: Sim, c: Cluster): (t: Sim)
    requires Shaped(topo, s) && c in topo
    ensures Shaped(topo, t) && t == s.(clusters := t.clusters, windows := t.windows)
  {
    s.(clusters := s.clusters[c := AtBaseline(topo[c])], windows := s.windows[c := []])
  }

  function BackAtBaseline(topo: Topology, s: Sim, done: seq<Cluster>): (t: Sim)
    requires Shaped(topo, s) && forall c :: c in done ==> c in topo
    ensures Shaped(topo, t) && t == s.(clusters := t.clusters, windows := t.windows)
  {
    if done == [] then s else BackOne(topo, BackAtBaseline(topo, s, done[..|done| - 1]), done[|done| - 1])
  }

  lemma {:induction false} BackAt(topo: Topology, s: Sim, done: seq<Cluster>, c: Cluster)
    requires Shaped(topo, s) && c in done && forall d :: d in done ==> d in topo
    ensures var t := BackAtBaseline(topo, s, done); t.clusters[c] == AtBaseline(topo[c]) && t.windows[c] == []
  {
    var init, d := done[..|done| - 1], done[|done| - 1];
    assert done == init + [d];
    if c != d {
      BackAt(topo, s, init, c);
    }
  }

  lemma AllBackIsStarted(topo: Topology, s: Sim, order: seq<Cluster>)
    requires Shaped(topo, s) && Lists(order, topo.Keys)
    requires s == Started(topo).(clusters := s.clusters, windows := s.windows)
    ensures BackAtBaseline(topo, s, order) == Started(topo)
  {
    var t := BackAtBaseline(topo, s, order);
    forall c | c in topo ensures t.clusters[c] == AtBaseline(topo[c]) && t.windows[c] == [] {
      BackAt(topo, s, order, c);
    }
    assert t.clusters == Started(topo).clusters && t.windows == Started(topo).windows;
  }

  // ---------------------------------------------------------------- the simulator object

  class SimulationState {
    const topo: Topology
    /** The segments in the order they are listed. */
    const order: seq<Cluster>
    var clusters: map<Cluster, ClusterState>
    var windows: map<Cluster, seq<Reading>>
    var activeFaults: map<Cluster, ActiveFault>
    var apiOutageClusters: set<Cluster>
    var faultEventLog: seq<LogEntry>
    var tickCount: nat
    var environmentTemp: real

    constructor (topo: Topology, order: seq<Cluster>)
      requires Lists(order, topo.Keys)
      ensures this.topo == topo && this.order == order && Valid() && Contents() == Started(topo)
    {
      this.topo, this.order := topo, order;
      clusters := map c | c in topo :: AtBaseline(topo[c]);
      windows := map c | c in topo :: [];
      activeFaults, apiOutageClusters, faultEventLog := map[], {}, [];
      tickCount, environmentTemp := 0, NORMAL_TEMP;
    }

    function Contents(): Sim
      reads this
    {
      Sim(clusters, windows, activeFaults, apiOutageClusters, faultEventLog, tickCount, environmentTemp)
    }

    ghost predicate Valid()
      reads this
    {
      Lists(order, topo.Keys) && Shaped(topo, Contents())
    }

    method InjectFault(f: ActiveFault)
      requires Valid() && f.cluster in topo
      modifies this
      ensures Valid() && Contents() == Injected(old(Contents()), f)
    {
      activeFaults := activeFaults[f.cluster := f];
      faultEventLog := [LogEntry(Inject, f.cluster, f.faultType, f.magnitude, tickCount)] + faultEventLog;
    }

    method ClearFault(c: Cluster) returns (cleared: bool)
      requires Valid()
      modifies this
      ensures Valid() && Contents() == FaultCleared(old(Contents()), c)
      ensures cleared <==> c in old(activeFaults)
    {
      if c in clusters {
        clusters := clusters[c := Calmed(clusters[c])];
      }
      if c in activeFaults {
        var fault := activeFaults[c];
        activeFaults := activeFaults - {c};
        faultEventLog := [LogEntry(Clear, c, fault.faultType, fault.magnitude, tickCount)] + faultEventLog;
        return true;
      }
      return false;
    }

    /** `listed` is the order in which the dictionary of active faults lists its keys. */
    method ClearAllFaults(listed: seq<Cluster>)
      requires Valid() && Lists(listed, activeFaults.Keys)
      modifies this
      ensures Valid() && Contents() == AllCleared(old(Contents()), listed) && activeFaults == map[]
    {

      for k := 0 to |listed|
        invariant Valid() && Contents() == AllCleared(old(Contents()), listed[..k])
      {
        assert listed[..k + 1][..k] == listed[..k];
        var _ := ClearFault(listed[k]);
      }
      assert listed[..|listed|] == listed;
      AllClearedShape(topo, old(Contents()), listed);
      assert activeFaults.Keys == {};
    }

    method SetApiOutage(c: Cluster, on: bool)
      requires Valid()
      modifies this
      ensures Valid() && Contents() == OutageSet(old(Contents()), c, on)
    {
      if on {
        apiOutageClusters := apiOutageClusters + {c};
      } else {
        apiOutageClusters := apiOutageClusters - {c};
      }
      faultEventLog :=
        [LogEntry(if on then OutageOn else OutageOff, c, "nokia_nac_platform_outage", "n/a", tickCount)] + faultEventLog;
    }

    method SetEnvironmentTemp(value: real)
      requires Valid()
      modifies this`environmentTemp
      ensures Valid() && Contents() == After(topo, old(Contents()), SetTemperature(value))
    {
      environmentTemp := value;
    }

    method ResetCluster(c: Cluster)
      requires Valid() && c in topo
      modifies this
      ensures Valid() && Contents() == BackOne(topo, old(Contents()), c)
    {
      clusters := clusters[c := AtBaseline(topo[c])];
      windows := windows[c := []];
    }

    /** Nothing of the past survives a reset, the faults' and the outages' log entries included. */
    method Reset(listed: seq<Cluster>)
      requires Valid() && Lists(listed, activeFaults.Keys)
      modifies this
      ensures Valid() && Contents() == Started(topo)
    {
      ClearAllFaults(listed);
      assert Shaped(topo, Contents());
      apiOutageClusters, tickCount, environmentTemp, faultEventLog := {}, 0, NORMAL_TEMP, [];
      ghost var s := Contents();
      hide BackOne, Shaped, Started;
      for k := 0 to |order|
        invariant Valid() && Contents() == BackAtBaseline(topo, s, order[..k])
      {
        assert order[..k + 1][..k] == order[..k];
        ResetCluster(order[k]);
      }
      assert order[..|order|] == order;
      AllBackIsStarted(topo, s, order);
    }

    /** One turn of the loop of `tick`: the cluster's fault ages, its state moves, its window takes the reading. */
    method TickCluster(c: Cluster, noise: Noise)
      requires Valid() && c in topo
      modifies this
      ensures Valid() && Contents() == TickedOne(topo, old(Contents()), c, noise)
    {
      hide StepCluster, Pushed, ReadingOf, Lists;
      var fault := FaultOf(Contents(), c);
      if fault.Some? {
        fault := Some(Aged(fault.value));
        activeFaults := activeFaults[c := fault.value];
      }
      clusters := clusters[c := StepCluster(topo[c], environmentTemp, clusters[c], fault, noise)];
      windows := windows[c := Pushed(windows[c], ReadingOf(clusters[c]))];
    }

    method Tick(noise: Cluster -> Noise)
      requires Valid()
      modifies this
      ensures Valid() && Contents() == Ticked(topo, old(Contents()), noise)
    {
      hide TickedOne, Ticked, Shaped;
      tickCount := tickCount + 1;
      assert Shaped(topo, Contents()) by { StillShaped(topo, old(Contents()), tickCount); }
      for k := 0 to |order|
        invariant Valid() && Contents() == TickedThrough(topo, old(Contents()), noise, order[..k])
      {
        assert order[..k + 1][..k] == order[..k];
        TickCluster(order[k], noise(order[k]));
      }
      assert order[..|order|] == order;
      ThroughAllIsTicked(topo, old(Contents()), noise, order);
    }
  }

  lemma StillShaped(topo: Topology, s: Sim, tickCount: nat)
    requires Shaped(topo, s)
    ensures Shaped(topo, s.(tickCount := tickCount))
  {
  }

  // ---------------------------------------------------------------- the control routes

  method InjectFaultRoute(state: SimulationState, faultType: string, magnitude: string, c: Cluster) returns (response: Response)
    requires state.Valid()
    modifies state
    ensures state.Valid()
    ensures response == InjectResponse(old(state.Contents()), faultType, magnitude, c)
    ensures state.Contents() == After(state.topo, old(state.Contents()), Command.InjectFault(faultType, magnitude, c))
  {
    hide BuildFault;
    if c !in state.clusters {
      return NotFound;
    }
    if c in state.activeFaults {
      return Conflict;
    }
    var built := BuildFault(faultType, magnitude, c);
    if !built.Built? {
      return BadRequest;
    }
    state.InjectFault(built.fault);
    return Done;
  }

  method ClearFaultRoute(state: SimulationState, c: Cluster) returns (response: Response)
    requires state.Valid()
    modifies state
    ensures state.Valid()
    ensures response == if c in old(state.activeFaults) then Done else NotFound
    ensures state.Contents() == After(state.topo, old(state.Contents()), Command.ClearFault(c))
  {
    var cleared := state.ClearFault(c);
    return if cleared then Done else NotFound;
  }

  method ApiOutageRoute(state: SimulationState, c: Cluster, on: bool) returns (response: Response)
    requires state.Valid()
    modifies state
    ensures state.Valid()
    ensures response == if c in state.topo then Done else NotFound
    ensures state.Contents() == After(state.topo, old(state.Contents()), Command.SetApiOutage(c, on))
  {
    if c !in state.clusters {
      return NotFound;
    }
    state.SetApiOutage(c, on);
    return Done;
  }
}
