/**
  The testbed simulator as a state machine (`physics.py`, driven by the control routes of `main.py`): its event
  log replays to the live state, its sensors distort what they should, its windows hold the latest readings.
 */
module Simulator {
  import opened Wrappers
  import opened Faults
  import opened Physics
  import Rounding

  type Topology = map<Cluster, Segment>

  datatype Action = Inject | Clear | OutageOn | OutageOff

  datatype LogEntry = LogEntry(action: Action, cluster: Cluster, faultType: string, magnitude: string, tick: nat)

  /** `log` is newest first. */
  datatype Sim = Sim(
    clusters: map<Cluster, ClusterState>,
    windows: map<Cluster, seq<Reading>>,
    active: map<Cluster, ActiveFault>,
    outages: set<Cluster>,
    log: seq<LogEntry>,
    tickCount: nat,
    environment: real)

  const NORMAL_TEMP := 38.0

  function AtBaseline(seg: Segment): ClusterState {
    ClusterState(seg.baselinePressure, seg.baselineFlow, seg.baselinePressure, seg.baselineFlow, NORMAL_TEMP, None, 0.0, 0.0)
  }

  function Started(topo: Topology): Sim {
    Sim(map c | c in topo :: AtBaseline(topo[c]), map c | c in topo :: [], map[], {}, [], 0, NORMAL_TEMP)
  }

  function Injected(s: Sim, f: ActiveFault): Sim {
    s.(active := s.active[f.cluster := f],
       log := [LogEntry(Inject, f.cluster, f.faultType, f.magnitude, s.tickCount)] + s.log)
  }

  function Calmed(cs: ClusterState): ClusterState {
    cs.(frozenReading := None, driftPressure := 0.0, driftFlow := 0.0)
  }

  /** Clearing restores the cluster's sensor even when it has no fault, which then leaves no log entry. */
  function FaultCleared(s: Sim, c: Cluster): Sim {
    var calm := s.(clusters := if c in s.clusters then s.clusters[c := Calmed(s.clusters[c])] else s.clusters);
    if c in s.active then
      calm.(active := s.active - {c},
            log := [LogEntry(Clear, c, s.active[c].faultType, s.active[c].magnitude, s.tickCount)] + s.log)
    else calm
  }

  function AllCleared(s: Sim, order: seq<Cluster>): Sim {
    if order == [] then s else FaultCleared(AllCleared(s, order[..|order| - 1]), order[|order| - 1])
  }

  function OutageSet(s: Sim, c: Cluster, on: bool): Sim {
    s.(outages := if on then s.outages + {c} else s.outages - {c},
       log := [LogEntry(if on then OutageOn else OutageOff, c, "nokia_nac_platform_outage", "n/a", s.tickCount)] + s.log)
  }

  function FaultOf(s: Sim, c: Cluster): Option<ActiveFault> {
    if c in s.active then Some(s.active[c]) else None
  }

  function AgedFaultOf(s: Sim, c: Cluster): Option<ActiveFault> {
    if c in s.active then Some(Aged(s.active[c])) else None
  }

  predicate Shaped(topo: Topology, s: Sim) {
    && s.clusters.Keys == s.windows.Keys == topo.Keys && s.active.Keys <= topo.Keys
    && forall c :: c in s.active ==> s.active[c].cluster == c
  }

  function StepOf(topo: Topology, s: Sim, noise: Cluster -> Noise, c: Cluster): ClusterState
    requires Shaped(topo, s) && c in topo
  {
    StepCluster(topo[c], s.environment, s.clusters[c], AgedFaultOf(s, c), noise(c))
  }

  function Ticked(topo: Topology, s: Sim, noise: Cluster -> Noise): (t: Sim)
    requires Shaped(topo, s)
    ensures Shaped(topo, t)
  {
    s.(clusters := map c | c in topo :: StepOf(topo, s, noise, c),
       windows := map c | c in topo :: Pushed(s.windows[c], ReadingOf(StepOf(topo, s, noise, c))),
       active := map c | c in s.active :: Aged(s.active[c]),
       tickCount := s.tickCount + 1)
  }

  // ---------------------------------------------------------------- commands and runs

  /** What can happen to the simulator: the control routes and the passing of a tick. */
  datatype Command =
    | InjectFault(faultType: string, magnitude: string, cluster: Cluster)
    | ClearFault(cluster: Cluster)
    | ClearAllFaults(order: seq<Cluster>)
    | SetApiOutage(cluster: Cluster, on: bool)
    | SetTemperature(value: real)
    | Reset
    | Tick(noise: Cluster -> Noise)

  datatype Response = Done | NotFound | Conflict | BadRequest

  function InjectResponse(s: Sim, faultType: string, magnitude: string, c: Cluster): Response {
    if c !in s.clusters then NotFound
    else if c in s.active then Conflict
    else if BuildFault(faultType, magnitude, c).Built? then Done
    else BadRequest
  }

  function After(topo: Topology, s: Sim, cmd: Command): (t: Sim)
    requires Shaped(topo, s)
  {
    match cmd
    case InjectFault(faultType, magnitude, c) =>
      if InjectResponse(s, faultType, magnitude, c).Done? then Injected(s, BuildFault(faultType, magnitude, c).fault) else s
    case ClearFault(c) => FaultCleared(s, c)
    case ClearAllFaults(order) => AllCleared(s, order)
    case SetApiOutage(c, on) => if c in s.clusters then OutageSet(s, c, on) else s
    case SetTemperature(value) => s.(environment := value)
    case Reset => Started(topo)
    case Tick(noise) => Ticked(topo, s, noise)
  }

  lemma {:induction false} AllClearedShape(topo: Topology, s: Sim, order: seq<Cluster>)
    requires Shaped(topo, s)
    ensures Shaped(topo, AllCleared(s, order))
    ensures AllCleared(s, order).active.Keys == s.active.Keys - (set c | c in order)
  {
    if order != [] {
      AllClearedShape(topo, s, order[..|order| - 1]);
      assert order == order[..|order| - 1] + [order[|order| - 1]];
    }
  }

  lemma AfterShape(topo: Topology, s: Sim, cmd: Command)
    requires Shaped(topo, s)
    ensures Shaped(topo, After(topo, s, cmd))
  {
    hide StepOf, BuildFault;
    if cmd.ClearAllFaults? {
      AllClearedShape(topo, s, cmd.order);
    }
  }

  /** The state after a run of commands from start-up. */
  function Run(topo: Topology, cmds: seq<Command>): (s: Sim)
    ensures Shaped(topo, s)
  {
    if cmds == [] then Started(topo)
    else
      var s, cmd := Run(topo, cmds[..|cmds| - 1]), cmds[|cmds| - 1];
      AfterShape(topo, s, cmd);
      After(topo, s, cmd)
  }

  // ---------------------------------------------------------------- time and temperature

  /** The ticks since the last reset. */
  function TicksSinceReset(cmds: seq<Command>): nat {
    if cmds == [] || cmds[|cmds| - 1].Reset? then 0
    else TicksSinceReset(cmds[..|cmds| - 1]) + if cmds[|cmds| - 1].Tick? then 1 else 0
  }

  /** The temperature last set since the last reset, or the normal one. */
  function TemperatureSet(cmds: seq<Command>): real {
    if cmds == [] || cmds[|cmds| - 1].Reset? then 38.0
    else if cmds[|cmds| - 1].SetTemperature? then cmds[|cmds| - 1].value
    else TemperatureSet(cmds[..|cmds| - 1])
  }

  lemma {:induction false} AllClearedKeepsTime(s: Sim, order: seq<Cluster>)
    ensures AllCleared(s, order).tickCount == s.tickCount && AllCleared(s, order).environment == s.environment
    ensures |s.log| <= |AllCleared(s, order).log| && Newer(AllCleared(s, order).log, s.log, s.tickCount)
  {
    hide Calmed;
    if order != [] {
      AllClearedKeepsTime(s, order[..|order| - 1]);
    }
  }

  /** The log has only grown at its head, by entries of this tick. */
  ghost predicate Newer(log: seq<LogEntry>, was: seq<LogEntry>, tick: nat) {
    && |was| <= |log| && log[|log| - |was|..] == was
    && forall i :: 0 <= i < |log| - |was| ==> log[i].tick == tick
  }

  lemma OneEntryNewer(log: seq<LogEntry>, e: LogEntry)
    ensures Newer([e] + log, log, e.tick) && Newer(log, log, e.tick)
  {
  }

  lemma InjectionLogs(topo: Topology, s: Sim, cmd: Command)
    requires Shaped(topo, s) && (cmd.InjectFault? || cmd.ClearFault? || cmd.SetApiOutage? || cmd.SetTemperature?)
    ensures var t := After(topo, s, cmd);
            && t.tickCount == s.tickCount && t.environment == (if cmd.SetTemperature? then cmd.value else s.environment)
            && (t.log == s.log || exists e :: t.log == [e] + s.log && e.tick == s.tickCount)
  {
    hide BuildFault, Calmed;
  }

  lemma CommandLogs(topo: Topology, s: Sim, cmd: Command)
    requires Shaped(topo, s) && !cmd.Reset?
    ensures Newer(After(topo, s, cmd).log, s.log, s.tickCount)
    ensures After(topo, s, cmd).tickCount == s.tickCount + if cmd.Tick? then 1 else 0
    ensures After(topo, s, cmd).environment == if cmd.SetTemperature? then cmd.value else s.environment
  {
    hide BuildFault, Calmed, Ticked, Injected, FaultCleared, AllCleared, OutageSet, Newer, Shaped;
    forall e: LogEntry {
      OneEntryNewer(s.log, e);
    }
    OneEntryNewer(s.log, LogEntry(Inject, "", "", "", s.tickCount));
    match cmd
    case ClearAllFaults(order) => AllClearedKeepsTime(s, order);
    case Tick(noise) => TickKeepsLog(topo, s, noise);
    case _ => InjectionLogs(topo, s, cmd);
  }

  lemma TickKeepsLog(topo: Topology, s: Sim, noise: Cluster -> Noise)
    requires Shaped(topo, s)
    ensures var t := Ticked(topo, s, noise); t.log == s.log && t.environment == s.environment && t.tickCount == s.tickCount + 1
  {
    hide StepOf, Pushed, ReadingOf;
  }

  /**
    At every reachable state the counter is the number of ticks since the last reset, the temperature is the one last set since
    then, and every log entry carries the count at the time it was made, so they never increase from newest to oldest.
   */
  lemma {:induction false} TimeAndTemperature(topo: Topology, cmds: seq<Command>)
    ensures var s := Run(topo, cmds);
            && s.tickCount == TicksSinceReset(cmds) && s.environment == TemperatureSet(cmds)
            && (forall i :: 0 <= i < |s.log| ==> s.log[i].tick <= s.tickCount)
            && (forall i, j :: 0 <= i < j < |s.log| ==> s.log[j].tick <= s.log[i].tick)
  {
    hide After;
    if cmds != [] {
      var n := |cmds| - 1;
      TimeAndTemperature(topo, cmds[..n]);
      var s, t := Run(topo, cmds[..n]), Run(topo, cmds);
      if cmds[n].Reset? {
        ResetRestarts(topo, s);
      } else {
        CommandLogs(topo, s, cmds[n]);
        var more := |t.log| - |s.log|;
        assert forall i :: more <= i < |t.log| ==> t.log[i] == t.log[more..][i - more];
      }
    }
  }

  lemma ResetRestarts(topo: Topology, s: Sim)
    requires Shaped(topo, s)
    ensures After(topo, s, Reset) == Started(topo)
  {
  }

  // ---------------------------------------------------------------- faults and outages, by the commands alone

  datatype Standing = Standing(faultType: string, magnitude: string, age: nat)

  /** The cluster's fault after the commands: injected when it had none, aged by every tick, until cleared. */
  function FaultNow(topo: Topology, cmds: seq<Command>, c: Cluster): Option<Standing> {
    if cmds == [] then None
    else
      var before := FaultNow(topo, cmds[..|cmds| - 1], c);
      match cmds[|cmds| - 1]
      case InjectFault(faultType, magnitude, d) =>
        if d == c && c in topo && before.None? && BuildFault(faultType, magnitude, c).Built?
        then Some(Standing(faultType, magnitude, 0)) else before
      case ClearFault(d) => if d == c then None else before
      case ClearAllFaults(order) => if c in order then None else before
      case Reset => None
      case Tick(_) => if before.Some? then Some(before.value.(age := before.value.age + 1)) else None
      case _ => before
  }

  /** Whether the network of the cluster is out after the commands. */
  function OutageNow(topo: Topology, cmds: seq<Command>, c: Cluster): bool {
    if cmds == [] then false
    else
      match cmds[|cmds| - 1]
      case SetApiOutage(d, on) => if d == c && c in topo then on else OutageNow(topo, cmds[..|cmds| - 1], c)
      case Reset => false
      case _ => OutageNow(topo, cmds[..|cmds| - 1], c)
  }

  /** The fault in force is as the library builds it, apart from its age. */
  ghost predicate StandsAs(f: Option<ActiveFault>, s: Option<Standing>, c: Cluster) {
    && (f.Some? <==> s.Some?)
    && (f.Some? ==>
          BuildFault(s.value.faultType, s.value.magnitude, c) == Built(f.value.(ticksElapsed := 0)) && f.value.ticksElapsed == s.value.age)
  }

  lemma {:induction false} AllClearedFaults(s: Sim, order: seq<Cluster>, c: Cluster)
    ensures FaultOf(AllCleared(s, order), c) == if c in order then None else FaultOf(s, c)
    ensures AllCleared(s, order).outages == s.outages
  {
    if order != [] {
      AllClearedFaults(s, order[..|order| - 1], c);
      assert order == order[..|order| - 1] + [order[|order| - 1]];
    }
  }

  /** What one command does to the cluster's fault and outage. */
  lemma CommandEffect(topo: Topology, s: Sim, cmd: Command, c: Cluster)
    requires Shaped(topo, s)
    ensures var f, g := FaultOf(s, c), FaultOf(After(topo, s, cmd), c);
            match cmd
            case InjectFault(faultType, magnitude, d) =>
              g == if d == c && c in topo && f.None? && BuildFault(faultType, magnitude, c).Built?
                   then Some(BuildFault(faultType, magnitude, c).fault) else f
            case ClearFault(d) => g == if d == c then None else f
            case ClearAllFaults(order) => g == if c in order then None else f
            case Reset => g == None
            case Tick(_) => g == if f.Some? then Some(Aged(f.value)) else None
            case _ => g == f
    ensures c in After(topo, s, cmd).outages <==>
              if cmd.SetApiOutage? && cmd.cluster == c && c in topo then cmd.on else !cmd.Reset? && c in s.outages
  {
    hide BuildFault, StepOf, Pushed, ReadingOf, Calmed;
    if cmd.ClearAllFaults? {
      AllClearedFaults(s, cmd.order, c);
    }
  }

  /**
    After every run the faults and outages in force are those that the commands amount to: an injection takes effect when its
    cluster is known, free of faults and the library can build it, with that effect, and lasts until cleared.
   */
  lemma {:induction false} FaultsByTheCommands(topo: Topology, cmds: seq<Command>, c: Cluster)
    ensures StandsAs(FaultOf(Run(topo, cmds), c), FaultNow(topo, cmds, c), c)
    ensures c in Run(topo, cmds).outages <==> OutageNow(topo, cmds, c)
  {
    hide After, FaultOf, BuildFault;
    if cmds == [] {
      NothingAtFirst(topo, c);
    } else {
      var n := |cmds| - 1;
      FaultsByTheCommands(topo, cmds[..n], c);
      CommandEffect(topo, Run(topo, cmds[..n]), cmds[n], c);
      if cmds[n].InjectFault? {
        BuiltFresh(cmds[n].faultType, cmds[n].magnitude, c);
      }
    }
  }

  lemma NothingAtFirst(topo: Topology, c: Cluster)
    ensures FaultOf(Run(topo, []), c) == None && c !in Run(topo, []).outages
  {
  }

  lemma BuiltFresh(faultType: string, magnitude: string, c: Cluster)
    ensures var b := BuildFault(faultType, magnitude, c); b.Built? ==> b == Built(b.fault.(ticksElapsed := 0)) && b.fault.ticksElapsed == 0
  {
  }

  /** While a fault is active nothing physical falls below zero, however strong the noise. */
  lemma NotBelowZero(topo: Topology, s: Sim, noise: Cluster -> Noise, c: Cluster)
    requires Shaped(topo, s) && c in topo && c in s.active
    ensures var cs := Ticked(topo, s, noise).clusters[c]; cs.truePressure >= 0.0 && cs.trueFlow >= 0.0
  {
    hide MeanRevert, Rated, Toward, ReadingOf, Pushed;
  }

  // ---------------------------------------------------------------- the event log

  datatype Ledger = Ledger(faults: map<Cluster, (string, string)>, outages: set<Cluster>)

  function Applied(l: Ledger, e: LogEntry): Ledger {
    match e.action
    case Inject => l.(faults := l.faults[e.cluster := (e.faultType, e.magnitude)])
    case Clear => l.(faults := l.faults - {e.cluster})
    case OutageOn => l.(outages := l.outages + {e.cluster})
    case OutageOff => l.(outages := l.outages - {e.cluster})
  }

  /** Reading the log from its oldest entry, which is its last. */
  function Replay(log: seq<LogEntry>): Ledger {
    if log == [] then Ledger(map[], {}) else Applied(Replay(log[1..]), log[0])
  }

  function LedgerOf(s: Sim): Ledger {
    Ledger(map c | c in s.active :: (s.active[c].faultType, s.active[c].magnitude), s.outages)
  }

  /** An injection finds its cluster without a fault; a clearing names exactly the fault it clears. */
  predicate Orderly(log: seq<LogEntry>) {
    log == [] ||
    var e, l := log[0], Replay(log[1..]).faults;
    && Orderly(log[1..])
    && (e.action.Inject? ==> e.cluster !in l)
    && (e.action.Clear? ==> e.cluster in l && l[e.cluster] == (e.faultType, e.magnitude))
  }

  lemma ReplayCons(e: LogEntry, log: seq<LogEntry>)
    ensures Replay([e] + log) == Applied(Replay(log), e)
    ensures Orderly([e] + log) <==>
              && Orderly(log)
              && (e.action.Inject? ==> e.cluster !in Replay(log).faults)
              && (e.action.Clear? ==> e.cluster in Replay(log).faults && Replay(log).faults[e.cluster] == (e.faultType, e.magnitude))
  {
    assert ([e] + log)[1..] == log;
  }

  predicate LogFits(s: Sim) {
    Replay(s.log) == LedgerOf(s) && Orderly(s.log)
  }

  /** Injecting over an active fault still replays, but it is exactly what breaks the alternation. */
  lemma InjectedLogFits(s: Sim, f: ActiveFault)
    requires LogFits(s)
    ensures Replay(Injected(s, f).log) == LedgerOf(Injected(s, f))
    ensures Orderly(Injected(s, f).log) <==> f.cluster !in s.active
  {
    ReplayCons(Injected(s, f).log[0], s.log);
  }

  lemma ClearedLogFits(s: Sim, c: Cluster)
    requires LogFits(s)
    ensures LogFits(FaultCleared(s, c))
  {
    if c in s.active {
      ReplayCons(FaultCleared(s, c).log[0], s.log);
    }
  }

  lemma {:induction false} AllClearedLogFits(s: Sim, order: seq<Cluster>)
    requires LogFits(s)
    ensures LogFits(AllCleared(s, order))
  {
    if order != [] {
      AllClearedLogFits(s, order[..|order| - 1]);
      ClearedLogFits(AllCleared(s, order[..|order| - 1]), order[|order| - 1]);
    }
  }

  lemma AfterLogFits(topo: Topology, s: Sim, cmd: Command)
    requires Shaped(topo, s) && LogFits(s)
    ensures LogFits(After(topo, s, cmd))
  {
    hide Ticked, Injected, FaultCleared, AllCleared, BuildFault;
    match cmd
    case InjectFault(faultType, magnitude, c) =>
      if InjectResponse(s, faultType, magnitude, c).Done? {
        InjectedLogFits(s, BuildFault(faultType, magnitude, c).fault);
      }
    case ClearFault(c) => ClearedLogFits(s, c);
    case ClearAllFaults(order) => AllClearedLogFits(s, order);
    case SetApiOutage(c, on) => ReplayCons(OutageSet(s, c, on).log[0], s.log);
    case SetTemperature(_) =>
    case Reset =>
    case Tick(noise) => TickedLogFits(topo, s, noise);
  }

  lemma TickedLogFits(topo: Topology, s: Sim, noise: Cluster -> Noise)
    requires Shaped(topo, s) && LogFits(s)
    ensures LogFits(Ticked(topo, s, noise))
  {
    hide StepOf, Pushed, ReadingOf;
    assert LedgerOf(Ticked(topo, s, noise)) == LedgerOf(s);
  }

  /**
    At every reachable state, replaying the log from its oldest entry gives exactly the active faults (cluster,
    type, magnitude) and the outages.
   */
  lemma {:induction false} LogReplaysToLiveState(topo: Topology, cmds: seq<Command>)
    ensures Replay(Run(topo, cmds).log) == LedgerOf(Run(topo, cmds))
    ensures Orderly(Run(topo, cmds).log)
  {
    if cmds != [] {
      LogReplaysToLiveState(topo, cmds[..|cmds| - 1]);
      AfterLogFits(topo, Run(topo, cmds[..|cmds| - 1]), cmds[|cmds| - 1]);
    }
  }

  lemma {:induction false} LedgerPersists(log: seq<LogEntry>, c: Cluster, i: nat, j: nat)
    requires i <= j <= |log|
    requires forall k :: i <= k < j && log[k].cluster == c ==> !log[k].action.Clear? && !log[k].action.Inject?
    ensures c in Replay(log[i..]).faults <==> c in Replay(log[j..]).faults
    decreases j - i
  {
    if i < j {
      LedgerPersists(log, c, i + 1, j);
      assert log[i..][1..] == log[i + 1..] && log[i..][0] == log[i];
    }
  }

  lemma {:induction false} OrderlyAt(log: seq<LogEntry>, i: nat)
    requires Orderly(log) && i <= |log|
    ensures Orderly(log[i..])
    decreases i
  {
    if i > 0 {
      OrderlyAt(log[1..], i - 1);
      assert log[1..][i - 1..] == log[i..];
    } else {
      assert log[0..] == log;
    }
  }

  predicate Concerns(e: LogEntry, c: Cluster) {
    e.cluster == c && (e.action.Inject? || e.action.Clear?)
  }

  /** Of two entries of a cluster with nothing about its faults in between, one injects and the other clears. */
  lemma InjectsAndClearsAlternate(topo: Topology, cmds: seq<Command>, c: Cluster, i: nat, j: nat)
    requires var log := Run(topo, cmds).log;
             && i < j < |log| && Concerns(log[i], c) && Concerns(log[j], c)
             && forall k :: i < k < j ==> !Concerns(log[k], c)
    ensures Run(topo, cmds).log[i].action != Run(topo, cmds).log[j].action
  {
    var log := Run(topo, cmds).log;
    LogReplaysToLiveState(topo, cmds);
    OrderlyAt(log, i);
    assert log[i..][1..] == log[i + 1..] && log[j..][1..] == log[j + 1..];
    LedgerPersists(log, c, i + 1, j);
  }

  /** The oldest entry of a cluster injects, and its newest injects exactly while its fault is active. */
  lemma AlternationEnds(topo: Topology, cmds: seq<Command>, c: Cluster, i: nat)
    requires i < |Run(topo, cmds).log| && Concerns(Run(topo, cmds).log[i], c)
    ensures (forall k :: i < k < |Run(topo, cmds).log| ==> !Concerns(Run(topo, cmds).log[k], c)) ==>
              Run(topo, cmds).log[i].action.Inject?
    ensures (forall k :: 0 <= k < i ==> !Concerns(Run(topo, cmds).log[k], c)) ==>
              (Run(topo, cmds).log[i].action.Inject? <==> c in Run(topo, cmds).active)
  {
    var s := Run(topo, cmds);
    var log := s.log;
    LogReplaysToLiveState(topo, cmds);
    OrderlyAt(log, i);
    assert log[i..][1..] == log[i + 1..] && log[i..][0] == log[i];
    if forall k :: i < k < |log| ==> !Concerns(log[k], c) {
      LedgerPersists(log, c, i + 1, |log|);
      assert log[|log|..] == [];
    }
    if forall k :: 0 <= k < i ==> !Concerns(log[k], c) {
      LedgerPersists(log, c, 0, i);
      assert log[0..] == log;
      assert c in LedgerOf(s).faults <==> c in s.active;
    }
  }

  /** The nearest number of hundredths, which is within half a hundredth. */
  ghost predicate RoundedTo(value: real, exact: real) {
    exact - 0.005 <= value <= exact + 0.005 && value * 100.0 == Rounding.RoundHalfEven(exact * 100.0) as real
  }

  lemma HundredthsOf(x: real)
    ensures RoundedTo(Rounding.RoundTo(x, 100.0), x)
  {
    Rounding.RoundIsNearest(x, 100.0);
    hide Rounding.RoundTo, Rounding.RoundHalfEven;
  }

  lemma ReadingRounds(cs: ClusterState)
    ensures var r := ReadingOf(cs);
            RoundedTo(r.pressure, cs.reportedPressure) && RoundedTo(r.flow, cs.reportedFlow) && RoundedTo(r.temp, cs.ambientTemp)
  {
    hide Rounding.RoundTo, RoundedTo;
    HundredthsOf(cs.reportedPressure);
    HundredthsOf(cs.reportedFlow);
    HundredthsOf(cs.ambientTemp);
  }

  /** A tick's newest reading is what the sensor reports after it, and the environment's temperature with its noise, to two digits. */
  lemma LatestReading(topo: Topology, s: Sim, noise: Cluster -> Noise, c: Cluster)
    requires Shaped(topo, s) && c in topo
    ensures var t := Ticked(topo, s, noise);
            var w := t.windows[c];
            && w != [] && RoundedTo(w[|w| - 1].pressure, t.clusters[c].reportedPressure)
            && RoundedTo(w[|w| - 1].flow, t.clusters[c].reportedFlow)
            && RoundedTo(w[|w| - 1].temp, s.environment + noise(c).temp)
  {
    hide ReadingOf, PressureAfter, FlowAfter, RoundedTo;
    ReadingRounds(StepOf(topo, s, noise, c));
  }

  // ---------------------------------------------------------------- what the sensors report

  function DriftAfter(rate: real, ticks: nat): real {
    rate * ticks as real
  }

  /** How a cluster's sensor fields and reports follow from its true state and its fault. */
  predicate SensorFits(seg: Segment, cs: ClusterState, fault: Option<ActiveFault>) {
    match fault
    case None => cs.frozenReading == None && cs.driftPressure == 0.0 && cs.driftFlow == 0.0
    case Some(f) =>
      var ticks := if f.effect.sensorMode.Drift? then f.ticksElapsed else 0;
      && (cs.frozenReading.Some? <==> f.effect.sensorMode.Freeze? && f.ticksElapsed > 0)
      && cs.driftPressure == DriftAfter(seg.baselinePressure * (f.effect.driftPct / 100.0), ticks)
      && cs.driftFlow == DriftAfter(seg.baselineFlow * (f.effect.driftPct / 100.0) * 0.3, ticks)
      && (f.ticksElapsed > 0 ==> ReportFits(cs, f.effect.sensorMode))
  }

  predicate ReportFits(cs: ClusterState, mode: SensorMode) {
    match mode
    case Faithful => cs.reportedPressure == cs.truePressure && cs.reportedFlow == cs.trueFlow
    case Flatline => cs.reportedPressure == 0.0 && cs.reportedFlow == 0.0
    case Freeze => cs.frozenReading == Some((cs.reportedPressure, cs.reportedFlow))
    case Drift =>
      cs.reportedPressure == cs.truePressure - cs.driftPressure && cs.reportedFlow == cs.trueFlow + cs.driftFlow
  }

  predicate SensorsFit(topo: Topology, s: Sim) {
    forall c :: c in topo && c in s.clusters ==> SensorFits(topo[c], s.clusters[c], FaultOf(s, c))
  }

  lemma StepFits(seg: Segment, environment: real, cs: ClusterState, fault: Option<ActiveFault>, noise: Noise)
    requires SensorFits(seg, cs, fault)
    ensures var aged := match fault case None => None case Some(f) => Some(Aged(f));
            SensorFits(seg, StepCluster(seg, environment, cs, aged, noise), aged)
  {
    hide PressureAfter, FlowAfter;
    if fault.Some? {
      var f := fault.value;
      DriftGrows(seg.baselinePressure * (f.effect.driftPct / 100.0), f.ticksElapsed);
      DriftGrows(seg.baselineFlow * (f.effect.driftPct / 100.0) * 0.3, f.ticksElapsed);
    }
  }

  lemma DriftGrows(rate: real, ticks: nat)
    ensures DriftAfter(rate, ticks + 1) == DriftAfter(rate, ticks) + rate
    ensures DriftAfter(rate, 0) == 0.0
  {
  }

  lemma CalmFits(topo: Topology, s: Sim, c: Cluster)
    requires Shaped(topo, s) && SensorsFit(topo, s)
    ensures SensorsFit(topo, FaultCleared(s, c))
  {
    hide DriftAfter, ReportFits;
  }

  lemma {:induction false} AllCalmFit(topo: Topology, s: Sim, order: seq<Cluster>)
    requires Shaped(topo, s) && SensorsFit(topo, s)
    ensures SensorsFit(topo, AllCleared(s, order))
  {
    if order != [] {
      hide SensorsFit;
      AllClearedShape(topo, s, order[..|order| - 1]);
      AllCalmFit(topo, s, order[..|order| - 1]);
      CalmFits(topo, AllCleared(s, order[..|order| - 1]), order[|order| - 1]);
    }
  }

  lemma InjectedFits(topo: Topology, s: Sim, faultType: string, magnitude: string, c: Cluster)
    requires Shaped(topo, s) && SensorsFit(topo, s)
    ensures SensorsFit(topo, After(topo, s, InjectFault(faultType, magnitude, c)))
  {
    hide ReportFits;
    if InjectResponse(s, faultType, magnitude, c).Done? {
      var f := BuildFault(faultType, magnitude, c).fault;
      assert SensorFits(topo[c], s.clusters[c], None);
      DriftGrows(topo[c].baselinePressure * (f.effect.driftPct / 100.0), 0);
      DriftGrows(topo[c].baselineFlow * (f.effect.driftPct / 100.0) * 0.3, 0);
      assert SensorFits(topo[c], s.clusters[c], Some(f));
    }
  }

  lemma TickedFits(topo: Topology, s: Sim, noise: Cluster -> Noise)
    requires Shaped(topo, s) && SensorsFit(topo, s)
    ensures SensorsFit(topo, Ticked(topo, s, noise))
  {
    hide SensorFits, StepCluster;
    forall c | c in topo ensures SensorFits(topo[c], StepOf(topo, s, noise, c), AgedFaultOf(s, c)) {
      StepFits(topo[c], s.environment, s.clusters[c], FaultOf(s, c), noise(c));
    }
  }

  /**
    At every reachable state a drifting sensor is off by exactly its rate times its ticks, a frozen one repeats its
    snapshot, a flatlined one reports zero, and a cluster without a fault has no distortion left.
   */
  lemma {:induction false} SensorsAtEveryState(topo: Topology, cmds: seq<Command>)
    ensures SensorsFit(topo, Run(topo, cmds))
  {
    if cmds == [] {
      StartedFits(topo);
    } else {
      hide SensorsFit;
      var s, cmd := Run(topo, cmds[..|cmds| - 1]), cmds[|cmds| - 1];
      SensorsAtEveryState(topo, cmds[..|cmds| - 1]);
      AfterFits(topo, s, cmd);
    }
  }

  lemma StartedFits(topo: Topology)
    ensures SensorsFit(topo, Started(topo))
  {
  }

  lemma AfterFits(topo: Topology, s: Sim, cmd: Command)
    requires Shaped(topo, s) && SensorsFit(topo, s)
    ensures SensorsFit(topo, After(topo, s, cmd))
  {
    hide Ticked, Injected, FaultCleared, AllCleared, BuildFault, SensorFits;
    match cmd
    case InjectFault(faultType, magnitude, c) => InjectedFits(topo, s, faultType, magnitude, c);
    case ClearFault(c) => CalmFits(topo, s, c);
    case ClearAllFaults(order) => AllCalmFit(topo, s, order);
    case SetApiOutage(_, _) =>
    case SetTemperature(_) =>
    case Reset => StartedFits(topo);
    case Tick(noise) => TickedFits(topo, s, noise);
  }

  /**
    After a tick every sensor reports as its fault's mode says; without a fault it reports the true state again, whatever
    the sensor showed before.
   */
  lemma ReportsAfterATick(topo: Topology, cmds: seq<Command>, noise: Cluster -> Noise, c: Cluster)
    requires c in topo
    ensures var t := Run(topo, cmds + [Tick(noise)]);
            && c in t.clusters && ReportFits(t.clusters[c], ModeOf(FaultOf(t, c)))
            && (c !in t.active ==>
                  t.clusters[c].reportedPressure == t.clusters[c].truePressure
                  && t.clusters[c].reportedFlow == t.clusters[c].trueFlow)
  {
    hide PressureAfter, FlowAfter, ReadingOf, Pushed, Run;
    var s := Run(topo, cmds);
    SensorsAtEveryState(topo, cmds);
    assert SensorFits(topo[c], s.clusters[c], FaultOf(s, c));
    RunSnoc(topo, cmds, Tick(noise));
    StepFits(topo[c], s.environment, s.clusters[c], FaultOf(s, c), noise(c));
  }

  lemma RunSnoc(topo: Topology, cmds: seq<Command>, cmd: Command)
    ensures Run(topo, cmds + [cmd]) == After(topo, Run(topo, cmds), cmd)
  {
    assert (cmds + [cmd])[..|cmds|] == cmds;
  }

  // ---------------------------------------------------------------- the windows

  /** A cluster's readings since start-up or the last reset. */
  function ReadingsOf(topo: Topology, cmds: seq<Command>, c: Cluster): seq<Reading>
    requires c in topo
  {
    if cmds == [] then []
    else
      var before := ReadingsOf(topo, cmds[..|cmds| - 1], c);
      match cmds[|cmds| - 1]
      case Reset => []
      case Tick(_) => before + [ReadingOf(Run(topo, cmds).clusters[c])]
      case _ => before
  }

  lemma {:induction false} AllClearedWindows(s: Sim, order: seq<Cluster>)
    ensures AllCleared(s, order).windows == s.windows
  {
    if order != [] {
      AllClearedWindows(s, order[..|order| - 1]);
    }
  }

  lemma WindowAfter(topo: Topology, s: Sim, cmd: Command, c: Cluster)
    requires Shaped(topo, s) && c in topo
    ensures var t := After(topo, s, cmd);
            && c in t.windows && c in t.clusters
            && (cmd.Reset? ==> t.windows[c] == [])
            && (cmd.Tick? ==> t.windows[c] == Pushed(s.windows[c], ReadingOf(t.clusters[c])))
            && (!cmd.Reset? && !cmd.Tick? ==> t.windows[c] == s.windows[c])
  {
    hide StepOf, Pushed, ReadingOf, BuildFault;
    AfterShape(topo, s, cmd);
    if cmd.ClearAllFaults? {
      AllClearedWindows(s, cmd.order);
    }
  }

  /** At every reachable state a window holds exactly the latest ten of the readings since the last reset. */
  lemma {:induction false} WindowsHoldTheLatest(topo: Topology, cmds: seq<Command>, c: Cluster)
    requires c in topo
    ensures Run(topo, cmds).windows[c] == LatestOf(ReadingsOf(topo, cmds, c))
  {
    if cmds != [] {
      hide Pushed, ReadingOf, After;
      WindowsHoldTheLatest(topo, cmds[..|cmds| - 1], c);
      WindowAfter(topo, Run(topo, cmds[..|cmds| - 1]), cmds[|cmds| - 1], c);
      WindowIsTheLatest(ReadingsOf(topo, cmds[..|cmds| - 1], c), ReadingOf(Run(topo, cmds).clusters[c]));
    }
  }
}
