/** The parts of the engine over whole runs: each transport machine, the session, the probe intervals
    and the statistics of each edge are the stand-alone ones, run on what the inputs say; who is
    admitted to a selection; and what the counters count. */
module EngineParts {
  import opened Common
  import opened Model
  import opened Engine
  import opened EngineTheorems
  import opened EngineRuns
  import opened EngineBreakers
  import opened EngineEvidence
  import Circuit
  import Edges
  import Fallback
  import Health
  import Probe
  import Scoring
  import Session
  import StateMachine

  // ---------------------------------------------------------------------
  // Transport machines

  function ReportOf(e: Input, t: TransportKind): seq<StateMachine.Op> {
    if e.Failure? && e.transport == t then [StateMachine.Fail]
    else if e.Success? && e.transport == t then [StateMachine.Succeed]
    else []
  }

  // The reports on a transport, in order.
  function Reports(inputs: seq<Input>, t: TransportKind): seq<StateMachine.Op> {
    if inputs == [] then [] else Reports(inputs[..|inputs| - 1], t) + ReportOf(inputs[|inputs| - 1], t)
  }

  // What the reports say of a supported transport.
  function MachineAfter(inputs: seq<Input>, t: TransportKind): StateMachine.Machine {
    StateMachine.Run(StateMachine.Fresh(StateMachine.DEFAULT), Reports(inputs, t))
  }

  lemma MachineSnoc(inputs: seq<Input>, e: Input, t: TransportKind)
    ensures MachineAfter(inputs + [e], t)
            == if ReportOf(e, t) == [] then MachineAfter(inputs, t)
               else if e.Failure? then StateMachine.AfterFailure(MachineAfter(inputs, t))
               else StateMachine.AfterSuccess(MachineAfter(inputs, t))
  {
    var ops := Reports(inputs, t);
    assert (inputs + [e])[..|inputs|] == inputs;
    assert ops + [] == ops;
    StateMachine.RunSnoc(StateMachine.Fresh(StateMachine.DEFAULT), ops, StateMachine.Fail);
    StateMachine.RunSnoc(StateMachine.Fresh(StateMachine.DEFAULT), ops, StateMachine.Succeed);
  }

  lemma ObservedMachines(curve: Scoring.LossCurve, s: State, obs: Observation, now: nat)
    ensures EdgeObserved(curve, s, obs, now).machines == s.machines
    ensures EdgeObserved(curve, s, obs, now).counters.circuitTrips == s.counters.circuitTrips
  {
    if Known(s, obs) {
      var p := Probed(s, obs, now);
      PickedRoute(AfterScreening(curve, p, now), Admitted(curve, p, now), now);
    }
  }

  lemma StepMachine(curve: Scoring.LossCurve, s: State, e: Input, t: TransportKind)
    requires Fallback.Usable(s.chain)
    ensures Next(curve, s, e).machines.Keys == s.machines.Keys
    ensures t in s.machines ==>
              Next(curve, s, e).machines[t]
              == if ReportOf(e, t) == [] then s.machines[t]
                 else if e.Failure? then StateMachine.AfterFailure(s.machines[t])
                 else StateMachine.AfterSuccess(s.machines[t])
  {
    if e.Observe? { ObservedMachines(curve, s, e.obs, e.at); }
  }

  /** Over every run the engine keeps a machine for exactly the supported transports, and each is the
      stand-alone one run on exactly the reports on its transport, in order. */
  lemma {:induction false} MachineFollows(curve: Scoring.LossCurve, cfg: Config, inputs: seq<Input>, t: TransportKind)
    requires cfg.fallbackOrder != []
    ensures var machines := After(curve, Initial(cfg), inputs).machines;
            && (t in machines <==> t in cfg.supported)
            && (t in machines ==> machines[t] == MachineAfter(inputs, t))
    decreases |inputs|
  {
    if inputs != [] {
      var init, e := inputs[..|inputs| - 1], inputs[|inputs| - 1];
      SnocLast(inputs);
      MachineFollows(curve, cfg, init, t);
      StepMachine(curve, After(curve, Initial(cfg), init), e, t);
      MachineSnoc(init, e, t);
    }
  }

  // n failure reports of a transport and nothing else on it.
  predicate OnlyFailures(inputs: seq<Input>, t: TransportKind, n: nat) {
    Reports(inputs, t) == StateMachine.Repeat(StateMachine.Fail, n)
  }

  /** So after n failure reports on a supported transport and no success its machine is degraded from
      two on, failing from three and failed from five. */
  lemma StageAfterReports(curve: Scoring.LossCurve, cfg: Config, inputs: seq<Input>, t: TransportKind, n: nat)
    requires cfg.fallbackOrder != [] && t in cfg.supported && OnlyFailures(inputs, t, n)
    ensures t in After(curve, Initial(cfg), inputs).machines
    ensures After(curve, Initial(cfg), inputs).machines[t].state
            == if n < 2 then StateMachine.Healthy else if n < 3 then StateMachine.Degraded
               else if n < 5 then StateMachine.Failing else StateMachine.Failed
  {
    MachineFollows(curve, cfg, inputs, t);
    StateMachine.DefaultStages(n);
  }

  // ---------------------------------------------------------------------
  // Counters

  predicate FailedReport(cfg: Config, inputs: seq<Input>, e: Input) {
    e.Failure? && e.transport in cfg.supported && MachineAfter(inputs + [e], e.transport).state.Failed?
  }

  // The failure reports that left their transport failed.
  function FailedReports(cfg: Config, inputs: seq<Input>): nat {
    if inputs == [] then 0 else
      var init := inputs[..|inputs| - 1];
      FailedReports(cfg, init) + if FailedReport(cfg, init, inputs[|inputs| - 1]) then 1 else 0
  }

  predicate TransportMoves(before: Option<RouteCandidate>, after: Option<RouteCandidate>) {
    before.Some? && after.Some? && before.value.transport != after.value.transport
  }

  // The steps that took the route to another transport.
  function TransportMovesIn(curve: Scoring.LossCurve, cfg: Config, inputs: seq<Input>): nat
    requires cfg.fallbackOrder != []
  {
    if inputs == [] then 0 else
      var init := inputs[..|inputs| - 1];
      var s, s' := After(curve, Initial(cfg), init), After(curve, Initial(cfg), inputs);
      TransportMovesIn(curve, cfg, init) + if TransportMoves(s.current, s'.current) then 1 else 0
  }

  lemma SelectionCounts(s: State, cs: seq<RouteCandidate>, now: nat)
    requires s.session.Some? <==> s.current.Some?
    ensures var q := SelectedBest(s, cs, now);
            var moves := if TransportMoves(s.current, q.current) then 1 else 0;
            && q.counters.transportFallbacks == s.counters.transportFallbacks + moves
            && q.counters.routeChanges == s.counters.routeChanges + moves
  {
    PickedRoute(s, cs, now);
  }

  lemma ObservedCounters(curve: Scoring.LossCurve, s: State, obs: Observation, now: nat)
    requires s.session.Some? <==> s.current.Some?
    ensures var s' := EdgeObserved(curve, s, obs, now);
            var moves := if TransportMoves(s.current, s'.current) then 1 else 0;
            && s'.counters.transportFallbacks == s.counters.transportFallbacks + moves
            && s'.counters.routeChanges == s.counters.routeChanges + moves
  {
    if Known(s, obs) {
      var p := Probed(s, obs, now);
      SelectionCounts(AfterScreening(curve, p, now), Admitted(curve, p, now), now);
    }
  }

  lemma StepCounters(curve: Scoring.LossCurve, s: State, e: Input)
    requires Ok(s)
    ensures var s' := Next(curve, s, e);
            var moves := if TransportMoves(s.current, s'.current) then 1 else 0;
            var reported := e.Failure? && e.transport in s.machines;
            var failed := if reported && s'.machines[e.transport].state.Failed? then 1 else 0;
            && s'.counters.transportFallbacks == s.counters.transportFallbacks + moves + failed
            && s'.counters.routeChanges == s.counters.routeChanges + moves
  {
    match e
    case Observe(obs, now) => ObservedCounters(curve, s, obs, now);
    case Failure(t, now) => FailureFrame(s, t, now);
    case _ =>
  }

  /** Over every run `route_changes` counts the moves to another transport, and `transport_fallbacks` these
      and the failure reports that left their transport failed. */
  lemma {:induction false} CountersCount(curve: Scoring.LossCurve, cfg: Config, inputs: seq<Input>)
    requires cfg.fallbackOrder != []
    ensures var c, moves := After(curve, Initial(cfg), inputs).counters, TransportMovesIn(curve, cfg, inputs);
            c.routeChanges == moves && c.transportFallbacks == moves + FailedReports(cfg, inputs)
    decreases |inputs|
  {
    if inputs != [] {
      var init, e := inputs[..|inputs| - 1], inputs[|inputs| - 1];
      SnocLast(inputs);
      CountersCount(curve, cfg, init);
      ReachableOk(curve, cfg, init);
      StepCounters(curve, After(curve, Initial(cfg), init), e);
      if e.Failure? { MachineFollows(curve, cfg, init, e.transport); MachineFollows(curve, cfg, inputs, e.transport); }
    }
  }

  // ---------------------------------------------------------------------
  // Admission

  lemma {:induction false} ScreenedExactly(
    breakers: map<string, Circuit.Breaker>, cfg: Circuit.Config, cs: seq<RouteCandidate>, now: nat, c: RouteCandidate)
    ensures c in Screened(breakers, cfg, cs, now).1
            <==> c in cs && !Circuit.Refuses(BreakerAt(breakers, cfg, KeyOf(c)), now)
    decreases |cs|
  {
    if cs != [] {
      var b := BreakerAt(breakers, cfg, KeyOf(cs[0]));
      var asked := breakers[KeyOf(cs[0]) := Circuit.Asked(b, now)];
      ScreenedExactly(asked, cfg, cs[1..], now, c);
      assert c in cs <==> c == cs[0] || c in cs[1..];
      assert Circuit.Refuses(Circuit.Asked(b, now), now) <==> Circuit.Refuses(b, now);
    }
  }

  /** In every run a probe admits to the selection exactly the candidates whose breaker does not refuse:
      whose last trip lies a cooldown back, or was followed by a success or a later admitted request. */
  lemma AdmittedIff(
    curve: Scoring.LossCurve, cfg: Config, inputs: seq<Input>, obs: Observation, now: nat, c: RouteCandidate)
    requires cfg.fallbackOrder != []
    ensures var s := After(curve, Initial(cfg), inputs);
            c in Admitted(curve, Probed(s, obs, now), now)
            <==> && c in Candidates(curve, Probed(s, obs, now))
                 && !Circuit.Refused(Circuit.Fresh(cfg.circuit), Ops(curve, Initial(cfg), inputs, KeyOf(c)), now)
  {
    ReachableOk(curve, cfg, []);
    RunOk(curve, Initial(cfg), inputs);
    var s, key := After(curve, Initial(cfg), inputs), KeyOf(c);
    var p := Probed(s, obs, now);
    ScreenedExactly(p.breakers, cfg.circuit, Candidates(curve, p), now, c);
    BreakerFollows(curve, Initial(cfg), inputs, key);
    Circuit.RefusedIff(Circuit.Fresh(cfg.circuit), Ops(curve, Initial(cfg), inputs, key), now);
  }

  // ---------------------------------------------------------------------
  // Edges

  // The first valid record of an id in the lists of a run.
  function FirstInfo(inputs: seq<Input>, id: string): Option<EdgeInfo> {
    if inputs == [] then None else
      var before, e := FirstInfo(inputs[..|inputs| - 1], id), inputs[|inputs| - 1];
      if before.Some? || !e.SetEdges? then before else Edges.FirstValid(e.infos, id, e.at)
  }

  // The last one.
  function LastInfo(inputs: seq<Input>, id: string): Option<EdgeInfo> {
    if inputs == [] then None else
      var before, e := LastInfo(inputs[..|inputs| - 1], id), inputs[|inputs| - 1];
      if !e.SetEdges? then before
      else
        var latest := Edges.LastValid(e.infos, id, e.at);
        if latest.Some? then latest else before
  }

  function SampleOf(obs: Observation, now: nat): Edges.Sample {
    Edges.Sample(obs.latency, obs.jitter, obs.lost, obs.handshake, now)
  }

  // The probes of an edge since it was first listed.
  function ProbesOf(inputs: seq<Input>, id: string): seq<Edges.Sample> {
    if inputs == [] then [] else
      var init, e := inputs[..|inputs| - 1], inputs[|inputs| - 1];
      ProbesOf(init, id) +
      if e.Observe? && e.obs.edgeId == id && FirstInfo(init, id).Some? then [SampleOf(e.obs, e.at)] else []
  }

  lemma ObservedRegistry(curve: Scoring.LossCurve, s: State, obs: Observation, now: nat)
    ensures EdgeObserved(curve, s, obs, now).registry
            == Edges.ObservedAt(s.registry, obs.edgeId, obs.latency, obs.jitter, obs.lost, obs.handshake, now)
  {
    if Known(s, obs) {
      var p := Probed(s, obs, now);
      SelectedBestFrame(AfterScreening(curve, p, now), Admitted(curve, p, now), now);
    }
  }

  lemma SamplesSnoc(s: Edges.Stats, samples: seq<Edges.Sample>, x: Edges.Sample)
    ensures Edges.AfterSamples(s, samples + [x])
            == Edges.Probed(Edges.AfterSamples(s, samples), x.latency, x.jitter, x.lost, x.handshake, x.at)
  {
    assert (samples + [x])[..|samples|] == samples;
  }

  // What the inputs say the registry holds for an id.
  ghost predicate HoldsFor(r: Edges.Registry, inputs: seq<Input>, id: string) {
    && Edges.InfoOf(r, id) == LastInfo(inputs, id)
    && Edges.StatsOf(r, id)
       == (if FirstInfo(inputs, id).None? then None
           else Some(Edges.AfterSamples(Edges.NewStats(FirstInfo(inputs, id).value), ProbesOf(inputs, id))))
  }

  lemma UnlistedUnprobed(inputs: seq<Input>, id: string)
    requires FirstInfo(inputs, id).None?
    ensures ProbesOf(inputs, id) == []
  {
    if inputs != [] { UnlistedUnprobed(inputs[..|inputs| - 1], id); }
  }

  lemma StepHolds(curve: Scoring.LossCurve, s: State, inputs: seq<Input>, e: Input, id: string)
    requires Ok(s) && HoldsFor(s.registry, inputs, id)
    ensures HoldsFor(Next(curve, s, e).registry, inputs + [e], id)
  {
    var all := inputs + [e];
    assert all[..|inputs|] == inputs;
    var probes := ProbesOf(inputs, id);
    assert probes + [] == probes;
    match e
    case SetEdges(infos, now) =>
      Edges.IngestedOf(s.registry, infos, now, id);
      if FirstInfo(inputs, id).None? { UnlistedUnprobed(inputs, id); }
    case Observe(obs, now) =>
      var x := SampleOf(obs, now);
      ObservedRegistry(curve, s, obs, now);
      Edges.ObservedOf(s.registry, obs.edgeId, x, id);
      if FirstInfo(inputs, id).Some? { SamplesSnoc(Edges.NewStats(FirstInfo(inputs, id).value), probes, x); }
    case Failure(t, now) => FailureFrame(s, t, now);
    case _ =>
  }

  /** Over every run the registry holds for each id its last valid record, and the statistics of a new
      edge after exactly the probes of its own since it was first listed. */
  lemma {:induction false} RegistryFollows(curve: Scoring.LossCurve, cfg: Config, inputs: seq<Input>, id: string)
    requires cfg.fallbackOrder != []
    ensures HoldsFor(After(curve, Initial(cfg), inputs).registry, inputs, id)
    decreases |inputs|
  {
    if inputs != [] {
      var init := inputs[..|inputs| - 1];
      SnocLast(inputs);
      RegistryFollows(curve, cfg, init, id);
      ReachableOk(curve, cfg, init);
      StepHolds(curve, After(curve, Initial(cfg), init), init, inputs[|inputs| - 1], id);
    }
  }

  lemma HistoryMeasures(e: EdgeInfo, probes: seq<Edges.Sample>)
    requires probes != []
    ensures Edges.Measures(Edges.Snapshot(Edges.AfterSamples(Edges.NewStats(e), probes)), probes)
  {
    Edges.HistoryIsHonest(e, probes);
    Edges.SnapshotOfHistory(Edges.AfterSamples(Edges.NewStats(e), probes), probes);
  }

  /** So the metrics of a probed edge are the averages and shares of its own probes. */
  lemma EdgeMetrics(curve: Scoring.LossCurve, cfg: Config, inputs: seq<Input>, id: string)
    requires cfg.fallbackOrder != [] && ProbesOf(inputs, id) != []
    ensures var stats := Edges.StatsOf(After(curve, Initial(cfg), inputs).registry, id);
            stats.Some? && Edges.Measures(Edges.Snapshot(stats.value), ProbesOf(inputs, id))
  {
    RegistryFollows(curve, cfg, inputs, id);
    if FirstInfo(inputs, id).None? {
      UnlistedUnprobed(inputs, id);
    } else {
      HistoryMeasures(FirstInfo(inputs, id).value, ProbesOf(inputs, id));
    }
  }

  // ---------------------------------------------------------------------
  // Probe intervals

  // The levels the grades asked for, one for each score the health tracker took.
  function LevelsAsked(curve: Scoring.LossCurve, cfg: Config, inputs: seq<Input>): seq<Health.MonitorLevel>
    requires cfg.fallbackOrder != []
  {
    if inputs == [] then [] else
      var init, e := inputs[..|inputs| - 1], inputs[|inputs| - 1];
      LevelsAsked(curve, cfg, init) +
      if Rated(curve, After(curve, Initial(cfg), init), e) == [] then []
      else [Health.LevelOf(After(curve, Initial(cfg), inputs).health.grade)]
  }

  lemma ObservedProbes(curve: Scoring.LossCurve, s: State, obs: Observation, now: nat)
    requires Known(s, obs)
    ensures var s' := EdgeObserved(curve, s, obs, now);
            s'.probes == if Rated(curve, s, Observe(obs, now)) == [] then s.probes
                         else Probe.HealthApplied(s.probes, Health.LevelOf(s'.health.grade))
  {
    var p := Probed(s, obs, now);
    var q := SelectedBest(AfterScreening(curve, p, now), Admitted(curve, p, now), now);
    SelectedBestFrame(AfterScreening(curve, p, now), Admitted(curve, p, now), now);
    assert q.probes == s.probes;
  }

  lemma StepLevels(curve: Scoring.LossCurve, s: State, e: Input)
    requires Fallback.Usable(s.chain)
    ensures var s' := Next(curve, s, e);
            s'.probes == if Rated(curve, s, e) == [] then s.probes
                         else Probe.HealthApplied(s.probes, Health.LevelOf(s'.health.grade))
  {
    match e
    case Observe(obs, now) => if Known(s, obs) { ObservedProbes(curve, s, obs, now); }
    case Failure(t, now) => assert TransportFailed(s, t, now).probes == s.probes;
    case _ =>
  }

  lemma LevelsSnoc(levels: seq<Health.MonitorLevel>, level: Health.MonitorLevel)
    ensures Probe.After(Probe.Initial(), Probe.Levels(levels + [level]))
            == Probe.HealthApplied(Probe.After(Probe.Initial(), Probe.Levels(levels)), level)
  {
    assert Probe.Levels(levels + [level])[..|levels|] == Probe.Levels(levels);
  }

  /** Over every run the probe scheduler is the stand-alone one, adapted to the level of each new grade. */
  lemma {:induction false} ProbesFollow(curve: Scoring.LossCurve, cfg: Config, inputs: seq<Input>)
    requires cfg.fallbackOrder != []
    ensures After(curve, Initial(cfg), inputs).probes
            == Probe.After(Probe.Initial(), Probe.Levels(LevelsAsked(curve, cfg, inputs)))
    decreases |inputs|
  {
    if inputs != [] {
      var init, e := inputs[..|inputs| - 1], inputs[|inputs| - 1];
      ProbesFollow(curve, cfg, init);
      StepLevels(curve, After(curve, Initial(cfg), init), e);
      var levels := LevelsAsked(curve, cfg, init);
      if Rated(curve, After(curve, Initial(cfg), init), e) == [] {
        assert levels + [] == levels;
      } else {
        LevelsSnoc(levels, Health.LevelOf(After(curve, Initial(cfg), inputs).health.grade));
      }
    }
  }

  // ---------------------------------------------------------------------
  // Sessions

  // What a step means for a session under way.
  function Meant(curve: Scoring.LossCurve, s: State, e: Input): seq<Session.Event> {
    match e
    case Observe(_, now) =>
      var c := Chosen(curve, s, e);
      if c.None? then []
      else if Moves(curve, s, e)
      then [Session.Migrate(c.value.transport, Some(Edges.EdgeIdOf(c.value.id)), now, s.drawn)]
      else [Session.Healthy(now)]
    case VpnState(now) => [Session.Healthy(now)]
    case Success(_, now) => [Session.Healthy(now)]
    case _ => []
  }

  function SessionEvents(curve: Scoring.LossCurve, s: State, inputs: seq<Input>): seq<Session.Event>
    requires Fallback.Usable(s.chain)
  {
    if inputs == [] then [] else
      var init := inputs[..|inputs| - 1];
      SessionEvents(curve, s, init) + Meant(curve, After(curve, s, init), inputs[|inputs| - 1])
  }

  // The session a selection leaves.
  function SelectedSession(s: State, c: Option<RouteCandidate>, now: nat): Option<Session.Snapshot> {
    if c.None? then s.session
    else
      var edge := Some(Edges.EdgeIdOf(c.value.id));
      if s.session.None? then Some(Session.Begun(c.value.transport, edge, now, s.drawn, s.drawn + 1))
      else if MovesTo(s, c) then Some(Session.Migrated(s.session.value, c.value.transport, edge, now, s.drawn))
      else Some(s.session.value.(lastHealthy := now))
  }

  lemma SelectionSessionIs(s: State, cs: seq<RouteCandidate>, now: nat)
    requires s.session.Some? <==> s.current.Some?
    ensures SelectedBest(s, cs, now).session == SelectedSession(s, Pick(s, cs, now), now)
  {
    PickedRoute(s, cs, now);
  }

  lemma SameSession(s: State, a: State, c: Option<RouteCandidate>, now: nat)
    requires a == s.(registry := a.registry, breakers := a.breakers)
    ensures SelectedSession(a, c, now) == SelectedSession(s, c, now)
  {
  }

  lemma ObservedSessionIs(curve: Scoring.LossCurve, s: State, obs: Observation, now: nat)
    requires s.session.Some? <==> s.current.Some?
    ensures EdgeObserved(curve, s, obs, now).session == SelectedSession(s, Chosen(curve, s, Observe(obs, now)), now)
  {
    if Known(s, obs) {
      var a := AfterScreening(curve, Probed(s, obs, now), now);
      var cs := Admitted(curve, Probed(s, obs, now), now);
      SelectionSessionIs(a, cs, now);
      ObservedSession(curve, s, obs, now);
      SameSession(s, a, Pick(a, cs, now), now);
    }
  }

  /** A session begins with the first route taken, healthy then, on its transport and edge, under two
      fresh ids. */
  lemma SessionBegins(curve: Scoring.LossCurve, s: State, e: Input)
    requires Ok(s) && s.session.None?
    ensures var c, s' := Chosen(curve, s, e), Next(curve, s, e);
            && (s'.session.Some? <==> c.Some?)
            && (c.Some? ==> s'.session == Some(Session.Snapshot(s.drawn, s.drawn + 1, c.value.transport,
                                                                Some(Edges.EdgeIdOf(c.value.id)), e.at, e.at, 0, 0)))
  {
    match e
    case Observe(obs, now) => ProbeBegins(curve, s, obs, now);
    case Failure(t, now) => FailureFrame(s, t, now);
    case _ =>
  }

  lemma ProbeBegins(curve: Scoring.LossCurve, s: State, obs: Observation, now: nat)
    requires (s.session.Some? <==> s.current.Some?) && s.session.None?
    ensures var c := Chosen(curve, s, Observe(obs, now));
            EdgeObserved(curve, s, obs, now).session
            == if c.None? then None
               else Some(Session.Snapshot(s.drawn, s.drawn + 1, c.value.transport,
                                          Some(Edges.EdgeIdOf(c.value.id)), now, now, 0, 0))
  {
    ObservedSessionIs(curve, s, obs, now);
  }

  lemma StepSessionIs(curve: Scoring.LossCurve, s: State, e: Input)
    requires Ok(s) && s.session.Some?
    ensures var meant := Meant(curve, s, e);
            && |meant| <= 1
            && Next(curve, s, e).session
               == Some(if meant == [] then s.session.value else Session.Next(s.session.value, meant[0]))
  {
    match e
    case Observe(obs, now) => ObservedSessionIs(curve, s, obs, now);
    case Failure(t, now) => FailureFrame(s, t, now);
    case _ =>
  }

  lemma SessionSnoc(x: Session.Snapshot, events: seq<Session.Event>, more: seq<Session.Event>)
    requires |more| <= 1
    ensures Session.After(x, events + more)
            == if more == [] then Session.After(x, events) else Session.Next(Session.After(x, events), more[0])
  {
    if more == [] {
      assert events + more == events;
    } else {
      assert (events + more)[..|events|] == events && more == [more[0]];
    }
  }

  /** Once begun, the session in an engine run is the stand-alone one: migrated by every move, with the id
      drawn then, and healthy at every selection, VPN state and success report. */
  lemma {:induction false} SessionFollows(curve: Scoring.LossCurve, s: State, inputs: seq<Input>)
    requires Ok(s) && s.session.Some?
    ensures After(curve, s, inputs).session == Some(Session.After(s.session.value, SessionEvents(curve, s, inputs)))
    decreases |inputs|
  {
    if inputs != [] {
      var init, e := inputs[..|inputs| - 1], inputs[|inputs| - 1];
      SessionFollows(curve, s, init);
      RunOk(curve, s, init);
      StepSessionIs(curve, After(curve, s, init), e);
      SessionSnoc(s.session.value, SessionEvents(curve, s, init), Meant(curve, After(curve, s, init), e));
    }
  }
}
