/** The route engine: the loop that measures, decides and fails over
    (crates/radin-core/src/engine.rs). */
module Engine {
  import opened Common
  import opened Model
  import Circuit
  import Edges
  import Fallback
  import Health
  import Hysteresis
  import Probe
  import Scoring
  import Session
  import Sorting
  import StateMachine

  const HEALTH_SUSTAIN_MS := 3_000

  datatype Config = Config(
    weights: Scoring.Weights, circuit: Circuit.Config, cooldownMs: nat,
    fallbackOrder: seq<TransportKind>, supported: seq<TransportKind>)

  datatype Counters = Counters(routeChanges: nat, transportFallbacks: nat, circuitTrips: nat)

  datatype Observation = Observation(
    edgeId: string, latency: Measure, jitter: Measure, lost: bool, handshake: Option<real>)

  // The state as a value. `drawn` counts the unique ids taken so far.
  datatype State = State(
    cfg: Config, registry: Edges.Registry, decider: Hysteresis.Decider, chain: Fallback.Chain,
    machines: map<TransportKind, StateMachine.Machine>, breakers: map<string, Circuit.Breaker>,
    health: Health.Tracker, probes: Probe.Scheduler, session: Option<Session.Snapshot>,
    current: Option<RouteCandidate>, counters: Counters, drawn: nat)

  // The decider gets the default hysteresis, not the configured one.
  function Initial(cfg: Config): State {
    State(cfg, Edges.EMPTY, Hysteresis.Fresh(Hysteresis.DEFAULT), Fallback.Chain(cfg.fallbackOrder, 0, []),
          map t | t in cfg.supported :: StateMachine.Fresh(StateMachine.DEFAULT), map[],
          Health.INITIAL, Probe.Initial(), None, None, Counters(0, 0, 0), 0)
  }

  // ---------------------------------------------------------------------
  // Screening by circuit breakers

  function Suffix(t: TransportKind): string { ":" + Name(t) }

  function KeyOf(c: RouteCandidate): string { c.id + Suffix(c.transport) }

  function BreakerAt(breakers: map<string, Circuit.Breaker>, cfg: Circuit.Config, key: string): Circuit.Breaker {
    if key in breakers then breakers[key] else Circuit.Fresh(cfg)
  }

  // Each candidate's breaker is asked in turn, created if missing; refused candidates drop out.
  function Screened(breakers: map<string, Circuit.Breaker>, cfg: Circuit.Config, cs: seq<RouteCandidate>, now: nat)
    : (map<string, Circuit.Breaker>, seq<RouteCandidate>)
    decreases |cs|
  {
    if cs == [] then (breakers, []) else
      var b := BreakerAt(breakers, cfg, KeyOf(cs[0]));
      var (after, kept) := Screened(breakers[KeyOf(cs[0]) := Circuit.Asked(b, now)], cfg, cs[1..], now);
      (after, if Circuit.Refuses(b, now) then kept else [cs[0]] + kept)
  }

  // The first i candidates are screened, leaving kept; the rest completes the result.
  ghost predicate ScreenedSoFar(
    all: (map<string, Circuit.Breaker>, seq<RouteCandidate>), breakers: map<string, Circuit.Breaker>,
    cfg: Circuit.Config, cs: seq<RouteCandidate>, i: nat, now: nat, kept: seq<RouteCandidate>)
  {
    i <= |cs| && all.0 == Screened(breakers, cfg, cs[i..], now).0
        && all.1 == kept + Screened(breakers, cfg, cs[i..], now).1
  }

  lemma ScreenOne(all: (map<string, Circuit.Breaker>, seq<RouteCandidate>), breakers: map<string, Circuit.Breaker>,
                  cfg: Circuit.Config, cs: seq<RouteCandidate>, i: nat, now: nat, kept: seq<RouteCandidate>)
    requires i < |cs| && ScreenedSoFar(all, breakers, cfg, cs, i, now, kept)
    ensures var b := BreakerAt(breakers, cfg, KeyOf(cs[i]));
            ScreenedSoFar(all, breakers[KeyOf(cs[i]) := Circuit.Asked(b, now)], cfg, cs, i + 1, now,
                          if Circuit.Refuses(b, now) then kept else kept + [cs[i]])
  {
    var b := BreakerAt(breakers, cfg, KeyOf(cs[i]));
    var rest := Screened(breakers[KeyOf(cs[i]) := Circuit.Asked(b, now)], cfg, cs[i + 1..], now).1;
    assert cs[i..][1..] == cs[i + 1..];
    Regroup(kept, [cs[i]], rest);
  }

  function ScoreOf(): RouteCandidate -> real { (c: RouteCandidate) => if c.score.Some? then c.score.value else 0.0 }

  function Best(cs: seq<RouteCandidate>): RouteCandidate
    requires cs != []
  {
    Sorting.SortLength(cs, ScoreOf());
    Sorting.SortDescending(cs, ScoreOf())[0]
  }

  function FirstWithId(cs: seq<RouteCandidate>, id: string): Option<RouteCandidate> {
    if cs == [] then None else if cs[0].id == id then Some(cs[0]) else FirstWithId(cs[1..], id)
  }

  lemma {:induction false} FirstWithIdFinds(cs: seq<RouteCandidate>, id: string)
    ensures FirstWithId(cs, id).Some? <==> exists c | c in cs :: c.id == id
    ensures FirstWithId(cs, id).Some? ==> FirstWithId(cs, id).value in cs && FirstWithId(cs, id).value.id == id
  {
    if cs != [] { FirstWithIdFinds(cs[1..], id); }
  }

  lemma BestIsFirstMaximum(cs: seq<RouteCandidate>) returns (i: nat)
    requires cs != []
    ensures i < |cs| && Best(cs) == cs[i] && FirstWithId(cs, Best(cs).id).Some?
    ensures forall j | 0 <= j < |cs| :: ScoreOf()(cs[j]) <= ScoreOf()(cs[i])
    ensures forall j | 0 <= j < i :: ScoreOf()(cs[j]) < ScoreOf()(cs[i])
  {
    i := Sorting.HeadIsFirstMaximum(cs, ScoreOf());
    FirstWithIdFinds(cs, cs[i].id);
  }

  // ---------------------------------------------------------------------
  // Selection

  predicate TransportChanges(s: State, c: RouteCandidate) {
    s.current.None? || s.current.value.transport != c.transport
  }

  predicate EdgeChanges(s: State, edge: string) { s.current.None? || Edges.EdgeIdOf(s.current.value.id) != edge }

  function Selected(s: State, edge: string, c: RouteCandidate, now: nat): State {
    if s.current.None? then
      s.(current := Some(c), drawn := s.drawn + 2,
         session := Some(Session.Begun(c.transport, Some(edge), now, s.drawn, s.drawn + 1)))
    else
      var moved := TransportChanges(s, c) || EdgeChanges(s, edge);
      s.(current := Some(c),
         drawn := if s.session.Some? && moved then s.drawn + 1 else s.drawn,
         session := if s.session.None? then None
                    else if moved then Some(Session.Migrated(s.session.value, c.transport, Some(edge), now, s.drawn))
                    else Some(s.session.value.(lastHealthy := now)),
         counters := s.counters.(
           routeChanges := s.counters.routeChanges + if s.session.Some? && TransportChanges(s, c) then 1 else 0,
           transportFallbacks := s.counters.transportFallbacks + if TransportChanges(s, c) then 1 else 0))
  }

  // The first route is taken at once and without telling the decider; afterwards the decider rules.
  function SelectedBest(s: State, cs: seq<RouteCandidate>, now: nat): State {
    if cs == [] then s else
      var best := Best(cs);
      if s.current.None? then Selected(s, Edges.EdgeIdOf(best.id), best, now)
      else
        var s' := s.(decider := Hysteresis.Consulted(s.decider, s.cfg.cooldownMs, best, now));
        var target := FirstWithId(cs, best.id);
        if Hysteresis.VerdictOf(s.decider, best, now).Switch? && target.Some?
        then Selected(s', Edges.EdgeIdOf(best.id), target.value, now)
        else s'
  }

  // ---------------------------------------------------------------------
  // Steps

  function Probed(s: State, obs: Observation, now: nat): State {
    s.(registry := Edges.ObservedAt(s.registry, obs.edgeId, obs.latency, obs.jitter, obs.lost, obs.handshake, now))
  }

  predicate Known(s: State, obs: Observation) { Edges.StatsIndex(s.registry.stats, obs.edgeId) < |s.registry.stats| }

  function Candidates(curve: Scoring.LossCurve, s: State): seq<RouteCandidate> {
    Scoring.Scored(curve, s.cfg.weights, Edges.CandidatesOf(s.registry.stats, s.registry.edges, s.cfg.supported))
  }

  // The candidates their breakers let through, after the observation.
  function Admitted(curve: Scoring.LossCurve, s: State, now: nat): seq<RouteCandidate> {
    Screened(s.breakers, s.cfg.circuit, Candidates(curve, s), now).1
  }

  function AfterScreening(curve: Scoring.LossCurve, s: State, now: nat): State {
    s.(breakers := Screened(s.breakers, s.cfg.circuit, Candidates(curve, s), now).0)
  }

  predicate OnCurrentEdge(s: State, obs: Observation) {
    s.current.Some? && Edges.EdgeIdOf(s.current.value.id) == obs.edgeId
  }

  // Health and probing follow the live measurements of the current route's edge.
  function Refreshed(s: State, obs: Observation, now: nat): State {
    var i := Edges.StatsIndex(s.registry.stats, obs.edgeId);
    if !OnCurrentEdge(s, obs) || i == |s.registry.stats| then s else
      var m := Edges.Snapshot(s.registry.stats[i]);
      var health := Health.Observed(s.health, Health.HealthScore(Health.DEFAULT_WEIGHTS, m), now, HEALTH_SUSTAIN_MS);
      s.(decider := s.decider.(current := Some(m)), health := health,
         probes := Probe.HealthApplied(s.probes, Health.LevelOf(health.grade)))
  }

  function EdgeObserved(curve: Scoring.LossCurve, s: State, obs: Observation, now: nat): State {
    if !Known(s, obs) then s else
      var p := Probed(s, obs, now);
      Refreshed(SelectedBest(AfterScreening(curve, p, now), Admitted(curve, p, now), now), obs, now)
  }

  predicate EndsWith(text: string, suffix: string) {
    |suffix| <= |text| && text[|text| - |suffix|..] == suffix
  }

  predicate SomeBreaker(s: State, t: TransportKind) { exists k | k in s.breakers :: EndsWith(k, Suffix(t)) }

  // Every breaker of the transport is charged, and the report counts as a trip even if none opens.
  function BreakersCharged(s: State, t: TransportKind, now: nat): State {
    s.(breakers := map k | k in s.breakers ::
                     if EndsWith(k, Suffix(t)) then Circuit.Failed(s.breakers[k], now) else s.breakers[k],
       counters := s.counters.(circuitTrips := s.counters.circuitTrips + if SomeBreaker(s, t) then 1 else 0))
  }

  function TransportFailed(s: State, t: TransportKind, now: nat): State
    requires t in s.machines ==> Fallback.Usable(s.chain)
  {
    var c := BreakersCharged(s, t, now);
    if t !in s.machines then c else
      var m := StateMachine.AfterFailure(s.machines[t]);
      var signal := if m.state.Failed? then Fallback.StateFailed else Fallback.HandshakeFailure;
      c.(machines := c.machines[t := m],
         chain := Fallback.Observed(c.chain, [Fallback.Report(t, signal)], now),
         counters := c.counters.(
           transportFallbacks := c.counters.transportFallbacks + if m.state.Failed? then 1 else 0))
  }

  function MarkedHealthy(s: State, now: nat): State {
    s.(session := if s.session.Some? then Some(s.session.value.(lastHealthy := now)) else None)
  }

  function TransportSucceeded(s: State, t: TransportKind, now: nat): State {
    MarkedHealthy(s, now).(
      machines := if t in s.machines then s.machines[t := StateMachine.AfterSuccess(s.machines[t])] else s.machines,
      breakers := map k | k in s.breakers ::
                    if EndsWith(k, Suffix(t)) then Circuit.Succeeded(s.breakers[k]) else s.breakers[k])
  }

  // ---------------------------------------------------------------------
  // The code

  class RouteEngine {
    const cfg: Config
    const curve: Scoring.LossCurve
    const registry: Edges.EdgeRegistry
    const decider: Hysteresis.RouteDecider
    const fallback: Fallback.FallbackEngine
    const health: Health.HealthTracker
    const probe: Probe.ProbeScheduler
    var machines: map<TransportKind, StateMachine.Machine>
    var breakers: map<string, Circuit.Breaker>
    var session: Session.Session?
    var current: Option<RouteCandidate>
    var counters: Counters
    var drawn: nat

    ghost function Repr(): set<object>
      reads this
    {
      {this, registry, decider, fallback, health, probe} + if session == null then {} else {session}
    }

    ghost function View(): State
      reads this, Repr()
    {
      State(cfg, registry.View(), decider.View(), fallback.View(), machines, breakers, health.View(), probe.View(),
            if session == null then None else Some(session.View()), current, counters, drawn)
    }

    constructor (cfg: Config, curve: Scoring.LossCurve)
      ensures View() == Initial(cfg) && this.curve == curve
      ensures fresh(Repr())
    {
      this.cfg, this.curve := cfg, curve;
      registry := new Edges.EdgeRegistry();
      decider := new Hysteresis.RouteDecider(Hysteresis.DEFAULT);
      fallback := new Fallback.FallbackEngine(Some(cfg.fallbackOrder));
      health := new Health.HealthTracker();
      probe := new Probe.ProbeScheduler();
      machines := map t | t in cfg.supported :: StateMachine.Fresh(StateMachine.DEFAULT);
      breakers, session, current, counters, drawn := map[], null, None, Counters(0, 0, 0), 0;
    }

    method SetEdges(infos: seq<EdgeInfo>, now: nat) returns (accepted: seq<string>)
      modifies registry
      ensures View() == old(View()).(registry := Edges.Ingested(old(registry.View()), infos, now))
    {
      accepted := registry.Ingest(infos, now);
    }

    method SetVpnState(now: nat)
      modifies session
      ensures session == old(session) && View() == MarkedHealthy(old(View()), now)
    {
      if session != null { session.MarkHealthy(now); }
    }

    method OnEdgeObservation(obs: Observation, now: nat) returns (known: bool)
      modifies Repr()
      ensures known == Known(old(View()), obs)
      ensures View() == EdgeObserved(curve, old(View()), obs, now)
      ensures fresh(Repr() - old(Repr()))
    {
      known := registry.Observe(obs.edgeId, obs.latency, obs.jitter, obs.lost, obs.handshake, now);
      if !known { return; }
      assert View() == Probed(old(View()), obs, now);
      var plain := registry.RouteCandidates(cfg.supported);
      var candidates := Scoring.Scored(curve, cfg.weights, plain);
      ghost var p := View();
      var admitted := Screen(candidates, now);
      assert View() == AfterScreening(curve, p, now) && admitted == Admitted(curve, p, now);
      SelectBest(admitted, now);
      Refresh(obs, now);
    }

    method Refresh(obs: Observation, now: nat)
      modifies decider, health, probe
      ensures View() == Refreshed(old(View()), obs, now)
    {
      if current.Some? && Edges.EdgeIdOf(current.value.id) == obs.edgeId {
        var i := Edges.StatsIndex(registry.stats, obs.edgeId);
        if i < |registry.stats| {
          var m := Edges.Snapshot(registry.stats[i]);
          decider.UpdateCurrentMetrics(m);
          var grade, _ := health.Observe(Health.HealthScore(Health.DEFAULT_WEIGHTS, m), now, HEALTH_SUSTAIN_MS);
          probe.ApplyHealth(Health.LevelOf(grade));
        }
      }
    }

    // `candidates.retain`: asks, and if need be creates, every candidate's breaker.
    method Screen(cs: seq<RouteCandidate>, now: nat) returns (kept: seq<RouteCandidate>)
      modifies this`breakers
      ensures breakers == Screened(old(breakers), cfg.circuit, cs, now).0
      ensures kept == Screened(old(breakers), cfg.circuit, cs, now).1
    {
      kept := [];
      ghost var all := Screened(breakers, cfg.circuit, cs, now);
      for i := 0 to |cs|
        invariant ScreenedSoFar(all, breakers, cfg.circuit, cs, i, now, kept)
      {
        var key := KeyOf(cs[i]);
        var b := BreakerAt(breakers, cfg.circuit, key);
        ScreenOne(all, breakers, cfg.circuit, cs, i, now, kept);
        breakers := breakers[key := Circuit.Asked(b, now)];
        if !Circuit.Refuses(b, now) { kept := kept + [cs[i]]; }
      }
      assert cs[|cs|..] == [];
    }

    method SelectBest(cs: seq<RouteCandidate>, now: nat)
      modifies this`current, this`session, this`counters, this`drawn, decider, session
      ensures View() == SelectedBest(old(View()), cs, now)
      ensures session == old(session) || fresh(session)
    {
      if cs == [] { return; }
      var best := Best(cs);
      var bestEdge := Edges.EdgeIdOf(best.id);
      if current.None? {
        ApplySelected(bestEdge, best, now);
        return;
      }
      ghost var at := BestIsFirstMaximum(cs);
      var target := FirstWithId(cs, best.id);
      var switched := Consult(best, now);
      if switched { ApplySelected(bestEdge, target.value, now); }
    }

    // Asks the decider; a switch also bans the route switched to.
    method Consult(best: RouteCandidate, now: nat) returns (switched: bool)
      modifies decider
      ensures switched == Hysteresis.VerdictOf(old(decider.View()), best, now).Switch?
      ensures decider.View() == Hysteresis.Consulted(old(decider.View()), cfg.cooldownMs, best, now)
    {
      var verdict := decider.Evaluate(best, now);
      switched := verdict.Switch?;
      if switched { decider.ApplyCooldown(verdict.id, now + cfg.cooldownMs); }
    }

    method ApplySelected(edge: string, c: RouteCandidate, now: nat)
      modifies this`current, this`session, this`counters, this`drawn, session
      ensures View() == Selected(old(View()), edge, c, now)
      ensures session == old(session) || fresh(session)
    {
      var first := current.None?;
      var transportChanged := current.None? || current.value.transport != c.transport;
      var edgeChanged := current.None? || Edges.EdgeIdOf(current.value.id) != edge;
      current := Some(c);
      if first {
        session := new Session.Session.Begin(c.transport, Some(edge), now, drawn, drawn + 1);
        drawn := drawn + 2;
      } else if session != null {
        if transportChanged {
          session.Migrate(c.transport, Some(edge), now, drawn);
          drawn := drawn + 1;
          counters := counters.(routeChanges := counters.routeChanges + 1);
        } else if edgeChanged {
          session.Migrate(c.transport, Some(edge), now, drawn);
          drawn := drawn + 1;
        } else {
          session.MarkHealthy(now);
        }
      }
      if transportChanged && !first {
        counters := counters.(transportFallbacks := counters.transportFallbacks + 1);
      }
    }

    method ReportTransportFailure(t: TransportKind, now: nat)
      requires t in machines ==> Fallback.Usable(fallback.View())
      modifies this`machines, this`breakers, this`counters, fallback
      ensures View() == TransportFailed(old(View()), t, now)
    {
      var hit := ChargeBreakers(t, now);
      if hit { counters := counters.(circuitTrips := counters.circuitTrips + 1); }
      assert View() == BreakersCharged(old(View()), t, now);
      if t in machines {
        var m := StateMachine.AfterFailure(machines[t]);
        machines := machines[t := m];
        if m.state.Failed? { counters := counters.(transportFallbacks := counters.transportFallbacks + 1); }
        var signal := if m.state.Failed? then Fallback.StateFailed else Fallback.HandshakeFailure;
        var _ := fallback.Observe([Fallback.Report(t, signal)], now);
      }
    }

    method ChargeBreakers(t: TransportKind, now: nat) returns (hit: bool)
      modifies this`breakers
      ensures hit == SomeBreaker(old(View()), t)
      ensures breakers == BreakersCharged(old(View()), t, now).breakers
    {
      hit := false;
      var todo := breakers.Keys;
      while todo != {}
        invariant todo <= breakers.Keys == old(breakers).Keys
        invariant hit == exists k | k in old(breakers).Keys - todo :: EndsWith(k, Suffix(t))
        invariant forall k | k in breakers ::
                    breakers[k] == if k !in todo && EndsWith(k, Suffix(t))
                                   then Circuit.Failed(old(breakers)[k], now) else old(breakers)[k]
        decreases todo
      {
        var key :| key in todo;
        if EndsWith(key, Suffix(t)) {
          breakers := breakers[key := Circuit.Failed(breakers[key], now)];
          hit := true;
        }
        todo := todo - {key};
      }
    }

    method ReportTransportSuccess(t: TransportKind, now: nat)
      modifies this`machines, this`breakers, session
      ensures session == old(session) && View() == TransportSucceeded(old(View()), t, now)
    {
      if t in machines { machines := machines[t := StateMachine.AfterSuccess(machines[t])]; }
      if session != null { session.MarkHealthy(now); }
      CreditBreakers(t);
    }

    method CreditBreakers(t: TransportKind)
      modifies this`breakers
      ensures breakers == map k | k in old(breakers) ::
              if EndsWith(k, Suffix(t)) then Circuit.Succeeded(old(breakers)[k]) else old(breakers)[k]
    {
      var todo := breakers.Keys;
      while todo != {}
        invariant todo <= breakers.Keys == old(breakers).Keys
        invariant forall k | k in breakers ::
                    breakers[k] == if k !in todo && EndsWith(k, Suffix(t))
                                   then Circuit.Succeeded(old(breakers)[k]) else old(breakers)[k]
        decreases todo
      {
        var key :| key in todo;
        if EndsWith(key, Suffix(t)) { breakers := breakers[key := Circuit.Succeeded(breakers[key])]; }
        todo := todo - {key};
      }
    }
  }
}
