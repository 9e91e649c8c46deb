/** What is needed to follow a run of the engine step by step from its initial state: registration,
    the candidates and scores of edges on one transport, and the effect of one probe. */
module EngineScenes {
  import opened Common
  import opened Model
  import opened Engine
  import opened EngineTheorems
  import opened EngineRuns
  import opened EngineEvidence
  import opened EngineBreakers
  import Circuit
  import Edges
  import Hysteresis
  import Scoring

  // An edge on Quic only, and an engine that supports nothing else, with the default weights.
  const EXPIRY := 3_600_000

  function Spot(name: string): EdgeInfo { EdgeInfo(name, "", "address", [Quic], EXPIRY) }

  function Setup(cooldownMs: nat): Config { Config(Scoring.DEFAULT, Circuit.DEFAULT, cooldownMs, [Quic], [Quic]) }

  predicate Plain(r: Edges.Registry) { |r.edges| == |r.stats| && forall e | e in r.edges :: e.supported == [Quic] }

  // ---------------------------------------------------------------------
  // Registration

  function NewStatsOf(infos: seq<EdgeInfo>): (r: seq<Edges.Stats>)
    ensures |r| == |infos| && forall i | 0 <= i < |infos| :: r[i] == Edges.NewStats(infos[i])
  {
    seq(|infos|, i requires 0 <= i < |infos| => Edges.NewStats(infos[i]))
  }

  ghost predicate Distinct(infos: seq<EdgeInfo>) {
    && (forall e | e in infos :: Edges.Acceptable(e, 0))
    && forall i, j | 0 <= i < j < |infos| :: infos[i].id != infos[j].id
  }

  lemma {:induction false} AddedFresh(infos: seq<EdgeInfo>, k: nat)
    requires Distinct(infos) && k <= |infos|
    ensures Edges.Added(Edges.Registry(infos[..k], NewStatsOf(infos[..k])), infos[k..], 0)
            == Edges.Registry(infos, NewStatsOf(infos))
    decreases |infos| - k
  {
    if k == |infos| {
      assert infos[..k] == infos;
    } else {
      AddedFresh(infos, k + 1);
      assert infos[k..][0] == infos[k] && infos[k..][1..] == infos[k + 1..];
      assert infos[..k + 1] == infos[..k] + [infos[k]];
      assert NewStatsOf(infos[..k + 1]) == NewStatsOf(infos[..k]) + [Edges.NewStats(infos[k])];
      assert forall i | 0 <= i < k :: infos[..k][i].id != infos[k].id;
    }
  }

  lemma IngestedFresh(infos: seq<EdgeInfo>)
    requires Distinct(infos)
    ensures Edges.Ingested(Edges.EMPTY, infos, 0) == Edges.Registry(infos, NewStatsOf(infos))
  {
    AddedFresh(infos, 0);
    assert infos[..0] == [] && infos[0..] == infos && NewStatsOf([]) == [];
    Edges.IngestedPaired(Edges.EMPTY, infos, 0);
  }

  // ---------------------------------------------------------------------
  // Candidates of such a registry

  function RouteAt(curve: Scoring.LossCurve, r: Edges.Registry, i: nat): RouteCandidate
    requires i < |r.edges| && i < |r.stats|
  {
    Bare(r, i).(score := Some(Scoring.Score(curve, Scoring.DEFAULT, Edges.Snapshot(r.stats[i]))))
  }

  function Bare(r: Edges.Registry, i: nat): RouteCandidate
    requires i < |r.edges| && i < |r.stats|
  {
    Edges.CandidateOf(r.stats[i].edgeId, Edges.Snapshot(r.stats[i]), r.edges[i], Quic)
  }

  function BareFrom(r: Edges.Registry, k: nat): seq<RouteCandidate>
    requires |r.edges| == |r.stats| && k <= |r.stats|
    decreases |r.stats| - k
  {
    if k == |r.stats| then [] else [Bare(r, k)] + BareFrom(r, k + 1)
  }

  lemma {:induction false} BareFromAt(r: Edges.Registry, k: nat)
    requires |r.edges| == |r.stats| && k <= |r.stats|
    ensures |BareFrom(r, k)| == |r.stats| - k
    ensures forall i | 0 <= i < |BareFrom(r, k)| :: BareFrom(r, k)[i] == Bare(r, k + i)
    decreases |r.stats| - k
  {
    if k < |r.stats| { BareFromAt(r, k + 1); }
  }

  lemma {:induction false} QuicCandidates(r: Edges.Registry, k: nat)
    requires Edges.Paired(r) && Plain(r) && k <= |r.stats|
    ensures Edges.CandidatesOf(r.stats[k..], r.edges, [Quic]) == BareFrom(r, k)
    decreases |r.stats| - k
  {
    if k < |r.stats| {
      QuicCandidates(r, k + 1);
      QuicOfStats(r, k);
      Edges.CandidatesStep(r.stats, r.edges, [Quic], k);
    }
  }

  lemma QuicOfStats(r: Edges.Registry, k: nat)
    requires Edges.Paired(r) && Plain(r) && k < |r.stats|
    ensures Edges.OfStats(r.stats[k], r.edges, [Quic]) == [Bare(r, k)]
  {
    assert r.edges[k].id == r.stats[k].edgeId && r.edges[k] in r.edges;
    QuicOfEdge(r.stats[k].edgeId, Edges.Snapshot(r.stats[k]), r.edges[k]);
  }

  lemma QuicOfEdge(id: string, m: Metrics, info: EdgeInfo)
    requires info.supported == [Quic]
    ensures Edges.OfEdge(id, m, info, [Quic]) == [Edges.CandidateOf(id, m, info, Quic)]
  {
    assert [Quic][1..] == [];
  }

  lemma CandidatesAre(curve: Scoring.LossCurve, s: State)
    requires Edges.Paired(s.registry) && Plain(s.registry)
    requires s.cfg.supported == [Quic] && s.cfg.weights == Scoring.DEFAULT
    ensures var cs := Candidates(curve, s);
            |cs| == |s.registry.stats| && forall i | 0 <= i < |cs| :: cs[i] == RouteAt(curve, s.registry, i)
  {
    var r := s.registry;
    QuicCandidates(r, 0);
    BareFromAt(r, 0);
    assert r.stats[0..] == r.stats;
    assert Edges.CandidatesOf(r.stats, r.edges, [Quic]) == BareFrom(r, 0);
  }

  // ---------------------------------------------------------------------
  // One probe

  // No failure was ever reported.
  ghost predicate AllFresh(breakers: map<string, Circuit.Breaker>, cfg: Circuit.Config) {
    forall k | k in breakers :: breakers[k] == Circuit.Fresh(cfg)
  }

  lemma {:induction false} ScreenedFresh(
    breakers: map<string, Circuit.Breaker>, cfg: Circuit.Config, cs: seq<RouteCandidate>, now: nat)
    requires AllFresh(breakers, cfg)
    ensures Screened(breakers, cfg, cs, now).1 == cs && AllFresh(Screened(breakers, cfg, cs, now).0, cfg)
    decreases |cs|
  {
    if cs != [] { ScreenedFresh(breakers[KeyOf(cs[0]) := Circuit.Fresh(cfg)], cfg, cs[1..], now); }
  }

  ghost predicate Quiet(s: State) {
    && Ok(s) && Plain(s.registry) && AllFresh(s.breakers, s.cfg.circuit)
    && s.cfg.supported == [Quic] && s.cfg.weights == Scoring.DEFAULT
  }

  function Hit(r: Edges.Registry, i: nat, latency: Measure, lost: bool): Observation
    requires i < |r.stats|
  {
    Observation(r.stats[i].edgeId, latency, 0.0, lost, None)
  }

  function AfterHit(r: Edges.Registry, i: nat, latency: Measure, lost: bool, now: nat): Edges.Registry
    requires i < |r.stats|
  {
    r.(stats := r.stats[i := Edges.Probed(r.stats[i], latency, 0.0, lost, None, now)])
  }

  // Edge j has the highest score of all.
  ghost predicate Wins(curve: Scoring.LossCurve, r: Edges.Registry, j: nat) {
    && j < |r.stats|
    && forall i | 0 <= i < |r.stats| && i != j ::
         Scoring.Score(curve, Scoring.DEFAULT, Edges.Snapshot(r.stats[i]))
         < Scoring.Score(curve, Scoring.DEFAULT, Edges.Snapshot(r.stats[j]))
  }

  lemma HitAdmits(curve: Scoring.LossCurve, s: State, i: nat, latency: Measure, lost: bool, now: nat, j: nat)
    requires Quiet(s) && i < |s.registry.stats| && Wins(curve, AfterHit(s.registry, i, latency, lost, now), j)
    ensures var obs, r := Hit(s.registry, i, latency, lost), AfterHit(s.registry, i, latency, lost, now);
            var p := Probed(s, obs, now);
            && Known(s, obs) && Edges.StatsIndex(r.stats, obs.edgeId) == i
            && p == s.(registry := r) && Edges.Paired(r) && Plain(r)
            && RoutesOf(curve, r, Admitted(curve, p, now)) && Best(Admitted(curve, p, now)) == RouteAt(curve, r, j)
            && AllFresh(AfterScreening(curve, p, now).breakers, s.cfg.circuit)
  {
    var obs, r := Hit(s.registry, i, latency, lost), AfterHit(s.registry, i, latency, lost, now);
    PairedIndex(s.registry, i);
    ProbedOk(s, obs, now);
    PairedIndex(r, i);
    var p := Probed(s, obs, now);
    assert p == s.(registry := r);
    CandidatesAre(curve, p);
    ScreenedFresh(s.breakers, s.cfg.circuit, Candidates(curve, p), now);
    BestWins(curve, r, Admitted(curve, p, now), j);
  }

  // One candidate an edge.
  ghost predicate RoutesOf(curve: Scoring.LossCurve, r: Edges.Registry, cs: seq<RouteCandidate>) {
    0 < |cs| == |r.stats| == |r.edges| && forall i | 0 <= i < |cs| :: cs[i] == RouteAt(curve, r, i)
  }

  lemma BestWins(curve: Scoring.LossCurve, r: Edges.Registry, cs: seq<RouteCandidate>, j: nat)
    requires Wins(curve, r, j) && RoutesOf(curve, r, cs)
    ensures Best(cs) == cs[j]
  {
    var n := BestIsFirstMaximum(cs);
    assert ScoreOf()(cs[j]) <= ScoreOf()(cs[n]);
  }

  lemma RouteEdge(curve: Scoring.LossCurve, r: Edges.Registry, i: nat, j: nat)
    requires Edges.Paired(r) && i < |r.stats| && j < |r.stats|
    ensures Edges.EdgeIdOf(RouteAt(curve, r, j).id) == r.stats[j].edgeId
    ensures r.stats[i].edgeId == r.stats[j].edgeId <==> i == j
  {
    Edges.CandidateIdInjective(r.stats[j].edgeId, Quic, r.stats[j].edgeId, Quic);
    PairedIndex(r, i);
    PairedIndex(r, j);
  }

  predicate Takes(current: Option<RouteCandidate>, d: Hysteresis.Decider, c: RouteCandidate, now: nat) {
    current.None? || Hysteresis.VerdictOf(d, c, now).Switch?
  }

  // The decider asked about c, if a route is current.
  function Consulting(current: Option<RouteCandidate>, d: Hysteresis.Decider, eng: nat, c: RouteCandidate, now: nat)
    : Hysteresis.Decider
  {
    if current.None? then d else Hysteresis.Consulted(d, eng, c, now)
  }

  // It is told the statistics of edge i if the route is then on it.
  function Telling(
    current: Option<RouteCandidate>, d: Hysteresis.Decider, r: Edges.Registry, i: nat): Hysteresis.Decider
    requires i < |r.stats|
  {
    if current.Some? && Edges.EdgeIdOf(current.value.id) == r.stats[i].edgeId
    then d.(current := Some(Edges.Snapshot(r.stats[i])))
    else d
  }

  lemma SelectionTakes(s: State, cs: seq<RouteCandidate>, now: nat)
    requires cs != []
    ensures var c, q := Best(cs), SelectedBest(s, cs, now);
            && (Takes(s.current, s.decider, c, now) ==>
                  q.current.Some? && q.current.value.id == c.id && q.current.value in cs)
            && (!Takes(s.current, s.decider, c, now) ==> q.current == s.current)
  {
    var n := BestIsFirstMaximum(cs);
    FirstWithIdFinds(cs, Best(cs).id);
    assert cs[n] in cs;
  }

  // Only one candidate goes by an id.
  lemma SameRoute(curve: Scoring.LossCurve, r: Edges.Registry, i: nat, j: nat)
    requires Edges.Paired(r) && i < |r.stats| && j < |r.stats| && RouteAt(curve, r, i).id == RouteAt(curve, r, j).id
    ensures i == j
  {
    RouteEdge(curve, r, i, i);
    RouteEdge(curve, r, i, j);
  }

  lemma RouteSelected(curve: Scoring.LossCurve, s: State, cs: seq<RouteCandidate>, now: nat, j: nat)
    requires Edges.Paired(s.registry) && RoutesOf(curve, s.registry, cs) && j < |cs|
    requires Best(cs) == RouteAt(curve, s.registry, j)
    ensures var q, c := SelectedBest(s, cs, now), Best(cs);
            && q.current == (if Takes(s.current, s.decider, c, now) then Some(c) else s.current)
            && q.decider == Consulting(s.current, s.decider, s.cfg.cooldownMs, c, now)
            && q.registry == s.registry && q.breakers == s.breakers && q.cfg == s.cfg
  {
    SelectionTakes(s, cs, now);
    SelectionDecider(s, cs, now);
    SelectedBestFrame(s, cs, now);
    var q := SelectedBest(s, cs, now);
    if Takes(s.current, s.decider, Best(cs), now) {
      var n :| 0 <= n < |cs| && cs[n] == q.current.value;
      SameRoute(curve, s.registry, n, j);
    }
  }

  lemma HitAsks(curve: Scoring.LossCurve, s: State, i: nat, latency: Measure, lost: bool, now: nat, j: nat)
    requires Quiet(s) && i < |s.registry.stats| && Wins(curve, AfterHit(s.registry, i, latency, lost, now), j)
    ensures var obs := Hit(s.registry, i, latency, lost);
            var c := RouteAt(curve, AfterHit(s.registry, i, latency, lost, now), j);
            Answered(curve, s, Observe(obs, now))
            == (if s.current.None? then [] else [Hysteresis.RecordOf(s.decider, c, now)])
  {
    HitAdmits(curve, s, i, latency, lost, now, j);
  }

  lemma RefreshTells(q: State, obs: Observation, now: nat, i: nat)
    requires i < |q.registry.stats| && Edges.StatsIndex(q.registry.stats, obs.edgeId) == i
    ensures var s' := Refreshed(q, obs, now);
            && s'.cfg == q.cfg && s'.registry == q.registry && s'.current == q.current && s'.breakers == q.breakers
            && s'.decider == Telling(q.current, q.decider, q.registry, i)
  {
  }

  // One probe of an edge, from a state with no failure reports, when edge j comes out best.
  lemma HitStep(curve: Scoring.LossCurve, s: State, i: nat, latency: Measure, lost: bool, now: nat, j: nat)
    requires Quiet(s) && i < |s.registry.stats| && Wins(curve, AfterHit(s.registry, i, latency, lost, now), j)
    ensures var obs, r := Hit(s.registry, i, latency, lost), AfterHit(s.registry, i, latency, lost, now);
            var s', c := EdgeObserved(curve, s, obs, now), RouteAt(curve, r, j);
            && s'.cfg == s.cfg && s'.registry == r && Plain(r) && AllFresh(s'.breakers, s.cfg.circuit)
            && s'.current == (if Takes(s.current, s.decider, c, now) then Some(c) else s.current)
            && s'.decider == Telling(s'.current, Consulting(s.current, s.decider, s.cfg.cooldownMs, c, now), r, i)
  {
    var obs, r := Hit(s.registry, i, latency, lost), AfterHit(s.registry, i, latency, lost, now);
    HitAdmits(curve, s, i, latency, lost, now, j);
    var p := Probed(s, obs, now);
    var a, cs := AfterScreening(curve, p, now), Admitted(curve, p, now);
    RouteSelected(curve, a, cs, now, j);
    RefreshTells(SelectedBest(a, cs, now), obs, now, i);
  }

  // ---------------------------------------------------------------------
  // Runs

  // What there is to say of the engine after a run.
  datatype Scene = Scene(
    registry: Edges.Registry, current: Option<RouteCandidate>, decider: Hysteresis.Decider, log: seq<Hysteresis.Record>)

  ghost predicate Shows(curve: Scoring.LossCurve, cfg: Config, inputs: seq<Input>, x: Scene) {
    && cfg.fallbackOrder != [] && Ordered(inputs)
    && ShowsState(After(curve, Initial(cfg), inputs), cfg, x)
    && Log(curve, Initial(cfg), inputs) == x.log
  }

  ghost predicate ShowsState(s: State, cfg: Config, x: Scene) {
    Quiet(s) && s.cfg == cfg && s.registry == x.registry && s.current == x.current && s.decider == x.decider
  }

  lemma Registers(curve: Scoring.LossCurve, cooldownMs: nat, infos: seq<EdgeInfo>)
    requires Distinct(infos) && forall e | e in infos :: e.supported == [Quic]
    ensures Shows(curve, Setup(cooldownMs), [SetEdges(infos, 0)],
                  Scene(Edges.Registry(infos, NewStatsOf(infos)), None, Hysteresis.Fresh(Hysteresis.DEFAULT), []))
  {
    var cfg, inputs := Setup(cooldownMs), [SetEdges(infos, 0)];
    IngestedFresh(infos);
    ReachableOk(curve, cfg, inputs);
    assert inputs[..0] == [];
    LogStep(curve, Initial(cfg), [], SetEdges(infos, 0));
    assert [] + [SetEdges(infos, 0)] == inputs;
  }

  // The scene after a probe of edge i at which edge j comes out best.
  function SceneAfter(
    curve: Scoring.LossCurve, cfg: Config, x: Scene, i: nat, latency: Measure, lost: bool, now: nat, j: nat): Scene
    requires i < |x.registry.stats| && j < |x.registry.stats| && j < |x.registry.edges|
  {
    var r := AfterHit(x.registry, i, latency, lost, now);
    var c := RouteAt(curve, r, j);
    var current := if Takes(x.current, x.decider, c, now) then Some(c) else x.current;
    Scene(r, current, Telling(current, Consulting(x.current, x.decider, cfg.cooldownMs, c, now), r, i),
          x.log + if x.current.None? then [] else [Hysteresis.RecordOf(x.decider, c, now)])
  }

  lemma SceneShown(s: State, s': State, cfg: Config, x: Scene, y: Scene)
    requires ShowsState(s, cfg, x) && Ok(s') && Plain(s'.registry) && AllFresh(s'.breakers, cfg.circuit)
            && s'.cfg == cfg
    requires s'.registry == y.registry && s'.current == y.current && s'.decider == y.decider
    ensures ShowsState(s', cfg, y)
  {
  }

  lemma HitShows(
    curve: Scoring.LossCurve, cfg: Config, x: Scene, s: State,
    i: nat, latency: Measure, lost: bool, now: nat, j: nat, s': State, y: Scene)
    requires ShowsState(s, cfg, x) && i < |x.registry.stats| && j < |x.registry.stats| && j < |x.registry.edges|
    requires Wins(curve, AfterHit(x.registry, i, latency, lost, now), j)
    requires s' == EdgeObserved(curve, s, Hit(x.registry, i, latency, lost), now)
    requires y == SceneAfter(curve, cfg, x, i, latency, lost, now, j)
    ensures ShowsState(s', cfg, y)
  {
    HitStep(curve, s, i, latency, lost, now, j);
    StepOk(curve, s, Observe(Hit(x.registry, i, latency, lost), now));
    SceneShown(s, s', cfg, x, y);
  }

  lemma ProbeShows(
    curve: Scoring.LossCurve, cfg: Config, x: Scene, s: State,
    i: nat, latency: Measure, lost: bool, now: nat, j: nat)
    requires ShowsState(s, cfg, x) && i < |x.registry.stats|
    requires Wins(curve, AfterHit(x.registry, i, latency, lost, now), j)
    ensures j < |x.registry.edges|
    ensures var e := Observe(Hit(x.registry, i, latency, lost), now);
            var y := SceneAfter(curve, cfg, x, i, latency, lost, now, j);
            ShowsState(Next(curve, s, e), cfg, y) && x.log + Answered(curve, s, e) == y.log
  {
    assert j < |x.registry.stats| == |x.registry.edges|;
    var e := Observe(Hit(x.registry, i, latency, lost), now);
    HitShows(curve, cfg, x, s, i, latency, lost, now, j,
             Next(curve, s, e), SceneAfter(curve, cfg, x, i, latency, lost, now, j));
    HitAsks(curve, s, i, latency, lost, now, j);
  }

  lemma OrderedSnoc(inputs: seq<Input>, e: Input)
    requires Ordered(inputs) && LastAt(inputs) <= e.at
    ensures Ordered(inputs + [e])
  {
  }

  lemma LaterShows(curve: Scoring.LossCurve, cfg: Config, inputs: seq<Input>, e: Input, s: State, x: Scene, y: Scene)
    requires Shows(curve, cfg, inputs, x) && LastAt(inputs) <= e.at && s == After(curve, Initial(cfg), inputs)
    requires ShowsState(Next(curve, s, e), cfg, y) && y.log == x.log + Answered(curve, s, e)
    ensures Shows(curve, cfg, inputs + [e], y)
  {
    OrderedSnoc(inputs, e);
    AfterSnoc(curve, Initial(cfg), inputs, e);
    ReachableOk(curve, cfg, []);
    LogStep(curve, Initial(cfg), inputs, e);
  }

  /** A run goes on with a probe. */
  lemma Probes(
    curve: Scoring.LossCurve, cfg: Config, inputs: seq<Input>, x: Scene,
    i: nat, latency: Measure, lost: bool, now: nat, j: nat)
    requires Shows(curve, cfg, inputs, x) && LastAt(inputs) <= now && i < |x.registry.stats|
    requires Wins(curve, AfterHit(x.registry, i, latency, lost, now), j)
    ensures j < |x.registry.edges|
    ensures Shows(curve, cfg, inputs + [Observe(Hit(x.registry, i, latency, lost), now)],
                  SceneAfter(curve, cfg, x, i, latency, lost, now, j))
  {
    var e, s := Observe(Hit(x.registry, i, latency, lost), now), After(curve, Initial(cfg), inputs);
    ProbeShows(curve, cfg, x, s, i, latency, lost, now, j);
    LaterShows(curve, cfg, inputs, e, s, x, SceneAfter(curve, cfg, x, i, latency, lost, now, j));
  }

  /** The first route is taken at once; the decider hears of it only if its edge was the one probed. */
  lemma FirstProbe(
    curve: Scoring.LossCurve, cfg: Config, inputs: seq<Input>, x: Scene,
    i: nat, latency: Measure, lost: bool, now: nat, j: nat, r: Edges.Registry)
    requires Shows(curve, cfg, inputs, x) && LastAt(inputs) <= now && x.current.None?
    requires i < |x.registry.stats| && r == AfterHit(x.registry, i, latency, lost, now) && Wins(curve, r, j)
    ensures j < |r.edges|
    ensures Shows(curve, cfg, inputs + [Observe(Hit(x.registry, i, latency, lost), now)],
                  Scene(r, Some(RouteAt(curve, r, j)),
                        if i == j then x.decider.(current := Some(Edges.Snapshot(r.stats[j]))) else x.decider, x.log))
  {
    Probes(curve, cfg, inputs, x, i, latency, lost, now, j);
    RouteEdge(curve, r, i, j);
    assert x.log + [] == x.log;
  }

  /** A later route is taken if the decider says so. */
  lemma SwitchProbe(
    curve: Scoring.LossCurve, cfg: Config, inputs: seq<Input>, x: Scene,
    i: nat, latency: Measure, lost: bool, now: nat, j: nat, r: Edges.Registry, c: RouteCandidate)
    requires Shows(curve, cfg, inputs, x) && LastAt(inputs) <= now && x.current.Some?
    requires i < |x.registry.stats| && r == AfterHit(x.registry, i, latency, lost, now) && Wins(curve, r, j)
    requires j < |r.edges| && c == RouteAt(curve, r, j) && Hysteresis.VerdictOf(x.decider, c, now).Switch?
    ensures Shows(curve, cfg, inputs + [Observe(Hit(x.registry, i, latency, lost), now)],
                  Scene(r, Some(c), Hysteresis.Consulted(x.decider, cfg.cooldownMs, c, now),
                        x.log + [Hysteresis.RecordOf(x.decider, c, now)]))
  {
    Probes(curve, cfg, inputs, x, i, latency, lost, now, j);
    RouteEdge(curve, r, i, j);
    NoNews(x.decider, cfg.cooldownMs, c, now, r, i, j);
  }

  // Metrics the decider just took over with the candidate are no news to it.
  lemma NoNews(
    d: Hysteresis.Decider, eng: nat, c: RouteCandidate, now: nat, r: Edges.Registry, i: nat, j: nat)
    requires i < |r.stats| && j < |r.stats| && c.metrics == Edges.Snapshot(r.stats[j])
    requires Hysteresis.VerdictOf(d, c, now).Switch? && (Edges.EdgeIdOf(c.id) == r.stats[i].edgeId ==> i == j)
    ensures Telling(Some(c), Hysteresis.Consulted(d, eng, c, now), r, i) == Hysteresis.Consulted(d, eng, c, now)
  {
    var d' := Hysteresis.Consulted(d, eng, c, now);
    assert d' == d'.(current := Some(c.metrics));
  }

  /** A route whose own edge is probed and that is kept: the decider hears the news. */
  lemma KeepProbe(
    curve: Scoring.LossCurve, cfg: Config, inputs: seq<Input>, x: Scene,
    i: nat, latency: Measure, lost: bool, now: nat, j: nat, r: Edges.Registry, c: RouteCandidate)
    requires Shows(curve, cfg, inputs, x) && LastAt(inputs) <= now && x.current.Some?
    requires i < |x.registry.stats| && r == AfterHit(x.registry, i, latency, lost, now) && Wins(curve, r, j)
    requires j < |r.edges| && c == RouteAt(curve, r, j) && !Hysteresis.VerdictOf(x.decider, c, now).Switch?
    requires Edges.EdgeIdOf(x.current.value.id) == r.stats[i].edgeId
    ensures Shows(curve, cfg, inputs + [Observe(Hit(x.registry, i, latency, lost), now)],
                  Scene(r, x.current,
                        Hysteresis.Evaluated(x.decider, c, now).(current := Some(Edges.Snapshot(r.stats[i]))),
                        x.log + [Hysteresis.RecordOf(x.decider, c, now)]))
  {
    Probes(curve, cfg, inputs, x, i, latency, lost, now, j);
  }

  /** A route that is kept while another edge is probed: the decider hears nothing. */
  lemma StayProbe(
    curve: Scoring.LossCurve, cfg: Config, inputs: seq<Input>, x: Scene,
    i: nat, latency: Measure, lost: bool, now: nat, j: nat, r: Edges.Registry, c: RouteCandidate)
    requires Shows(curve, cfg, inputs, x) && LastAt(inputs) <= now && x.current.Some?
    requires i < |x.registry.stats| && r == AfterHit(x.registry, i, latency, lost, now) && Wins(curve, r, j)
    requires j < |r.edges| && c == RouteAt(curve, r, j) && !Hysteresis.VerdictOf(x.decider, c, now).Switch?
    requires Edges.EdgeIdOf(x.current.value.id) != r.stats[i].edgeId
    ensures Shows(curve, cfg, inputs + [Observe(Hit(x.registry, i, latency, lost), now)],
                  Scene(r, x.current, Hysteresis.Evaluated(x.decider, c, now),
                        x.log + [Hysteresis.RecordOf(x.decider, c, now)]))
  {
    Probes(curve, cfg, inputs, x, i, latency, lost, now, j);
  }

  lemma HitBacking(curve: Scoring.LossCurve, s: State, i: nat, latency: Measure, lost: bool, now: nat, j: nat)
    requires Quiet(s) && i < |s.registry.stats| && Wins(curve, AfterHit(s.registry, i, latency, lost, now), j)
    ensures var r := AfterHit(s.registry, i, latency, lost, now);
            BackingOf(curve, s, Observe(Hit(s.registry, i, latency, lost), now))
            == if s.current.None? then []
               else [Backing(r.stats[j].samples, SamplesOf(s.registry, Edges.EdgeIdOf(s.current.value.id)))]
  {
    var r := AfterHit(s.registry, i, latency, lost, now);
    HitAdmits(curve, s, i, latency, lost, now, j);
    RouteEdge(curve, r, i, j);
    PairedIndex(r, j);
  }

  lemma ProbeBacking(
    curve: Scoring.LossCurve, cfg: Config, inputs: seq<Input>, x: Scene,
    i: nat, latency: Measure, lost: bool, now: nat, j: nat, r: Edges.Registry)
    requires Shows(curve, cfg, inputs, x) && i < |x.registry.stats|
    requires r == AfterHit(x.registry, i, latency, lost, now) && Wins(curve, r, j)
    ensures Backings(curve, Initial(cfg), inputs + [Observe(Hit(x.registry, i, latency, lost), now)])
            == Backings(curve, Initial(cfg), inputs) +
               if x.current.None? then []
               else [Backing(r.stats[j].samples, SamplesOf(x.registry, Edges.EdgeIdOf(x.current.value.id)))]
  {
    HitBacking(curve, After(curve, Initial(cfg), inputs), i, latency, lost, now, j);
    BackingsStep(curve, Initial(cfg), inputs, Observe(Hit(x.registry, i, latency, lost), now));
  }

  // ---------------------------------------------------------------------
  // Scores of edges without jitter

  lemma ScoreFlat(curve: Scoring.LossCurve, m: Metrics)
    requires m.jitter == 0.0 && m.handshake == 0.0
    ensures Scoring.Score(curve, Scoring.DEFAULT, m)
            == 25.0 + 30.0 * Scoring.LatencyScore(m.latency) + 30.0 * Scoring.LossScore(curve, m.loss)
               + 15.0 * Scoring.StabilityScore(m.stability)
  {
    Scoring.ScoreMonotone(curve, Scoring.DEFAULT, m, m);
    assert Scoring.Sum(Scoring.DEFAULT) == 1.0;
    assert Scoring.Normalize(Scoring.DEFAULT) == Scoring.DEFAULT;
  }

  // An edge with n delivered probes, none lost.
  function Tested(name: string, latency: Measure, n: nat, at: nat): Edges.Stats {
    Edges.Stats(name, Some(latency), Some(0.0), 0.0, 1.0, None, n, 0, n, 0, Some(at), EXPIRY)
  }

  lemma TestedOnce(name: string, latency: Measure, now: nat)
    ensures Edges.Probed(Edges.NewStats(Spot(name)), latency, 0.0, false, None, now) == Tested(name, latency, 1, now)
  {
  }

  lemma TestedTwice(name: string, latency: Measure, at: nat, x: Measure, now: nat)
    ensures Edges.Probed(Tested(name, latency, 1, at), x, 0.0, false, None, now)
            == Tested(name, 0.25 * x + 0.75 * latency, 2, now)
  {
  }

  lemma TestedSnapshot(name: string, latency: Measure, n: nat, at: nat)
    requires 0 < n < 60
    ensures Edges.Snapshot(Tested(name, latency, n, at)) == Metrics(latency, 0.0, 0.0, 1.0, 0.0, 0.0)
  {
  }

  lemma TestedScore(curve: Scoring.LossCurve, name: string, latency: Measure, n: nat, at: nat)
    requires 0 < n < 60
    ensures Scoring.Score(curve, Scoring.DEFAULT, Edges.Snapshot(Tested(name, latency, n, at)))
            == 70.0 + 30.0 * Scoring.LatencyScore(latency)
  {
    TestedSnapshot(name, latency, n, at);
    ScoreFlat(curve, Metrics(latency, 0.0, 0.0, 1.0, 0.0, 0.0));
  }

  function Flat(latency: Measure): Metrics { Metrics(latency, 0.0, 0.0, 1.0, 0.0, 0.0) }

  lemma NewScore(curve: Scoring.LossCurve, info: EdgeInfo)
    ensures Scoring.Score(curve, Scoring.DEFAULT, Edges.Snapshot(Edges.NewStats(info))) == 55.0
  {
    ScoreFlat(curve, Edges.Snapshot(Edges.NewStats(info)));
  }
}
