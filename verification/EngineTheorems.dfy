/** What every step of the engine keeps. */
module EngineTheorems {
  import opened Common
  import opened Model
  import opened Engine
  import Circuit
  import Edges
  import Fallback
  import Hysteresis
  import Scoring
  import Session

  datatype Input =
    | SetEdges(infos: seq<EdgeInfo>, at: nat)
    | VpnState(at: nat)
    | Observe(obs: Observation, at: nat)
    | Failure(transport: TransportKind, at: nat)
    | Success(transport: TransportKind, at: nat)

  function Next(curve: Scoring.LossCurve, s: State, e: Input): (s': State)
    requires Fallback.Usable(s.chain)
    ensures Fallback.Usable(s'.chain)
  {
    match e
    case SetEdges(infos, now) => s.(registry := Edges.Ingested(s.registry, infos, now))
    case VpnState(now) => MarkedHealthy(s, now)
    case Observe(obs, now) => EdgeObserved(curve, s, obs, now)
    case Failure(t, now) => TransportFailed(s, t, now)
    case Success(t, now) => TransportSucceeded(s, t, now)
  }

  // ---------------------------------------------------------------------
  // Screening

  ghost predicate KeyShape(key: string) { exists edge, t :: key == Edges.CandidateId(edge, t) + Suffix(t) }

  ghost predicate BreakersOk(breakers: map<string, Circuit.Breaker>, cfg: Circuit.Config) {
    forall k | k in breakers :: KeyShape(k) && Circuit.Consistent(breakers[k]) && breakers[k].cfg == cfg
  }

  predicate Shut(breakers: map<string, Circuit.Breaker>, key: string) { key in breakers && !breakers[key].state.Open? }

  ghost predicate Shaped(c: RouteCandidate) { exists edge :: c.id == Edges.CandidateId(edge, c.transport) }

  lemma {:induction false} ScreenedKeeps(
    breakers: map<string, Circuit.Breaker>, cfg: Circuit.Config, cs: seq<RouteCandidate>, now: nat)
    requires BreakersOk(breakers, cfg) && forall c | c in cs :: Shaped(c)
    ensures BreakersOk(Screened(breakers, cfg, cs, now).0, cfg)
    ensures forall k | Shut(breakers, k) :: Shut(Screened(breakers, cfg, cs, now).0, k)
    ensures forall c | c in Screened(breakers, cfg, cs, now).1 ::
            c in cs && Shut(Screened(breakers, cfg, cs, now).0, KeyOf(c))
    decreases |cs|
  {
    if cs != [] {
      var c := cs[0];
      var b := BreakerAt(breakers, cfg, KeyOf(c));
      assert c in cs;
      var edge :| c.id == Edges.CandidateId(edge, c.transport);
      assert KeyOf(c) == Edges.CandidateId(edge, c.transport) + Suffix(c.transport);
      var asked := breakers[KeyOf(c) := Circuit.Asked(b, now)];
      forall k | k in asked ensures KeyShape(k) && Circuit.Consistent(asked[k]) && asked[k].cfg == cfg {}
      ScreenedKeeps(asked, cfg, cs[1..], now);
      assert !Circuit.Refuses(b, now) ==> Shut(asked, KeyOf(c));
      assert forall k | Shut(breakers, k) :: Shut(asked, k);
    }
  }

  // ---------------------------------------------------------------------
  // The invariant

  ghost predicate Offered(s: State, c: RouteCandidate) {
    exists i | 0 <= i < |s.registry.edges| && i < |s.registry.stats| ::
      && c.transport in s.cfg.supported && c.transport in s.registry.edges[i].supported
      && c == Edges.CandidateOf(s.registry.stats[i].edgeId, Edges.Snapshot(s.registry.stats[i]),
                                s.registry.edges[i], c.transport).(score := c.score)
  }

  predicate OnKnownRoute(s: State, c: RouteCandidate) {
    && c.transport in s.cfg.supported
    && Edges.Has(s.registry, Edges.EdgeIdOf(c.id))
    && c.id == Edges.CandidateId(Edges.EdgeIdOf(c.id), c.transport)
  }

  predicate SessionMatches(x: Session.Snapshot, c: RouteCandidate) {
    x.transport == c.transport && x.edgeId == Some(Edges.EdgeIdOf(c.id))
  }

  /** Route, session and decider agree. */
  predicate RouteOk(s: State) {
    && (s.session.Some? <==> s.current.Some?)
    && (s.current.Some? ==> SessionMatches(s.session.value, s.current.value) && OnKnownRoute(s, s.current.value))
    && (s.decider.currentId == "" || (s.current.Some? && s.decider.currentId == s.current.value.id))
    && s.counters.routeChanges <= (if s.session.Some? then s.session.value.migrations else 0)
    && (s.session.Some? ==> s.session.value.sessionId < s.drawn && s.session.value.connectionId < s.drawn)
  }

  ghost predicate Ok(s: State) {
    && RouteOk(s)
    && Edges.Paired(s.registry)
    && BreakersOk(s.breakers, s.cfg.circuit)
    && Fallback.Usable(s.chain) && s.chain.index < |s.chain.order|
    && s.decider.cfg == Hysteresis.DEFAULT
  }

  lemma CandidatesOffered(curve: Scoring.LossCurve, s: State)
    requires Edges.Paired(s.registry)
    ensures forall c | c in Candidates(curve, s) :: Offered(s, c) && OnKnownRoute(s, c) && Shaped(c)
  {
    var plain := Edges.CandidatesOf(s.registry.stats, s.registry.edges, s.cfg.supported);
    forall c | c in Candidates(curve, s) ensures Offered(s, c) && OnKnownRoute(s, c) && Shaped(c) {
      var n :| 0 <= n < |plain| && Candidates(curve, s)[n] == c;
      assert plain[n] in plain;
      Edges.CandidatesExactly(s.registry, s.cfg.supported, plain[n]);
      var i :| 0 <= i < |s.registry.edges| && i < |s.registry.stats| &&
        plain[n].transport in s.cfg.supported && plain[n].transport in s.registry.edges[i].supported &&
        plain[n] == Edges.CandidateOf(s.registry.stats[i].edgeId, Edges.Snapshot(s.registry.stats[i]),
                                      s.registry.edges[i], plain[n].transport);
      var edge := s.registry.stats[i].edgeId;
      Edges.CandidateIdInjective(edge, c.transport, edge, c.transport);
      Edges.HasIff(s.registry, edge);
      assert s.registry.edges[i].id == edge;
    }
  }

  // The candidate a selection takes, if it takes one.
  function Pick(s: State, cs: seq<RouteCandidate>, now: nat): Option<RouteCandidate> {
    if cs == [] then None
    else if s.current.None? then Some(Best(cs))
    else if Hysteresis.VerdictOf(s.decider, Best(cs), now).Switch? then FirstWithId(cs, Best(cs).id)
    else None
  }

  lemma PickedRoute(s: State, cs: seq<RouteCandidate>, now: nat)
    ensures var c, s' := Pick(s, cs, now), SelectedBest(s, cs, now);
            && (c.Some? ==>
                  c.value in cs
                  && exists d :: s' == Selected(s.(decider := d), Edges.EdgeIdOf(c.value.id), c.value, now))
            && (c.None? ==> s' == s.(decider := s'.decider))
  {
    if cs != [] {
      var i := BestIsFirstMaximum(cs);
      var best := Best(cs);
      assert cs[i] in cs;
      FirstWithIdFinds(cs, best.id);
      if s.current.None? {
        assert s == s.(decider := s.decider);
      } else {
        var d := Hysteresis.Consulted(s.decider, s.cfg.cooldownMs, best, now);
        if Hysteresis.VerdictOf(s.decider, best, now).Switch? {
          assert SelectedBest(s, cs, now)
              == Selected(s.(decider := d), Edges.EdgeIdOf(best.id), FirstWithId(cs, best.id).value, now);
        } else {
          assert SelectedBest(s, cs, now) == s.(decider := d);
        }
      }
    }
  }

  // The route a step takes, if it takes one.
  function Chosen(curve: Scoring.LossCurve, s: State, e: Input): Option<RouteCandidate> {
    if !e.Observe? || !Known(s, e.obs) then None
    else Pick(AfterScreening(curve, Probed(s, e.obs, e.at), e.at), Admitted(curve, Probed(s, e.obs, e.at), e.at), e.at)
  }

  lemma SelectedOk(s: State, edge: string, c: RouteCandidate, now: nat)
    requires s.session.Some? <==> s.current.Some?
    requires s.current.Some? ==> SessionMatches(s.session.value, s.current.value)
    requires s.counters.routeChanges <= (if s.session.Some? then s.session.value.migrations else 0)
    requires s.session.Some? ==> s.session.value.sessionId < s.drawn && s.session.value.connectionId < s.drawn
    requires OnKnownRoute(s, c) && edge == Edges.EdgeIdOf(c.id)
    requires s.decider.currentId == "" || s.decider.currentId == c.id
    ensures RouteOk(Selected(s, edge, c, now))
  {
  }

  lemma SelectedBestOk(s: State, cs: seq<RouteCandidate>, now: nat)
    requires RouteOk(s) && forall c | c in cs :: OnKnownRoute(s, c)
    ensures RouteOk(SelectedBest(s, cs, now))
    ensures SelectedBest(s, cs, now).decider.cfg == s.decider.cfg
  {
    if cs != [] {
      var i := BestIsFirstMaximum(cs);
      var best := Best(cs);
      assert cs[i] in cs;
      FirstWithIdFinds(cs, best.id);
      if s.current.None? {
        SelectedOk(s, Edges.EdgeIdOf(best.id), best, now);
      } else if Hysteresis.VerdictOf(s.decider, best, now).Switch? {
        var s' := s.(decider := Hysteresis.Consulted(s.decider, s.cfg.cooldownMs, best, now));
        SelectedOk(s', Edges.EdgeIdOf(best.id), FirstWithId(cs, best.id).value, now);
      }
    }
  }

  lemma ProbedOk(s: State, obs: Observation, now: nat)
    requires Ok(s) && Known(s, obs)
    ensures Ok(Probed(s, obs, now))
  {
    var i := Edges.StatsIndex(s.registry.stats, obs.edgeId);
    Edges.ObservedSound(s.registry.stats[i], obs.latency, obs.jitter, obs.lost);
  }

  lemma SelectedBestFrame(s: State, cs: seq<RouteCandidate>, now: nat)
    ensures var s' := SelectedBest(s, cs, now);
            s'.cfg == s.cfg && s'.registry == s.registry && s'.breakers == s.breakers && s'.chain == s.chain
  {
  }

  lemma RefreshedOk(s: State, obs: Observation, now: nat)
    requires Ok(s)
    ensures Ok(Refreshed(s, obs, now))
  {
    var s' := Refreshed(s, obs, now);
    assert s'.registry == s.registry && s'.breakers == s.breakers && s'.chain == s.chain && s'.cfg == s.cfg;
    assert RouteOk(s');
  }

  lemma ScreeningOk(curve: Scoring.LossCurve, s: State, now: nat)
    requires Ok(s)
    ensures Ok(AfterScreening(curve, s, now))
    ensures forall c | c in Admitted(curve, s, now) ::
              c in Candidates(curve, s) && OnKnownRoute(s, c) && Shut(AfterScreening(curve, s, now).breakers, KeyOf(c))
  {
    CandidatesOffered(curve, s);
    ScreenedKeeps(s.breakers, s.cfg.circuit, Candidates(curve, s), now);
    assert RouteOk(AfterScreening(curve, s, now));
  }

  lemma ObserveOk(curve: Scoring.LossCurve, s: State, obs: Observation, now: nat)
    requires Ok(s)
    ensures Ok(Next(curve, s, Observe(obs, now)))
  {
    if Known(s, obs) {
      var p := Probed(s, obs, now);
      ProbedOk(s, obs, now);
      ScreeningOk(curve, p, now);
      var q, cs := AfterScreening(curve, p, now), Admitted(curve, p, now);
      forall c | c in cs ensures OnKnownRoute(q, c) { assert OnKnownRoute(p, c); }
      SelectedBestOk(q, cs, now);
      SelectedBestFrame(q, cs, now);
      RefreshedOk(SelectedBest(q, cs, now), obs, now);
    }
  }

  lemma BreakersMapped(breakers: map<string, Circuit.Breaker>, after: map<string, Circuit.Breaker>, cfg: Circuit.Config)
    requires BreakersOk(breakers, cfg) && after.Keys == breakers.Keys
    requires forall k | k in after :: Circuit.Consistent(after[k]) && after[k].cfg == breakers[k].cfg
    ensures BreakersOk(after, cfg)
  {
  }

  lemma FailureFrame(s: State, t: TransportKind, now: nat)
    requires Fallback.Usable(s.chain)
    ensures var s' := TransportFailed(s, t, now);
            && s'.registry == s.registry && s'.decider == s.decider && s'.cfg == s.cfg
            && s'.session == s.session && s'.current == s.current && s'.drawn == s.drawn
            && s'.counters.routeChanges == s.counters.routeChanges
            && s'.breakers == BreakersCharged(s, t, now).breakers
  {
  }

  lemma FailureOk(curve: Scoring.LossCurve, s: State, t: TransportKind, now: nat)
    requires Ok(s)
    ensures Ok(Next(curve, s, Failure(t, now)))
  {
    var s' := TransportFailed(s, t, now);
    FailureFrame(s, t, now);
    BreakersMapped(s.breakers, s'.breakers, s.cfg.circuit);
    assert RouteOk(s');
  }

  lemma SuccessOk(curve: Scoring.LossCurve, s: State, t: TransportKind, now: nat)
    requires Ok(s)
    ensures Ok(Next(curve, s, Success(t, now)))
  {
    var s' := TransportSucceeded(s, t, now);
    BreakersMapped(s.breakers, s'.breakers, s.cfg.circuit);
    assert RouteOk(s') && s'.registry == s.registry && s'.decider == s.decider && s'.cfg == s.cfg
        && s'.chain == s.chain;
  }

  lemma EdgesOk(curve: Scoring.LossCurve, s: State, infos: seq<EdgeInfo>, now: nat)
    requires Ok(s)
    ensures Ok(Next(curve, s, SetEdges(infos, now)))
  {
    Edges.IngestedPaired(s.registry, infos, now);
    assert RouteOk(s.(registry := Edges.Ingested(s.registry, infos, now)));
  }

  lemma VpnOk(curve: Scoring.LossCurve, s: State, now: nat)
    requires Ok(s)
    ensures Ok(Next(curve, s, VpnState(now)))
  {
    assert RouteOk(MarkedHealthy(s, now));
  }

  lemma StepCfg(curve: Scoring.LossCurve, s: State, e: Input)
    requires Fallback.Usable(s.chain)
    ensures Next(curve, s, e).cfg == s.cfg
  {
    match e
    case Observe(obs, now) =>
      if Known(s, obs) {
        var p := Probed(s, obs, now);
        SelectedBestFrame(AfterScreening(curve, p, now), Admitted(curve, p, now), now);
      }
    case Failure(t, now) => FailureFrame(s, t, now);
    case _ =>
  }

  /** Every step keeps the whole invariant. */
  lemma StepOk(curve: Scoring.LossCurve, s: State, e: Input)
    requires Ok(s)
    ensures Ok(Next(curve, s, e))
  {
    match e
    case SetEdges(infos, now) => EdgesOk(curve, s, infos, now);
    case VpnState(now) => VpnOk(curve, s, now);
    case Observe(obs, now) => ObserveOk(curve, s, obs, now);
    case Failure(t, now) => FailureOk(curve, s, t, now);
    case Success(t, now) => SuccessOk(curve, s, t, now);
  }
}
