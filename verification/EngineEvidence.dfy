/** What moves the engine from route to route: the evidence behind its switches, the bans it leaves
    behind, and how its moves follow from the decider's answers. */
module EngineEvidence {
  import opened Common
  import opened Model
  import opened Engine
  import opened EngineTheorems
  import opened EngineRuns
  import Edges
  import Fallback
  import Hysteresis
  import HysteresisTheorems
  import Scoring

  // ---------------------------------------------------------------------
  // Evidence

  // Before its n-th answer, given to event k, the decider had been told metrics or had switched.
  ghost predicate Informed(events: seq<Hysteresis.Event>, k: nat, log: seq<Hysteresis.Record>, n: nat)
    requires k <= |events| && n <= |log|
  {
    HysteresisTheorems.Refreshed(events[..k]) || HysteresisTheorems.Switched(log[..n])
  }

  /** The engine's decider knows metrics of the current route exactly if it was told some, or
      switched, before. */
  lemma InformedIff(curve: Scoring.LossCurve, cfg: Config, inputs: seq<Input>, n: nat) returns (k: nat)
    requires cfg.fallbackOrder != [] && n < |Log(curve, Initial(cfg), inputs)|
    ensures var events, log := DeciderEvents(curve, Initial(cfg), inputs), Log(curve, Initial(cfg), inputs);
            && k < |events| && events[k] == Hysteresis.Consult(log[n].candidate, log[n].at)
            && |Hysteresis.Records(Initial(cfg).decider, cfg.cooldownMs, events[..k])| == n
            && (log[n].known.Some? <==> Informed(events, k, log, n))
  {
    var events := DeciderEvents(curve, Initial(cfg), inputs);
    k := HysteresisTheorems.RecordAt(Hysteresis.DEFAULT, cfg.cooldownMs, events, n);
    HysteresisTheorems.KnownIffHeard(Hysteresis.DEFAULT, cfg.cooldownMs, events[..k]);
  }

  // What the decider knows of the current route is what its edge's statistics say now.
  ghost predicate KnowsLive(s: State) {
    s.decider.current.Some? ==>
      s.current.Some? && KnowsEdge(s.decider, s.registry, Edges.EdgeIdOf(s.current.value.id))
  }

  predicate KnowsEdge(d: Hysteresis.Decider, r: Edges.Registry, edge: string) {
    var i := Edges.StatsIndex(r.stats, edge);
    i < |r.stats| && d.current == Some(Edges.Snapshot(r.stats[i]))
  }

  // Probing one edge leaves the statistics of the others alone.
  lemma ObservedElsewhere(r: Edges.Registry, obs: Observation, now: nat, other: string)
    requires obs.edgeId != other
    ensures var r' := Edges.ObservedAt(r, obs.edgeId, obs.latency, obs.jitter, obs.lost, obs.handshake, now);
            var i := Edges.StatsIndex(r.stats, other);
            && |r'.stats| == |r.stats| && Edges.StatsIndex(r'.stats, other) == i
            && (i < |r.stats| ==> r'.stats[i] == r.stats[i])
  {
    var r' := Edges.ObservedAt(r, obs.edgeId, obs.latency, obs.jitter, obs.lost, obs.handshake, now);
    assert forall n | 0 <= n < |r.stats| :: r'.stats[n].edgeId == r.stats[n].edgeId;
  }

  predicate LiveIn(c: RouteCandidate, r: Edges.Registry) {
    var i := Edges.StatsIndex(r.stats, Edges.EdgeIdOf(c.id));
    i < |r.stats| && c.metrics == Edges.Snapshot(r.stats[i])
  }

  lemma PairedIndex(r: Edges.Registry, i: nat)
    requires Edges.Paired(r) && i < |r.stats|
    ensures Edges.StatsIndex(r.stats, r.stats[i].edgeId) == i
  {
    var j := Edges.StatsIndex(r.stats, r.stats[i].edgeId);
    assert r.edges[i].id == r.stats[i].edgeId && r.edges[j].id == r.stats[j].edgeId;
  }

  lemma OfferedIsLive(s: State, c: RouteCandidate)
    requires Edges.Paired(s.registry) && Offered(s, c)
    ensures LiveIn(c, s.registry)
  {
    var stats, edges := s.registry.stats, s.registry.edges;
    var i :| 0 <= i < |edges| && i < |stats| && c.transport in s.cfg.supported && c.transport in edges[i].supported
      && c == Edges.CandidateOf(stats[i].edgeId, Edges.Snapshot(stats[i]), edges[i], c.transport).(score := c.score);
    Edges.CandidateIdInjective(stats[i].edgeId, c.transport, stats[i].edgeId, c.transport);
    PairedIndex(s.registry, i);
  }

  // An admitted candidate carries the live statistics of its edge.
  lemma AdmittedIsLive(curve: Scoring.LossCurve, s: State, now: nat)
    requires Ok(s)
    ensures forall c | c in Admitted(curve, s, now) :: LiveIn(c, s.registry)
  {
    ScreeningOk(curve, s, now);
    CandidatesOffered(curve, s);
    forall c | c in Admitted(curve, s, now) ensures LiveIn(c, s.registry) { OfferedIsLive(s, c); }
  }

  // What is known of the current route is live, except of an edge just probed.
  ghost predicate KnowsLiveBut(
    d: Hysteresis.Decider, current: Option<RouteCandidate>, r: Edges.Registry, probed: string)
  {
    d.current.Some? ==>
      current.Some? && var edge := Edges.EdgeIdOf(current.value.id); edge == probed || KnowsEdge(d, r, edge)
  }

  lemma SelectionKnowsLive(s: State, cs: seq<RouteCandidate>, now: nat, probed: string)
    requires KnowsLiveBut(s.decider, s.current, s.registry, probed) && forall c | c in cs :: LiveIn(c, s.registry)
    ensures var q := SelectedBest(s, cs, now);
            KnowsLiveBut(q.decider, q.current, s.registry, probed)
  {
    SelectionDecider(s, cs, now);
    if cs != [] {
      var n := BestIsFirstMaximum(cs);
      FirstWithIdFinds(cs, Best(cs).id);
      assert cs[n] in cs;
    }
  }

  lemma ObserveKnowsLive(curve: Scoring.LossCurve, s: State, obs: Observation, now: nat)
    requires Ok(s) && KnowsLive(s) && Known(s, obs)
    ensures KnowsLive(EdgeObserved(curve, s, obs, now))
  {
    var p := Probed(s, obs, now);
    var a, cs := AfterScreening(curve, p, now), Admitted(curve, p, now);
    ProbedOk(s, obs, now);
    AdmittedIsLive(curve, p, now);
    if s.current.Some? && Edges.EdgeIdOf(s.current.value.id) != obs.edgeId {
      ObservedElsewhere(s.registry, obs, now, Edges.EdgeIdOf(s.current.value.id));
    }
    SelectionKnowsLive(a, cs, now, obs.edgeId);
    SelectedBestFrame(a, cs, now);
    RefreshKnowsLive(SelectedBest(a, cs, now), obs, now);
  }

  lemma RefreshKnowsLive(s: State, obs: Observation, now: nat)
    requires KnowsLiveBut(s.decider, s.current, s.registry, obs.edgeId) && Known(s, obs)
    ensures KnowsLive(Refreshed(s, obs, now))
  {
  }

  lemma EdgesKnowLive(curve: Scoring.LossCurve, s: State, infos: seq<EdgeInfo>, now: nat)
    requires Ok(s) && KnowsLive(s)
    ensures KnowsLive(Next(curve, s, SetEdges(infos, now)))
  {
    if s.decider.current.Some? {
      var i := Edges.StatsIndex(s.registry.stats, Edges.EdgeIdOf(s.current.value.id));
      IngestedKeepsStats(s.registry, infos, now, i);
    }
  }

  lemma {:induction false} AddedKeepsStats(r: Edges.Registry, infos: seq<EdgeInfo>, now: nat)
    ensures r.stats <= Edges.Added(r, infos, now).stats
    decreases |infos|
  {
    if infos != [] {
      AddedKeepsStats(if Edges.Acceptable(infos[0], now) then Edges.Upserted(r, infos[0]) else r, infos[1..], now);
    }
  }

  lemma IngestedKeepsStats(r: Edges.Registry, infos: seq<EdgeInfo>, now: nat, i: nat)
    requires Edges.Paired(r) && i < |r.stats|
    ensures var r' := Edges.Ingested(r, infos, now);
            i < |r'.stats| && r'.stats[i] == r.stats[i] && Edges.StatsIndex(r'.stats, r.stats[i].edgeId) == i
  {
    Edges.IngestedPaired(r, infos, now);
    AddedKeepsStats(r, infos, now);
    PairedIndex(Edges.Ingested(r, infos, now), i);
  }

  lemma StepKnowsLive(curve: Scoring.LossCurve, s: State, e: Input)
    requires Ok(s) && KnowsLive(s)
    ensures KnowsLive(Next(curve, s, e))
  {
    match e
    case Observe(obs, now) => if Known(s, obs) { ObserveKnowsLive(curve, s, obs, now); }
    case SetEdges(infos, now) => EdgesKnowLive(curve, s, infos, now);
    case Failure(t, now) => FailureFrame(s, t, now);
    case _ =>
  }

  /** In every reachable state the decider knows either nothing of the current route or exactly
      what the statistics of its edge say: evidence is never against an outdated snapshot. */
  lemma {:induction false} DeciderKnowsLive(curve: Scoring.LossCurve, cfg: Config, inputs: seq<Input>)
    requires cfg.fallbackOrder != []
    ensures KnowsLive(After(curve, Initial(cfg), inputs))
    decreases |inputs|
  {
    if inputs != [] {
      var init := inputs[..|inputs| - 1];
      DeciderKnowsLive(curve, cfg, init);
      ReachableOk(curve, cfg, init);
      StepKnowsLive(curve, After(curve, Initial(cfg), init), inputs[|inputs| - 1]);
    }
  }

  // ---------------------------------------------------------------------
  // Samples

  // The probes behind the candidate asked about, and behind what was known of the current route.
  datatype Backing = Backing(offered: nat, held: nat)

  function SamplesOf(r: Edges.Registry, edge: string): nat {
    var i := Edges.StatsIndex(r.stats, edge);
    if i < |r.stats| then r.stats[i].samples else 0
  }

  function BackingOf(curve: Scoring.LossCurve, s: State, e: Input): seq<Backing> {
    var asked := Asked(curve, s, e);
    if asked == [] then []
    else [Backing(SamplesOf(Probed(s, e.obs, e.at).registry, Edges.EdgeIdOf(asked[0].candidate.id)),
                  SamplesOf(s.registry, Edges.EdgeIdOf(s.current.value.id)))]
  }

  // One for each answer in the log.
  function Backings(curve: Scoring.LossCurve, s: State, inputs: seq<Input>): seq<Backing>
    requires Fallback.Usable(s.chain)
  {
    if inputs == [] then [] else
      var init := inputs[..|inputs| - 1];
      Backings(curve, s, init) + BackingOf(curve, After(curve, s, init), inputs[|inputs| - 1])
  }

  lemma BackingsStep(curve: Scoring.LossCurve, s: State, inputs: seq<Input>, e: Input)
    requires Fallback.Usable(s.chain)
    ensures Backings(curve, s, inputs + [e])
            == Backings(curve, s, inputs) + BackingOf(curve, After(curve, s, inputs), e)
    ensures |BackingOf(curve, After(curve, s, inputs), e)| == |Answered(curve, After(curve, s, inputs), e)| <= 1
  {
    assert (inputs + [e])[..|inputs|] == inputs;
  }

  // What the code makes up of an edge never probed: no delay at all, and everything lost.
  const PLACEHOLDER := Metrics(0.0, 0.0, 1.0, 0.0, 0.0, 0.0)

  lemma UnprobedSnapshot(st: Edges.Stats)
    requires Edges.Sound(st)
    ensures st.samples == 0 ==> Edges.Snapshot(st) == PLACEHOLDER
    ensures Edges.Snapshot(st).loss <= 1.0
  {
    if st.samples > 0 { Edges.StabilityIsSquare(st); }
  }

  // What the samples say of the answer r.
  predicate BackedBy(r: Hysteresis.Record, b: Backing) {
    && (b.offered == 0 ==> r.candidate.metrics == PLACEHOLDER)
    && (r.known.Some? ==> r.known.value.loss <= 1.0 && (b.held == 0 ==> r.known.value == PLACEHOLDER))
  }

  lemma EdgeBacked(r: Edges.Registry, i: nat)
    requires Edges.Paired(r) && i < |r.stats|
    ensures var m := Edges.Snapshot(r.stats[i]);
            m.loss <= 1.0 && (SamplesOf(r, r.stats[i].edgeId) == 0 ==> m == PLACEHOLDER)
  {
    PairedIndex(r, i);
    assert r.edges[i].id == r.stats[i].edgeId;
    UnprobedSnapshot(r.stats[i]);
  }

  lemma AnswerBacked(curve: Scoring.LossCurve, s: State, e: Input)
    requires Ok(s) && KnowsLive(s) && Asked(curve, s, e) != []
    ensures BackedBy(Answered(curve, s, e)[0], BackingOf(curve, s, e)[0])
  {
    var p := Probed(s, e.obs, e.at);
    var cs := Admitted(curve, p, e.at);
    ProbedOk(s, e.obs, e.at);
    AdmittedIsLive(curve, p, e.at);
    var n := BestIsFirstMaximum(cs);
    assert cs[n] in cs;
    EdgeBacked(p.registry, Edges.StatsIndex(p.registry.stats, Edges.EdgeIdOf(Best(cs).id)));
    if s.decider.current.Some? {
      EdgeBacked(s.registry, Edges.StatsIndex(s.registry.stats, Edges.EdgeIdOf(s.current.value.id)));
    }
  }

  ghost predicate AllBacked(log: seq<Hysteresis.Record>, back: seq<Backing>) {
    |back| == |log| && forall n | 0 <= n < |log| :: BackedBy(log[n], back[n])
  }

  lemma AllBackedStep(curve: Scoring.LossCurve, s: State, e: Input, log: seq<Hysteresis.Record>, back: seq<Backing>)
    requires Ok(s) && KnowsLive(s) && AllBacked(log, back)
    ensures AllBacked(log + Answered(curve, s, e), back + BackingOf(curve, s, e))
  {
    if Asked(curve, s, e) != [] { AnswerBacked(curve, s, e); }
  }

  lemma {:induction false} LogBacked(curve: Scoring.LossCurve, cfg: Config, inputs: seq<Input>)
    requires cfg.fallbackOrder != []
    ensures AllBacked(Log(curve, Initial(cfg), inputs), Backings(curve, Initial(cfg), inputs))
    decreases |inputs|
  {
    ReachableOk(curve, cfg, []);
    if inputs == [] {
      assert Log(curve, Initial(cfg), inputs) == [];
    } else {
      var init, e := inputs[..|inputs| - 1], inputs[|inputs| - 1];
      SnocLast(inputs);
      LogBacked(curve, cfg, init);
      ReachableOk(curve, cfg, init);
      DeciderKnowsLive(curve, cfg, init);
      LogStep(curve, Initial(cfg), init, e);
      BackingsStep(curve, Initial(cfg), init, e);
      AllBackedStep(curve, After(curve, Initial(cfg), init), e,
                    Log(curve, Initial(cfg), init), Backings(curve, Initial(cfg), init));
    }
  }

  // Five seconds of degradation, measured at every evaluation no ban held.
  ghost predicate MeasuredRegime(log: seq<Hysteresis.Record>, back: seq<Backing>, n: nat)
    requires n < |log| == |back|
  {
    exists i :: HysteresisTheorems.Regime(log, i, n) && log[i].at + 5_000 <= log[n].at
                && forall j | i <= j <= n && !log[j].banned :: back[j].held > 0
  }

  // A candidate that was probed gains on what is known of the current route, or that was measured
  // to be degraded for five seconds.
  ghost predicate Evidence(log: seq<Hysteresis.Record>, back: seq<Backing>, n: nat)
    requires n < |log| == |back|
  {
    log[n].known.Some? && back[n].offered > 0
    && (HysteresisTheorems.Gains(log[n]) || MeasuredRegime(log, back, n))
  }

  // A candidate never probed, over a current route with some delay or a degraded one; or a
  // candidate no better than a current route that counts as degraded since before it was probed.
  ghost predicate OnPlaceholder(log: seq<Hysteresis.Record>, back: seq<Backing>, n: nat)
    requires n < |log| == |back|
  {
    var r, degraded := log[n], HysteresisTheorems.LongRegime(log, n, 5_000);
    r.known.Some? &&
    if back[n].offered == 0 then r.known.value.latency >= 5.0 || degraded
    else !HysteresisTheorems.Gains(r) && degraded && !MeasuredRegime(log, back, n)
  }

  lemma GainOnPlaceholder(r: Hysteresis.Record, b: Backing)
    requires BackedBy(r, b) && r.known.Some?
    ensures b.offered == 0 ==> (HysteresisTheorems.Gains(r) <==> r.known.value.latency >= 5.0)
    ensures b.held == 0 ==> !HysteresisTheorems.Gains(r)
  {
  }

  lemma MeasuredIsLong(log: seq<Hysteresis.Record>, back: seq<Backing>, n: nat)
    requires n < |log| == |back| && MeasuredRegime(log, back, n)
    ensures HysteresisTheorems.LongRegime(log, n, 5_000)
    ensures !log[n].banned ==> back[n].held > 0
  {
  }

  /** In every run on an ordered clock the engine's decider, when no ban holds, switches exactly if
      it has evidence, or was never informed of the current route, or goes by placeholders of an edge
      never probed. The three exclude each other, and evidence is always of probed edges on both sides. */
  lemma SwitchesCarryEvidenceIff(curve: Scoring.LossCurve, cfg: Config, inputs: seq<Input>, n: nat)
    requires cfg.fallbackOrder != [] && Ordered(inputs) && n < |Log(curve, Initial(cfg), inputs)|
    ensures |Backings(curve, Initial(cfg), inputs)| == |Log(curve, Initial(cfg), inputs)|
    ensures var log, back := Log(curve, Initial(cfg), inputs), Backings(curve, Initial(cfg), inputs);
            && (log[n].verdict.Switch?
                <==> !log[n].banned && (Evidence(log, back, n) || log[n].known.None? || OnPlaceholder(log, back, n)))
            && (Evidence(log, back, n) ==> log[n].known.Some? && !OnPlaceholder(log, back, n))
            && (Evidence(log, back, n) && !log[n].banned ==> back[n].offered > 0 && back[n].held > 0)
  {
    var events, log := DeciderEvents(curve, Initial(cfg), inputs), Log(curve, Initial(cfg), inputs);
    var back := Backings(curve, Initial(cfg), inputs);
    EventsOrdered(curve, Initial(cfg), inputs);
    HysteresisTheorems.SwitchIff(cfg.cooldownMs, events, n);
    LogBacked(curve, cfg, inputs);
    if log[n].known.Some? { GainOnPlaceholder(log[n], back[n]); }
    if MeasuredRegime(log, back, n) { MeasuredIsLong(log, back, n); }
  }

  /** A best candidate that was never probed is taken exactly if no ban holds and the decider knows
      nothing of the current route, or a latency of at least 5 ms, or five seconds of degradation. */
  lemma UnprobedTakenIff(curve: Scoring.LossCurve, cfg: Config, inputs: seq<Input>, n: nat)
    requires cfg.fallbackOrder != [] && Ordered(inputs) && n < |Log(curve, Initial(cfg), inputs)|
    requires n < |Backings(curve, Initial(cfg), inputs)| && Backings(curve, Initial(cfg), inputs)[n].offered == 0
    ensures var log := Log(curve, Initial(cfg), inputs);
            log[n].verdict.Switch?
            <==> !log[n].banned && (|| log[n].known.None? || log[n].known.value.latency >= 5.0
                                    || HysteresisTheorems.LongRegime(log, n, 5_000))
  {
    SwitchesCarryEvidenceIff(curve, cfg, inputs, n);
  }

  // ---------------------------------------------------------------------
  // Bans

  lemma StepConsultsNamed(curve: Scoring.LossCurve, s: State, e: Input)
    requires Ok(s)
    ensures forall x | x in StepEvents(curve, s, e) && x.Consult? :: x.candidate.id != ""
  {
    if Asked(curve, s, e) != [] {
      var p := Probed(s, e.obs, e.at);
      ProbedOk(s, e.obs, e.at);
      BestIsNamed(curve, p, e.at);
    }
  }

  lemma BestIsNamed(curve: Scoring.LossCurve, s: State, now: nat)
    requires Ok(s) && Admitted(curve, s, now) != []
    ensures Best(Admitted(curve, s, now)).id != ""
  {
    var cs := Admitted(curve, s, now);
    ScreeningOk(curve, s, now);
    var n := BestIsFirstMaximum(cs);
    assert cs[n] in cs && OnKnownRoute(s, cs[n]);
  }

  lemma {:induction false} ConsultsNamed(curve: Scoring.LossCurve, s: State, inputs: seq<Input>)
    requires Ok(s)
    ensures forall x | x in DeciderEvents(curve, s, inputs) && x.Consult? :: x.candidate.id != ""
    decreases |inputs|
  {
    if inputs != [] {
      var init := inputs[..|inputs| - 1];
      ConsultsNamed(curve, s, init);
      RunOk(curve, s, init);
      StepConsultsNamed(curve, After(curve, s, init), inputs[|inputs| - 1]);
    }
  }

  // The decider of a run: its bans are on distinct routes, and it knows the current route, or has
  // no ban at all, as it has switched or not.
  lemma RunDecider(curve: Scoring.LossCurve, cfg: Config, inputs: seq<Input>)
    requires cfg.fallbackOrder != []
    ensures var d := After(curve, Initial(cfg), inputs).decider;
            && d.cfg == Hysteresis.DEFAULT && HysteresisTheorems.DistinctBans(d.bans)
            && (d.currentId != "" <==> HysteresisTheorems.Switched(Log(curve, Initial(cfg), inputs)))
            && (d.currentId == "" ==> d.bans == [])
  {
    var events := DeciderEvents(curve, Initial(cfg), inputs);
    DeciderFollows(curve, Initial(cfg), inputs);
    ConsultsNamed(curve, Initial(cfg), inputs);
    HysteresisTheorems.BansDistinct(Hysteresis.DEFAULT, cfg.cooldownMs, events);
    HysteresisTheorems.NamedIffSwitched(Hysteresis.DEFAULT, cfg.cooldownMs, events);
  }

  // A step that takes another route than the current one got it as a switch from the decider.
  lemma TakenBySwitch(curve: Scoring.LossCurve, s: State, obs: Observation, now: nat) returns (best: RouteCandidate)
    requires s.current.Some? && Chosen(curve, s, Observe(obs, now)).Some?
    ensures best.id == Chosen(curve, s, Observe(obs, now)).value.id
    ensures Asked(curve, s, Observe(obs, now)) == [Hysteresis.Consult(best, now)]
    ensures Hysteresis.VerdictOf(s.decider, best, now).Switch?
    ensures EdgeObserved(curve, s, obs, now).decider.bans
            == Hysteresis.Consulted(s.decider, s.cfg.cooldownMs, best, now).bans
  {
    var p := Probed(s, obs, now);
    var cs := Admitted(curve, p, now);
    best := Best(cs);
    FirstWithIdFinds(cs, best.id);
    ObservedDecider(curve, s, obs, now);
  }

  // Right after a step to another route the list of bans holds the old one for 15 seconds exactly if
  // the decider switched before, so that it knew the old route, and the configured cooldown is short
  // of 45 seconds. A later switch may still prune that ban.
  lemma LeavingBansIff(curve: Scoring.LossCurve, cfg: Config, inputs: seq<Input>, obs: Observation, now: nat, t: nat)
    requires cfg.fallbackOrder != [] && t < now + 15_000
    requires var s := After(curve, Initial(cfg), inputs);
             var c := Chosen(curve, s, Observe(obs, now));
             s.current.Some? && c.Some? && c.value.id != s.current.value.id
    ensures var s := After(curve, Initial(cfg), inputs);
            Hysteresis.Banned(EdgeObserved(curve, s, obs, now).decider.bans, s.current.value.id, t)
            <==> HysteresisTheorems.Switched(Log(curve, Initial(cfg), inputs)) && cfg.cooldownMs < 45_000
  {
    var s := After(curve, Initial(cfg), inputs);
    RunOk(curve, Initial(cfg), inputs);
    RunDecider(curve, cfg, inputs);
    var best := TakenBySwitch(curve, s, obs, now);
    HysteresisTheorems.LeftIsBannedIff(s.decider, cfg.cooldownMs, best, now, s.current.value.id, t);
  }

  // The id of the current route after a prefix of a run.
  function RouteAfter(curve: Scoring.LossCurve, cfg: Config, inputs: seq<Input>): Option<string>
    requires cfg.fallbackOrder != []
  {
    var s := After(curve, Initial(cfg), inputs);
    if s.current.Some? then Some(s.current.value.id) else None
  }

  // Step i leaves route x for another one.
  predicate LeavesAt(curve: Scoring.LossCurve, cfg: Config, inputs: seq<Input>, i: nat, x: string)
    requires cfg.fallbackOrder != [] && i < |inputs|
  {
    RouteAfter(curve, cfg, inputs[..i]) == Some(x) && RouteAfter(curve, cfg, inputs[..i + 1]) != Some(x)
  }

  // Step j goes from another route to x.
  predicate TakesAt(curve: Scoring.LossCurve, cfg: Config, inputs: seq<Input>, j: nat, x: string)
    requires cfg.fallbackOrder != [] && j < |inputs|
  {
    var before := RouteAfter(curve, cfg, inputs[..j]);
    before.Some? && before != Some(x) && RouteAfter(curve, cfg, inputs[..j + 1]) == Some(x)
  }

  // A step that changes the current route is a probe, and a switch of the decider to the new one.
  lemma ChangeIsSwitch(curve: Scoring.LossCurve, s: State, e: Input)
    requires Ok(s) && s.current.Some?
    ensures var s' := Next(curve, s, e);
            && s'.current.Some?
            && (s'.current.value.id != s.current.value.id ==>
                  && |Answered(curve, s, e)| == 1
                  && HysteresisTheorems.SwitchesTo(Answered(curve, s, e)[0], s'.current.value.id)
                  && Answered(curve, s, e)[0].left == s.decider.currentId && Answered(curve, s, e)[0].at == e.at)
  {
    match e
    case Observe(obs, now) => ProbeChangeIsSwitch(curve, s, obs, now);
    case Failure(t, now) => FailureFrame(s, t, now);
    case _ =>
  }

  lemma ProbeChangeIsSwitch(curve: Scoring.LossCurve, s: State, obs: Observation, now: nat)
    requires s.current.Some?
    ensures var s', answer := EdgeObserved(curve, s, obs, now), Answered(curve, s, Observe(obs, now));
            && s'.current.Some?
            && (s'.current.value.id != s.current.value.id ==>
                  && |answer| == 1 && HysteresisTheorems.SwitchesTo(answer[0], s'.current.value.id)
                  && answer[0].left == s.decider.currentId && answer[0].at == now)
  {
    ChosenFrame(curve, s, obs, now);
    if Chosen(curve, s, Observe(obs, now)).Some? { var best := TakenBySwitch(curve, s, obs, now); }
  }

  // The answer of step i, at its place in the log of the whole run.
  lemma LogAround(curve: Scoring.LossCurve, s: State, inputs: seq<Input>, i: nat)
    requires Ok(s) && i < |inputs|
    ensures Log(curve, s, inputs[..i])
            + Answered(curve, After(curve, s, inputs[..i]), inputs[i]) <= Log(curve, s, inputs)
    ensures Log(curve, s, inputs[..i + 1])
            == Log(curve, s, inputs[..i]) + Answered(curve, After(curve, s, inputs[..i]), inputs[i])
  {
    var past, recent := inputs[..i + 1], inputs[i + 1..];
    assert inputs == past + recent && past == inputs[..i] + [inputs[i]];
    LogStep(curve, s, inputs[..i], inputs[i]);
    LogSplits(curve, s, past, recent);
  }

  lemma ChangeAt(curve: Scoring.LossCurve, cfg: Config, inputs: seq<Input>, i: nat)
    requires cfg.fallbackOrder != [] && i < |inputs|
    requires var before := RouteAfter(curve, cfg, inputs[..i]);
             before.Some? && RouteAfter(curve, cfg, inputs[..i + 1]) != before
    ensures var s, log := After(curve, Initial(cfg), inputs[..i]), Log(curve, Initial(cfg), inputs);
            var n := |Log(curve, Initial(cfg), inputs[..i])|;
            && RouteAfter(curve, cfg, inputs[..i + 1]).Some? && n < |log|
            && HysteresisTheorems.SwitchesTo(log[n], RouteAfter(curve, cfg, inputs[..i + 1]).value)
            && log[n].left == s.decider.currentId && log[n].at == inputs[i].at
            && |Log(curve, Initial(cfg), inputs[..i + 1])| == n + 1
  {
    var s := After(curve, Initial(cfg), inputs[..i]);
    ReachableOk(curve, cfg, []);
    ReachableOk(curve, cfg, inputs[..i]);
    assert inputs[..i + 1] == inputs[..i] + [inputs[i]];
    AfterSnoc(curve, Initial(cfg), inputs[..i], inputs[i]);
    ChangeIsSwitch(curve, s, inputs[i]);
    LogAround(curve, Initial(cfg), inputs, i);
  }

  lemma {:induction false} LogGrows(curve: Scoring.LossCurve, s: State, inputs: seq<Input>, i: nat, j: nat)
    requires Ok(s) && i <= j <= |inputs|
    ensures |Log(curve, s, inputs[..i])| <= |Log(curve, s, inputs[..j])|
    decreases j
  {
    if i < j {
      LogGrows(curve, s, inputs, i, j - 1);
      LogAround(curve, s, inputs, j - 1);
    }
  }

  /** With a configured cooldown of at most 30 s, on an ordered clock, no run returns within 15 s to a
      route it left when the decider had switched before, so that it knew the route. */
  lemma BlockHolds(curve: Scoring.LossCurve, cfg: Config, inputs: seq<Input>, i: nat, j: nat, x: string)
    requires cfg.fallbackOrder != [] && Ordered(inputs) && cfg.cooldownMs <= 30_000 && i < j < |inputs|
    requires LeavesAt(curve, cfg, inputs, i, x) && TakesAt(curve, cfg, inputs, j, x)
    requires HysteresisTheorems.Switched(Log(curve, Initial(cfg), inputs[..i]))
    ensures inputs[j].at >= inputs[i].at + 15_000
  {
    var log := Log(curve, Initial(cfg), inputs);
    ReachableOk(curve, cfg, []);
    ReachableOk(curve, cfg, inputs[..i]);
    RunDecider(curve, cfg, inputs[..i]);
    ChangeAt(curve, cfg, inputs, i);
    ChangeAt(curve, cfg, inputs, j);
    LogGrows(curve, Initial(cfg), inputs, i + 1, j);
    EventsOrdered(curve, Initial(cfg), inputs);
    HysteresisTheorems.RunStaysAway(Hysteresis.DEFAULT, cfg.cooldownMs, DeciderEvents(curve, Initial(cfg), inputs));
    var m, n := |Log(curve, Initial(cfg), inputs[..i])|, |Log(curve, Initial(cfg), inputs[..j])|;
    assert HysteresisTheorems.Leaves(log[m]) && HysteresisTheorems.SwitchesTo(log[n], log[m].left);
  }

  // ---------------------------------------------------------------------
  // Moves

  lemma {:induction false} SwitchIdsConcat(xs: seq<Hysteresis.Record>, ys: seq<Hysteresis.Record>)
    ensures HysteresisTheorems.SwitchIds(xs + ys) == HysteresisTheorems.SwitchIds(xs) + HysteresisTheorems.SwitchIds(ys)
  {
    if xs == [] {
      assert xs + ys == ys;
    } else {
      assert (xs + ys)[1..] == xs[1..] + ys;
      SwitchIdsConcat(xs[1..], ys);
    }
  }

  lemma StepMoves(curve: Scoring.LossCurve, s: State, e: Input)
    ensures Moves(curve, s, e) ==> |HysteresisTheorems.SwitchIds(Answered(curve, s, e))| == 1
  {
    if Moves(curve, s, e) {
      var best := TakenBySwitch(curve, s, e.obs, e.at);
      assert Answered(curve, s, e)[1..] == [];
    }
  }

  lemma SnocLast(inputs: seq<Input>)
    requires inputs != []
    ensures inputs == inputs[..|inputs| - 1] + [inputs[|inputs| - 1]]
  {
  }

  /** Every move of the route is a switch of the decider. */
  lemma {:induction false} MovesAreSwitches(curve: Scoring.LossCurve, s: State, inputs: seq<Input>)
    requires Ok(s)
    ensures MovesIn(curve, s, inputs) <= |HysteresisTheorems.SwitchIds(Log(curve, s, inputs))|
    decreases |inputs|
  {
    if inputs != [] {
      var init, e := inputs[..|inputs| - 1], inputs[|inputs| - 1];
      SnocLast(inputs);
      MovesAreSwitches(curve, s, init);
      LogStep(curve, s, init, e);
      SwitchIdsConcat(Log(curve, s, init), Answered(curve, After(curve, s, init), e));
      StepMoves(curve, After(curve, s, init), e);
    }
  }

  function LastOf(start: string, ids: seq<string>): string { if ids == [] then start else ids[|ids| - 1] }

  // How often the id changes along the list.
  function ChangesAlong(start: string, ids: seq<string>): nat {
    if ids == [] then 0 else
      var init, id := ids[..|ids| - 1], ids[|ids| - 1];
      ChangesAlong(start, init) + if id != LastOf(start, init) then 1 else 0
  }

  lemma ChangesSnoc(start: string, ids: seq<string>, more: seq<string>)
    requires |more| <= 1
    ensures LastOf(start, ids + more) == LastOf(LastOf(start, ids), more)
    ensures ChangesAlong(start, ids + more)
            == ChangesAlong(start, ids) + if more != [] && more[0] != LastOf(start, ids) then 1 else 0
  {
    if more == [] {
      assert ids + more == ids;
    } else {
      assert (ids + more)[..|ids|] == ids && more == [more[0]];
    }
  }

  lemma KnownRoutesDiffer(c: RouteCandidate, d: RouteCandidate)
    requires c.id == Edges.CandidateId(Edges.EdgeIdOf(c.id), c.transport)
    requires d.id == Edges.CandidateId(Edges.EdgeIdOf(d.id), d.transport)
    ensures ElsewhereThan(c, d) <==> c.id != d.id
  {
    Edges.CandidateIdInjective(Edges.EdgeIdOf(c.id), c.transport, Edges.EdgeIdOf(d.id), d.transport);
  }

  lemma OneId(r: Hysteresis.Record)
    ensures HysteresisTheorems.SwitchIds([r]) == if r.verdict.Switch? then [r.verdict.id] else []
  {
    assert [r][1..] == [];
  }

  // One step: the route goes where the decider's switch says, and only there.
  lemma StepFollowsSwitch(curve: Scoring.LossCurve, s: State, e: Input)
    requires Ok(s) && s.current.Some?
    ensures var s', ids := Next(curve, s, e), HysteresisTheorems.SwitchIds(Answered(curve, s, e));
            && |ids| <= 1 && s'.current.Some? && s'.current.value.id == LastOf(s.current.value.id, ids)
            && (Moves(curve, s, e) <==> s'.current.value.id != s.current.value.id)
  {
    StepOk(curve, s, e);
    match e
    case Observe(obs, now) => ProbeFollowsSwitch(curve, s, obs, now);
    case Failure(t, now) => FailureFrame(s, t, now);
    case _ =>
  }

  lemma ChosenIsSwitch(curve: Scoring.LossCurve, s: State, obs: Observation, now: nat)
    requires s.current.Some?
    ensures var c := Chosen(curve, s, Observe(obs, now));
            HysteresisTheorems.SwitchIds(Answered(curve, s, Observe(obs, now))) == if c.Some? then [c.value.id] else []
  {
    var answer := Answered(curve, s, Observe(obs, now));
    SwitchIsTaken(curve, s, obs, now);
    if Chosen(curve, s, Observe(obs, now)).Some? { var best := TakenBySwitch(curve, s, obs, now); }
    if answer != [] {
      assert answer == [answer[0]];
      OneId(answer[0]);
    }
  }

  lemma ProbeFollowsSwitch(curve: Scoring.LossCurve, s: State, obs: Observation, now: nat)
    requires RouteOk(s) && s.current.Some? && RouteOk(EdgeObserved(curve, s, obs, now))
    ensures var e, s' := Observe(obs, now), EdgeObserved(curve, s, obs, now);
            var ids := HysteresisTheorems.SwitchIds(Answered(curve, s, e));
            && |ids| <= 1 && s'.current.Some? && s'.current.value.id == LastOf(s.current.value.id, ids)
            && (Moves(curve, s, e) <==> s'.current.value.id != s.current.value.id)
  {
    ChosenFrame(curve, s, obs, now);
    ChosenIsSwitch(curve, s, obs, now);
    var c := Chosen(curve, s, Observe(obs, now));
    if c.Some? { KnownRoutesDiffer(s.current.value, c.value); }
  }

  // A switch of the decider is always carried out.
  lemma SwitchIsTaken(curve: Scoring.LossCurve, s: State, obs: Observation, now: nat)
    requires s.current.Some?
    ensures var asked := Asked(curve, s, Observe(obs, now));
            asked != [] && Hysteresis.VerdictOf(s.decider, asked[0].candidate, now).Switch?
            ==> Chosen(curve, s, Observe(obs, now)).Some?
  {
    var cs := Admitted(curve, Probed(s, obs, now), now);
    if cs != [] {
      var n := BestIsFirstMaximum(cs);
    }
  }

  // The route and the moves of a run, as the ids of its switches say.
  predicate RouteFollows(start: string, ids: seq<string>, current: Option<RouteCandidate>, moves: nat) {
    current.Some? && current.value.id == LastOf(start, ids) && moves == ChangesAlong(start, ids)
  }

  lemma RouteFollowsStep(
    curve: Scoring.LossCurve, s: State, e: Input, start: string, log: seq<Hysteresis.Record>, moves: nat)
    requires Ok(s) && RouteFollows(start, HysteresisTheorems.SwitchIds(log), s.current, moves)
    ensures RouteFollows(start, HysteresisTheorems.SwitchIds(log + Answered(curve, s, e)), Next(curve, s, e).current,
                         moves + if Moves(curve, s, e) then 1 else 0)
  {
    var answer := Answered(curve, s, e);
    SwitchIdsConcat(log, answer);
    StepFollowsSwitch(curve, s, e);
    ChangesSnoc(start, HysteresisTheorems.SwitchIds(log), HysteresisTheorems.SwitchIds(answer));
  }

  /** From any state with a route, the route after a run is that of the decider's last switch, and the
      moves are the switches to another route than the one before: each goes where its switch says. */
  lemma {:induction false} RouteIsLastSwitch(curve: Scoring.LossCurve, s: State, inputs: seq<Input>)
    requires Ok(s) && s.current.Some?
    ensures RouteFollows(s.current.value.id, HysteresisTheorems.SwitchIds(Log(curve, s, inputs)),
                         After(curve, s, inputs).current, MovesIn(curve, s, inputs))
    decreases |inputs|
  {
    if inputs == [] {
      EmptyLog(curve, s);
    } else {
      var init, e := inputs[..|inputs| - 1], inputs[|inputs| - 1];
      SnocLast(inputs);
      RouteIsLastSwitch(curve, s, init);
      RunOk(curve, s, init);
      LogStep(curve, s, init, e);
      RouteFollowsStep(curve, After(curve, s, init), e,
                       s.current.value.id, Log(curve, s, init), MovesIn(curve, s, init));
    }
  }

  lemma AfterSnoc(curve: Scoring.LossCurve, s: State, inputs: seq<Input>, e: Input)
    requires Fallback.Usable(s.chain)
    ensures After(curve, s, inputs + [e]) == Next(curve, After(curve, s, inputs), e)
  {
    assert (inputs + [e])[..|inputs|] == inputs;
  }

  lemma {:induction false} RunSplits(curve: Scoring.LossCurve, s: State, past: seq<Input>, recent: seq<Input>)
    requires Fallback.Usable(s.chain)
    ensures After(curve, s, past + recent) == After(curve, After(curve, s, past), recent)
    decreases |recent|
  {
    if recent == [] {
      assert past + recent == past;
    } else {
      var init, e := recent[..|recent| - 1], recent[|recent| - 1];
      SnocLast(recent);
      assert past + recent == (past + init) + [e];
      RunSplits(curve, s, past, init);
      AfterSnoc(curve, s, past + init, e);
    }
  }

  lemma LogSplitsStep(
    curve: Scoring.LossCurve, s: State, s': State, past: seq<Input>, init: seq<Input>, e: Input,
    front: seq<Hysteresis.Record>, back: seq<Hysteresis.Record>)
    requires Ok(s) && Ok(s') && After(curve, s, past + init) == After(curve, s', init)
    requires Log(curve, s, past + init) == front + back && Log(curve, s', init) == back
    ensures Log(curve, s, (past + init) + [e]) == front + Log(curve, s', init + [e])
  {
    var answer := Answered(curve, After(curve, s', init), e);
    LogStep(curve, s, past + init, e);
    LogStep(curve, s', init, e);
    Regrouped(front, back, answer, Log(curve, s, (past + init) + [e]), Log(curve, s', init + [e]));
  }

  lemma Regrouped<T>(a: seq<T>, b: seq<T>, c: seq<T>, all: seq<T>, tail: seq<T>)
    requires all == (a + b) + c && tail == b + c
    ensures all == a + tail
  {
  }

  lemma EmptyLog(curve: Scoring.LossCurve, s: State)
    requires Fallback.Usable(s.chain)
    ensures Log(curve, s, []) == []
  {
  }

  lemma LogSplitsNone(curve: Scoring.LossCurve, s: State, s': State, past: seq<Input>)
    requires Fallback.Usable(s.chain) && Fallback.Usable(s'.chain)
    ensures Log(curve, s, past + []) == Log(curve, s, past) + Log(curve, s', [])
  {
    assert past + [] == past;
    EmptyLog(curve, s');
  }

  lemma {:induction false} LogSplits(curve: Scoring.LossCurve, s: State, past: seq<Input>, recent: seq<Input>)
    requires Ok(s)
    ensures Log(curve, s, past + recent) == Log(curve, s, past) + Log(curve, After(curve, s, past), recent)
    decreases |recent|
  {
    var s' := After(curve, s, past);
    RunOk(curve, s, past);
    if recent == [] {
      LogSplitsNone(curve, s, s', past);
    } else {
      var init, e := recent[..|recent| - 1], recent[|recent| - 1];
      LogSplits(curve, s, past, init);
      RunSplits(curve, s, past, init);
      LogSplitsStep(curve, s, s', past, init, e, Log(curve, s, past), Log(curve, s', init));
      SplitLast(past, recent);
    }
  }

  lemma SplitLast(past: seq<Input>, recent: seq<Input>)
    requires recent != []
    ensures var init, e := recent[..|recent| - 1], recent[|recent| - 1];
            recent == init + [e] && past + recent == (past + init) + [e]
  {
  }

  lemma {:induction false} LogTimes(curve: Scoring.LossCurve, s: State, inputs: seq<Input>)
    requires Ok(s)
    ensures forall r | r in Log(curve, s, inputs) :: exists e | e in inputs :: r.at == e.at
    decreases |inputs|
  {
    if inputs != [] {
      var init, e := inputs[..|inputs| - 1], inputs[|inputs| - 1];
      SnocLast(inputs);
      LogTimes(curve, s, init);
      LogStep(curve, s, init, e);
      forall r | r in Log(curve, s, inputs) ensures exists e | e in inputs :: r.at == e.at {
        if r in Log(curve, s, init) {
          var x :| x in init && r.at == x.at;
          assert x in inputs;
        } else {
          assert r.at == e.at && e in inputs;
        }
      }
    }
  }

  lemma LaterLog(curve: Scoring.LossCurve, s: State, past: seq<Input>, recent: seq<Input>) returns (i: nat)
    requires Ok(s)
    ensures var log := Log(curve, s, past + recent);
            i <= |log| && log[i..|log|] == Log(curve, After(curve, s, past), recent)
  {
    LogSplits(curve, s, past, recent);
    i := Tail(Log(curve, s, past), Log(curve, After(curve, s, past), recent), Log(curve, s, past + recent));
  }

  lemma Tail<T>(front: seq<T>, back: seq<T>, all: seq<T>) returns (i: nat)
    requires all == front + back
    ensures i <= |all| && all[i..|all|] == back
  {
    i := |front|;
  }

  /** With a configured cooldown of at most 30 s, on an ordered clock, in any stretch of a run
      shorter than the smaller cooldown the route moves at most as often as there are routes. */
  lemma FewMoves(
    curve: Scoring.LossCurve, cfg: Config, past: seq<Input>, recent: seq<Input>, t: nat, routes: set<string>)
    requires cfg.fallbackOrder != [] && Ordered(past + recent) && cfg.cooldownMs <= 30_000
    requires forall e | e in recent :: t <= e.at < t + Min(15_000, cfg.cooldownMs)
    requires forall r | r in Log(curve, After(curve, Initial(cfg), past), recent) ::
               r.verdict.Switch? ==> r.verdict.id in routes
    ensures MovesIn(curve, After(curve, Initial(cfg), past), recent) <= |routes|
  {
    var s, s' := Initial(cfg), After(curve, Initial(cfg), past);
    ReachableOk(curve, cfg, past);
    ReachableOk(curve, cfg, []);
    var i := LaterLog(curve, s, past, recent);
    LogTimes(curve, s', recent);
    FewSwitches(curve, cfg, past + recent, i, |Log(curve, s, past + recent)|, t, routes);
    MovesAreSwitches(curve, s', recent);
  }
}
