/** The engine over whole runs: what a selection guarantees, the decider inside the engine, bounded
    flapping and session identity. */
module EngineRuns {
  import opened Common
  import opened Model
  import opened Engine
  import opened EngineTheorems
  import Edges
  import Fallback
  import Health
  import Hysteresis
  import HysteresisTheorems
  import Probe
  import Scoring

  function After(curve: Scoring.LossCurve, s: State, inputs: seq<Input>): State
    requires Fallback.Usable(s.chain)
    ensures Fallback.Usable(After(curve, s, inputs).chain)
  {
    if inputs == [] then s else Next(curve, After(curve, s, inputs[..|inputs| - 1]), inputs[|inputs| - 1])
  }

  lemma {:induction false} RunOk(curve: Scoring.LossCurve, s: State, inputs: seq<Input>)
    requires Ok(s)
    ensures Ok(After(curve, s, inputs)) && After(curve, s, inputs).cfg == s.cfg
    decreases |inputs|
  {
    if inputs != [] {
      RunOk(curve, s, inputs[..|inputs| - 1]);
      StepOk(curve, After(curve, s, inputs[..|inputs| - 1]), inputs[|inputs| - 1]);
      StepCfg(curve, After(curve, s, inputs[..|inputs| - 1]), inputs[|inputs| - 1]);
    }
  }

  /** Every state the engine can reach, from any configuration with a fallback order, satisfies
      the invariant: route, session and decider agree, on a registered edge. */
  lemma ReachableOk(curve: Scoring.LossCurve, cfg: Config, inputs: seq<Input>)
    requires cfg.fallbackOrder != []
    ensures Ok(After(curve, Initial(cfg), inputs))
  {
    RunOk(curve, Initial(cfg), inputs);
  }

  // ---------------------------------------------------------------------
  // Selection

  lemma ChosenFrame(curve: Scoring.LossCurve, s: State, obs: Observation, now: nat)
    ensures var c, s' := Chosen(curve, s, Observe(obs, now)), EdgeObserved(curve, s, obs, now);
            && (c.Some? ==> Known(s, obs) && s'.current == c && c.value in Admitted(curve, Probed(s, obs, now), now))
            && (c.None? ==> s'.current == s.current)
            && (Known(s, obs) ==> s'.breakers == AfterScreening(curve, Probed(s, obs, now), now).breakers)
  {
    if Known(s, obs) {
      var p := Probed(s, obs, now);
      PickedRoute(AfterScreening(curve, p, now), Admitted(curve, p, now), now);
      SelectedBestFrame(AfterScreening(curve, p, now), Admitted(curve, p, now), now);
    }
  }

  /** A step that takes a route takes one on a registered edge, over a transport both the edge
      and the configuration support, with its live score, behind a breaker that is not open. */
  lemma SelectionIsSafe(curve: Scoring.LossCurve, s: State, obs: Observation, now: nat)
    requires Ok(s) && Chosen(curve, s, Observe(obs, now)).Some?
    ensures var c, s' := Chosen(curve, s, Observe(obs, now)).value, EdgeObserved(curve, s, obs, now);
            && s'.current == Some(c)
            && Offered(Probed(s, obs, now), c) && c.score == Some(Scoring.Score(curve, s.cfg.weights, c.metrics))
            && Shut(s'.breakers, KeyOf(c))
  {
    ChosenFrame(curve, s, obs, now);
    var p, c := Probed(s, obs, now), Chosen(curve, s, Observe(obs, now)).value;
    ProbedOk(s, obs, now);
    ScreeningOk(curve, p, now);
    CandidatesOffered(curve, p);
    var n :| 0 <= n < |Candidates(curve, p)| && Candidates(curve, p)[n] == c;
  }

  // ---------------------------------------------------------------------
  // Bounded flapping

  // What a step makes the decider do: answer a consultation, take in fresh metrics, both or neither.
  function Asked(curve: Scoring.LossCurve, s: State, e: Input): seq<Hysteresis.Event> {
    if !e.Observe? || !Known(s, e.obs) || s.current.None? then [] else
      var cs := Admitted(curve, Probed(s, e.obs, e.at), e.at);
      if cs == [] then [] else [Hysteresis.Consult(Best(cs), e.at)]
  }

  function Told(curve: Scoring.LossCurve, s: State, e: Input): seq<Hysteresis.Event> {
    if !e.Observe? || !Known(s, e.obs) then [] else
      var p := Probed(s, e.obs, e.at);
      var q := SelectedBest(AfterScreening(curve, p, e.at), Admitted(curve, p, e.at), e.at);
      var i := Edges.StatsIndex(p.registry.stats, e.obs.edgeId);
      if OnCurrentEdge(q, e.obs) && i < |p.registry.stats|
      then [Hysteresis.Refresh(Edges.Snapshot(p.registry.stats[i]))]
      else []
  }

  function StepEvents(curve: Scoring.LossCurve, s: State, e: Input): seq<Hysteresis.Event> {
    Asked(curve, s, e) + Told(curve, s, e)
  }

  lemma StepEventsTimed(curve: Scoring.LossCurve, s: State, e: Input)
    ensures |StepEvents(curve, s, e)| <= 2
    ensures forall x | x in StepEvents(curve, s, e) :: x.Refresh? || x.at == e.at
  {
  }

  function DeciderEvents(curve: Scoring.LossCurve, s: State, inputs: seq<Input>): seq<Hysteresis.Event>
    requires Fallback.Usable(s.chain)
  {
    if inputs == [] then [] else
      var init, e := inputs[..|inputs| - 1], inputs[|inputs| - 1];
      DeciderEvents(curve, s, init) + StepEvents(curve, After(curve, s, init), e)
  }

  // The answers the decider gave over a run.
  function Log(curve: Scoring.LossCurve, s: State, inputs: seq<Input>): seq<Hysteresis.Record>
    requires Fallback.Usable(s.chain)
  {
    Hysteresis.Records(s.decider, s.cfg.cooldownMs, DeciderEvents(curve, s, inputs))
  }

  ghost predicate Ordered(inputs: seq<Input>) { forall i, j | 0 <= i < j < |inputs| :: inputs[i].at <= inputs[j].at }

  function LastAt(inputs: seq<Input>): nat { if inputs == [] then 0 else inputs[|inputs| - 1].at }

  function Applied(d: Hysteresis.Decider, eng: nat, events: seq<Hysteresis.Event>): Hysteresis.Decider {
    if events == [] then d else Hysteresis.Advanced(d, eng, events[0])
  }

  lemma TwoEvents(d: Hysteresis.Decider, eng: nat, asked: seq<Hysteresis.Event>, told: seq<Hysteresis.Event>)
    requires |asked| <= 1 && |told| <= 1
    ensures Hysteresis.After(d, eng, asked + told) == Applied(Applied(d, eng, asked), eng, told)
  {
    Hysteresis.RunConcat(d, eng, asked, told);
    assert forall e: Hysteresis.Event :: [e][..0] == [];
    assert asked != [] ==> asked == [asked[0]];
    assert told != [] ==> told == [told[0]];
  }

  lemma SelectionDecider(s: State, cs: seq<RouteCandidate>, now: nat)
    ensures SelectedBest(s, cs, now).decider ==
            if cs == [] || s.current.None? then s.decider
            else Hysteresis.Consulted(s.decider, s.cfg.cooldownMs, Best(cs), now)
  {
  }

  lemma ObservedDecider(curve: Scoring.LossCurve, s: State, obs: Observation, now: nat)
    requires Known(s, obs)
    ensures var e, eng := Observe(obs, now), s.cfg.cooldownMs;
            EdgeObserved(curve, s, obs, now).decider
            == Applied(Applied(s.decider, eng, Asked(curve, s, e)), eng, Told(curve, s, e))
  {
    var p := Probed(s, obs, now);
    var q, cs := AfterScreening(curve, p, now), Admitted(curve, p, now);
    SelectionDecider(q, cs, now);
    SelectedBestFrame(q, cs, now);
  }

  lemma StepDecider(curve: Scoring.LossCurve, s: State, e: Input)
    requires Fallback.Usable(s.chain)
    ensures Next(curve, s, e).decider
            == Hysteresis.After(s.decider, s.cfg.cooldownMs, StepEvents(curve, s, e))
  {
    TwoEvents(s.decider, s.cfg.cooldownMs, Asked(curve, s, e), Told(curve, s, e));
    if e.Observe? && Known(s, e.obs) { ObservedDecider(curve, s, e.obs, e.at); }
  }

  /** The decider inside the engine is the decider on its own, run on the consultations and
      metrics the engine hands it: every theorem about decider runs holds of engine runs. */
  lemma {:induction false} DeciderFollows(curve: Scoring.LossCurve, s: State, inputs: seq<Input>)
    requires Ok(s)
    ensures After(curve, s, inputs).decider
            == Hysteresis.After(s.decider, s.cfg.cooldownMs, DeciderEvents(curve, s, inputs))
    decreases |inputs|
  {
    if inputs != [] {
      var init, e := inputs[..|inputs| - 1], inputs[|inputs| - 1];
      var s' := After(curve, s, init);
      DeciderFollows(curve, s, init);
      RunOk(curve, s, init);
      StepDecider(curve, s', e);
      Hysteresis.RunConcat(s.decider, s.cfg.cooldownMs, DeciderEvents(curve, s, init), StepEvents(curve, s', e));
    }
  }

  lemma OneEvent(d: Hysteresis.Decider, eng: nat, e: Hysteresis.Event)
    ensures Hysteresis.Records(d, eng, [e])
            == if e.Consult? then [Hysteresis.RecordOf(d, e.candidate, e.at)] else []
  {
    assert [e][..0] == [];
  }

  // The answer a step adds to the log.
  function Answered(curve: Scoring.LossCurve, s: State, e: Input): seq<Hysteresis.Record> {
    var asked := Asked(curve, s, e);
    if asked == [] then [] else [Hysteresis.RecordOf(s.decider, asked[0].candidate, e.at)]
  }

  lemma StepRecords(curve: Scoring.LossCurve, s: State, e: Input)
    ensures Hysteresis.Records(s.decider, s.cfg.cooldownMs, StepEvents(curve, s, e)) == Answered(curve, s, e)
  {
    var eng, asked, told := s.cfg.cooldownMs, Asked(curve, s, e), Told(curve, s, e);
    Hysteresis.RunConcat(s.decider, eng, asked, told);
    if asked != [] { assert asked == [asked[0]]; OneEvent(s.decider, eng, asked[0]); }
    if told != [] { assert told == [told[0]]; OneEvent(Hysteresis.After(s.decider, eng, asked), eng, told[0]); }
  }

  /** A step adds to the log the decider's answer to what the engine asks in it. */
  lemma LogStep(curve: Scoring.LossCurve, s: State, inputs: seq<Input>, e: Input)
    requires Ok(s)
    ensures Log(curve, s, inputs + [e]) == Log(curve, s, inputs) + Answered(curve, After(curve, s, inputs), e)
  {
    var all, s' := inputs + [e], After(curve, s, inputs);
    assert all[..|all| - 1] == inputs;
    DeciderFollows(curve, s, inputs);
    RunOk(curve, s, inputs);
    Hysteresis.RunConcat(
      s.decider, s.cfg.cooldownMs, DeciderEvents(curve, s, inputs), StepEvents(curve, s', e));
    StepRecords(curve, s', e);
  }

  lemma OrderedAppend(before: seq<Hysteresis.Event>, now: seq<Hysteresis.Event>, t: nat)
    requires Hysteresis.Ordered(before) && |now| <= 2
    requires forall x | x in before :: Hysteresis.NoLaterThan(x, t)
    requires forall x | x in now :: x.Refresh? || x.at == t
    ensures Hysteresis.Ordered(before + now)
    ensures forall x | x in before + now :: Hysteresis.NoLaterThan(x, t)
  {
  }

  lemma {:induction false} EventsOrdered(curve: Scoring.LossCurve, s: State, inputs: seq<Input>)
    requires Fallback.Usable(s.chain) && Ordered(inputs)
    ensures Hysteresis.Ordered(DeciderEvents(curve, s, inputs))
    ensures forall x | x in DeciderEvents(curve, s, inputs) :: Hysteresis.NoLaterThan(x, LastAt(inputs))
    decreases |inputs|
  {
    if inputs != [] {
      var init, e := inputs[..|inputs| - 1], inputs[|inputs| - 1];
      EventsOrdered(curve, s, init);
      assert LastAt(init) <= e.at;
      var before := DeciderEvents(curve, s, init);
      assert forall x | x in before :: Hysteresis.NoLaterThan(x, e.at);
      StepEventsTimed(curve, After(curve, s, init), e);
      OrderedAppend(before, StepEvents(curve, After(curve, s, init), e), e.at);
    }
  }

  /** On a clock that never runs backwards, with a configured cooldown of at most twice the
      decider's fixed 15 s, two switches to one route are at least the smaller cooldown apart. */
  lemma SwitchesApart(curve: Scoring.LossCurve, cfg: Config, inputs: seq<Input>)
    requires cfg.fallbackOrder != [] && Ordered(inputs) && cfg.cooldownMs <= 30_000
    ensures Hysteresis.Apart(Log(curve, Initial(cfg), inputs), Min(15_000, cfg.cooldownMs))
  {
    EventsOrdered(curve, Initial(cfg), inputs);
    var events := DeciderEvents(curve, Initial(cfg), inputs);
    Hysteresis.RunKeepsApart(
      Hysteresis.Fresh(Hysteresis.DEFAULT), cfg.cooldownMs, events, Min(15_000, cfg.cooldownMs));
  }

  /** So in any stretch of a run shorter than that there are at most as many switches as routes. */
  lemma FewSwitches(
    curve: Scoring.LossCurve, cfg: Config, inputs: seq<Input>, i: nat, j: nat, t: nat, routes: set<string>)
    requires cfg.fallbackOrder != [] && Ordered(inputs) && cfg.cooldownMs <= 30_000
    requires i <= j <= |Log(curve, Initial(cfg), inputs)|
    requires forall r | r in Log(curve, Initial(cfg), inputs)[i..j] ::
               t <= r.at < t + Min(15_000, cfg.cooldownMs) && (r.verdict.Switch? ==> r.verdict.id in routes)
    ensures |HysteresisTheorems.SwitchIds(Log(curve, Initial(cfg), inputs)[i..j])| <= |routes|
  {
    EventsOrdered(curve, Initial(cfg), inputs);
    var events := DeciderEvents(curve, Initial(cfg), inputs);
    HysteresisTheorems.FewSwitches(Hysteresis.DEFAULT, cfg.cooldownMs, events, i, j, t, routes);
  }

  /** The engine leaves a route as degraded exactly when the decider was neither blocked nor won
      over on latency, and its consultations saw the route degraded for five seconds on end. */
  lemma DegradedSwitchIff(curve: Scoring.LossCurve, cfg: Config, inputs: seq<Input>, n: nat)
    requires cfg.fallbackOrder != [] && Ordered(inputs) && n < |Log(curve, Initial(cfg), inputs)|
    ensures var log := Log(curve, Initial(cfg), inputs);
            log[n].verdict == Hysteresis.Switch(log[n].candidate.id, Hysteresis.CurrentRouteDegraded)
            <==> !log[n].banned && !HysteresisTheorems.WinsOnLatency(log[n], Hysteresis.DEFAULT)
                 && HysteresisTheorems.LongRegime(log, n, 5_000)
  {
    EventsOrdered(curve, Initial(cfg), inputs);
    var events := DeciderEvents(curve, Initial(cfg), inputs);
    HysteresisTheorems.DegradedSwitchIff(Hysteresis.DEFAULT, cfg.cooldownMs, events, n);
  }

  // ---------------------------------------------------------------------
  // Sessions

  predicate ElsewhereThan(c: RouteCandidate, d: RouteCandidate) {
    c.transport != d.transport || Edges.EdgeIdOf(c.id) != Edges.EdgeIdOf(d.id)
  }

  // Taking candidate c moves an existing route to another transport or edge.
  predicate MovesTo(s: State, c: Option<RouteCandidate>) {
    s.current.Some? && c.Some? && ElsewhereThan(s.current.value, c.value)
  }

  predicate Moves(curve: Scoring.LossCurve, s: State, e: Input) { MovesTo(s, Chosen(curve, s, e)) }

  function MovesIn(curve: Scoring.LossCurve, s: State, inputs: seq<Input>): nat
    requires Fallback.Usable(s.chain)
  {
    if inputs == [] then 0 else
      var init := inputs[..|inputs| - 1];
      MovesIn(curve, s, init) + if Moves(curve, After(curve, s, init), inputs[|inputs| - 1]) then 1 else 0
  }

  // What taking candidate c does to the session.
  ghost predicate SessionAfter(s: State, c: Option<RouteCandidate>, s': State) {
    var moved := MovesTo(s, c);
    && (s.session.Some? ==> s'.session.Some? && s'.session.value.sessionId == s.session.value.sessionId
                            && s'.session.value.migrations == s.session.value.migrations + if moved then 1 else 0)
    && (s.session.None? ==> !moved && (s'.session.Some? ==> s'.session.value.migrations == 0))
    && (moved ==> s'.session.value.connectionId == s.drawn)
  }

  lemma SelectionSession(s: State, cs: seq<RouteCandidate>, now: nat)
    requires s.session.Some? <==> s.current.Some?
    ensures SessionAfter(s, Pick(s, cs, now), SelectedBest(s, cs, now))
  {
    PickedRoute(s, cs, now);
  }

  lemma ObservedSession(curve: Scoring.LossCurve, s: State, obs: Observation, now: nat)
    requires Known(s, obs)
    ensures var p := Probed(s, obs, now);
            EdgeObserved(curve, s, obs, now).session
            == SelectedBest(AfterScreening(curve, p, now), Admitted(curve, p, now), now).session
  {
  }

  lemma StepSession(curve: Scoring.LossCurve, s: State, e: Input)
    requires Ok(s)
    ensures SessionAfter(s, Chosen(curve, s, e), Next(curve, s, e))
  {
    if e.Observe? && Known(s, e.obs) {
      var p := Probed(s, e.obs, e.at);
      SelectionSession(AfterScreening(curve, p, e.at), Admitted(curve, p, e.at), e.at);
      ObservedSession(curve, s, e.obs, e.at);
    }
  }

  /** Once begun, a session keeps its id for ever and its migrations are exactly the steps that
      moved the route to another transport or edge. */
  lemma {:induction false} SessionIdentity(curve: Scoring.LossCurve, s: State, inputs: seq<Input>)
    requires Ok(s) && s.session.Some?
    ensures var s' := After(curve, s, inputs);
            && s'.session.Some? && s'.session.value.sessionId == s.session.value.sessionId
            && s'.session.value.migrations == s.session.value.migrations + MovesIn(curve, s, inputs)
    decreases |inputs|
  {
    if inputs != [] {
      var init := inputs[..|inputs| - 1];
      SessionIdentity(curve, s, init);
      RunOk(curve, s, init);
      StepSession(curve, After(curve, s, init), inputs[|inputs| - 1]);
    }
  }

  /** Over a whole life: migrations count the moves, and route changes, which miss the moves
      between edges on one transport, never exceed them. */
  lemma {:induction false} MigrationsCountMoves(curve: Scoring.LossCurve, cfg: Config, inputs: seq<Input>)
    requires cfg.fallbackOrder != []
    ensures var s := After(curve, Initial(cfg), inputs);
            && (s.session.Some? ==> s.session.value.migrations == MovesIn(curve, Initial(cfg), inputs))
            && (s.session.None? ==> MovesIn(curve, Initial(cfg), inputs) == 0)
            && s.counters.routeChanges <= MovesIn(curve, Initial(cfg), inputs)
    decreases |inputs|
  {
    ReachableOk(curve, cfg, inputs);
    if inputs != [] {
      var init := inputs[..|inputs| - 1];
      MigrationsCountMoves(curve, cfg, init);
      ReachableOk(curve, cfg, init);
      StepSession(curve, After(curve, Initial(cfg), init), inputs[|inputs| - 1]);
    }
  }

  ghost predicate AllInRange(p: Probe.Scheduler) { forall b | b in p.budgets :: Probe.InRange(b) }

  /** In every reachable state each probe interval lies between a second and its default. */
  lemma {:induction false} ProbesInRange(curve: Scoring.LossCurve, cfg: Config, inputs: seq<Input>)
    requires cfg.fallbackOrder != []
    ensures AllInRange(After(curve, Initial(cfg), inputs).probes)
    decreases |inputs|
  {
    if inputs != [] {
      var init := inputs[..|inputs| - 1];
      ProbesInRange(curve, cfg, init);
      StepProbes(curve, After(curve, Initial(cfg), init), inputs[|inputs| - 1]);
    }
  }

  lemma AdaptedAllInRange(p: Probe.Scheduler, level: Health.MonitorLevel)
    requires AllInRange(p)
    ensures AllInRange(Probe.HealthApplied(p, level))
  {
    forall b | b in Probe.HealthApplied(p, level).budgets ensures Probe.InRange(b) {
      var i :| 0 <= i < |p.budgets| && b == Probe.Adapted(p.budgets[i], level);
      assert p.budgets[i] in p.budgets;
      Probe.AdaptedInRange(p.budgets[i], level);
    }
  }

  lemma RefreshedProbes(s: State, obs: Observation, now: nat)
    requires AllInRange(s.probes)
    ensures AllInRange(Refreshed(s, obs, now).probes)
  {
    AdaptedAllInRange(s.probes, Health.LevelOf(Refreshed(s, obs, now).health.grade));
  }

  lemma StepProbes(curve: Scoring.LossCurve, s: State, e: Input)
    requires Fallback.Usable(s.chain) && AllInRange(s.probes)
    ensures AllInRange(Next(curve, s, e).probes)
  {
    match e
    case Observe(obs, now) =>
      if Known(s, obs) {
        var p := Probed(s, obs, now);
        var q := SelectedBest(AfterScreening(curve, p, now), Admitted(curve, p, now), now);
        assert q.probes == s.probes;
        RefreshedProbes(q, obs, now);
      }
    case Failure(t, now) => assert TransportFailed(s, t, now).probes == s.probes;
    case _ =>
  }

  // ---------------------------------------------------------------------
  // Health

  // The score a step hands the health tracker, if it does.
  function Rated(curve: Scoring.LossCurve, s: State, e: Input): seq<Health.Observation> {
    var told := Told(curve, s, e);
    if told == [] then []
    else [Health.Observation(Health.HealthScore(Health.DEFAULT_WEIGHTS, told[0].metrics), e.at)]
  }

  function Ratings(curve: Scoring.LossCurve, s: State, inputs: seq<Input>): seq<Health.Observation>
    requires Fallback.Usable(s.chain)
  {
    if inputs == [] then [] else
      var init := inputs[..|inputs| - 1];
      Ratings(curve, s, init) + Rated(curve, After(curve, s, init), inputs[|inputs| - 1])
  }

  lemma ObservedHealth(curve: Scoring.LossCurve, s: State, obs: Observation, now: nat)
    requires Known(s, obs)
    ensures var rated := Rated(curve, s, Observe(obs, now));
            |rated| <= 1
            && EdgeObserved(curve, s, obs, now).health
               == if rated == [] then s.health else Health.Observed(s.health, rated[0].score, now, 3_000)
  {
    var p := Probed(s, obs, now);
    var q := SelectedBest(AfterScreening(curve, p, now), Admitted(curve, p, now), now);
    SelectedBestFrame(AfterScreening(curve, p, now), Admitted(curve, p, now), now);
    assert q.health == s.health;
  }

  lemma StepHealth(curve: Scoring.LossCurve, s: State, e: Input)
    requires Fallback.Usable(s.chain)
    ensures var rated := Rated(curve, s, e);
            && |rated| <= 1 && (forall r | r in rated :: r.at == e.at)
            && Next(curve, s, e).health
               == if rated == [] then s.health else Health.Observed(s.health, rated[0].score, e.at, 3_000)
  {
    match e
    case Observe(obs, now) => if Known(s, obs) { ObservedHealth(curve, s, obs, now); }
    case Failure(t, now) => assert TransportFailed(s, t, now).health == s.health;
    case _ =>
  }

  lemma RatingSnoc(obs: seq<Health.Observation>, more: seq<Health.Observation>, at: nat)
    requires |more| <= 1 && (forall r | r in more :: r.at == at)
    requires Health.Ordered(obs) && forall r | r in obs :: r.at <= at
    ensures Health.Ordered(obs + more) && forall r | r in obs + more :: r.at <= at
  {
  }

  lemma TrackerSnoc(obs: seq<Health.Observation>, more: seq<Health.Observation>)
    requires |more| <= 1
    ensures Health.After(obs + more, 3_000)
            == var t := Health.After(obs, 3_000);
               if more == [] then t else Health.Observed(t, more[0].score, more[0].at, 3_000)
  {
    if more == [] { assert obs + more == obs; } else { assert (obs + more)[..|obs|] == obs && more == [more[0]]; }
  }

  /** The health tracker inside the engine is the tracker on its own, run on the scores of the current
      edge: every theorem about its runs holds of engine runs. */
  lemma {:induction false} HealthFollows(curve: Scoring.LossCurve, cfg: Config, inputs: seq<Input>)
    requires cfg.fallbackOrder != []
    ensures After(curve, Initial(cfg), inputs).health
            == Health.After(Ratings(curve, Initial(cfg), inputs), 3_000)
    ensures Ordered(inputs) ==>
              && Health.Ordered(Ratings(curve, Initial(cfg), inputs))
              && forall r | r in Ratings(curve, Initial(cfg), inputs) :: r.at <= LastAt(inputs)
    decreases |inputs|
  {
    if inputs != [] {
      var init, e := inputs[..|inputs| - 1], inputs[|inputs| - 1];
      HealthFollows(curve, cfg, init);
      var s, obs := After(curve, Initial(cfg), init), Ratings(curve, Initial(cfg), init);
      StepHealth(curve, s, e);
      TrackerSnoc(obs, Rated(curve, s, e));
      if Ordered(inputs) {
        assert LastAt(init) <= e.at;
        RatingSnoc(obs, Rated(curve, s, e), e.at);
      }
    }
  }

  // The grade held after the observations: that of the last score, unless that improved too soon.
  ghost predicate GradeOf(obs: seq<Health.Observation>, grade: Health.Grade)
    requires obs != []
  {
    var n := |obs| - 1;
    var latest := Health.GradeFor(obs[n].score, Health.DEFAULT_MODEL);
    && !Health.Better(grade, latest)
    && grade == if Health.ImprovedAt(obs, 3_000, n) && !Health.WindowImproved(obs, 3_000, n)
                then Health.After(obs[..n], 3_000).grade else latest
  }

  lemma TrackerGrade(obs: seq<Health.Observation>)
    requires Health.Ordered(obs) && obs != []
    ensures GradeOf(obs, Health.After(obs, 3_000).grade)
  {
    assert obs[..|obs|] == obs;
    Health.GradeAfter(obs, 3_000, |obs| - 1);
    Health.NeverFlatters(obs, 3_000);
  }

  /** So in every run on an ordered clock the grade is that of the last score, unless that improved on
      the grade held before the three seconds of improvement were over. */
  lemma EngineGrade(curve: Scoring.LossCurve, cfg: Config, inputs: seq<Input>)
    requires cfg.fallbackOrder != [] && Ordered(inputs) && Ratings(curve, Initial(cfg), inputs) != []
    ensures GradeOf(Ratings(curve, Initial(cfg), inputs), After(curve, Initial(cfg), inputs).health.grade)
  {
    HealthFollows(curve, cfg, inputs);
    TrackerGrade(Ratings(curve, Initial(cfg), inputs));
  }
}
