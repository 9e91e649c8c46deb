/** Runs of the engine, step by step from its initial state, in which it falls short of what its
    comments promise: switches without evidence, a trip counted without a trip, and one lost probe
    that moves the route. */
module EngineLapses {
  import opened Common
  import opened Model
  import opened Engine
  import opened EngineTheorems
  import opened EngineRuns
  import opened EngineEvidence
  import opened EngineBreakers
  import opened EngineScenes
  import Circuit
  import Edges
  import Fallback
  import Hysteresis
  import HysteresisTheorems
  import Scoring

  // ---------------------------------------------------------------------
  // A switch without evidence, from a route the decider never heard of

  function Pair(a: Edges.Stats): Edges.Registry {
    Edges.Registry([Spot("a"), Spot("b")], [a, Edges.NewStats(Spot("b"))])
  }

  function LostOnce(): Edges.Stats {
    Edges.Stats("a", Some(1.0), Some(0.0), 1.0, 0.0, None, 1, 0, 0, 1, Some(0), EXPIRY)
  }

  function LostHalf(): Edges.Stats {
    Edges.Stats("a", Some(1.0), Some(0.0), 0.5, 0.5, None, 2, 0, 1, 1, Some(0), EXPIRY)
  }

  lemma PairHits()
    ensures AfterHit(Pair(Edges.NewStats(Spot("a"))), 0, 1.0, true, 0) == Pair(LostOnce())
    ensures AfterHit(Pair(LostOnce()), 0, 1.0, false, 0) == Pair(LostHalf())
  {
    assert Edges.Probed(Edges.NewStats(Spot("a")), 1.0, 0.0, true, None, 0) == LostOnce();
    assert Edges.Probed(LostOnce(), 1.0, 0.0, false, None, 0) == LostHalf();
  }

  lemma PairWins(curve: Scoring.LossCurve)
    ensures Wins(curve, Pair(LostOnce()), 1) && Wins(curve, Pair(LostHalf()), 0)
  {
    NewScore(curve, Spot("b"));
    assert Edges.Snapshot(LostOnce()) == Metrics(1.0, 0.0, 1.0, 0.0, 0.0, 0.0);
    assert Edges.Snapshot(LostHalf()) == Metrics(1.0, 0.0, 0.5, 0.25, 0.0, 0.0);
    ScoreFlat(curve, Metrics(1.0, 0.0, 1.0, 0.0, 0.0, 0.0));
    ScoreFlat(curve, Metrics(1.0, 0.0, 0.5, 0.25, 0.0, 0.0));
  }

  function UninformedRun(): seq<Input> {
    [SetEdges([Spot("a"), Spot("b")], 0)] + [Observe(Hit(Pair(Edges.NewStats(Spot("a"))), 0, 1.0, true), 0)]
  }

  lemma TwoSpots(infos: seq<EdgeInfo>)
    requires infos == [Spot("a"), Spot("b")]
    ensures Distinct(infos) && forall e | e in infos :: e.supported == [Quic]
  {
    assert infos[0].id[0] != infos[1].id[0];
  }

  lemma TwoNew(infos: seq<EdgeInfo>)
    requires infos == [Spot("a"), Spot("b")]
    ensures Edges.Registry(infos, NewStatsOf(infos)) == Pair(Edges.NewStats(Spot("a")))
  {
  }

  lemma PairRegisters(curve: Scoring.LossCurve, cooldownMs: nat)
    ensures Shows(curve, Setup(cooldownMs), [SetEdges([Spot("a"), Spot("b")], 0)],
                  Scene(Pair(Edges.NewStats(Spot("a"))), None, Hysteresis.Fresh(Hysteresis.DEFAULT), []))
  {
    var infos := [Spot("a"), Spot("b")];
    TwoSpots(infos);
    TwoNew(infos);
    Registers(curve, cooldownMs, infos);
  }

  // The first route is on edge b, of which nothing was ever measured, and the decider is told nothing.
  lemma UninformedScene(curve: Scoring.LossCurve, cooldownMs: nat, r: Edges.Registry)
    requires r == Pair(LostOnce())
    ensures Shows(curve, Setup(cooldownMs), UninformedRun(),
                  Scene(r, Some(RouteAt(curve, r, 1)), Hysteresis.Fresh(Hysteresis.DEFAULT), []))
  {
    PairRegisters(curve, cooldownMs);
    PairHits();
    PairWins(curve);
    var x := Scene(Pair(Edges.NewStats(Spot("a"))), None, Hysteresis.Fresh(Hysteresis.DEFAULT), []);
    FirstProbe(curve, Setup(cooldownMs), [SetEdges([Spot("a"), Spot("b")], 0)], x, 0, 1.0, true, 0, 1, r);
  }

  // A fresh decider takes any candidate that does not fail on two counts, and bans nothing else.
  lemma FreshTakes(c: RouteCandidate, eng: nat, now: nat)
    requires !Hysteresis.Falling(c.metrics)
    ensures var d := Hysteresis.Fresh(Hysteresis.DEFAULT);
            && Hysteresis.VerdictOf(d, c, now).Switch? && Hysteresis.RecordOf(d, c, now).known.None?
            && forall t, id | id != c.id :: !Hysteresis.Banned(Hysteresis.Consulted(d, eng, c, now).bans, id, t)
  {
    var d := Hysteresis.Fresh(Hysteresis.DEFAULT);
    forall t, id | id != c.id ensures !Hysteresis.Banned(Hysteresis.Consulted(d, eng, c, now).bans, id, t) {
      HysteresisTheorems.ImposedExactly([], 15_000, c.id, now + eng, id, t);
    }
  }

  lemma UninformedNext(
    curve: Scoring.LossCurve, cooldownMs: nat, r: Edges.Registry, r': Edges.Registry, c: RouteCandidate)
    requires |r.stats| == 2 && |r.edges| == 2 && r' == AfterHit(r, 0, 1.0, false, 0) && Wins(curve, r', 0)
    requires Shows(curve, Setup(cooldownMs), UninformedRun(),
                   Scene(r, Some(RouteAt(curve, r, 1)), Hysteresis.Fresh(Hysteresis.DEFAULT), []))
    requires c == RouteAt(curve, r', 0) && !Hysteresis.Falling(c.metrics)
    ensures var d := Hysteresis.Fresh(Hysteresis.DEFAULT);
            Hysteresis.VerdictOf(d, c, 0).Switch?
            && Shows(curve, Setup(cooldownMs), UninformedRun() + [Observe(Hit(r, 0, 1.0, false), 0)],
                     Scene(r', Some(c), Hysteresis.Consulted(d, cooldownMs, c, 0), [] + [Hysteresis.RecordOf(d, c, 0)]))
  {
    var x := Scene(r, Some(RouteAt(curve, r, 1)), Hysteresis.Fresh(Hysteresis.DEFAULT), []);
    FreshTakes(c, cooldownMs, 0);
    assert LastAt(UninformedRun()) == 0;
    SwitchProbe(curve, Setup(cooldownMs), UninformedRun(), x, 0, 1.0, false, 0, 0, r', c);
  }

  lemma PairIds(curve: Scoring.LossCurve)
    ensures RouteAt(curve, Pair(LostOnce()), 1).id != RouteAt(curve, Pair(LostHalf()), 0).id
    ensures Pair(LostOnce()).stats[1].samples == 0
    ensures !Hysteresis.Falling(RouteAt(curve, Pair(LostHalf()), 0).metrics)
  {
    Edges.CandidateIdInjective("a", Quic, "b", Quic);
    assert Edges.Snapshot(LostHalf()) == Metrics(1.0, 0.0, 0.5, 0.25, 0.0, 0.0);
  }

  function UninformedHit(): Input { Observe(Hit(Pair(LostOnce()), 0, 1.0, false), 0) }

  // The run ends with a probe that moves the route by the one switch of the whole run, made without
  // knowing anything of the route before, which it leaves unbanned.
  ghost predicate OnNothing(
    curve: Scoring.LossCurve, cfg: Config, inputs: seq<Input>, e: Input, before: Scene, after: Scene)
  {
    && Shows(curve, cfg, inputs, before) && Shows(curve, cfg, inputs + [e], after)
    && before.current.Some? && after.current.Some? && before.current.value.id != after.current.value.id
    && |after.log| == 1 && after.log[0].verdict.Switch? && after.log[0].known.None?
    && forall t :: !Hysteresis.Banned(after.decider.bans, before.current.value.id, t)
  }

  lemma UninformedOnNothing(curve: Scoring.LossCurve, cooldownMs: nat, r: Edges.Registry, r': Edges.Registry)
    returns (before: Scene, after: Scene)
    requires |r.stats| == 2 && |r.edges| == 2 && r' == AfterHit(r, 0, 1.0, false, 0) && Wins(curve, r', 0)
    requires Shows(curve, Setup(cooldownMs), UninformedRun(),
                   Scene(r, Some(RouteAt(curve, r, 1)), Hysteresis.Fresh(Hysteresis.DEFAULT), []))
    requires RouteAt(curve, r, 1).id != RouteAt(curve, r', 0).id && !Hysteresis.Falling(RouteAt(curve, r', 0).metrics)
    ensures OnNothing(curve, Setup(cooldownMs), UninformedRun(), Observe(Hit(r, 0, 1.0, false), 0), before, after)
    ensures before.registry == r && before.current == Some(RouteAt(curve, r, 1))
    ensures after.registry == r' && after.current == Some(RouteAt(curve, r', 0))
  {
    var d, c := Hysteresis.Fresh(Hysteresis.DEFAULT), RouteAt(curve, r', 0);
    UninformedNext(curve, cooldownMs, r, r', c);
    FreshTakes(c, cooldownMs, 0);
    before := Scene(r, Some(RouteAt(curve, r, 1)), d, []);
    after := Scene(r', Some(c), Hysteresis.Consulted(d, cooldownMs, c, 0), [] + [Hysteresis.RecordOf(d, c, 0)]);
  }

  /** A reachable switch of an uninformed decider: edge b is taken unmeasured, since its placeholder scores
      more than a lost probe of a; the next probe of a moves the route there, though nothing is
      known of b, and leaves b unbanned. */
  lemma SwitchOnNothing(curve: Scoring.LossCurve, cooldownMs: nat) returns (before: Scene, after: Scene)
    ensures OnNothing(curve, Setup(cooldownMs), UninformedRun(), UninformedHit(), before, after)
    ensures before.registry == Pair(LostOnce()) && before.current == Some(RouteAt(curve, Pair(LostOnce()), 1))
    ensures after.registry == Pair(LostHalf()) && after.current == Some(RouteAt(curve, Pair(LostHalf()), 0))
  {
    UninformedScene(curve, cooldownMs, Pair(LostOnce()));
    PairHits();
    PairWins(curve);
    PairIds(curve);
    before, after := UninformedOnNothing(curve, cooldownMs, Pair(LostOnce()), Pair(LostHalf()));
  }

  // ---------------------------------------------------------------------
  // A counted trip without a trip

  lemma HitBreaker(curve: Scoring.LossCurve, s: State, i: nat, latency: Measure, lost: bool, now: nat, j: nat)
    requires Quiet(s) && i < |s.registry.stats| && Wins(curve, AfterHit(s.registry, i, latency, lost, now), j)
    ensures SomeBreaker(EdgeObserved(curve, s, Hit(s.registry, i, latency, lost), now), Quic)
  {
    var obs, r := Hit(s.registry, i, latency, lost), AfterHit(s.registry, i, latency, lost, now);
    var p := Probed(s, obs, now);
    HitAdmits(curve, s, i, latency, lost, now, j);
    ProbedOk(s, obs, now);
    ScreeningOk(curve, p, now);
    ChosenFrame(curve, s, obs, now);
    var c := Admitted(curve, p, now)[j];
    assert c in Admitted(curve, p, now);
    SuffixOfKey(c.id, Quic, Quic);
    assert KeyOf(c) in EdgeObserved(curve, s, obs, now).breakers;
  }

  lemma ProbeMakesBreaker(
    curve: Scoring.LossCurve, cfg: Config, inputs: seq<Input>, s: State,
    i: nat, latency: Measure, lost: bool, now: nat, j: nat)
    requires Fallback.Usable(Initial(cfg).chain) && s == After(curve, Initial(cfg), inputs)
    requires Quiet(s) && i < |s.registry.stats| && Wins(curve, AfterHit(s.registry, i, latency, lost, now), j)
    ensures SomeBreaker(After(curve, Initial(cfg), inputs + [Observe(Hit(s.registry, i, latency, lost), now)]), Quic)
  {
    HitBreaker(curve, s, i, latency, lost, now, j);
    AfterSnoc(curve, Initial(cfg), inputs, Observe(Hit(s.registry, i, latency, lost), now));
  }

  lemma UninformedBreaker(curve: Scoring.LossCurve, cooldownMs: nat)
    ensures SomeBreaker(After(curve, Initial(Setup(cooldownMs)), UninformedRun()), Quic)
  {
    PairRegisters(curve, cooldownMs);
    PairHits();
    PairWins(curve);
    var inputs := [SetEdges([Spot("a"), Spot("b")], 0)];
    var s := After(curve, Initial(Setup(cooldownMs)), inputs);
    ProbeMakesBreaker(curve, Setup(cooldownMs), inputs, s, 0, 1.0, true, 0, 1);
  }

  lemma NoReportsYet(curve: Scoring.LossCurve, cooldownMs: nat)
    ensures After(curve, Initial(Setup(cooldownMs)), UninformedRun()).counters.circuitTrips == 0
  {
    var s, inputs := Initial(Setup(cooldownMs)), UninformedRun();
    ReachableOk(curve, Setup(cooldownMs), []);
    RunCounts(curve, s, inputs, "");
    assert inputs[..1][..0] == [];
    assert inputs[..1][0].SetEdges? && inputs[1].Observe?;
    assert ReportsMet(curve, s, inputs[..1]) == 0;
  }

  /** After one failure report `circuit_trips` says one, though no breaker of the engine ever
      opened: each takes three failures. */
  lemma CountedWithoutTrip(curve: Scoring.LossCurve, cooldownMs: nat, now: nat)
    ensures var s' := After(curve, Initial(Setup(cooldownMs)), UninformedRun() + [Failure(Quic, now)]);
            && s'.counters.circuitTrips == 1
            && forall k | k in s'.breakers :: s'.breakers[k].state.Closed? && s'.breakers[k].trips == 0
  {
    var cfg, inputs, e := Setup(cooldownMs), UninformedRun(), Failure(Quic, now);
    UninformedScene(curve, cooldownMs, Pair(LostOnce()));
    UninformedBreaker(curve, cooldownMs);
    NoReportsYet(curve, cooldownMs);
    AfterSnoc(curve, Initial(cfg), inputs, e);
    FreshFailed(curve, After(curve, Initial(cfg), inputs), Quic, now);
  }

  lemma FreshFailed(curve: Scoring.LossCurve, s: State, t: TransportKind, now: nat)
    requires Ok(s) && SomeBreaker(s, t) && AllFresh(s.breakers, s.cfg.circuit) && s.cfg.circuit == Circuit.DEFAULT
    ensures var s' := Next(curve, s, Failure(t, now));
            && s'.counters.circuitTrips == s.counters.circuitTrips + 1
            && forall k | k in s'.breakers :: s'.breakers[k].state.Closed? && s'.breakers[k].trips == 0
  {
    var b := Circuit.Fresh(Circuit.DEFAULT);
    var failed := Circuit.Failed(b, now);
    assert failed.state.Closed? && failed.trips == 0;
    var breakers := BreakersCharged(s, t, now).breakers;
    assert Next(curve, s, Failure(t, now)).breakers == breakers;
    forall k | k in breakers ensures breakers[k].state.Closed? && breakers[k].trips == 0 {
      assert breakers[k] == b || breakers[k] == failed;
    }
  }

  // ---------------------------------------------------------------------
  // Switches on placeholders

  // Edge a with one probe lost of two, of three and of four, all others delivered in 20 ms.
  function OneOfTwo(): Edges.Stats {
    Edges.Stats("a", Some(20.0), Some(0.0), 0.5, 0.5, None, 2, 0, 1, 1, Some(0), EXPIRY)
  }

  function OneOfThree(): Edges.Stats {
    Edges.Stats("a", Some(20.0), Some(0.0), 1.0 / 3.0, 2.0 / 3.0, None, 3, 0, 2, 1, Some(0), EXPIRY)
  }

  function OneOfFour(): Edges.Stats {
    Edges.Stats("a", Some(20.0), Some(0.0), 0.25, 0.75, None, 4, 0, 3, 1, Some(5_000), EXPIRY)
  }

  // The registry after n probes of a: delivered, lost, delivered, and delivered again at five seconds.
  function Lossy(n: nat): (r: Edges.Registry)
    ensures |r.stats| == |r.edges| == 2
  {
    Pair(if n == 0 then Edges.NewStats(Spot("a")) else if n == 1 then Tested("a", 20.0, 1, 0)
         else if n == 2 then OneOfTwo() else if n == 3 then OneOfThree() else OneOfFour())
  }

  function LossyAt(n: nat): nat { if n < 4 then 0 else 5_000 }

  function LossyInput(n: nat): Input
    requires n >= 1
  {
    Observe(Hit(Lossy(n - 1), 0, 20.0, n == 2), LossyAt(n))
  }

  function LossyRun(n: nat): (r: seq<Input>)
    ensures |r| == n + 1
  {
    if n == 0 then [SetEdges([Spot("a"), Spot("b")], 0)] else LossyRun(n - 1) + [LossyInput(n)]
  }

  lemma {:induction false} LossyPrefix(n: nat, k: nat)
    requires k <= n
    ensures LossyRun(n)[..k + 1] == LossyRun(k)
    ensures k >= 1 ==> LossyRun(n)[k] == LossyInput(k)
    decreases n
  {
    if k < n { LossyPrefix(n - 1, k); }
  }

  lemma LossyLast(n: nat)
    ensures LastAt(LossyRun(n)) == LossyAt(n)
  {
  }

  lemma LossyHit(n: nat)
    requires 1 <= n <= 4
    ensures AfterHit(Lossy(n - 1), 0, 20.0, n == 2, LossyAt(n)) == Lossy(n)
  {
    TestedOnce("a", 20.0, 0);
    LossyProbes();
  }

  lemma LossyProbes()
    ensures Edges.Probed(Tested("a", 20.0, 1, 0), 20.0, 0.0, true, None, 0) == OneOfTwo()
    ensures Edges.Probed(OneOfTwo(), 20.0, 0.0, false, None, 0) == OneOfThree()
    ensures Edges.Probed(OneOfThree(), 20.0, 0.0, false, None, 5_000) == OneOfFour()
  {
  }

  // The unmeasured b scores more than a with half its probes lost, and else less.
  function LossyWinner(n: nat): nat { if n == 2 then 1 else 0 }

  lemma LossySnapshots()
    ensures Edges.Snapshot(OneOfTwo()) == Metrics(20.0, 0.0, 0.5, 0.25, 0.0, 0.0)
    ensures Edges.Snapshot(OneOfThree()) == Metrics(20.0, 0.0, 1.0 / 3.0, 4.0 / 9.0, 0.0, 0.0)
    ensures Edges.Snapshot(OneOfFour()) == Metrics(20.0, 0.0, 0.25, 0.5625, 0.0, 0.0)
  {
  }

  lemma LossyWins(curve: Scoring.LossCurve, n: nat)
    requires 1 <= n <= 4
    ensures Wins(curve, Lossy(n), LossyWinner(n))
  {
    NewScore(curve, Spot("b"));
    LossySnapshots();
    TestedScore(curve, "a", 20.0, 1, 0);
    ScoreFlat(curve, Metrics(20.0, 0.0, 0.5, 0.25, 0.0, 0.0));
    ScoreFlat(curve, Metrics(20.0, 0.0, 1.0 / 3.0, 4.0 / 9.0, 0.0, 0.0));
    ScoreFlat(curve, Metrics(20.0, 0.0, 0.25, 0.5625, 0.0, 0.0));
    assert Scoring.LatencyScore(20.0) == 1.0 / 1.2;
    assert Scoring.LossScore(curve, 1.0 / 3.0) >= 0.0 && Scoring.LossScore(curve, 0.25) >= 0.0;
  }

  function LossyRoute(curve: Scoring.LossCurve, n: nat): RouteCandidate { RouteAt(curve, Lossy(n), LossyWinner(n)) }

  lemma LossyRouteIs(curve: Scoring.LossCurve, n: nat)
    requires 1 <= n <= 4
    ensures var c := LossyRoute(curve, n);
            && Edges.EdgeIdOf(c.id) == (if n == 2 then "b" else "a") && c.id != ""
            && c.id == Edges.CandidateId(if n == 2 then "b" else "a", Quic)
            && (n == 2 ==> c.metrics == PLACEHOLDER)
            && (n != 2 ==> c.metrics.latency == 20.0 && c.metrics.jitter == 0.0)
  {
    LossySnapshots();
    TestedSnapshot("a", 20.0, 1, 0);
    Edges.CandidateIdInjective(if n == 2 then "b" else "a", Quic, "b", Quic);
  }

  function BriefedOf(m: Metrics): Hysteresis.Decider { Hysteresis.Fresh(Hysteresis.DEFAULT).(current := Some(m)) }

  // The decider's answers: b on its placeholder, not a at once, and a when b's placeholder has counted
  // as degraded for five seconds.
  lemma LossyDecider(eng: nat, m: Metrics, c2: RouteCandidate, c3: RouteCandidate, c4: RouteCandidate)
    requires m.latency == 20.0 && c2.metrics == PLACEHOLDER && c3.id == c4.id && c3.id != c2.id && c2.id != ""
    requires c3.metrics.latency == 20.0 && c4.metrics.latency == 20.0
    ensures var d2 := Hysteresis.Consulted(BriefedOf(m), eng, c2, 0);
            var d3 := Hysteresis.Evaluated(d2, c3, 0);
            && Hysteresis.VerdictOf(BriefedOf(m), c2, 0).Switch? && !Hysteresis.VerdictOf(d2, c3, 0).Switch?
            && Hysteresis.VerdictOf(d3, c4, 5_000) == Hysteresis.Switch(c4.id, Hysteresis.CurrentRouteDegraded)
  {
    HysteresisTheorems.WinsByGain(m, PLACEHOLDER, 15_000);
    var d2 := Hysteresis.Consulted(BriefedOf(m), eng, c2, 0);
    assert d2.bans == Hysteresis.Imposed([], 15_000, c2.id, 0 + eng);
    HysteresisTheorems.ImposedExactly([], 15_000, c2.id, eng, c3.id, 0);
    HysteresisTheorems.ImposedExactly([], 15_000, c2.id, eng, c3.id, 5_000);
    assert Hysteresis.VerdictOf(d2, c3, 0) == Hysteresis.Keep;
  }

  lemma LossyStart(curve: Scoring.LossCurve, eng: nat, m: Metrics)
    requires m == Edges.Snapshot(Tested("a", 20.0, 1, 0))
    ensures Shows(curve, Setup(eng), LossyRun(1), Scene(Lossy(1), Some(LossyRoute(curve, 1)), BriefedOf(m), []))
    ensures Backings(curve, Initial(Setup(eng)), LossyRun(1)) == []
  {
    PairRegisters(curve, eng);
    LossyHit(1);
    LossyWins(curve, 1);
    LossyLast(0);
    var x := Scene(Lossy(0), None, Hysteresis.Fresh(Hysteresis.DEFAULT), []);
    FirstProbe(curve, Setup(eng), LossyRun(0), x, 0, 20.0, false, 0, 0, Lossy(1));
    ProbeBacking(curve, Setup(eng), LossyRun(0), x, 0, 20.0, false, 0, 0, Lossy(1));
    NoBackings(curve, Setup(eng), SetEdges([Spot("a"), Spot("b")], 0));
  }

  lemma NoBackings(curve: Scoring.LossCurve, cfg: Config, e: Input)
    requires cfg.fallbackOrder != [] && e.SetEdges?
    ensures Backings(curve, Initial(cfg), [e]) == []
  {
    assert [e][..0] == [];
  }

  lemma LossyStep(curve: Scoring.LossCurve, n: nat, r: Edges.Registry, r': Edges.Registry)
    requires 1 <= n <= 4 && r == Lossy(n - 1) && r' == Lossy(n)
    ensures |r.stats| == 2 && r' == AfterHit(r, 0, 20.0, n == 2, LossyAt(n))
    ensures Wins(curve, r', LossyWinner(n)) && LossyWinner(n) < |r'.edges| == 2
    ensures LossyRoute(curve, n) == RouteAt(curve, r', LossyWinner(n))
    ensures LossyRun(n) == LossyRun(n - 1) + [Observe(Hit(r, 0, 20.0, n == 2), LossyAt(n))]
    ensures LastAt(LossyRun(n - 1)) <= LossyAt(n)
  {
    LossyHit(n);
    LossyWins(curve, n);
    LossyLast(n - 1);
  }

  lemma LossySwitch(curve: Scoring.LossCurve, eng: nat, n: nat, x: Scene, c: RouteCandidate, r: Edges.Registry)
    requires 2 <= n <= 4 && Shows(curve, Setup(eng), LossyRun(n - 1), x)
    requires x.registry == Lossy(n - 1) && x.current.Some? && r == Lossy(n) && c == LossyRoute(curve, n)
    requires Hysteresis.VerdictOf(x.decider, c, LossyAt(n)).Switch?
    ensures Shows(curve, Setup(eng), LossyRun(n),
                  Scene(r, Some(c), Hysteresis.Consulted(x.decider, eng, c, LossyAt(n)),
                        x.log + [Hysteresis.RecordOf(x.decider, c, LossyAt(n))]))
  {
    LossyStep(curve, n, x.registry, r);
    SwitchProbe(curve, Setup(eng), LossyRun(n - 1), x, 0, 20.0, n == 2, LossyAt(n), LossyWinner(n), r, c);
  }

  lemma LossyStay(curve: Scoring.LossCurve, eng: nat, x: Scene, c: RouteCandidate)
    requires Shows(curve, Setup(eng), LossyRun(2), x) && x.registry == Lossy(2) && c == LossyRoute(curve, 3)
    requires x.current == Some(LossyRoute(curve, 2)) && !Hysteresis.VerdictOf(x.decider, c, 0).Switch?
    ensures Shows(curve, Setup(eng), LossyRun(3),
                  Scene(Lossy(3), x.current, Hysteresis.Evaluated(x.decider, c, 0),
                        x.log + [Hysteresis.RecordOf(x.decider, c, 0)]))
  {
    LossyHit(3);
    LossyWins(curve, 3);
    LossyLast(2);
    LossyRouteIs(curve, 2);
    StayProbe(curve, Setup(eng), LossyRun(2), x, 0, 20.0, false, 0, 0, Lossy(3), c);
  }

  lemma LossyBacked(curve: Scoring.LossCurve, eng: nat, n: nat, x: Scene, edge: string)
    requires 2 <= n <= 4 && Shows(curve, Setup(eng), LossyRun(n - 1), x) && x.registry == Lossy(n - 1)
    requires x.current.Some? && Edges.EdgeIdOf(x.current.value.id) == edge
    ensures Backings(curve, Initial(Setup(eng)), LossyRun(n))
            == Backings(curve, Initial(Setup(eng)), LossyRun(n - 1))
               + [Backing(Lossy(n).stats[LossyWinner(n)].samples, SamplesOf(Lossy(n - 1), edge))]
  {
    LossyHit(n);
    LossyWins(curve, n);
    ProbeBacking(curve, Setup(eng), LossyRun(n - 1), x, 0, 20.0, n == 2, LossyAt(n), LossyWinner(n), Lossy(n));
  }

  // The probes behind the answer to probe n of the run.
  function LossyBackingOf(n: nat): Backing { if n == 2 then Backing(0, 1) else Backing(n, 0) }

  lemma LossySamples(n: nat)
    requires 2 <= n <= 4
    ensures Backing(Lossy(n).stats[LossyWinner(n)].samples, SamplesOf(Lossy(n - 1), if n == 2 then "a" else "b"))
            == LossyBackingOf(n)
  {
    PairSamples(n - 1);
    PairSamples(n);
  }

  lemma LossyBacking(curve: Scoring.LossCurve, eng: nat, n: nat, x: Scene, edge: string)
    requires 2 <= n <= 4 && Shows(curve, Setup(eng), LossyRun(n - 1), x) && x.registry == Lossy(n - 1)
    requires x.current.Some? && Edges.EdgeIdOf(x.current.value.id) == edge && edge == if n == 2 then "a" else "b"
    ensures Backings(curve, Initial(Setup(eng)), LossyRun(n))
            == Backings(curve, Initial(Setup(eng)), LossyRun(n - 1)) + [LossyBackingOf(n)]
  {
    LossyBacked(curve, eng, n, x, edge);
    LossySamples(n);
  }

  lemma PairSamples(n: nat)
    ensures SamplesOf(Lossy(n), "b") == 0 && (n == 1 ==> SamplesOf(Lossy(n), "a") == 1)
    ensures Lossy(n).stats[1].samples == 0 && (0 < n <= 4 ==> Lossy(n).stats[0].samples == n)
  {
    var stats := Lossy(n).stats;
    assert stats[0].edgeId == "a" && stats[1].edgeId == "b" && "a"[0] != "b"[0];
  }

  lemma LossyTwo(
    curve: Scoring.LossCurve, eng: nat, m: Metrics, c2: RouteCandidate, d2: Hysteresis.Decider, r2: Hysteresis.Record)
    requires m == Edges.Snapshot(Tested("a", 20.0, 1, 0)) && c2 == LossyRoute(curve, 2)
    requires d2 == Hysteresis.Consulted(BriefedOf(m), eng, c2, 0) && Hysteresis.VerdictOf(BriefedOf(m), c2, 0).Switch?
    requires r2 == Hysteresis.RecordOf(BriefedOf(m), c2, 0)
    ensures Shows(curve, Setup(eng), LossyRun(2), Scene(Lossy(2), Some(c2), d2, [r2]))
    ensures Backings(curve, Initial(Setup(eng)), LossyRun(2)) == [LossyBackingOf(2)]
  {
    LossyStart(curve, eng, m);
    LossyRouteIs(curve, 1);
    var x1 := Scene(Lossy(1), Some(LossyRoute(curve, 1)), BriefedOf(m), []);
    LossySwitch(curve, eng, 2, x1, c2, Lossy(2));
    LossyBacking(curve, eng, 2, x1, "a");
    assert [] + [r2] == [r2] && [] + [LossyBackingOf(2)] == [LossyBackingOf(2)];
  }

  lemma LossyThree(curve: Scoring.LossCurve, eng: nat, x: Scene, c3: RouteCandidate, back: seq<Backing>)
    requires Shows(curve, Setup(eng), LossyRun(2), x) && x.registry == Lossy(2)
            && x.current == Some(LossyRoute(curve, 2))
    requires c3 == LossyRoute(curve, 3) && !Hysteresis.VerdictOf(x.decider, c3, 0).Switch?
    requires Backings(curve, Initial(Setup(eng)), LossyRun(2)) == back
    ensures Shows(curve, Setup(eng), LossyRun(3),
                  Scene(Lossy(3), x.current, Hysteresis.Evaluated(x.decider, c3, 0),
                        x.log + [Hysteresis.RecordOf(x.decider, c3, 0)]))
    ensures Backings(curve, Initial(Setup(eng)), LossyRun(3)) == back + [LossyBackingOf(3)]
  {
    LossyRouteIs(curve, 2);
    LossyStay(curve, eng, x, c3);
    LossyBacking(curve, eng, 3, x, "b");
  }

  lemma LossyFour(curve: Scoring.LossCurve, eng: nat, x: Scene, c4: RouteCandidate, back: seq<Backing>)
    requires Shows(curve, Setup(eng), LossyRun(3), x) && x.registry == Lossy(3)
            && x.current == Some(LossyRoute(curve, 2))
    requires c4 == LossyRoute(curve, 4) && Hysteresis.VerdictOf(x.decider, c4, 5_000).Switch?
    requires Backings(curve, Initial(Setup(eng)), LossyRun(3)) == back
    ensures Shows(curve, Setup(eng), LossyRun(4),
                  Scene(Lossy(4), Some(c4), Hysteresis.Consulted(x.decider, eng, c4, 5_000),
                        x.log + [Hysteresis.RecordOf(x.decider, c4, 5_000)]))
    ensures Backings(curve, Initial(Setup(eng)), LossyRun(4)) == back + [LossyBackingOf(4)]
  {
    LossyRouteIs(curve, 2);
    LossySwitch(curve, eng, 4, x, c4, Lossy(4));
    LossyBacking(curve, eng, 4, x, "b");
  }

  // What the run shows: the routes after its probes, the log, and the probes behind its answers.
  ghost predicate LossyShows(curve: Scoring.LossCurve, eng: nat, log: seq<Hysteresis.Record>, back: seq<Backing>) {
    var cfg := Setup(eng);
    && Ordered(LossyRun(4))
    && RouteAfter(curve, cfg, LossyRun(1)) == Some(LossyRoute(curve, 1).id)
    && RouteAfter(curve, cfg, LossyRun(2)) == Some(LossyRoute(curve, 2).id)
    && RouteAfter(curve, cfg, LossyRun(3)) == Some(LossyRoute(curve, 2).id)
    && RouteAfter(curve, cfg, LossyRun(4)) == Some(LossyRoute(curve, 4).id)
    && Log(curve, Initial(cfg), LossyRun(4)) == log && Backings(curve, Initial(cfg), LossyRun(4)) == back
  }

  lemma LossyChain(
    curve: Scoring.LossCurve, eng: nat, m: Metrics, c2: RouteCandidate, c3: RouteCandidate, c4: RouteCandidate,
    d2: Hysteresis.Decider, d3: Hysteresis.Decider)
    requires m == Edges.Snapshot(Tested("a", 20.0, 1, 0))
    requires c2 == LossyRoute(curve, 2) && c3 == LossyRoute(curve, 3) && c4 == LossyRoute(curve, 4)
    requires d2 == Hysteresis.Consulted(BriefedOf(m), eng, c2, 0) && Hysteresis.VerdictOf(BriefedOf(m), c2, 0).Switch?
    requires d3 == Hysteresis.Evaluated(d2, c3, 0) && !Hysteresis.VerdictOf(d2, c3, 0).Switch?
    requires Hysteresis.VerdictOf(d3, c4, 5_000).Switch?
    ensures LossyShows(curve, eng,
                       [Hysteresis.RecordOf(BriefedOf(m), c2, 0)] + [Hysteresis.RecordOf(d2, c3, 0)]
                       + [Hysteresis.RecordOf(d3, c4, 5_000)],
                       [LossyBackingOf(2)] + [LossyBackingOf(3)] + [LossyBackingOf(4)])
  {
    var r2, r3 := Hysteresis.RecordOf(BriefedOf(m), c2, 0), Hysteresis.RecordOf(d2, c3, 0);
    LossyStart(curve, eng, m);
    LossyTwo(curve, eng, m, c2, d2, r2);
    LossyThree(curve, eng, Scene(Lossy(2), Some(c2), d2, [r2]), c3, [LossyBackingOf(2)]);
    LossyFour(curve, eng, Scene(Lossy(3), Some(c2), d3, [r2] + [r3]), c4, [LossyBackingOf(2)] + [LossyBackingOf(3)]);
  }

  lemma LossyLog(curve: Scoring.LossCurve, eng: nat) returns (log: seq<Hysteresis.Record>, back: seq<Backing>)
    ensures LossyShows(curve, eng, log, back) && |log| == |back| == 3
    ensures back[0].offered == 0 && back[2].held == 0
    ensures log[0].verdict.Switch?
    ensures log[2].verdict == Hysteresis.Switch(LossyRoute(curve, 4).id, Hysteresis.CurrentRouteDegraded)
  {
    LossyIds(curve);
    var m := Edges.Snapshot(Tested("a", 20.0, 1, 0));
    log := LossyLogOf(curve, eng, m, LossyRoute(curve, 2), LossyRoute(curve, 3), LossyRoute(curve, 4));
    back := [LossyBackingOf(2)] + [LossyBackingOf(3)] + [LossyBackingOf(4)];
  }

  lemma LossyLogOf(
    curve: Scoring.LossCurve, eng: nat, m: Metrics, c2: RouteCandidate, c3: RouteCandidate, c4: RouteCandidate)
    returns (log: seq<Hysteresis.Record>)
    requires m == Edges.Snapshot(Tested("a", 20.0, 1, 0)) && m.latency == 20.0
    requires c2 == LossyRoute(curve, 2) && c3 == LossyRoute(curve, 3) && c4 == LossyRoute(curve, 4)
    requires c2.metrics == PLACEHOLDER && c3.id == c4.id && c3.id != c2.id && c2.id != ""
    requires c3.metrics.latency == 20.0 && c4.metrics.latency == 20.0
    ensures LossyShows(curve, eng, log, [LossyBackingOf(2)] + [LossyBackingOf(3)] + [LossyBackingOf(4)]) && |log| == 3
    ensures log[0].verdict.Switch? && log[2].verdict == Hysteresis.Switch(c4.id, Hysteresis.CurrentRouteDegraded)
  {
    LossyDecider(eng, m, c2, c3, c4);
    var d2 := Hysteresis.Consulted(BriefedOf(m), eng, c2, 0);
    var d3 := Hysteresis.Evaluated(d2, c3, 0);
    LossyChain(curve, eng, m, c2, c3, c4, d2, d3);
    log := [Hysteresis.RecordOf(BriefedOf(m), c2, 0)] + [Hysteresis.RecordOf(d2, c3, 0)]
           + [Hysteresis.RecordOf(d3, c4, 5_000)];
  }

  lemma LossyIds(curve: Scoring.LossCurve)
    ensures Edges.Snapshot(Tested("a", 20.0, 1, 0)).latency == 20.0
    ensures var c1, c2 := LossyRoute(curve, 1), LossyRoute(curve, 2);
            var c3, c4 := LossyRoute(curve, 3), LossyRoute(curve, 4);
            && c1.id == c3.id == c4.id == Edges.CandidateId("a", Quic) && c2.id != c3.id && c2.id != ""
            && c2.metrics == PLACEHOLDER && c3.metrics.latency == 20.0 && c4.metrics.latency == 20.0
  {
    TestedSnapshot("a", 20.0, 1, 0);
    LossyRouteIs(curve, 1);
    LossyRouteIs(curve, 2);
    LossyRouteIs(curve, 3);
    LossyRouteIs(curve, 4);
  }

  lemma LossyMoves(curve: Scoring.LossCurve, eng: nat, log: seq<Hysteresis.Record>, back: seq<Backing>)
    requires LossyShows(curve, eng, log, back)
    ensures LeavesAt(curve, Setup(eng), LossyRun(4), 2, Edges.CandidateId("a", Quic))
    ensures TakesAt(curve, Setup(eng), LossyRun(4), 4, Edges.CandidateId("a", Quic))
    ensures LossyRun(4)[2].at == 0 && LossyRun(4)[4].at == 5_000
  {
    LossyIds(curve);
    LossyPrefix(4, 1);
    LossyPrefix(4, 2);
    LossyPrefix(4, 3);
    LossyPrefix(4, 4);
  }

  /** A run, at any configured cooldown, in which one lost packet moves the route to an edge never
      probed, on a gain over its placeholder; and that placeholder, counted as five seconds of
      degradation, moves it back. Neither switch has evidence. */
  lemma PlaceholderSwitches(curve: Scoring.LossCurve, eng: nat)
    ensures Ordered(LossyRun(4))
    ensures var log := Log(curve, Initial(Setup(eng)), LossyRun(4));
            var back := Backings(curve, Initial(Setup(eng)), LossyRun(4));
            && |log| == |back| == 3 && back[0].offered == 0 && back[2].held == 0
            && log[0].verdict.Switch? && !Evidence(log, back, 0)
            && log[2].verdict == Hysteresis.Switch(LossyRoute(curve, 4).id, Hysteresis.CurrentRouteDegraded)
            && !Evidence(log, back, 2)
  {
    var log, back := LossyLog(curve, eng);
    SwitchesCarryEvidenceIff(curve, Setup(eng), LossyRun(4), 0);
    SwitchesCarryEvidenceIff(curve, Setup(eng), LossyRun(4), 2);
  }

  /** The same run returns to the first route five seconds after it left it: no cooldown whatever
      keeps the engine from a first route. */
  lemma FirstRouteReturns(curve: Scoring.LossCurve, eng: nat)
    ensures Ordered(LossyRun(4))
    ensures LeavesAt(curve, Setup(eng), LossyRun(4), 2, Edges.CandidateId("a", Quic))
    ensures TakesAt(curve, Setup(eng), LossyRun(4), 4, Edges.CandidateId("a", Quic))
    ensures LossyRun(4)[4].at < LossyRun(4)[2].at + 15_000
  {
    var log, back := LossyLog(curve, eng);
    LossyMoves(curve, eng, log, back);
  }

  // ---------------------------------------------------------------------
  // One lost probe

  /** A sampled edge counts as degraded exactly if it is slow, or jitters, or lost three percent of all
      its probes ever: a single lost one among the first 33 is enough, for as long. */
  lemma DegradedIff(st: Edges.Stats)
    requires Edges.Sound(st) && st.samples > 0
    ensures Hysteresis.Degraded(Some(Edges.Snapshot(st)))
            <==> (|| 100 * st.failures >= 3 * st.samples
                  || Edges.OrZero(st.jitter) >= 20.0 || Edges.OrZero(st.latency) >= 200.0)
  {
    ShareAtLeast(st.failures, st.samples);
  }

  lemma ShareAtLeast(k: nat, n: nat)
    requires n > 0
    ensures k as real / n as real >= 0.03 <==> 100 * k >= 3 * n
  {
    var q := k as real / n as real;
    assert q * n as real == k as real;
    HysteresisTheorems.PercentOfShare(q, n as real, 0.03);
    assert 0.03 * n as real <= k as real <==> 100 * k >= 3 * n;
  }

  function Both(a: Edges.Stats, b: Edges.Stats): (r: Edges.Registry)
    ensures |r.stats| == |r.edges| == 2
  {
    Edges.Registry([Spot("a"), Spot("b")], [a, b])
  }

  // After n probes: a delivered, b delivered, a lost, and b delivered twice more, the last at five seconds.
  function Loss(n: nat): (r: Edges.Registry)
    ensures |r.stats| == |r.edges| == 2
  {
    Both(if n == 0 then Edges.NewStats(Spot("a")) else if n < 3 then Tested("a", 20.0, 1, 0) else OneOfTwo(),
         if n < 2 then Edges.NewStats(Spot("b")) else if n < 4 then Tested("b", 21.0, 1, 0)
         else if n == 4 then Tested("b", 21.0, 2, 0) else Tested("b", 21.0, 3, 5_000))
  }

  function LossEdge(n: nat): nat { if n == 1 || n == 3 then 0 else 1 }

  function LossLatency(n: nat): Measure { if n == 1 || n == 3 then 20.0 else 21.0 }

  function LossAt(n: nat): nat { if n < 5 then 0 else 5_000 }

  function LossInput(n: nat): Input
    requires n >= 1
  {
    Observe(Hit(Loss(n - 1), LossEdge(n), LossLatency(n), n == 3), LossAt(n))
  }

  function LossRun(n: nat): seq<Input> {
    if n == 0 then [SetEdges([Spot("a"), Spot("b")], 0)] else LossRun(n - 1) + [LossInput(n)]
  }

  lemma LossLast(n: nat)
    ensures LastAt(LossRun(n)) == LossAt(n)
  {
  }

  lemma LossHit(n: nat)
    requires 1 <= n <= 5
    ensures AfterHit(Loss(n - 1), LossEdge(n), LossLatency(n), n == 3, LossAt(n)) == Loss(n)
  {
    LossProbes();
    assert Loss(n - 1).stats[1 - LossEdge(n)] == Loss(n).stats[1 - LossEdge(n)];
  }

  lemma LossProbes()
    ensures Edges.Probed(Edges.NewStats(Spot("a")), 20.0, 0.0, false, None, 0) == Tested("a", 20.0, 1, 0)
    ensures Edges.Probed(Edges.NewStats(Spot("b")), 21.0, 0.0, false, None, 0) == Tested("b", 21.0, 1, 0)
    ensures Edges.Probed(Tested("b", 21.0, 1, 0), 21.0, 0.0, false, None, 0) == Tested("b", 21.0, 2, 0)
    ensures Edges.Probed(Tested("a", 20.0, 1, 0), 20.0, 0.0, true, None, 0) == OneOfTwo()
    ensures Edges.Probed(Tested("b", 21.0, 2, 0), 21.0, 0.0, false, None, 5_000) == Tested("b", 21.0, 3, 5_000)
  {
  }

  // Edge a is best until its one loss.
  function LossWinner(n: nat): nat { if n < 3 then 0 else 1 }

  lemma LossWins(curve: Scoring.LossCurve, n: nat)
    requires 1 <= n <= 5
    ensures Wins(curve, Loss(n), LossWinner(n))
  {
    NewScore(curve, Spot("b"));
    TestedScore(curve, "a", 20.0, 1, 0);
    TestedScore(curve, "b", 21.0, 1, 0);
    TestedScore(curve, "b", 21.0, 2, 0);
    TestedScore(curve, "b", 21.0, 3, 5_000);
    LossySnapshots();
    ScoreFlat(curve, Metrics(20.0, 0.0, 0.5, 0.25, 0.0, 0.0));
    assert Scoring.LatencyScore(20.0) == 1.0 / 1.2 && Scoring.LatencyScore(21.0) == 1.0 / 1.21;
  }

  function LossRoute(curve: Scoring.LossCurve, n: nat): RouteCandidate { RouteAt(curve, Loss(n), LossWinner(n)) }

  lemma LossRouteIs(curve: Scoring.LossCurve, n: nat)
    requires 1 <= n <= 5
    ensures var c := LossRoute(curve, n);
            && c.id == Edges.CandidateId(if n < 3 then "a" else "b", Quic) && c.id != ""
            && Edges.EdgeIdOf(c.id) == (if n < 3 then "a" else "b")
            && c.metrics == Flat(if n < 3 then 20.0 else 21.0)
  {
    TestedSnapshot("a", 20.0, 1, 0);
    TestedSnapshot("b", 21.0, 1, 0);
    TestedSnapshot("b", 21.0, 2, 0);
    TestedSnapshot("b", 21.0, 3, 5_000);
    Edges.CandidateIdInjective(if n < 3 then "a" else "b", Quic, "b", Quic);
  }

  function HalfKnown(): Metrics { Metrics(20.0, 0.0, 0.5, 0.25, 0.0, 0.0) }

  // The decider's answers: it keeps a, even after the loss, until that has counted for five seconds.
  lemma LossDecider(c2: RouteCandidate, c3: RouteCandidate, c4: RouteCandidate, c5: RouteCandidate)
    requires c2.metrics == Flat(20.0) && c3.metrics == Flat(21.0) && c4.metrics == Flat(21.0)
            && c5.metrics == Flat(21.0)
    ensures var d := BriefedOf(Flat(20.0));
            var lost := BriefedOf(HalfKnown());
            && !Hysteresis.VerdictOf(d, c2, 0).Switch? && Hysteresis.Evaluated(d, c2, 0) == d
            && !Hysteresis.VerdictOf(d, c3, 0).Switch?
            && Hysteresis.Evaluated(d, c3, 0).(current := Some(HalfKnown())) == lost
            && !Hysteresis.VerdictOf(lost, c4, 0).Switch?
            && Hysteresis.Evaluated(lost, c4, 0) == lost.(degradedSince := Some(0))
            && Hysteresis.VerdictOf(lost.(degradedSince := Some(0)), c5, 5_000)
               == Hysteresis.Switch(c5.id, Hysteresis.CurrentRouteDegraded)
  {
  }

  lemma LossStart(curve: Scoring.LossCurve, eng: nat)
    ensures Shows(curve, Setup(eng), LossRun(1), Scene(Loss(1), Some(LossRoute(curve, 1)), BriefedOf(Flat(20.0)), []))
  {
    PairRegisters(curve, eng);
    LossHit(1);
    LossWins(curve, 1);
    LossLast(0);
    TestedSnapshot("a", 20.0, 1, 0);
    var x := Scene(Loss(0), None, Hysteresis.Fresh(Hysteresis.DEFAULT), []);
    FirstProbe(curve, Setup(eng), LossRun(0), x, 0, 20.0, false, 0, 0, Loss(1));
  }

  lemma LossNames(n: nat)
    ensures Loss(n).stats[0].edgeId == "a" != Loss(n).stats[1].edgeId
  {
    assert "a"[0] != "b"[0];
  }

  lemma LossStep(curve: Scoring.LossCurve, n: nat, r: Edges.Registry, r': Edges.Registry)
    requires 1 <= n <= 5 && r == Loss(n - 1) && r' == Loss(n)
    ensures |r.stats| == 2 && r' == AfterHit(r, LossEdge(n), LossLatency(n), n == 3, LossAt(n))
    ensures Wins(curve, r', LossWinner(n)) && |r'.edges| == 2 && r'.stats[0].edgeId == "a" != r'.stats[1].edgeId
    ensures LossRoute(curve, n) == RouteAt(curve, r', LossWinner(n))
    ensures LossRun(n) == LossRun(n - 1) + [Observe(Hit(r, LossEdge(n), LossLatency(n), n == 3), LossAt(n))]
    ensures LastAt(LossRun(n - 1)) <= LossAt(n)
  {
    LossHit(n);
    LossWins(curve, n);
    LossLast(n - 1);
    LossNames(n);
  }

  lemma LossOther(curve: Scoring.LossCurve, n: nat, r: Edges.Registry, r': Edges.Registry)
    requires (n == 2 || n == 4) && r == Loss(n - 1) && r' == Loss(n)
    ensures |r.stats| == 2 && r' == AfterHit(r, 1, 21.0, false, 0) && LastAt(LossRun(n - 1)) == 0
    ensures Wins(curve, r', LossWinner(n)) && |r'.edges| == 2 && r'.stats[1].edgeId != "a"
    ensures LossRoute(curve, n) == RouteAt(curve, r', LossWinner(n))
    ensures LossRun(n) == LossRun(n - 1) + [Observe(Hit(r, 1, 21.0, false), 0)]
  {
    LossStep(curve, n, r, r');
  }

  lemma StayOnA(
    curve: Scoring.LossCurve, cfg: Config, inputs: seq<Input>, x: Scene, r: Edges.Registry, c: RouteCandidate, j: nat)
    requires Shows(curve, cfg, inputs, x) && LastAt(inputs) == 0 && |x.registry.stats| == 2
    requires r == AfterHit(x.registry, 1, 21.0, false, 0) && Wins(curve, r, j) && j < |r.edges|
    requires c == RouteAt(curve, r, j) && !Hysteresis.VerdictOf(x.decider, c, 0).Switch?
    requires x.current.Some? && Edges.EdgeIdOf(x.current.value.id) == "a" != r.stats[1].edgeId
    ensures Shows(curve, cfg, inputs + [Observe(Hit(x.registry, 1, 21.0, false), 0)],
                  Scene(r, x.current, Hysteresis.Evaluated(x.decider, c, 0),
                        x.log + [Hysteresis.RecordOf(x.decider, c, 0)]))
  {
    StayProbe(curve, cfg, inputs, x, 1, 21.0, false, 0, j, r, c);
  }

  // Probes two and four are of the other edge, and change nothing but the decider's clock.
  lemma LossStay(curve: Scoring.LossCurve, eng: nat, n: nat, x: Scene, c: RouteCandidate, r: Edges.Registry)
    requires (n == 2 || n == 4) && Shows(curve, Setup(eng), LossRun(n - 1), x) && x.registry == Loss(n - 1)
    requires r == Loss(n) && c == LossRoute(curve, n) && !Hysteresis.VerdictOf(x.decider, c, 0).Switch?
    requires x.current.Some? && Edges.EdgeIdOf(x.current.value.id) == "a"
    ensures Shows(curve, Setup(eng), LossRun(n),
                  Scene(r, x.current, Hysteresis.Evaluated(x.decider, c, 0),
                        x.log + [Hysteresis.RecordOf(x.decider, c, 0)]))
  {
    LossOther(curve, n, x.registry, r);
    StayOnA(curve, Setup(eng), LossRun(n - 1), x, r, c, LossWinner(n));
  }

  lemma LossTold(curve: Scoring.LossCurve, eng: nat, x: Scene, c: RouteCandidate)
    requires Shows(curve, Setup(eng), LossRun(2), x) && x.registry == Loss(2)
    requires c == LossRoute(curve, 3) && !Hysteresis.VerdictOf(x.decider, c, 0).Switch?
    requires x.current.Some? && Edges.EdgeIdOf(x.current.value.id) == "a"
    ensures Shows(curve, Setup(eng), LossRun(3),
                  Scene(Loss(3), x.current, Hysteresis.Evaluated(x.decider, c, 0).(current := Some(HalfKnown())),
                        x.log + [Hysteresis.RecordOf(x.decider, c, 0)]))
  {
    LossHit(3);
    LossWins(curve, 3);
    LossLast(2);
    LossySnapshots();
    KeepProbe(curve, Setup(eng), LossRun(2), x, 0, 20.0, true, 0, 1, Loss(3), c);
  }

  lemma LossLeaves(curve: Scoring.LossCurve, eng: nat, x: Scene, c: RouteCandidate)
    requires Shows(curve, Setup(eng), LossRun(4), x) && x.registry == Loss(4) && x.current.Some?
    requires c == LossRoute(curve, 5) && Hysteresis.VerdictOf(x.decider, c, 5_000).Switch?
    ensures Shows(curve, Setup(eng), LossRun(5),
                  Scene(Loss(5), Some(c), Hysteresis.Consulted(x.decider, eng, c, 5_000),
                        x.log + [Hysteresis.RecordOf(x.decider, c, 5_000)]))
  {
    LossHit(5);
    LossWins(curve, 5);
    LossLast(4);
    SwitchProbe(curve, Setup(eng), LossRun(4), x, 1, 21.0, false, 5_000, 1, Loss(5), c);
  }

  lemma LossChain(
    curve: Scoring.LossCurve, eng: nat, c1: RouteCandidate, c2: RouteCandidate, c3: RouteCandidate, c4: RouteCandidate,
    c5: RouteCandidate, d: Hysteresis.Decider, lost: Hysteresis.Decider, late: Hysteresis.Decider)
    requires c1 == LossRoute(curve, 1) && c2 == LossRoute(curve, 2) && c3 == LossRoute(curve, 3)
    requires c4 == LossRoute(curve, 4) && c5 == LossRoute(curve, 5) && d == BriefedOf(Flat(20.0))
    requires !Hysteresis.VerdictOf(d, c2, 0).Switch? && Hysteresis.Evaluated(d, c2, 0) == d
    requires !Hysteresis.VerdictOf(d, c3, 0).Switch?
    requires Hysteresis.Evaluated(d, c3, 0).(current := Some(HalfKnown())) == lost
    requires !Hysteresis.VerdictOf(lost, c4, 0).Switch? && Hysteresis.Evaluated(lost, c4, 0) == late
    requires Hysteresis.VerdictOf(late, c5, 5_000).Switch?
    ensures Shows(curve, Setup(eng), LossRun(5),
                  Scene(Loss(5), Some(c5), Hysteresis.Consulted(late, eng, c5, 5_000),
                        [Hysteresis.RecordOf(d, c2, 0)] + [Hysteresis.RecordOf(d, c3, 0)]
                        + [Hysteresis.RecordOf(lost, c4, 0)] + [Hysteresis.RecordOf(late, c5, 5_000)]))
  {
    var r2, r3, r4 := Hysteresis.RecordOf(d, c2, 0), Hysteresis.RecordOf(d, c3, 0), Hysteresis.RecordOf(lost, c4, 0);
    LossStart(curve, eng);
    LossRouteIs(curve, 1);
    LossStay(curve, eng, 2, Scene(Loss(1), Some(c1), d, []), c2, Loss(2));
    assert [] + [r2] == [r2];
    LossTold(curve, eng, Scene(Loss(2), Some(c1), d, [r2]), c3);
    LossStay(curve, eng, 4, Scene(Loss(3), Some(c1), lost, [r2] + [r3]), c4, Loss(4));
    LossLeaves(curve, eng, Scene(Loss(4), Some(c1), late, [r2] + [r3] + [r4]), c5);
  }

  /** A run with a single lost probe that ends in a switch away from a degraded route: no probe of the
      route bears the loss out for the five seconds. */
  lemma OneLossSwitches(curve: Scoring.LossCurve, eng: nat)
    ensures Ordered(LossRun(5))
    ensures var log := Log(curve, Initial(Setup(eng)), LossRun(5));
            && |log| == 4 && log[3].left == "" && log[3].known == Some(HalfKnown())
            && log[3].verdict == Hysteresis.Switch(Edges.CandidateId("b", Quic), Hysteresis.CurrentRouteDegraded)
    ensures var r := After(curve, Initial(Setup(eng)), LossRun(5)).registry;
            r == Loss(5) && r.stats[0].failures == 1 && r.stats[1].failures == 0
  {
    var c2, c3, c4, c5 := LossRoute(curve, 2), LossRoute(curve, 3), LossRoute(curve, 4), LossRoute(curve, 5);
    LossIds(curve);
    LossFailures();
    LossOutcome(curve, eng, c2, c3, c4, c5);
  }

  lemma LossIds(curve: Scoring.LossCurve)
    ensures LossRoute(curve, 2).metrics == Flat(20.0) && LossRoute(curve, 3).metrics == Flat(21.0)
    ensures LossRoute(curve, 4).metrics == Flat(21.0) && LossRoute(curve, 5).metrics == Flat(21.0)
    ensures LossRoute(curve, 5).id == Edges.CandidateId("b", Quic)
  {
    LossRouteIs(curve, 2);
    LossRouteIs(curve, 3);
    LossRouteIs(curve, 4);
    LossRouteIs(curve, 5);
  }

  lemma LossFailures()
    ensures Loss(5).stats[0].failures == 1 && Loss(5).stats[1].failures == 0
  {
  }

  lemma LossOutcome(
    curve: Scoring.LossCurve, eng: nat, c2: RouteCandidate, c3: RouteCandidate, c4: RouteCandidate, c5: RouteCandidate)
    requires c2 == LossRoute(curve, 2) && c3 == LossRoute(curve, 3) && c4 == LossRoute(curve, 4)
            && c5 == LossRoute(curve, 5)
    requires c2.metrics == Flat(20.0) && c3.metrics == Flat(21.0) && c4.metrics == Flat(21.0)
            && c5.metrics == Flat(21.0)
    ensures Ordered(LossRun(5)) && After(curve, Initial(Setup(eng)), LossRun(5)).registry == Loss(5)
    ensures var log := Log(curve, Initial(Setup(eng)), LossRun(5));
            && |log| == 4 && log[3].left == "" && log[3].known == Some(HalfKnown())
            && log[3].verdict == Hysteresis.Switch(c5.id, Hysteresis.CurrentRouteDegraded)
  {
    var d, lost := BriefedOf(Flat(20.0)), BriefedOf(HalfKnown());
    var late := lost.(degradedSince := Some(0));
    LossDecider(c2, c3, c4, c5);
    LossChain(curve, eng, LossRoute(curve, 1), c2, c3, c4, c5, d, lost, late);
    LastOfFour(Hysteresis.RecordOf(d, c2, 0), Hysteresis.RecordOf(d, c3, 0),
               Hysteresis.RecordOf(lost, c4, 0), Hysteresis.RecordOf(late, c5, 5_000));
  }

  lemma LastOfFour(a: Hysteresis.Record, b: Hysteresis.Record, c: Hysteresis.Record, d: Hysteresis.Record)
    ensures var log := [a] + [b] + [c] + [d];
            |log| == 4 && log[3] == d
  {
  }
}
