/** A lap of four edges: a run of the engine, step by step from its initial state, that goes back to
    a route too early whenever the configured cooldown is over 30 s. */
module EngineLaps {
  import opened Common
  import opened Model
  import opened Engine
  import opened EngineTheorems
  import opened EngineRuns
  import opened EngineEvidence
  import opened EngineScenes
  import Edges
  import Hysteresis
  import HysteresisTheorems
  import Scoring

  // ---------------------------------------------------------------------
  // A run that flaps

  // The edge has the given latency over delivered probes, or was never probed.
  ghost predicate Rated(st: Edges.Stats, latency: Option<Measure>) {
    if latency.None? then st == Edges.NewStats(Spot(st.edgeId))
    else exists n: nat, at: nat | 0 < n < 60 :: st == Tested(st.edgeId, latency.value, n, at)
  }

  function Merit(latency: Option<Measure>): real {
    if latency.None? then 55.0 else 70.0 + 30.0 * Scoring.LatencyScore(latency.value)
  }

  lemma RatedScore(curve: Scoring.LossCurve, st: Edges.Stats, latency: Option<Measure>)
    requires Rated(st, latency)
    ensures Scoring.Score(curve, Scoring.DEFAULT, Edges.Snapshot(st)) == Merit(latency)
    ensures latency.Some? ==> Edges.Snapshot(st) == Metrics(latency.value, 0.0, 0.0, 1.0, 0.0, 0.0)
  {
    if latency.None? {
      NewScore(curve, Spot(st.edgeId));
    } else {
      var n: nat, at: nat :| 0 < n < 60 && st == Tested(st.edgeId, latency.value, n, at);
      TestedScore(curve, st.edgeId, latency.value, n, at);
      TestedSnapshot(st.edgeId, latency.value, n, at);
    }
  }

  lemma FasterIsBetter(x: Measure, y: Measure)
    requires x < y
    ensures Scoring.LatencyScore(y) < Scoring.LatencyScore(x)
    ensures Scoring.LatencyScore(y) > 0.0
  {
    var p, q := Scoring.LatencyScore(x), Scoring.LatencyScore(y);
    assert p * (1.0 + x / 100.0) == 1.0 && q * (1.0 + y / 100.0) == 1.0;
    Scoring.Reciprocals(q, 1.0 + y / 100.0, p, 1.0 + x / 100.0);
    Scoring.Hyperbola(y / 100.0, y / 100.0);
  }

  lemma FastestWins(curve: Scoring.LossCurve, r: Edges.Registry, latencies: seq<Option<Measure>>, j: nat)
    requires |latencies| == |r.stats| && j < |latencies| && latencies[j].Some?
    requires forall i | 0 <= i < |latencies| :: Rated(r.stats[i], latencies[i])
    requires forall i | 0 <= i < |latencies| && i != j && latencies[i].Some? :: latencies[j].value < latencies[i].value
    ensures Wins(curve, r, j)
  {
    RatedScore(curve, r.stats[j], latencies[j]);
    FasterIsBetter(latencies[j].value, latencies[j].value + 1.0);
    forall i | 0 <= i < |latencies| && i != j
      ensures Scoring.Score(curve, Scoring.DEFAULT, Edges.Snapshot(r.stats[i]))
              < Scoring.Score(curve, Scoring.DEFAULT, Edges.Snapshot(r.stats[j]))
    {
      RatedScore(curve, r.stats[i], latencies[i]);
      if latencies[i].Some? { FasterIsBetter(latencies[j].value, latencies[i].value); }
    }
  }

  // Edges a, b, c and d with the given statistics.
  function Quad(a: Edges.Stats, b: Edges.Stats, c: Edges.Stats, d: Edges.Stats): Edges.Registry {
    Edges.Registry([Spot("a"), Spot("b"), Spot("c"), Spot("d")], [a, b, c, d])
  }

  // The registry of the run after n probes, the last three of them at s.
  function Lap(n: nat, s: nat): (r: Edges.Registry)
    ensures |r.stats| == 4
  {
    Quad(if n < 1 then Edges.NewStats(Spot("a")) else Tested("a", 1000.0, 1, 0),
         if n < 2 then Edges.NewStats(Spot("b")) else if n < 6 then Tested("b", 700.0, 1, 0)
         else Tested("b", 525.0, 2, s),
         if n < 3 then Edges.NewStats(Spot("c")) else Tested("c", 600.0, 1, 0),
         if n < 4 then Edges.NewStats(Spot("d")) else if n < 5 then Tested("d", 400.0, 1, s)
         else Tested("d", 2800.0, 2, s))
  }

  function Target(n: nat): nat { if n == 1 then 0 else if n == 2 || n == 6 then 1 else if n == 3 then 2 else 3 }

  function Sample(n: nat): Measure {
    if n == 1 then 1000.0 else if n == 2 then 700.0 else if n == 3 then 600.0 else if n == 4 then 400.0
    else if n == 5 then 10_000.0 else 0.0
  }

  function Clock(n: nat, s: nat): nat { if n < 4 then 0 else s }

  // The edge that comes out best: the one probed, except that the fifth probe spoils d and c is next.
  function Winner(n: nat): nat { if n == 5 then 2 else Target(n) }

  lemma LapHit(n: nat, s: nat)
    requires 1 <= n <= 6
    ensures AfterHit(Lap(n - 1, s), Target(n), Sample(n), false, Clock(n, s)) == Lap(n, s)
  {
    TestedOnce("a", 1000.0, 0);
    TestedOnce("b", 700.0, 0);
    TestedOnce("c", 600.0, 0);
    TestedOnce("d", 400.0, s);
    TestedTwice("d", 400.0, s, 10_000.0, s);
    TestedTwice("b", 700.0, 0, 0.0, s);
  }

  function Latencies(n: nat): seq<Option<Measure>> {
    [if n < 1 then None else Some(1000.0),
     if n < 2 then None else if n < 6 then Some(700.0) else Some(525.0),
     if n < 3 then None else Some(600.0),
     if n < 4 then None else if n < 5 then Some(400.0) else Some(2800.0)]
  }

  lemma LapRated(n: nat, s: nat, i: nat)
    requires i < 4
    ensures Rated(Lap(n, s).stats[i], Latencies(n)[i])
  {
    var st, latency := Lap(n, s).stats[i], Latencies(n)[i];
    if latency.Some? {
      var k: nat, at: nat := st.samples, st.lastProbedAt.value;
      assert 0 < k < 60 && st == Tested(st.edgeId, latency.value, k, at);
    }
  }

  lemma LapWins(curve: Scoring.LossCurve, n: nat, s: nat)
    requires 1 <= n <= 6
    ensures Wins(curve, Lap(n, s), Winner(n))
  {
    forall i: nat | i < 4 ensures Rated(Lap(n, s).stats[i], Latencies(n)[i]) { LapRated(n, s, i); }
    FastestWins(curve, Lap(n, s), Latencies(n), Winner(n));
  }

  function LapInput(n: nat, s: nat): Input
    requires n >= 1
  {
    Observe(Hit(Lap(n - 1, s), Target(n), Sample(n), false), Clock(n, s))
  }

  function LapRun(n: nat, s: nat): seq<Input> {
    if n == 0 then [SetEdges([Spot("a"), Spot("b"), Spot("c"), Spot("d")], 0)] else LapRun(n - 1, s) + [LapInput(n, s)]
  }

  lemma {:induction false} LapPrefix(n: nat, k: nat, s: nat)
    requires k <= n
    ensures |LapRun(n, s)| == n + 1 && LapRun(n, s)[..k + 1] == LapRun(k, s)
    ensures k >= 1 ==> LapRun(n, s)[k] == LapInput(k, s)
    decreases n
  {
    if n == 0 {
    } else if k < n {
      LapPrefix(n - 1, k, s);
    } else {
      LapPrefix(n - 1, n - 1, s);
    }
  }

  lemma LapLast(n: nat, s: nat)
    ensures LastAt(LapRun(n, s)) == if n < 4 then 0 else s
  {
  }

  function LapRoute(curve: Scoring.LossCurve, n: nat, s: nat): RouteCandidate
    requires n >= 1
  {
    RouteAt(curve, Lap(n, s), Winner(n))
  }

  function NameOf(i: nat): string { if i == 0 then "a" else if i == 1 then "b" else if i == 2 then "c" else "d" }

  lemma LapRouteIs(curve: Scoring.LossCurve, n: nat, s: nat)
    requires 1 <= n <= 6
    ensures var c := LapRoute(curve, n, s);
            && c.id == Edges.CandidateId(NameOf(Winner(n)), Quic) && c.id != ""
            && c.metrics == Metrics(Latencies(n)[Winner(n)].value, 0.0, 0.0, 1.0, 0.0, 0.0)
            && Edges.EdgeIdOf(c.id) == NameOf(Winner(n))
            && !Hysteresis.Falling(c.metrics)
  {
    LapRated(n, s, Winner(n));
    RatedScore(curve, Lap(n, s).stats[Winner(n)], Latencies(n)[Winner(n)]);
    Edges.CandidateIdInjective(NameOf(Winner(n)), Quic, NameOf(Winner(n)), Quic);
  }

  // The decider told of the first route, on edge a.
  function Briefed(): Hysteresis.Decider { Hysteresis.Fresh(Hysteresis.DEFAULT).(current := Some(Flat(1000.0))) }

  lemma BriefedTakes(c: RouteCandidate, eng: nat)
    requires c.metrics == Flat(700.0) && c.id != ""
    ensures Hysteresis.VerdictOf(Briefed(), c, 0).Switch?
    ensures Hysteresis.Consulted(Briefed(), eng, c, 0)
            == Hysteresis.Decider(Hysteresis.DEFAULT, c.id, Hysteresis.Imposed([], 15_000, c.id, eng),
                                  None, Some(Flat(700.0)))
  {
    HysteresisTheorems.WinsByGain(Flat(1000.0), Flat(700.0), 15_000);
  }

  // Asked about c again while d's known latency is lower, the decider stays and keeps its bans.
  lemma SlowerIsKept(d: Hysteresis.Decider, c: RouteCandidate, now: nat)
    requires d.cfg == Hysteresis.DEFAULT && d.degradedSince.None?
    requires d.current == Some(Flat(400.0)) && c.metrics == Flat(600.0)
    ensures !Hysteresis.VerdictOf(d, c, now).Switch?
    ensures Hysteresis.Evaluated(d, c, now) == d.(degradedSince := Hysteresis.Evaluated(d, c, now).degradedSince)
  {
  }

  // The decider's answers over the run: b, c, d, not c again, and b again.
  lemma LapDecider(
    eng: nat, s: nat,
    c2: RouteCandidate, c3: RouteCandidate, c4: RouteCandidate, c5: RouteCandidate, c6: RouteCandidate)
    requires eng > 30_000 && s == Max(0, 45_000 - eng)
    requires c2.metrics == Flat(700.0) && c3.metrics == Flat(600.0) && c4.metrics == Flat(400.0)
    requires c5.metrics == Flat(600.0) && c6.metrics == Flat(525.0) && c6.id == c2.id
    requires c2.id != "" && c3.id != "" && c4.id != "" && c2.id != c3.id && c3.id != c4.id && c4.id != c2.id
    ensures var d2 := Hysteresis.Consulted(Briefed(), eng, c2, 0);
            var d3 := Hysteresis.Consulted(d2, eng, c3, 0);
            var d4 := Hysteresis.Consulted(d3, eng, c4, s);
            var d5 := Hysteresis.Evaluated(d4, c5, s).(current := Some(Flat(2800.0)));
            && Hysteresis.VerdictOf(Briefed(), c2, 0) == Hysteresis.Switch(c2.id, Hysteresis.SustainedImprovement)
            && Hysteresis.VerdictOf(d2, c3, 0).Switch? && Hysteresis.VerdictOf(d3, c4, s).Switch?
            && !Hysteresis.VerdictOf(d4, c5, s).Switch?
            && Hysteresis.VerdictOf(d5, c6, s) == Hysteresis.Switch(c2.id, Hysteresis.SustainedImprovement)
  {
    HysteresisTheorems.BanForgotten(15_000, eng, s, c2.id, c3.id, c4.id);
    BriefedTakes(c2, eng);
    var d2 := Hysteresis.Consulted(Briefed(), eng, c2, 0);
    HysteresisTheorems.NextTaken(d2, eng, c3, 0);
    var d3 := Hysteresis.Consulted(d2, eng, c3, 0);
    HysteresisTheorems.NextTaken(d3, eng, c4, s);
    var d4 := Hysteresis.Consulted(d3, eng, c4, s);
    SlowerIsKept(d4, c5, s);
    var d5 := Hysteresis.Evaluated(d4, c5, s).(current := Some(Flat(2800.0)));
    HysteresisTheorems.NextTaken(d5, eng, c6, s);
  }

  lemma LapSwitch(curve: Scoring.LossCurve, eng: nat, n: nat, s: nat, x: Scene, c: RouteCandidate)
    requires 1 <= n <= 6 && Shows(curve, Setup(eng), LapRun(n - 1, s), x)
    requires x.registry == Lap(n - 1, s) && x.current.Some? && c == LapRoute(curve, n, s)
    requires Hysteresis.VerdictOf(x.decider, c, Clock(n, s)).Switch?
    ensures Shows(curve, Setup(eng), LapRun(n, s),
                  Scene(Lap(n, s), Some(c), Hysteresis.Consulted(x.decider, eng, c, Clock(n, s)),
                        x.log + [Hysteresis.RecordOf(x.decider, c, Clock(n, s))]))
  {
    LapHit(n, s);
    LapWins(curve, n, s);
    LapLast(n - 1, s);
    SwitchProbe(curve, Setup(eng), LapRun(n - 1, s), x,
                Target(n), Sample(n), false, Clock(n, s), Winner(n), Lap(n, s), c);
  }

  function Names(): seq<string> { ["a", "b", "c", "d"] }

  lemma FourSpots(infos: seq<EdgeInfo>)
    requires |infos| == 4 && forall i | 0 <= i < 4 :: infos[i] == Spot(Names()[i])
    ensures Distinct(infos) && forall e | e in infos :: e.supported == [Quic]
  {
    assert forall i | 0 <= i < 4 :: |Names()[i]| == 1;
    forall i, j | 0 <= i < j < 4 ensures infos[i].id != infos[j].id {
      assert Names()[i][0] != Names()[j][0];
    }
  }

  lemma FourNew(infos: seq<EdgeInfo>, s: nat)
    requires infos == [Spot("a"), Spot("b"), Spot("c"), Spot("d")]
    ensures Edges.Registry(infos, NewStatsOf(infos)) == Lap(0, s)
  {
  }

  lemma LapRegisters(curve: Scoring.LossCurve, eng: nat, s: nat)
    ensures Shows(curve, Setup(eng), LapRun(0, s), Scene(Lap(0, s), None, Hysteresis.Fresh(Hysteresis.DEFAULT), []))
  {
    var infos := [Spot("a"), Spot("b"), Spot("c"), Spot("d")];
    FourSpots(infos);
    FourNew(infos, s);
    Registers(curve, eng, infos);
  }

  lemma LapOpens(curve: Scoring.LossCurve, s: nat, r: Edges.Registry)
    requires r == Lap(1, s)
    ensures r == AfterHit(Lap(0, s), 0, 1000.0, false, 0) && Wins(curve, r, 0)
    ensures Edges.Snapshot(r.stats[0]) == Flat(1000.0)
    ensures 0 < |r.edges| && RouteAt(curve, r, 0) == LapRoute(curve, 1, s)
    ensures LapRun(1, s) == LapRun(0, s) + [Observe(Hit(Lap(0, s), 0, 1000.0, false), 0)]
  {
    LapHit(1, s);
    LapWins(curve, 1, s);
    LapRated(1, s, 0);
    RatedScore(curve, r.stats[0], Latencies(1)[0]);
  }

  lemma LapStart(curve: Scoring.LossCurve, eng: nat, s: nat)
    ensures Shows(curve, Setup(eng), LapRun(1, s), Scene(Lap(1, s), Some(LapRoute(curve, 1, s)), Briefed(), []))
  {
    LapRegisters(curve, eng, s);
    LapOpens(curve, s, Lap(1, s));
    LapLast(0, s);
    LapFirst(curve, eng, s, Scene(Lap(0, s), None, Hysteresis.Fresh(Hysteresis.DEFAULT), []), Lap(1, s), LapRun(0, s));
  }

  lemma LapFirst(curve: Scoring.LossCurve, eng: nat, s: nat, x: Scene, r: Edges.Registry, inputs: seq<Input>)
    requires Shows(curve, Setup(eng), inputs, x) && LastAt(inputs) == 0 && 0 < |x.registry.stats|
    requires x.current.None? && x.decider == Hysteresis.Fresh(Hysteresis.DEFAULT) && x.log == []
    requires r == AfterHit(x.registry, 0, 1000.0, false, 0) && Wins(curve, r, 0)
            && Edges.Snapshot(r.stats[0]) == Flat(1000.0)
    ensures 0 < |r.edges|
    ensures Shows(curve, Setup(eng), inputs + [Observe(Hit(x.registry, 0, 1000.0, false), 0)],
                  Scene(r, Some(RouteAt(curve, r, 0)), Briefed(), []))
  {
    FirstProbe(curve, Setup(eng), inputs, x, 0, 1000.0, false, 0, 0, r);
  }

  lemma LapSpoil(curve: Scoring.LossCurve, eng: nat, s: nat, x: Scene, c: RouteCandidate)
    requires Shows(curve, Setup(eng), LapRun(4, s), x) && x.registry == Lap(4, s) && c == LapRoute(curve, 5, s)
    requires x.current == Some(LapRoute(curve, 4, s)) && !Hysteresis.VerdictOf(x.decider, c, s).Switch?
    ensures Shows(curve, Setup(eng), LapRun(5, s),
                  Scene(Lap(5, s), x.current, Hysteresis.Evaluated(x.decider, c, s).(current := Some(Flat(2800.0))),
                        x.log + [Hysteresis.RecordOf(x.decider, c, s)]))
  {
    LapHit(5, s);
    LapWins(curve, 5, s);
    LapLast(4, s);
    LapRouteIs(curve, 4, s);
    LapRated(5, s, 3);
    RatedScore(curve, Lap(5, s).stats[3], Latencies(5)[3]);
    KeepProbe(curve, Setup(eng), LapRun(4, s), x, 3, Sample(5), false, s, 2, Lap(5, s), c);
  }

  // The run up to the fourth probe, for a decider that answers so.
  lemma LapOut(
    curve: Scoring.LossCurve, eng: nat, s: nat, c2: RouteCandidate, c3: RouteCandidate, c4: RouteCandidate,
    d2: Hysteresis.Decider, d3: Hysteresis.Decider, d4: Hysteresis.Decider)
    requires c2 == LapRoute(curve, 2, s) && c3 == LapRoute(curve, 3, s) && c4 == LapRoute(curve, 4, s)
    requires d2 == Hysteresis.Consulted(Briefed(), eng, c2, 0) && Hysteresis.VerdictOf(Briefed(), c2, 0).Switch?
    requires d3 == Hysteresis.Consulted(d2, eng, c3, 0) && Hysteresis.VerdictOf(d2, c3, 0).Switch?
    requires d4 == Hysteresis.Consulted(d3, eng, c4, s) && Hysteresis.VerdictOf(d3, c4, s).Switch?
    ensures Shows(curve, Setup(eng), LapRun(2, s),
                  Scene(Lap(2, s), Some(c2), d2, [Hysteresis.RecordOf(Briefed(), c2, 0)]))
    ensures RouteAfter(curve, Setup(eng), LapRun(3, s)) == Some(c3.id)
    ensures Shows(curve, Setup(eng), LapRun(4, s),
                  Scene(Lap(4, s), Some(c4), d4,
                        [Hysteresis.RecordOf(Briefed(), c2, 0)] + [Hysteresis.RecordOf(d2, c3, 0)]
                        + [Hysteresis.RecordOf(d3, c4, s)]))
  {
    var r2, r3 := Hysteresis.RecordOf(Briefed(), c2, 0), Hysteresis.RecordOf(d2, c3, 0);
    LapStart(curve, eng, s);
    LapSwitch(curve, eng, 2, s, Scene(Lap(1, s), Some(LapRoute(curve, 1, s)), Briefed(), []), c2);
    assert [] + [r2] == [r2];
    LapSwitch(curve, eng, 3, s, Scene(Lap(2, s), Some(c2), d2, [r2]), c3);
    LapSwitch(curve, eng, 4, s, Scene(Lap(3, s), Some(c3), d3, [r2] + [r3]), c4);
  }

  // And from there back to b.
  lemma LapBack(
    curve: Scoring.LossCurve, eng: nat, s: nat, c4: RouteCandidate, c5: RouteCandidate, c6: RouteCandidate,
    d4: Hysteresis.Decider, d5: Hysteresis.Decider, log: seq<Hysteresis.Record>)
    requires c4 == LapRoute(curve, 4, s) && c5 == LapRoute(curve, 5, s) && c6 == LapRoute(curve, 6, s)
    requires Shows(curve, Setup(eng), LapRun(4, s), Scene(Lap(4, s), Some(c4), d4, log))
    requires d5 == Hysteresis.Evaluated(d4, c5, s).(current := Some(Flat(2800.0)))
    requires !Hysteresis.VerdictOf(d4, c5, s).Switch? && Hysteresis.VerdictOf(d5, c6, s).Switch?
    ensures Ordered(LapRun(6, s))
    ensures RouteAfter(curve, Setup(eng), LapRun(5, s)) == Some(c4.id)
    ensures RouteAfter(curve, Setup(eng), LapRun(6, s)) == Some(c6.id)
    ensures Log(curve, Initial(Setup(eng)), LapRun(6, s))
            == log + [Hysteresis.RecordOf(d4, c5, s)] + [Hysteresis.RecordOf(d5, c6, s)]
  {
    LapSpoil(curve, eng, s, Scene(Lap(4, s), Some(c4), d4, log), c5);
    LapSwitch(curve, eng, 6, s, Scene(Lap(5, s), Some(c4), d5, log + [Hysteresis.RecordOf(d4, c5, s)]), c6);
  }

  // The lap returns to b at s, which it left at 0 having switched to it.
  ghost predicate LapReturns(curve: Scoring.LossCurve, eng: nat, s: nat) {
    var cfg, b := Setup(eng), LapRoute(curve, 2, s).id;
    && Ordered(LapRun(6, s)) && !Hysteresis.Apart(Log(curve, Initial(cfg), LapRun(6, s)), 15_000)
    && RouteAfter(curve, cfg, LapRun(2, s)) == Some(b) && RouteAfter(curve, cfg, LapRun(6, s)) == Some(b)
    && RouteAfter(curve, cfg, LapRun(3, s)) != Some(b)
    && RouteAfter(curve, cfg, LapRun(5, s)).Some? && RouteAfter(curve, cfg, LapRun(5, s)) != Some(b)
    && HysteresisTheorems.Switched(Log(curve, Initial(cfg), LapRun(2, s)))
  }

  lemma LapCloses(curve: Scoring.LossCurve, eng: nat, s: nat)
    requires eng > 30_000 && s == Max(0, 45_000 - eng)
    ensures LapReturns(curve, eng, s)
  {
    var c2, c3, c4 := LapRoute(curve, 2, s), LapRoute(curve, 3, s), LapRoute(curve, 4, s);
    var c5, c6 := LapRoute(curve, 5, s), LapRoute(curve, 6, s);
    LapIds(curve, s);
    LapDecider(eng, s, c2, c3, c4, c5, c6);
    var d2 := Hysteresis.Consulted(Briefed(), eng, c2, 0);
    var d3 := Hysteresis.Consulted(d2, eng, c3, 0);
    var d4 := Hysteresis.Consulted(d3, eng, c4, s);
    var d5 := Hysteresis.Evaluated(d4, c5, s).(current := Some(Flat(2800.0)));
    var r2, r3 := Hysteresis.RecordOf(Briefed(), c2, 0), Hysteresis.RecordOf(d2, c3, 0);
    var r4 := Hysteresis.RecordOf(d3, c4, s);
    LapOut(curve, eng, s, c2, c3, c4, d2, d3, d4);
    LapBack(curve, eng, s, c4, c5, c6, d4, d5, [r2] + [r3] + [r4]);
    BackTooEarly(r2, r3, r4, Hysteresis.RecordOf(d4, c5, s), Hysteresis.RecordOf(d5, c6, s));
    OneSwitch(r2);
  }

  lemma OneSwitch(r: Hysteresis.Record)
    requires r.verdict.Switch?
    ensures HysteresisTheorems.Switched([r])
  {
    assert r in [r];
  }

  /** With a configured cooldown of over 30 s the engine goes back to a route less than 15 s after
      it went there, whatever the cooldown. */
  lemma EngineFlaps(curve: Scoring.LossCurve, eng: nat) returns (inputs: seq<Input>)
    requires eng > 30_000
    ensures Ordered(inputs) && !Hysteresis.Apart(Log(curve, Initial(Setup(eng)), inputs), 15_000)
  {
    var s := Max(0, 45_000 - eng);
    LapCloses(curve, eng, s);
    inputs := LapRun(6, s);
  }

  lemma ReturnByPrefixes(
    curve: Scoring.LossCurve, cfg: Config, inputs: seq<Input>, x: string,
    before: seq<Input>, after: seq<Input>, again: seq<Input>)
    requires cfg.fallbackOrder != [] && Ordered(inputs) && |inputs| == 7 && inputs[6].at < inputs[3].at + 15_000
    requires inputs[..3] == before && inputs[..4] == after && inputs[..6] == again
    requires RouteAfter(curve, cfg, before) == Some(x) && RouteAfter(curve, cfg, after) != Some(x)
    requires RouteAfter(curve, cfg, again).Some? && RouteAfter(curve, cfg, again) != Some(x)
    requires RouteAfter(curve, cfg, inputs) == Some(x)
    requires HysteresisTheorems.Switched(Log(curve, Initial(cfg), before))
    ensures ReturnsEarly(curve, cfg, inputs, 3, 6, x)
  {
    assert inputs[..7] == inputs;
  }

  lemma LapTimes(s: nat)
    ensures |LapRun(6, s)| == 7 && LapRun(6, s)[3].at == 0 && LapRun(6, s)[6].at == s
    ensures LapRun(6, s)[..3] == LapRun(2, s) && LapRun(6, s)[..4] == LapRun(3, s) && LapRun(6, s)[..6] == LapRun(5, s)
  {
    LapPrefix(6, 2, s);
    LapPrefix(6, 3, s);
    LapPrefix(6, 5, s);
    LapPrefix(6, 6, s);
  }

  /** And less than 15 s after it left it, though it knew the route then. */
  lemma EngineReturns(curve: Scoring.LossCurve, eng: nat) returns (inputs: seq<Input>, x: string)
    requires eng > 30_000
    ensures |inputs| == 7 && ReturnsEarly(curve, Setup(eng), inputs, 3, 6, x)
  {
    var s := Max(0, 45_000 - eng);
    LapCloses(curve, eng, s);
    LapTimes(s);
    inputs, x := LapRun(6, s), LapRoute(curve, 2, s).id;
    ReturnByPrefixes(curve, Setup(eng), inputs, x, LapRun(2, s), LapRun(3, s), LapRun(5, s));
  }

  /** One sample on each side is enough for a switch: the first probe of b, 300 ms faster than the one
      probe of a, moves the route at once. No improvement has to last. */
  lemma OneSampleSwitch(curve: Scoring.LossCurve, eng: nat)
    ensures var cfg, log := Setup(eng), Log(curve, Initial(Setup(eng)), LapRun(2, 0));
            && |log| == 1 && log[0].at == 0
            && log[0].verdict == Hysteresis.Switch(Edges.CandidateId("b", Quic), Hysteresis.SustainedImprovement)
            && After(curve, Initial(cfg), LapRun(2, 0)).registry == Lap(2, 0)
            && Lap(2, 0).stats[0].samples == 1 && Lap(2, 0).stats[1].samples == 1
  {
    var c2 := LapRoute(curve, 2, 0);
    LapIds(curve, 0);
    LapRouteIs(curve, 2, 0);
    BriefedTakes(c2, eng);
    LapStart(curve, eng, 0);
    LapSwitch(curve, eng, 2, 0, Scene(Lap(1, 0), Some(LapRoute(curve, 1, 0)), Briefed(), []), c2);
    HysteresisTheorems.WinsByGain(Flat(1000.0), Flat(700.0), 15_000);
  }

  lemma BackTooEarly(
    r2: Hysteresis.Record, r3: Hysteresis.Record, r4: Hysteresis.Record, r5: Hysteresis.Record, r6: Hysteresis.Record)
    requires Hysteresis.SameSwitch(r2, r6) && r6.at < r2.at + 15_000
    ensures !Hysteresis.Apart([r2] + [r3] + [r4] + [r5] + [r6], 15_000)
  {
    var log := [r2] + [r3] + [r4] + [r5] + [r6];
    assert log[0] == r2 && log[4] == r6;
  }

  lemma LapIds(curve: Scoring.LossCurve, s: nat)
    ensures var c2, c3, c4 := LapRoute(curve, 2, s), LapRoute(curve, 3, s), LapRoute(curve, 4, s);
            var c5, c6 := LapRoute(curve, 5, s), LapRoute(curve, 6, s);
            && c2.metrics == Flat(700.0) && c3.metrics == Flat(600.0) && c4.metrics == Flat(400.0)
            && c5.metrics == Flat(600.0) && c6.metrics == Flat(525.0) && c6.id == c2.id
            && c2.id != "" && c3.id != "" && c4.id != "" && c2.id != c3.id && c3.id != c4.id && c4.id != c2.id
  {
    LapRouteIs(curve, 2, s);
    LapRouteIs(curve, 3, s);
    LapRouteIs(curve, 4, s);
    LapRouteIs(curve, 5, s);
    LapRouteIs(curve, 6, s);
    assert "b"[0] != "c"[0] && "c"[0] != "d"[0] && "d"[0] != "b"[0];
  }

  ghost predicate StaysApart(curve: Scoring.LossCurve, cfg: Config, inputs: seq<Input>) {
    cfg.fallbackOrder != [] && Ordered(inputs) ==>
      Hysteresis.Apart(Log(curve, Initial(cfg), inputs), Min(15_000, cfg.cooldownMs))
  }

  // No run of any engine with this loss curve and cooldown goes back to a route too early.
  ghost predicate NeverFlaps(curve: Scoring.LossCurve, eng: nat) {
    forall cfg: Config, inputs: seq<Input> | cfg.cooldownMs == eng :: StaysApart(curve, cfg, inputs)
  }

  /** Switches of the engine to one route are always at least the smaller cooldown apart exactly
      when the configured one is at most 30 s. */
  lemma EngineFlapBoundIff(curve: Scoring.LossCurve, eng: nat)
    ensures NeverFlaps(curve, eng) <==> eng <= 30_000
  {
    if eng <= 30_000 {
      forall cfg: Config, inputs: seq<Input> | cfg.cooldownMs == eng ensures StaysApart(curve, cfg, inputs) {
        if cfg.fallbackOrder != [] && Ordered(inputs) { SwitchesApart(curve, cfg, inputs); }
      }
    } else {
      var inputs := EngineFlaps(curve, eng);
      assert !StaysApart(curve, Setup(eng), inputs);
    }
  }

  // A run that returns within 15 s, at step j, to a route it left at step i having switched before.
  ghost predicate ReturnsEarly(curve: Scoring.LossCurve, cfg: Config, inputs: seq<Input>, i: nat, j: nat, x: string) {
    && cfg.fallbackOrder != [] && Ordered(inputs) && i < j < |inputs|
    && LeavesAt(curve, cfg, inputs, i, x) && TakesAt(curve, cfg, inputs, j, x)
    && HysteresisTheorems.Switched(Log(curve, Initial(cfg), inputs[..i]))
    && inputs[j].at < inputs[i].at + 15_000
  }

  ghost predicate NeverReturns(curve: Scoring.LossCurve, eng: nat) {
    forall cfg: Config, inputs: seq<Input>, i: nat, j: nat, x: string | cfg.cooldownMs == eng ::
      !ReturnsEarly(curve, cfg, inputs, i, j, x)
  }

  /** The block on a route that was left, once the decider has switched and so knows its routes, holds
      for 15 s in all runs exactly when the configured cooldown is at most 30 s. */
  lemma EngineBlockHoldsIff(curve: Scoring.LossCurve, eng: nat)
    ensures NeverReturns(curve, eng) <==> eng <= 30_000
  {
    if eng <= 30_000 {
      forall cfg: Config, inputs: seq<Input>, i: nat, j: nat, x: string | cfg.cooldownMs == eng
        ensures !ReturnsEarly(curve, cfg, inputs, i, j, x)
      {
        if ReturnsEarly(curve, cfg, inputs, i, j, x) { BlockHolds(curve, cfg, inputs, i, j, x); }
      }
    } else {
      var inputs, x := EngineReturns(curve, eng);
      assert ReturnsEarly(curve, Setup(eng), inputs, 3, 6, x);
    }
  }
}
