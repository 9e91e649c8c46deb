/** Failure and success reports over whole runs: which breakers and how much of the chain they
    move, what the trip counter counts, and how often a breaker trips. */
module EngineBreakers {
  import opened Common
  import opened Model
  import opened Engine
  import opened EngineTheorems
  import opened EngineRuns
  import Circuit
  import Edges
  import Fallback
  import Scoring
  import StateMachine

  // ---------------------------------------------------------------------
  // Reports

  lemma LastColon(x: string, a: string, b: string)
    requires ':' !in a && ':' !in b && EndsWith(x + ":" + a, ":" + b)
    ensures a == b
  {
    var key, suffix := x + ":" + a, ":" + b;
    var n := |key| - |b|;
    assert key[n - 1..] == suffix;
    assert key[n - 1] == suffix[0] == ':' && key[|x|] == ':';
    assert forall i | |x| < i < |key| :: key[i] == a[i - |x| - 1];
    assert forall i | n <= i < |key| :: key[i] == suffix[i - n + 1] == b[i - n];
    assert n == |x| + 1;
    assert a == key[n..] == b;
  }

  lemma SuffixOfKey(id: string, u: TransportKind, t: TransportKind)
    ensures EndsWith(id + Suffix(u), Suffix(t)) <==> u == t
  {
    Edges.NamesArePlain(t);
    Edges.NamesArePlain(u);
    assert id + Suffix(u) == id + ":" + Name(u);
    if EndsWith(id + Suffix(u), Suffix(t)) {
      LastColon(id, Name(u), Name(t));
      Edges.NamesDiffer(u, t);
    }
  }

  /** A failure report charges the breakers of its transport, on every edge, and no other;
      a success report credits exactly the same ones. */
  lemma ReportsTouchExactly(s: State, t: TransportKind, now: nat, edge: string, u: TransportKind)
    requires Fallback.Usable(s.chain) && Edges.CandidateId(edge, u) + Suffix(u) in s.breakers
    ensures var key := Edges.CandidateId(edge, u) + Suffix(u);
            var b := s.breakers[key];
            && TransportFailed(s, t, now).breakers[key] == (if u == t then Circuit.Failed(b, now) else b)
            && TransportSucceeded(s, t, now).breakers[key] == (if u == t then Circuit.Succeeded(b) else b)
  {
    SuffixOfKey(Edges.CandidateId(edge, u), u, t);
  }

  /** One report is enough to fall back, whatever the health of the transport: the chain moves
      exactly when the transport is supported, current, unblocked and not the last. */
  lemma OneReportFallsBack(s: State, t: TransportKind, now: nat)
    requires Ok(s)
    ensures TransportFailed(s, t, now).chain != s.chain
            <==> t in s.machines && t == s.chain.order[s.chain.index]
                 && s.chain.index + 1 < |s.chain.order| && !Fallback.BlockedAt(s.chain, t, now)
  {
    if t in s.machines {
      var m := StateMachine.AfterFailure(s.machines[t]);
      var signal := if m.state.Failed? then Fallback.StateFailed else Fallback.HandshakeFailure;
      Fallback.AdvancesIff(s.chain, t, signal, now);
    }
  }

  /** So the first failure report of all falls back from the first transport of the order, which is
      still healthy then and whose breakers do not even exist. */
  lemma FirstReportFallsBack(curve: Scoring.LossCurve, cfg: Config, now: nat)
    requires |cfg.fallbackOrder| >= 2 && cfg.fallbackOrder[0] in cfg.supported
    ensures var t, s' := cfg.fallbackOrder[0], After(curve, Initial(cfg), [Failure(cfg.fallbackOrder[0], now)]);
            && t in s'.machines && s'.machines[t].state.Healthy? && s'.breakers == map[]
            && s'.chain.index == 1 && Fallback.Current(s'.chain) == cfg.fallbackOrder[1]
  {
    var t, s := cfg.fallbackOrder[0], Initial(cfg);
    ReachableOk(curve, cfg, []);
    OneReportFallsBack(s, t, now);
    assert [Failure(t, now)][..0] == [];
    assert After(curve, s, [Failure(t, now)]) == TransportFailed(s, t, now);
  }

  // ---------------------------------------------------------------------
  // The chain inside the engine

  // What a step tells the fallback chain.
  function Signalled(s: State, e: Input): seq<Fallback.Event> {
    if !e.Failure? || e.transport !in s.machines then [] else
      var m := StateMachine.AfterFailure(s.machines[e.transport]);
      var signal := if m.state.Failed? then Fallback.StateFailed else Fallback.HandshakeFailure;
      [Fallback.Observe([Fallback.Report(e.transport, signal)], e.at)]
  }

  function ChainEvents(curve: Scoring.LossCurve, s: State, inputs: seq<Input>): seq<Fallback.Event>
    requires Fallback.Usable(s.chain)
  {
    if inputs == [] then [] else
      var init := inputs[..|inputs| - 1];
      ChainEvents(curve, s, init) + Signalled(After(curve, s, init), inputs[|inputs| - 1])
  }

  lemma StepChain(curve: Scoring.LossCurve, s: State, e: Input)
    requires Fallback.Usable(s.chain)
    ensures |Signalled(s, e)| <= 1
    ensures Next(curve, s, e).chain
            == if Signalled(s, e) == [] then s.chain else Fallback.Observed(s.chain, Signalled(s, e)[0].reports, e.at)
  {
    if e.Observe? && Known(s, e.obs) {
      var p := Probed(s, e.obs, e.at);
      SelectedBestFrame(AfterScreening(curve, p, e.at), Admitted(curve, p, e.at), e.at);
    }
  }

  lemma ChainSnoc(c: Fallback.Chain, events: seq<Fallback.Event>, more: seq<Fallback.Event>)
    requires Fallback.Usable(c) && |more| <= 1 && forall e | e in more :: e.Observe?
    ensures Fallback.After(c, events + more)
            == var c' := Fallback.After(c, events);
               if more == [] then c' else Fallback.Observed(c', more[0].reports, more[0].at)
  {
    if more == [] {
      assert events + more == events;
    } else {
      assert (events + more)[..|events|] == events && more == [more[0]];
    }
  }

  /** The fallback chain inside the engine is the chain on its own, run on the failure reports: every
      theorem about its runs holds of engine runs. */
  lemma {:induction false} ChainFollows(curve: Scoring.LossCurve, s: State, inputs: seq<Input>)
    requires Fallback.Usable(s.chain)
    ensures After(curve, s, inputs).chain == Fallback.After(s.chain, ChainEvents(curve, s, inputs))
    decreases |inputs|
  {
    if inputs != [] {
      var init, e := inputs[..|inputs| - 1], inputs[|inputs| - 1];
      ChainFollows(curve, s, init);
      StepChain(curve, After(curve, s, init), e);
      ChainSnoc(s.chain, ChainEvents(curve, s, init), Signalled(After(curve, s, init), e));
    }
  }

  /** So in every run of the engine, on any clock, two departures from one transport are 5 s apart. */
  lemma EngineDepartures(curve: Scoring.LossCurve, cfg: Config, inputs: seq<Input>)
    requires cfg.fallbackOrder != []
    ensures var chain, events := Initial(cfg).chain, ChainEvents(curve, Initial(cfg), inputs);
            && After(curve, Initial(cfg), inputs).chain.index < |cfg.fallbackOrder|
            && After(curve, Initial(cfg), inputs).chain.order == cfg.fallbackOrder
            && |Fallback.Departures(chain, events)| == After(curve, Initial(cfg), inputs).chain.index
            && Fallback.Spaced(Fallback.Departures(chain, events))
  {
    var chain, events := Initial(cfg).chain, ChainEvents(curve, Initial(cfg), inputs);
    ChainFollows(curve, Initial(cfg), inputs);
    Fallback.DeparturesApart(chain, events);
    OnlySignals(curve, Initial(cfg), inputs);
    DeparturesCounted(chain, events);
  }

  lemma {:induction false} OnlySignals(curve: Scoring.LossCurve, s: State, inputs: seq<Input>)
    requires Fallback.Usable(s.chain)
    ensures forall e | e in ChainEvents(curve, s, inputs) :: e.Observe?
    decreases |inputs|
  {
    if inputs != [] { OnlySignals(curve, s, inputs[..|inputs| - 1]); }
  }

  // Without reorderings the index counts the departures.
  lemma {:induction false} DeparturesCounted(c: Fallback.Chain, events: seq<Fallback.Event>)
    requires Fallback.Usable(c) && forall e | e in events :: e.Observe?
    ensures Fallback.After(c, events).index == c.index + |Fallback.Departures(c, events)|
    ensures Fallback.After(c, events).order == c.order
    decreases |events|
  {
    if events != [] {
      assert events[|events| - 1] in events;
      DeparturesCounted(c, events[..|events| - 1]);
    }
  }

  // ---------------------------------------------------------------------
  // Breakers inside the engine

  predicate Concerned(cs: seq<RouteCandidate>, key: string) { exists c | c in cs :: KeyOf(c) == key }

  lemma {:induction false} ScreenedAt(
    breakers: map<string, Circuit.Breaker>, cfg: Circuit.Config, cs: seq<RouteCandidate>, now: nat, key: string)
    ensures var b := BreakerAt(breakers, cfg, key);
            BreakerAt(Screened(breakers, cfg, cs, now).0, cfg, key)
            == if Concerned(cs, key) then Circuit.Asked(b, now) else b
    ensures key in Screened(breakers, cfg, cs, now).0 <==> key in breakers || Concerned(cs, key)
    decreases |cs|
  {
    if cs != [] {
      var asked := breakers[KeyOf(cs[0]) := Circuit.Asked(BreakerAt(breakers, cfg, KeyOf(cs[0])), now)];
      ScreenedAt(asked, cfg, cs[1..], now, key);
      assert Concerned(cs, key) <==> KeyOf(cs[0]) == key || Concerned(cs[1..], key);
    }
  }

  // What one step does to the breaker under a key.
  function OpOf(curve: Scoring.LossCurve, s: State, e: Input, key: string): Option<Circuit.Op> {
    match e
    case Observe(obs, now) =>
      if Known(s, obs) && Concerned(Candidates(curve, Probed(s, obs, now)), key) then Some(Circuit.Ask(now)) else None
    case Failure(t, now) => if key in s.breakers && EndsWith(key, Suffix(t)) then Some(Circuit.Failure(now)) else None
    case Success(t, _) => if key in s.breakers && EndsWith(key, Suffix(t)) then Some(Circuit.Success) else None
    case _ => None
  }

  function Ops(curve: Scoring.LossCurve, s: State, inputs: seq<Input>, key: string): seq<Circuit.Op>
    requires Fallback.Usable(s.chain)
  {
    if inputs == [] then [] else
      var init := inputs[..|inputs| - 1];
      var op := OpOf(curve, After(curve, s, init), inputs[|inputs| - 1], key);
      Ops(curve, s, init, key) + if op.Some? then [op.value] else []
  }

  lemma StepBreaker(curve: Scoring.LossCurve, s: State, e: Input, key: string)
    requires Fallback.Usable(s.chain)
    ensures var b, op := BreakerAt(s.breakers, s.cfg.circuit, key), OpOf(curve, s, e, key);
            BreakerAt(Next(curve, s, e).breakers, s.cfg.circuit, key)
            == if op.Some? then Circuit.Step(b, op.value) else b
  {
    if e.Observe? {
      ChosenFrame(curve, s, e.obs, e.at);
      ScreenedAt(s.breakers, s.cfg.circuit, Candidates(curve, Probed(s, e.obs, e.at)), e.at, key);
    }
  }

  /** Each breaker of the engine behaves as a circuit breaker of its own, driven by the steps that
      concern it; a breaker not made yet is a fresh one. */
  lemma {:induction false} BreakerFollows(curve: Scoring.LossCurve, s: State, inputs: seq<Input>, key: string)
    requires Ok(s)
    ensures BreakerAt(After(curve, s, inputs).breakers, s.cfg.circuit, key)
            == Circuit.Run(BreakerAt(s.breakers, s.cfg.circuit, key), Ops(curve, s, inputs, key))
    decreases |inputs|
  {
    if inputs != [] {
      var init, e := inputs[..|inputs| - 1], inputs[|inputs| - 1];
      BreakerFollows(curve, s, init, key);
      RunOk(curve, s, init);
      StepBreaker(curve, After(curve, s, init), e, key);
      var ops, op := Ops(curve, s, init, key), OpOf(curve, After(curve, s, init), e, key);
      if op.Some? {
        assert (ops + [op.value])[..|ops|] == ops;
      } else {
        assert ops + [] == ops;
      }
    }
  }

  lemma SteadySnoc(ops: seq<Circuit.Op>, op: Circuit.Op)
    requires Circuit.Steady(ops) && !op.Success? && Circuit.LastAt(ops) <= op.at
    ensures Circuit.Steady(ops + [op]) && Circuit.LastAt(ops + [op]) == op.at
  {
  }

  lemma OpTime(curve: Scoring.LossCurve, s: State, e: Input, id: string, t: TransportKind)
    requires !(e.Success? && e.transport == t)
    ensures var op := OpOf(curve, s, e, id + Suffix(t));
            op.Some? ==> !op.value.Success? && op.value.at == e.at
  {
    if e.Success? { SuffixOfKey(id, t, e.transport); }
  }

  lemma {:induction false} OpsSteady(
    curve: Scoring.LossCurve, s: State, inputs: seq<Input>, id: string, t: TransportKind)
    requires Fallback.Usable(s.chain) && Ordered(inputs)
    requires forall i | 0 <= i < |inputs| :: !(inputs[i].Success? && inputs[i].transport == t)
    ensures Circuit.Steady(Ops(curve, s, inputs, id + Suffix(t)))
    ensures Circuit.LastAt(Ops(curve, s, inputs, id + Suffix(t))) <= LastAt(inputs)
    decreases |inputs|
  {
    if inputs != [] {
      var init, e := inputs[..|inputs| - 1], inputs[|inputs| - 1];
      OpsSteady(curve, s, init, id, t);
      var ops, op := Ops(curve, s, init, id + Suffix(t)), OpOf(curve, After(curve, s, init), e, id + Suffix(t));
      OpTime(curve, After(curve, s, init), e, id, t);
      if op.Some? { SteadySnoc(ops, op.value); } else { assert ops + [] == ops; }
    }
  }

  /** While no success is reported for its transport, a route's breaker trips at most once per
      cooldown: the cooldowns of all its trips but the last fit before the last input. */
  lemma EngineTripRate(curve: Scoring.LossCurve, s: State, inputs: seq<Input>, id: string, t: TransportKind)
    requires Ok(s) && Ordered(inputs)
    requires forall i | 0 <= i < |inputs| :: !(inputs[i].Success? && inputs[i].transport == t)
    ensures var key := id + Suffix(t);
            var b := BreakerAt(s.breakers, s.cfg.circuit, key);
            var b' := BreakerAt(After(curve, s, inputs).breakers, s.cfg.circuit, key);
            var trips := Circuit.TripTimes(b, Ops(curve, s, inputs, key));
            && b'.trips == b.trips + |trips|
            && (trips != [] ==> trips[0] + (|trips| - 1) * s.cfg.circuit.openCooldownMs <= LastAt(inputs))
  {
    var key := id + Suffix(t);
    var b, ops := BreakerAt(s.breakers, s.cfg.circuit, key), Ops(curve, s, inputs, key);
    BreakerFollows(curve, s, inputs, key);
    OpsSteady(curve, s, inputs, id, t);
    Circuit.RunConsistent(b, ops);
    if Circuit.TripTimes(b, ops) != [] { Circuit.TripRate(b, ops); }
  }

  // ---------------------------------------------------------------------
  // What the trip counter counts

  // The breakers a failure report of the transport trips.
  function Tripping(s: State, t: TransportKind): set<string> {
    set k | k in s.breakers && EndsWith(k, Suffix(t)) && Circuit.Trips(s.breakers[k])
  }

  /** One report moves `circuit_trips` by the number of breakers it trips exactly when it trips
      one, or finds no breaker of the transport at all. */
  lemma OneReportCounts(s: State, t: TransportKind, now: nat)
    requires Fallback.Usable(s.chain)
    ensures var s' := TransportFailed(s, t, now);
            && (forall k | k in s.breakers ::
                  s'.breakers[k].trips == s.breakers[k].trips + if k in Tripping(s, t) then 1 else 0)
            && (s'.counters.circuitTrips == s.counters.circuitTrips + |Tripping(s, t)|
                <==> |Tripping(s, t)| == 1 || !SomeBreaker(s, t))
  {
    if !SomeBreaker(s, t) { assert Tripping(s, t) == {}; }
  }

  // The step is a failure report that finds a breaker of its transport.
  predicate Meets(s: State, e: Input) { e.Failure? && SomeBreaker(s, e.transport) }

  // The step is a failure report that trips the breaker under the key.
  predicate TripsKey(s: State, e: Input, key: string) { e.Failure? && key in Tripping(s, e.transport) }

  function ReportsMet(curve: Scoring.LossCurve, s: State, inputs: seq<Input>): nat
    requires Fallback.Usable(s.chain)
  {
    if inputs == [] then 0 else
      var init := inputs[..|inputs| - 1];
      ReportsMet(curve, s, init) + if Meets(After(curve, s, init), inputs[|inputs| - 1]) then 1 else 0
  }

  function TripsOf(curve: Scoring.LossCurve, s: State, inputs: seq<Input>, key: string): nat
    requires Fallback.Usable(s.chain)
  {
    if inputs == [] then 0 else
      var init := inputs[..|inputs| - 1];
      TripsOf(curve, s, init, key) + if TripsKey(After(curve, s, init), inputs[|inputs| - 1], key) then 1 else 0
  }

  lemma StepCounts(curve: Scoring.LossCurve, s: State, e: Input, key: string)
    requires Ok(s)
    ensures Next(curve, s, e).counters.circuitTrips == s.counters.circuitTrips + if Meets(s, e) then 1 else 0
    ensures BreakerAt(Next(curve, s, e).breakers, s.cfg.circuit, key).trips
            == BreakerAt(s.breakers, s.cfg.circuit, key).trips + if TripsKey(s, e, key) then 1 else 0
    ensures TripsKey(s, e, key) ==> Meets(s, e)
  {
    StepBreaker(curve, s, e, key);
    if e.Observe? && Known(s, e.obs) { ObservedCounts(curve, s, e.obs, e.at); }
  }

  lemma ObservedCounts(curve: Scoring.LossCurve, s: State, obs: Observation, now: nat)
    requires Known(s, obs)
    ensures EdgeObserved(curve, s, obs, now).counters.circuitTrips == s.counters.circuitTrips
  {
    var p := Probed(s, obs, now);
    PickedRoute(AfterScreening(curve, p, now), Admitted(curve, p, now), now);
  }

  lemma {:induction false} RunCounts(curve: Scoring.LossCurve, s: State, inputs: seq<Input>, key: string)
    requires Ok(s)
    ensures var s' := After(curve, s, inputs);
            && s'.counters.circuitTrips == s.counters.circuitTrips + ReportsMet(curve, s, inputs)
            && BreakerAt(s'.breakers, s.cfg.circuit, key).trips
               == BreakerAt(s.breakers, s.cfg.circuit, key).trips + TripsOf(curve, s, inputs, key)
    decreases |inputs|
  {
    if inputs != [] {
      var init := inputs[..|inputs| - 1];
      RunCounts(curve, s, init, key);
      RunOk(curve, s, init);
      StepCounts(curve, After(curve, s, init), inputs[|inputs| - 1], key);
    }
  }

  // Every report of the run that found any breaker tripped this one.
  predicate AllTrip(curve: Scoring.LossCurve, s: State, inputs: seq<Input>, key: string)
    requires Fallback.Usable(s.chain)
  {
    inputs == [] ||
    var init, e := inputs[..|inputs| - 1], inputs[|inputs| - 1];
    AllTrip(curve, s, init, key) && (Meets(After(curve, s, init), e) ==> TripsKey(After(curve, s, init), e, key))
  }

  lemma {:induction false} TripsBounded(curve: Scoring.LossCurve, s: State, inputs: seq<Input>, key: string)
    requires Fallback.Usable(s.chain)
    ensures TripsOf(curve, s, inputs, key) <= ReportsMet(curve, s, inputs)
    ensures TripsOf(curve, s, inputs, key) == ReportsMet(curve, s, inputs) <==> AllTrip(curve, s, inputs, key)
    decreases |inputs|
  {
    if inputs != [] { TripsBounded(curve, s, inputs[..|inputs| - 1], key); }
  }

  /** Over every run the trip counter moves by the number of failure reports that found a breaker
      of their transport, while each breaker's trips move only by those that tripped it: so no
      breaker trips more often than the counter says, and it says as much of a breaker exactly
      when every report that found any breaker tripped this one. */
  lemma TripsCountReports(curve: Scoring.LossCurve, s: State, inputs: seq<Input>, key: string)
    requires Ok(s)
    ensures var s', met, trips := After(curve, s, inputs), ReportsMet(curve, s, inputs), TripsOf(curve, s, inputs, key);
            && s'.counters.circuitTrips == s.counters.circuitTrips + met
            && BreakerAt(s'.breakers, s.cfg.circuit, key).trips
               == BreakerAt(s.breakers, s.cfg.circuit, key).trips + trips
            && trips <= met
            && (trips == met <==> AllTrip(curve, s, inputs, key))
  {
    RunCounts(curve, s, inputs, key);
    TripsBounded(curve, s, inputs, key);
  }

  /** The trips a run charges to a breaker are those of the breaker on its own. */
  lemma TripsAreTripTimes(curve: Scoring.LossCurve, s: State, inputs: seq<Input>, key: string)
    requires Ok(s)
    ensures TripsOf(curve, s, inputs, key)
            == |Circuit.TripTimes(BreakerAt(s.breakers, s.cfg.circuit, key), Ops(curve, s, inputs, key))|
  {
    var b := BreakerAt(s.breakers, s.cfg.circuit, key);
    TripsCountReports(curve, s, inputs, key);
    BreakerFollows(curve, s, inputs, key);
    Circuit.RunConsistent(b, Ops(curve, s, inputs, key));
  }
}
