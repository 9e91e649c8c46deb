/** Safety of the route decider over whole runs. */
module HysteresisTheorems {
  import opened Common
  import opened Model
  import opened Hysteresis
  import Text

  // ---------------------------------------------------------------------
  // Flapping

  ghost predicate NeverFlaps(cfg: Config, engineCooldown: nat, gap: nat) {
    forall events | Ordered(events) :: Apart(Records(Fresh(cfg), engineCooldown, events), gap)
  }

  lemma AfterSnoc(d: Decider, eng: nat, events: seq<Event>, c: RouteCandidate, now: nat)
    ensures After(d, eng, events + [Consult(c, now)]) == Consulted(After(d, eng, events), eng, c, now)
    ensures Records(d, eng, events + [Consult(c, now)])
            == Records(d, eng, events) + [RecordOf(After(d, eng, events), c, now)]
  {
    var all := events + [Consult(c, now)];
    assert all[..|all| - 1] == events;
  }

  function Probe(id: string, latency: Measure): RouteCandidate {
    RouteCandidate(id, "", Quic, "", Metrics(latency, 0.0, 0.0, 1.0, 0.0, 0.0), None, Real)
  }

  // ---------------------------------------------------------------------
  // Bans, exactly

  ghost predicate DistinctBans(bans: seq<Ban>) { forall i, j | 0 <= i < j < |bans| :: bans[i].id != bans[j].id }

  lemma {:induction false} LaterExactly(bans: seq<Ban>, threshold: nat)
    ensures forall b :: b in Later(bans, threshold) <==> b in bans && b.until > threshold
    ensures DistinctBans(bans) ==> DistinctBans(Later(bans, threshold))
    decreases |bans|
  {
    if bans != [] {
      LaterExactly(bans[1..], threshold);
      if DistinctBans(bans) {
        forall b | b in Later(bans[1..], threshold) ensures b.id != bans[0].id { assert b in bans[1..]; }
      }
    }
  }

  lemma {:induction false} WithBanExactly(bans: seq<Ban>, id: string, until: nat)
    requires DistinctBans(bans)
    ensures forall b :: b in WithBan(bans, id, until) <==> b == Ban(id, until) || (b in bans && b.id != id)
    ensures DistinctBans(WithBan(bans, id, until))
    decreases |bans|
  {
    if bans != [] {
      WithBanExactly(bans[1..], id, until);
      var later := WithBan(bans[1..], id, until);
      if bans[0].id != id {
        forall b | b in later ensures b.id != bans[0].id {}
      }
    }
  }

  /** Imposing a ban bans the route until then, and any other as before, except for bans that
      end by the pruning threshold: those are forgotten, whether or not they are in force. */
  lemma ImposedExactly(bans: seq<Ban>, c: nat, id: string, until: nat, x: string, now: nat)
    requires DistinctBans(bans)
    ensures DistinctBans(Imposed(bans, c, id, until))
    ensures Banned(Imposed(bans, c, id, until), x, now)
            <==> if x == id then now < until else Banned(bans, x, Max(now, Since(until, c * 2)))
  {
    var threshold := Since(until, c * 2);
    var imposed := Imposed(bans, c, id, until);
    LaterExactly(bans, threshold);
    WithBanExactly(Later(bans, threshold), id, until);
    BannedIff(imposed, x, now);
    BannedIff(bans, x, Max(now, threshold));
    if x == id { assert Ban(id, until) in imposed; }
  }

  lemma BannedIff(bans: seq<Ban>, id: string, now: nat)
    ensures Banned(bans, id, now) <==> exists b | b in bans :: b.id == id && now < b.until
  {
    if b :| b in bans && b.id == id && now < b.until {
      var i :| 0 <= i < |bans| && bans[i] == b;
    }
  }

  // A route left and another taken: both banned from then on, and any other as before, unless
  // its ban ends by one of the two thresholds.
  lemma TwoImposed(bans: seq<Ban>, c: nat, left: string, until: nat, taken: string, end: nat, x: string, now: nat)
    requires DistinctBans(bans) && left != taken && x != taken
    ensures var both := Imposed(Imposed(bans, c, left, until), c, taken, end);
            var later := Max(now, Since(end, c * 2));
            && DistinctBans(both)
            && (Banned(both, x, now)
                <==> if x == left then later < until else Banned(bans, x, Max(later, Since(until, c * 2))))
  {
    var one := Imposed(bans, c, left, until);
    var later := Max(now, Since(end, c * 2));
    ImposedExactly(bans, c, left, until, x, later);
    ImposedExactly(one, c, taken, end, x, now);
  }

  // The bans after routes x, y and z were taken at 0, 0 and s: past twice the decider's cooldown
  // the engine's own bans prune the one on x while it is in force.
  lemma BanForgotten(c: nat, eng: nat, s: nat, x: string, y: string, z: string)
    requires c >= 1 && eng > 2 * c && s == Max(0, 3 * c - eng) && x != y && y != z && z != x
    ensures var bans1 := Imposed([], c, x, eng);
            var bans2 := Imposed(Imposed(bans1, c, x, c), c, y, eng);
            var bans3 := Imposed(Imposed(bans2, c, y, s + c), c, z, s + eng);
            !Banned(bans1, y, 0) && !Banned(bans2, z, s) && !Banned(bans3, x, s)
  {
    var bans1 := Imposed([], c, x, eng);
    var bans2 := Imposed(Imposed(bans1, c, x, c), c, y, eng);
    var t := Max(Max(s, Since(s + eng, c * 2)), Since(s + c, c * 2));
    ImposedExactly([], c, x, eng, y, 0);
    ImposedExactly([], c, x, eng, z, Max(Max(s, Since(eng, c * 2)), Since(c, c * 2)));
    TwoImposed(bans1, c, x, c, y, eng, z, s);
    TwoImposed(bans1, c, x, c, y, eng, x, t);
    assert !Banned(bans2, x, t);
    TwoImposed(bans2, c, y, s + c, z, s + eng, x, s);
  }

  // ---------------------------------------------------------------------
  // A run that flaps

  function Four(x: RouteCandidate, y: RouteCandidate, z: RouteCandidate, w: RouteCandidate, s: nat): seq<Event> {
    [Consult(x, 0)] + [Consult(y, 0)] + [Consult(z, s)] + [Consult(w, s)]
  }

  lemma FourRecords(
    d: Decider, eng: nat, x: RouteCandidate, y: RouteCandidate, z: RouteCandidate, w: RouteCandidate, s: nat)
    ensures var d1 := Consulted(d, eng, x, 0);
            var d2 := Consulted(d1, eng, y, 0);
            var d3 := Consulted(d2, eng, z, s);
            Records(d, eng, Four(x, y, z, w, s))
            == [RecordOf(d, x, 0), RecordOf(d1, y, 0), RecordOf(d2, z, s), RecordOf(d3, w, s)]
  {
    var e1, e2 := [Consult(x, 0)], [Consult(x, 0)] + [Consult(y, 0)];
    var e3 := e2 + [Consult(z, s)];
    assert [] + e1 == e1;
    AfterSnoc(d, eng, [], x, 0);
    AfterSnoc(d, eng, e1, y, 0);
    AfterSnoc(d, eng, e2, z, s);
    AfterSnoc(d, eng, e3, w, s);
  }

  // A fresh decider takes x and y.
  lemma TakesTwo(d: Decider, eng: nat, x: RouteCandidate, y: RouteCandidate)
    requires d == Fresh(DEFAULT.(cooldownMs := d.cfg.cooldownMs)) && !Falling(x.metrics)
    requires x.id != "" && x.id != y.id && LatencyGain(x.metrics, y.metrics)
    requires !Banned(Imposed([], d.cfg.cooldownMs, x.id, eng), y.id, 0)
    ensures VerdictOf(d, x, 0) == Switch(x.id, SustainedImprovement)
    ensures VerdictOf(Consulted(d, eng, x, 0), y, 0) == Switch(y.id, SustainedImprovement)
    ensures Consulted(d, eng, x, 0).currentId == x.id
    ensures var c, d2 := d.cfg.cooldownMs, Consulted(Consulted(d, eng, x, 0), eng, y, 0);
            && d2.cfg == d.cfg && d2.currentId == y.id && d2.current == Some(y.metrics)
            && d2.bans == Imposed(Imposed(Imposed([], c, x.id, eng), c, x.id, c), c, y.id, eng)
  {
    FirstTaken(d, eng, x);
    NextTaken(Consulted(d, eng, x, 0), eng, y, 0);
  }

  // It takes z and, if it forgot x's ban by then, x again.
  lemma TakesTwoMore(d: Decider, eng: nat, s: nat, z: RouteCandidate, x: RouteCandidate)
    requires d.cfg == DEFAULT.(cooldownMs := d.cfg.cooldownMs) && d.currentId != "" && d.currentId != z.id
    requires d.current.Some? && LatencyGain(d.current.value, z.metrics) && LatencyGain(z.metrics, x.metrics)
    requires z.id != "" && z.id != x.id && !Banned(d.bans, z.id, s)
    requires var c := d.cfg.cooldownMs;
             !Banned(Imposed(Imposed(d.bans, c, d.currentId, s + c), c, z.id, s + eng), x.id, s)
    ensures VerdictOf(Consulted(d, eng, z, s), x, s) == Switch(x.id, SustainedImprovement)
  {
    NextTaken(d, eng, z, s);
    NextTaken(Consulted(d, eng, z, s), eng, x, s);
  }

  lemma EarlyVerdicts(
    c: nat, eng: nat, s: nat, x: RouteCandidate, y: RouteCandidate, z: RouteCandidate, x': RouteCandidate)
    requires c >= 1 && eng > 2 * c && s == Max(0, 3 * c - eng)
    requires x.id != "" && y.id != "" && z.id != "" && x.id != y.id && y.id != z.id && z.id != x.id && x'.id == x.id
    requires !Falling(x.metrics) && LatencyGain(x.metrics, y.metrics)
    requires LatencyGain(y.metrics, z.metrics) && LatencyGain(z.metrics, x'.metrics)
    ensures var d := Fresh(DEFAULT.(cooldownMs := c));
            var d2 := Consulted(Consulted(d, eng, x, 0), eng, y, 0);
            && VerdictOf(d, x, 0) == Switch(x.id, SustainedImprovement)
            && VerdictOf(Consulted(d, eng, x, 0), y, 0) == Switch(y.id, SustainedImprovement)
            && Consulted(d, eng, x, 0).currentId == x.id
            && VerdictOf(Consulted(d2, eng, z, s), x', s) == Switch(x.id, SustainedImprovement)
  {
    var d := Fresh(DEFAULT.(cooldownMs := c));
    BanForgotten(c, eng, s, x.id, y.id, z.id);
    TakesTwo(d, eng, x, y);
    TakesTwoMore(Consulted(Consulted(d, eng, x, 0), eng, y, 0), eng, s, z, x');
  }

  lemma EarlyReturn(c: nat, eng: nat) returns (events: seq<Event>)
    requires c >= 1 && eng > 2 * c
    ensures Ordered(events) && !Apart(Records(Fresh(DEFAULT.(cooldownMs := c)), eng, events), Min(c, eng))
    ensures !StaysAway(Records(Fresh(DEFAULT.(cooldownMs := c)), eng, events), c)
  {
    var d, s := Fresh(DEFAULT.(cooldownMs := c)), Max(0, 3 * c - eng);
    events := Four(Probe("x", 800.0), Probe("y", 600.0), Probe("z", 400.0), Probe("x", 200.0), s);
    EarlyVerdicts(c, eng, s, Probe("x", 800.0), Probe("y", 600.0), Probe("z", 400.0), Probe("x", 200.0));
    FourRecords(d, eng, Probe("x", 800.0), Probe("y", 600.0), Probe("z", 400.0), Probe("x", 200.0), s);
    var log := Records(d, eng, events);
    assert SameSwitch(log[0], log[3]) && log[0].at == 0 && log[3].at == s;
    assert Leaves(log[1]) && SwitchesTo(log[3], log[1].left) && log[1].at == 0;
  }

  lemma FirstTaken(d: Decider, eng: nat, candidate: RouteCandidate)
    requires d == Fresh(d.cfg) && d.cfg == DEFAULT.(cooldownMs := d.cfg.cooldownMs) && !Falling(candidate.metrics)
    ensures VerdictOf(d, candidate, 0) == Switch(candidate.id, SustainedImprovement)
    ensures Consulted(d, eng, candidate, 0)
            == Decider(d.cfg, candidate.id, Imposed([], d.cfg.cooldownMs, candidate.id, eng),
                       None, Some(candidate.metrics))
  {
  }

  // A candidate with a tenth and 5 ms less latency is taken from the named current route.
  lemma NextTaken(d: Decider, eng: nat, candidate: RouteCandidate, now: nat)
    requires d.cfg == DEFAULT.(cooldownMs := d.cfg.cooldownMs) && d.currentId != "" && d.currentId != candidate.id
    requires d.current.Some? && LatencyGain(d.current.value, candidate.metrics) && !Banned(d.bans, candidate.id, now)
    ensures VerdictOf(d, candidate, now) == Switch(candidate.id, SustainedImprovement)
    ensures var c := d.cfg.cooldownMs;
            Consulted(d, eng, candidate, now)
            == Decider(d.cfg, candidate.id,
                       Imposed(Imposed(d.bans, c, d.currentId, now + c), c, candidate.id, now + eng),
                       None, Some(candidate.metrics))
  {
    WinsByGain(d.current.value, candidate.metrics, d.cfg.cooldownMs);
  }

  /** With the default evidence thresholds, switches to one route are always at least the
      smaller cooldown apart exactly when the engine's cooldown is at most twice the decider's. */
  lemma FlapBoundIff(c: nat, eng: nat)
    requires c >= 1
    ensures NeverFlaps(DEFAULT.(cooldownMs := c), eng, Min(c, eng)) <==> eng <= 2 * c
  {
    var cfg := DEFAULT.(cooldownMs := c);
    if eng <= 2 * c {
      forall events | Ordered(events) ensures Apart(Records(Fresh(cfg), eng, events), Min(c, eng)) {
        RunKeepsApart(Fresh(cfg), eng, events, Min(c, eng));
      }
    } else {
      var events := EarlyReturn(c, eng);
    }
  }

  function SwitchIds(log: seq<Record>): seq<string> {
    if log == [] then []
    else (if log[0].verdict.Switch? then [log[0].verdict.id] else []) + SwitchIds(log[1..])
  }

  lemma {:induction false} SwitchIdSource(log: seq<Record>, id: string)
    requires id in SwitchIds(log)
    ensures exists i | 0 <= i < |log| :: log[i].verdict.Switch? && log[i].verdict.id == id
    decreases |log|
  {
    if !(log[0].verdict.Switch? && log[0].verdict.id == id) {
      SwitchIdSource(log[1..], id);
      var i :| 0 <= i < |log[1..]| && log[1..][i].verdict.Switch? && log[1..][i].verdict.id == id;
      assert log[i + 1].verdict.id == id;
    }
  }

  lemma {:induction false} SwitchIdsDiffer(log: seq<Record>, gap: nat, t: nat)
    requires Apart(log, gap) && forall r | r in log :: t <= r.at < t + gap
    ensures Text.NoDuplicates(SwitchIds(log))
    decreases |log|
  {
    if log != [] {
      SwitchIdsDiffer(log[1..], gap, t);
      if log[0].verdict.Switch? && log[0].verdict.id in SwitchIds(log[1..]) {
        SwitchIdSource(log[1..], log[0].verdict.id);
        assert false;
      }
    }
  }

  lemma {:induction false} DistinctWithin(s: seq<string>, ids: set<string>)
    requires Text.NoDuplicates(s) && forall x | x in s :: x in ids
    ensures |s| <= |ids|
    decreases |s|
  {
    if s != [] {
      forall x | x in s[1..] ensures x in ids - {s[0]} { assert x in s; }
      DistinctWithin(s[1..], ids - {s[0]});
    }
  }

  /** In any stretch of a run shorter than the guard time there are at most as many
      switches as routes. */
  lemma FewSwitches(cfg: Config, eng: nat, events: seq<Event>, i: nat, j: nat, t: nat, routes: set<string>)
    requires Ordered(events) && eng <= 2 * cfg.cooldownMs
    requires i <= j <= |Records(Fresh(cfg), eng, events)|
    requires forall r | r in Records(Fresh(cfg), eng, events)[i..j] ::
               t <= r.at < t + Min(cfg.cooldownMs, eng) && (r.verdict.Switch? ==> r.verdict.id in routes)
    ensures |SwitchIds(Records(Fresh(cfg), eng, events)[i..j])| <= |routes|
  {
    var log, gap := Records(Fresh(cfg), eng, events), Min(cfg.cooldownMs, eng);
    RunKeepsApart(Fresh(cfg), eng, events, gap);
    assert Apart(log[i..j], gap);
    SwitchIdsDiffer(log[i..j], gap, t);
    forall id | id in SwitchIds(log[i..j]) ensures id in routes {
      SwitchIdSource(log[i..j], id);
      var n :| 0 <= n < |log[i..j]| && log[i..j][n].verdict.Switch? && log[i..j][n].verdict.id == id;
      assert log[i..j][n] in log[i..j];
    }
    DistinctWithin(SwitchIds(log[i..j]), routes);
  }

  // ---------------------------------------------------------------------
  // Sustained degradation

  // From evaluation i up to n, every evaluation that was not blocked saw a degraded
  // route, and none before n switched.
  ghost predicate Regime(log: seq<Record>, i: int, n: int) {
    && 0 <= i <= n < |log| && !log[i].banned
    && (forall j | i <= j <= n && !log[j].banned :: log[j].degraded)
    && (forall j | i <= j < n :: !log[j].verdict.Switch?)
  }

  ghost predicate Open(log: seq<Record>, i: int) {
    log != [] && Regime(log, i, |log| - 1) && !log[|log| - 1].verdict.Switch?
  }

  // The decider's clock is the start of the earliest regime still open.
  ghost predicate Tracks(since: Option<nat>, log: seq<Record>) {
    match since
    case None => forall i | 0 <= i < |log| :: !Open(log, i)
    case Some(s) => (exists i | 0 <= i < |log| :: Open(log, i) && log[i].at == s)
                    && (forall i | 0 <= i < |log| :: Open(log, i) ==> log[i].at >= s)
  }

  lemma OpenSnoc(log: seq<Record>, r: Record, i: int)
    requires 0 <= i < |log| + 1
    ensures Open(log + [r], i) <==>
              !r.verdict.Switch? && (r.banned || r.degraded)
              && (if i < |log| then Open(log, i) else !r.banned)
  {
    var log' := log + [r];
    if i < |log| {
      assert log'[i] == log[i];
      if Open(log', i) {
        forall j | i <= j < |log| ensures log'[j] == log[j] {}
        assert !log'[|log| - 1].verdict.Switch?;
      }
    }
  }

  lemma {:induction false} DeciderTracks(cfg: Config, eng: nat, events: seq<Event>)
    requires Ordered(events)
    ensures Tracks(After(Fresh(cfg), eng, events).degradedSince, Records(Fresh(cfg), eng, events))
    ensures forall r | r in Records(Fresh(cfg), eng, events) :: r.at <= ClockOf(events)
    ensures After(Fresh(cfg), eng, events).cfg == cfg
    decreases |events|
  {
    if events != [] {
      var n := |events| - 1;
      var init, e := events[..n], events[n];
      DeciderTracks(cfg, eng, init);
      if e.Consult? {
        forall i | 0 <= i < |init| ensures NoLaterThan(init[i], e.at) { assert init[i] == events[i]; }
        ClockBound(init, e.at);
        TrackOne(After(Fresh(cfg), eng, init), eng, e.candidate, e.at, Records(Fresh(cfg), eng, init));
      } else {
        assert Records(Fresh(cfg), eng, events) == Records(Fresh(cfg), eng, init);
      }
    }
  }

  lemma TrackOne(d: Decider, eng: nat, candidate: RouteCandidate, now: nat, log: seq<Record>)
    requires Tracks(d.degradedSince, log) && forall r | r in log :: r.at <= now
    ensures Tracks(Consulted(d, eng, candidate, now).degradedSince, log + [RecordOf(d, candidate, now)])
  {
    var r := RecordOf(d, candidate, now);
    var log' := log + [r];
    forall i | 0 <= i < |log'|
      ensures Open(log', i) <==>
                !r.verdict.Switch? && (r.banned || r.degraded)
                && (if i < |log| then Open(log, i) else !r.banned)
    {
      OpenSnoc(log, r, i);
    }
    if d.degradedSince.Some? {
      var i :| 0 <= i < |log| && Open(log, i) && log[i].at == d.degradedSince.value;
      assert log'[i] == log[i] && log[i] in log;
    }
    assert log'[|log|] == r;
  }

  lemma {:induction false} RecordAt(cfg: Config, eng: nat, events: seq<Event>, n: nat) returns (k: nat)
    requires n < |Records(Fresh(cfg), eng, events)|
    ensures k < |events| && events[k].Consult?
    ensures Records(Fresh(cfg), eng, events[..k]) == Records(Fresh(cfg), eng, events)[..n]
    ensures Records(Fresh(cfg), eng, events)[n]
            == RecordOf(After(Fresh(cfg), eng, events[..k]), events[k].candidate, events[k].at)
    decreases |events|
  {
    var m := |events| - 1;
    var init := events[..m];
    if n < |Records(Fresh(cfg), eng, init)| {
      k := RecordAt(cfg, eng, init, n);
      assert init[..k] == events[..k];
    } else {
      k := m;
    }
  }

  // How many of loss, jitter and latency are past their limits.
  function BadCounts(m: Metrics): nat {
    (if m.loss < 0.03 then 0 else 1) + (if m.jitter < 20.0 then 0 else 1) + if m.latency < 200.0 then 0 else 1
  }

  lemma FallingIff(m: Metrics)
    ensures Falling(m) <==> BadCounts(m) >= 2
  {
  }

  // The candidate is bad on one count at most, and faster by the configured share and margin than what
  // is known; nothing known counts as all of it.
  predicate WinsOnLatency(r: Record, cfg: Config) {
    && BadCounts(r.candidate.metrics) <= 1
    && match r.known
       case None => cfg.minImprovementPercent <= 1.0
       case Some(cur) =>
         var gain := cur.latency - r.candidate.metrics.latency;
         gain > 0.0 && gain >= cfg.minImprovementMs && gain >= cfg.minImprovementPercent * cur.latency
  }

  lemma WinsIff(d: Decider, candidate: RouteCandidate, now: nat)
    ensures WinsOnLatency(RecordOf(d, candidate, now), d.cfg)
            <==> LatencyImproves(d.current, candidate.metrics, d.cfg) && !Falling(candidate.metrics)
  {
    FallingIff(candidate.metrics);
    if d.current.Some? && d.current.value.latency > 0.0 {
      var whole := d.current.value.latency;
      var part := whole - candidate.metrics.latency;
      assert part / whole * whole == part;
      PercentOfShare(part / whole, whole, d.cfg.minImprovementPercent);
    }
  }

  ghost predicate LongRegime(log: seq<Record>, n: nat, duration: nat) {
    exists i :: Regime(log, i, n) && log[i].at + duration <= log[n].at
  }

  /** An evaluation answers with a degradation switch exactly when it was neither blocked nor
      won on latency, and a regime of degraded evaluations has lasted the required time. */
  lemma DegradedSwitchIff(cfg: Config, eng: nat, events: seq<Event>, n: nat)
    requires Ordered(events) && n < |Records(Fresh(cfg), eng, events)|
    ensures var log := Records(Fresh(cfg), eng, events);
            log[n].verdict == Switch(log[n].candidate.id, CurrentRouteDegraded)
            <==> !log[n].banned && !WinsOnLatency(log[n], cfg) && LongRegime(log, n, cfg.minDegradationMs)
  {
    var log := Records(Fresh(cfg), eng, events);
    var k := RecordAt(cfg, eng, events, n);
    var init := events[..k];
    DeciderTracks(cfg, eng, init);
    forall i | 0 <= i < |init| ensures NoLaterThan(init[i], events[k].at) { assert init[i] == events[i]; }
    ClockBound(init, events[k].at);
    var d := After(Fresh(cfg), eng, init);
    RegimeMeetsClock(d, log[..n], log[n]);
    RegimePrefix(log, n, cfg.minDegradationMs);
  }

  lemma RegimePrefix(log: seq<Record>, n: nat, duration: nat)
    requires n < |log|
    ensures LongRegime(log, n, duration) <==> LongRegime(log[..n] + [log[n]], n, duration)
  {
    var short := log[..n] + [log[n]];
    assert forall j | 0 <= j <= n :: short[j] == log[j];
    forall i ensures Regime(log, i, n) <==> Regime(short, i, n) {}
    if LongRegime(log, n, duration) {
      var i :| Regime(log, i, n) && log[i].at + duration <= log[n].at;
      assert Regime(short, i, n);
    }
    if LongRegime(short, n, duration) {
      var i :| Regime(short, i, n) && short[i].at + duration <= short[n].at;
      assert Regime(log, i, n);
    }
  }

  // A regime goes on to one more evaluation exactly if it was open and this one fits.
  lemma RegimeExtends(log: seq<Record>, r: Record, i: int)
    requires 0 <= i < |log|
    ensures Regime(log + [r], i, |log|) <==> Open(log, i) && (r.banned || r.degraded)
  {
    var n, log' := |log|, log + [r];
    assert forall j | 0 <= j < n :: log'[j] == log[j];
    assert log'[n] == r;
    if Open(log, i) { assert forall j | i <= j < n :: !log[j].verdict.Switch?; }
  }

  lemma RegimeMeetsClock(d: Decider, log: seq<Record>, r: Record)
    requires Tracks(d.degradedSince, log) && r == RecordOf(d, r.candidate, r.at)
    requires forall x | x in log :: x.at <= r.at
    ensures r.verdict == Switch(r.candidate.id, CurrentRouteDegraded)
            <==> !r.banned && !WinsOnLatency(r, d.cfg) && LongRegime(log + [r], |log|, d.cfg.minDegradationMs)
  {
    WinsIff(d, r.candidate, r.at);
    var n, log' := |log|, log + [r];
    forall i | 0 <= i < n
      ensures Regime(log', i, n) <==> Open(log, i) && (r.banned || r.degraded)
      ensures log'[i] == log[i] && log[i].at <= r.at
    {
      RegimeExtends(log, r, i);
      assert log[i] in log;
    }
    assert log'[n] == r && (Regime(log', n, n) <==> !r.banned && r.degraded);
    if d.degradedSince.Some? {
      var i :| 0 <= i < n && Open(log, i) && log[i].at == d.degradedSince.value;
      assert Regime(log', i, n) <==> r.banned || r.degraded;
    }
    if LongRegime(log', n, d.cfg.minDegradationMs) {
      var i :| Regime(log', i, n) && log'[i].at + d.cfg.minDegradationMs <= log'[n].at;
      assert i < n ==> Open(log, i);
    }
  }

  // ---------------------------------------------------------------------
  // Evidence

  // 5 ms and 10 percent off the latency, towards a route that is bad on one count at most.
  predicate LatencyGain(cur: Metrics, m: Metrics) {
    cur.latency - m.latency >= 5.0 && cur.latency - m.latency >= 0.1 * cur.latency && BadCounts(m) <= 1
  }

  // 4 ms off the jitter together with half a percent off the loss.
  predicate JitterLossGain(cur: Metrics, m: Metrics) {
    cur.jitter - m.jitter >= 4.0 && cur.loss - m.loss >= 0.005
  }

  // A gain of the candidate over what is known of the current route.
  predicate Gains(r: Record) {
    r.known.Some?
        && (LatencyGain(r.known.value, r.candidate.metrics) || JitterLossGain(r.known.value, r.candidate.metrics))
  }

  lemma PercentOfShare(q: real, whole: real, share: real)
    requires whole > 0.0
    ensures q >= share <==> q * whole >= share * whole
  {
    if q >= share { Scale(q, share, whole); }
    if q < share { assert (share - q) * whole > 0.0; }
  }

  lemma PercentOf(whole: real, part: real)
    requires whole > 0.0
    ensures part / whole >= 0.10 <==> part >= 0.1 * whole
  {
    var q := part / whole;
    assert q * whole == part;
    PercentOfShare(q, whole, 0.10);
  }

  lemma Scale(x: real, y: real, k: real)
    requires x >= y && k >= 0.0
    ensures x * k >= y * k
  {
  }

  lemma WinsByGain(cur: Metrics, m: Metrics, cooldownMs: nat)
    ensures LatencyImproves(Some(cur), m, DEFAULT.(cooldownMs := cooldownMs)) && !Falling(m) <==> LatencyGain(cur, m)
  {
    FallingIff(m);
    if cur.latency > 0.0 { PercentOf(cur.latency, cur.latency - m.latency); }
  }

  /** Under the default thresholds an evaluation that is not held by a ban switches exactly when the
      candidate gains on what is known of the current route, or that was degraded for five seconds,
      or nothing is known of it. */
  lemma SwitchIff(eng: nat, events: seq<Event>, n: nat)
    requires Ordered(events) && n < |Records(Fresh(DEFAULT), eng, events)|
    ensures var log := Records(Fresh(DEFAULT), eng, events);
            log[n].verdict.Switch?
            <==> !log[n].banned && (log[n].known.None? || Gains(log[n]) || LongRegime(log, n, 5_000))
  {
    var log := Records(Fresh(DEFAULT), eng, events);
    var k := RecordAt(DEFAULT, eng, events, n);
    DeciderTracks(DEFAULT, eng, events[..k]);
    if log[n].known.Some? {
      WinsByGain(log[n].known.value, log[n].candidate.metrics, 15_000);
      DegradedSwitchIff(DEFAULT, eng, events, n);
    }
  }

  // The metrics of the current route the decider took in last: given to it, or of a route it took.
  function Heard(d: Decider, eng: nat, events: seq<Event>): Option<Metrics> {
    if events == [] then d.current else
      var init := events[..|events| - 1];
      match events[|events| - 1]
      case Refresh(m) => Some(m)
      case Consult(candidate, now) =>
        if VerdictOf(After(d, eng, init), candidate, now).Switch? then Some(candidate.metrics) else Heard(d, eng, init)
      case Prune(_) => Heard(d, eng, init)
  }

  ghost predicate Switched(log: seq<Record>) { exists r | r in log :: r.verdict.Switch? }

  ghost predicate Refreshed(events: seq<Event>) { exists e | e in events :: e.Refresh? }

  /** What the decider knows of the current route is what it took in last, so nothing exactly
      until metrics were given to it or it switched. */
  lemma {:induction false} KnownIffHeard(cfg: Config, eng: nat, events: seq<Event>)
    ensures After(Fresh(cfg), eng, events).current == Heard(Fresh(cfg), eng, events)
    ensures Heard(Fresh(cfg), eng, events).Some? <==> Refreshed(events) || Switched(Records(Fresh(cfg), eng, events))
    decreases |events|
  {
    if events != [] {
      var n := |events| - 1;
      KnownIffHeard(cfg, eng, events[..n]);
      assert events == events[..n] + [events[n]];
    }
  }

  // A decider whose candidates have names has no bans before its first switch.
  lemma {:induction false} NamedIffSwitched(cfg: Config, eng: nat, events: seq<Event>)
    requires forall e | e in events && e.Consult? :: e.candidate.id != ""
    ensures var d := After(Fresh(cfg), eng, events);
            && d.cfg == cfg
            && (d.currentId != "" <==> Switched(Records(Fresh(cfg), eng, events)))
            && (d.currentId == "" ==> d.bans == [])
    decreases |events|
  {
    if events != [] {
      var n := |events| - 1;
      assert events == events[..n] + [events[n]];
      NamedIffSwitched(cfg, eng, events[..n]);
    }
  }

  // ---------------------------------------------------------------------
  // Leaving a route

  lemma AdvancedDistinct(d: Decider, eng: nat, e: Event)
    requires DistinctBans(d.bans)
    ensures DistinctBans(Advanced(d, eng, e).bans)
  {
    match e
    case Consult(candidate, now) =>
      var c := d.cfg.cooldownMs;
      ImposedExactly(d.bans, c, d.currentId, now + c, "", 0);
      ImposedExactly(Moved(d, candidate, now).bans, c, candidate.id, now + eng, "", 0);
    case Refresh(_) =>
    case Prune(now) => LaterExactly(d.bans, now);
  }

  lemma {:induction false} BansDistinct(cfg: Config, eng: nat, events: seq<Event>)
    ensures DistinctBans(After(Fresh(cfg), eng, events).bans)
    decreases |events|
  {
    if events != [] {
      var n := |events| - 1;
      BansDistinct(cfg, eng, events[..n]);
      AdvancedDistinct(After(Fresh(cfg), eng, events[..n]), eng, events[n]);
    }
  }

  // A switch bans the route left for the whole cooldown, if the decider knew it and the engine's
  // own ban, imposed next, does not prune that ban at once.
  lemma LeftIsBannedIff(d: Decider, eng: nat, candidate: RouteCandidate, now: nat, left: string, t: nat)
    requires DistinctBans(d.bans) && VerdictOf(d, candidate, now).Switch? && left != candidate.id && left != ""
    requires t < now + d.cfg.cooldownMs
    requires d.currentId == left || (d.currentId == "" && d.bans == [])
    ensures Banned(Consulted(d, eng, candidate, now).bans, left, t)
            <==> d.currentId == left && eng < 3 * d.cfg.cooldownMs
  {
    var c, moved := d.cfg.cooldownMs, Moved(d, candidate, now).bans;
    var later := Max(t, Since(now + eng, c * 2));
    ImposedExactly(d.bans, c, left, now + c, left, later);
    ImposedExactly(moved, c, candidate.id, now + eng, left, t);
  }

  // ---------------------------------------------------------------------
  // No early return

  // The switch leaves a route the decider knew.
  predicate Leaves(r: Record) { r.verdict.Switch? && r.left != "" && r.left != r.verdict.id }

  predicate SwitchesTo(r: Record, id: string) { r.verdict.Switch? && r.verdict.id == id }

  ghost predicate StaysAway(log: seq<Record>, gap: nat) {
    forall i, j | 0 <= i < j < |log| && Leaves(log[i]) && SwitchesTo(log[j], log[i].left) ::
        log[j].at >= log[i].at + gap
  }

  // The route left is banned for what remains of the cooldown.
  ghost predicate Held(bans: seq<Ban>, r: Record, c: nat, now: nat) {
    Leaves(r) ==> forall t: nat | now <= t < r.at + c :: Banned(bans, r.left, t)
  }

  ghost predicate AllHeld(bans: seq<Ban>, log: seq<Record>, c: nat, now: nat) {
    DistinctBans(bans) && forall r | r in log :: r.at <= now && Held(bans, r, c, now)
  }

  lemma ImposedHolds(bans: seq<Ban>, c: nat, id: string, until: nat, r: Record, now: nat)
    requires DistinctBans(bans) && Held(bans, r, c, now) && until <= now + 2 * c
    requires Leaves(r) && r.left == id ==> r.at + c <= Max(now, until)
    ensures Held(Imposed(bans, c, id, until), r, c, now)
  {
    if Leaves(r) {
      forall t: nat | now <= t < r.at + c ensures Banned(Imposed(bans, c, id, until), r.left, t) {
        ImposedExactly(bans, c, id, until, r.left, t);
      }
    }
  }

  lemma ImposedHoldsAll(bans: seq<Ban>, c: nat, id: string, until: nat, log: seq<Record>, now: nat)
    requires AllHeld(bans, log, c, now) && until <= now + 2 * c
    requires forall r | r in log && Leaves(r) && r.left == id :: r.at + c <= Max(now, until)
    ensures AllHeld(Imposed(bans, c, id, until), log, c, now)
  {
    ImposedExactly(bans, c, id, until, "", 0);
    forall r | r in log ensures Held(Imposed(bans, c, id, until), r, c, now) {
      ImposedHolds(bans, c, id, until, r, now);
    }
  }

  // A switch comes only once the bans on its route are over.
  lemma SwitchIsLate(d: Decider, candidate: RouteCandidate, now: nat, log: seq<Record>)
    requires AllHeld(d.bans, log, d.cfg.cooldownMs, now) && VerdictOf(d, candidate, now).Switch?
    ensures forall r | r in log && Leaves(r) && r.left == candidate.id :: r.at + d.cfg.cooldownMs <= now
  {
    forall r | r in log && Leaves(r) && r.left == candidate.id ensures r.at + d.cfg.cooldownMs <= now {
      assert Held(d.bans, r, d.cfg.cooldownMs, now);
    }
  }

  lemma SwitchHoldsAll(d: Decider, eng: nat, candidate: RouteCandidate, now: nat, log: seq<Record>)
    requires eng <= 2 * d.cfg.cooldownMs && AllHeld(d.bans, log, d.cfg.cooldownMs, now)
    requires VerdictOf(d, candidate, now).Switch?
    ensures AllHeld(Consulted(d, eng, candidate, now).bans, log + [RecordOf(d, candidate, now)], d.cfg.cooldownMs, now)
  {
    var c, moved, rec := d.cfg.cooldownMs, Moved(d, candidate, now).bans, RecordOf(d, candidate, now);
    var bans := Consulted(d, eng, candidate, now).bans;
    SwitchIsLate(d, candidate, now, log);
    if moved != d.bans { ImposedHoldsAll(d.bans, c, d.currentId, now + c, log, now); }
    ImposedHoldsAll(moved, c, candidate.id, now + eng, log, now);
    if Leaves(rec) {
      forall t: nat | now <= t < now + c ensures Banned(bans, d.currentId, t) {
        ImposedExactly(d.bans, c, d.currentId, now + c, d.currentId, t);
        ImposedExactly(moved, c, candidate.id, now + eng, d.currentId, t);
      }
    }
  }

  lemma StaysAwaySnoc(log: seq<Record>, r: Record, gap: nat)
    requires StaysAway(log, gap)
    requires forall x | x in log && Leaves(x) && SwitchesTo(r, x.left) :: r.at >= x.at + gap
    ensures StaysAway(log + [r], gap)
  {
  }

  lemma ConsultStaysAway(d: Decider, eng: nat, candidate: RouteCandidate, now: nat, log: seq<Record>)
    requires eng <= 2 * d.cfg.cooldownMs && AllHeld(d.bans, log, d.cfg.cooldownMs, now)
    requires StaysAway(log, d.cfg.cooldownMs)
    ensures AllHeld(Consulted(d, eng, candidate, now).bans, log + [RecordOf(d, candidate, now)], d.cfg.cooldownMs, now)
    ensures StaysAway(log + [RecordOf(d, candidate, now)], d.cfg.cooldownMs)
  {
    if VerdictOf(d, candidate, now).Switch? {
      SwitchIsLate(d, candidate, now, log);
      SwitchHoldsAll(d, eng, candidate, now, log);
    }
    StaysAwaySnoc(log, RecordOf(d, candidate, now), d.cfg.cooldownMs);
  }

  lemma HeldLater(bans: seq<Ban>, log: seq<Record>, c: nat, now: nat, now': nat)
    requires AllHeld(bans, log, c, now) && now <= now'
    ensures AllHeld(bans, log, c, now')
  {
    forall r | r in log ensures r.at <= now' && Held(bans, r, c, now') { assert Held(bans, r, c, now); }
  }

  lemma PruneHolds(bans: seq<Ban>, log: seq<Record>, c: nat, now: nat)
    requires AllHeld(bans, log, c, now)
    ensures AllHeld(Later(bans, now), log, c, now)
  {
    LaterExactly(bans, now);
    forall r | r in log && Leaves(r) ensures Held(Later(bans, now), r, c, now) {
      assert Held(bans, r, c, now);
      forall t: nat | now <= t < r.at + c ensures Banned(Later(bans, now), r.left, t) {
        BannedIff(bans, r.left, t);
        BannedIff(Later(bans, now), r.left, t);
      }
    }
  }

  /** On an ordered clock, with an engine cooldown of at most twice the decider's, a switch to a route
      comes at least the decider's cooldown after every switch that left it while it was known. */
  lemma {:induction false} RunStaysAway(cfg: Config, eng: nat, events: seq<Event>)
    requires Ordered(events) && eng <= 2 * cfg.cooldownMs
    ensures After(Fresh(cfg), eng, events).cfg == cfg
    ensures AllHeld(After(Fresh(cfg), eng, events).bans, Records(Fresh(cfg), eng, events),
                    cfg.cooldownMs, ClockOf(events))
    ensures StaysAway(Records(Fresh(cfg), eng, events), cfg.cooldownMs)
    decreases |events|
  {
    if events != [] {
      var n := |events| - 1;
      var init, e := events[..n], events[n];
      RunStaysAway(cfg, eng, init);
      var d, log := After(Fresh(cfg), eng, init), Records(Fresh(cfg), eng, init);
      if !e.Refresh? {
        forall i | 0 <= i < |init| ensures NoLaterThan(init[i], e.at) { assert init[i] == events[i]; }
        ClockBound(init, e.at);
        HeldLater(d.bans, log, cfg.cooldownMs, ClockOf(init), e.at);
      }
      match e
      case Consult(candidate, now) => ConsultStaysAway(d, eng, candidate, now, log);
      case Refresh(_) =>
      case Prune(now) => PruneHolds(d.bans, log, cfg.cooldownMs, now);
    }
  }

  ghost predicate NeverReturns(cfg: Config, engineCooldown: nat, gap: nat) {
    forall events | Ordered(events) :: StaysAway(Records(Fresh(cfg), engineCooldown, events), gap)
  }

  /** With the default evidence thresholds the block on a known route that was left holds for the
      decider's whole cooldown, in all runs, exactly when the engine's cooldown is at most twice that. */
  lemma BlockHoldsIff(c: nat, eng: nat)
    requires c >= 1
    ensures NeverReturns(DEFAULT.(cooldownMs := c), eng, c) <==> eng <= 2 * c
  {
    var cfg := DEFAULT.(cooldownMs := c);
    if eng <= 2 * c {
      forall events | Ordered(events) ensures StaysAway(Records(Fresh(cfg), eng, events), c) {
        RunStaysAway(cfg, eng, events);
      }
    } else {
      var events := EarlyReturn(c, eng);
    }
  }
}
