/** The route decider (crates/radin-core/src/hysteresis.rs): when a candidate may
    replace the current route. */
module Hysteresis {
  import opened Common
  import opened Model

  datatype Config = Config(
    minImprovementPercent: real, minImprovementMs: real, minDegradationMs: nat,
    cooldownMs: nat, minJitterMs: real, minLoss: real)

  const DEFAULT := Config(0.10, 5.0, 5_000, 15_000, 4.0, 0.005)

  datatype Reason = SustainedImprovement | CurrentRouteDegraded

  datatype Verdict = Keep | Switch(id: string, reason: Reason) | NotYet(id: string)

  datatype Ban = Ban(id: string, until: nat)

  // The initial snapshot, whose metrics are all at the largest float, is None.
  datatype Decider = Decider(
    cfg: Config, currentId: string, bans: seq<Ban>, degradedSince: Option<nat>, current: Option<Metrics>)

  function Fresh(cfg: Config): Decider { Decider(cfg, "", [], None, None) }

  // ---------------------------------------------------------------------
  // Evidence

  // Against the initial snapshot the improvement is the whole latency, 100%.
  predicate LatencyImproves(current: Option<Metrics>, candidate: Metrics, cfg: Config) {
    if current.None? then 1.0 >= cfg.minImprovementPercent
    else
      var cur := current.value.latency;
      && candidate.latency < cur
      && (cur == 0.0 || (cur - candidate.latency) / cur >= cfg.minImprovementPercent)
      && cur - candidate.latency >= cfg.minImprovementMs
  }

  predicate Degraded(current: Option<Metrics>) {
    current.None? || current.value.loss >= 0.03 || current.value.jitter >= 20.0 || current.value.latency >= 200.0
  }

  predicate Falling(m: Metrics) {
    var lossBad, jitterBad, latencyBad := m.loss >= 0.03, m.jitter >= 20.0, m.latency >= 200.0;
    (lossBad && jitterBad) || (lossBad && latencyBad) || (latencyBad && jitterBad)
  }

  predicate JitterAndLossImprove(current: Option<Metrics>, candidate: Metrics, cfg: Config) {
    current.None? || (current.value.jitter - candidate.jitter >= cfg.minJitterMs
                      && current.value.loss - candidate.loss >= cfg.minLoss)
  }

  // ---------------------------------------------------------------------
  // Bans

  predicate Banned(bans: seq<Ban>, id: string, now: nat) {
    exists i | 0 <= i < |bans| :: bans[i].id == id && now < bans[i].until
  }

  function Later(bans: seq<Ban>, threshold: nat): seq<Ban> {
    if bans == [] then []
    else (if bans[0].until > threshold then [bans[0]] else []) + Later(bans[1..], threshold)
  }

  function WithBan(bans: seq<Ban>, id: string, until: nat): seq<Ban> {
    if bans == [] then [Ban(id, until)]
    else if bans[0].id == id then [Ban(id, until)] + bans[1..]
    else [bans[0]] + WithBan(bans[1..], id, until)
  }

  // The pruning threshold is derived from the new ban's end, not from the clock.
  function Imposed(bans: seq<Ban>, cooldownMs: nat, id: string, until: nat): seq<Ban> {
    WithBan(Later(bans, Since(until, cooldownMs * 2)), id, until)
  }

  lemma {:induction false} WithBanAt(bans: seq<Ban>, id: string, until: nat, i: nat)
    requires i <= |bans| && (i < |bans| ==> bans[i].id == id)
    requires forall j | 0 <= j < i :: bans[j].id != id
    ensures WithBan(bans, id, until) == if i < |bans| then bans[i := Ban(id, until)] else bans + [Ban(id, until)]
    decreases |bans|
  {
    if i > 0 {
      WithBanAt(bans[1..], id, until, i - 1);
      assert bans == [bans[0]] + bans[1..];
    }
  }

  // ---------------------------------------------------------------------
  // Steps

  function Moved(d: Decider, candidate: RouteCandidate, now: nat): Decider {
    d.(bans := if d.currentId != "" && d.currentId != candidate.id
               then Imposed(d.bans, d.cfg.cooldownMs, d.currentId, now + d.cfg.cooldownMs) else d.bans,
       currentId := candidate.id, current := Some(candidate.metrics), degradedSince := None)
  }

  function RegimeStart(d: Decider, now: nat): Option<nat> {
    if !Degraded(d.current) then None
    else if d.degradedSince.Some? then d.degradedSince
    else Some(now)
  }

  function VerdictOf(d: Decider, candidate: RouteCandidate, now: nat): Verdict {
    var since := RegimeStart(d, now);
    if Banned(d.bans, candidate.id, now) then NotYet(candidate.id)
    else if LatencyImproves(d.current, candidate.metrics, d.cfg) && !Falling(candidate.metrics)
    then Switch(candidate.id, SustainedImprovement)
    else if since.Some? && Since(now, since.value) >= d.cfg.minDegradationMs
    then Switch(candidate.id, CurrentRouteDegraded)
    else if JitterAndLossImprove(d.current, candidate.metrics, d.cfg)
    then Switch(candidate.id, SustainedImprovement)
    else Keep
  }

  function Evaluated(d: Decider, candidate: RouteCandidate, now: nat): Decider {
    match VerdictOf(d, candidate, now)
    case NotYet(_) => d
    case Keep => d.(degradedSince := RegimeStart(d, now))
    case Switch(_, _) => Moved(d, candidate, now)
  }

  class RouteDecider {
    const cfg: Config
    var currentId: string
    var bans: seq<Ban>
    var degradedSince: Option<nat>
    var current: Option<Metrics>

    ghost function View(): Decider
      reads this
    {
      Decider(cfg, currentId, bans, degradedSince, current)
    }

    constructor (cfg: Config)
      ensures View() == Fresh(cfg)
    {
      this.cfg, currentId, bans, degradedSince, current := cfg, "", [], None, None;
    }

    method Evaluate(candidate: RouteCandidate, now: nat) returns (v: Verdict)
      modifies this
      ensures v == VerdictOf(old(View()), candidate, now)
      ensures View() == Evaluated(old(View()), candidate, now)
    {
      var i, blocked := 0, false;
      while i < |bans| && !blocked
        invariant 0 <= i <= |bans|
        invariant blocked ==> Banned(bans, candidate.id, now)
        invariant !blocked ==> forall j | 0 <= j < i :: !(bans[j].id == candidate.id && now < bans[j].until)
        decreases |bans| - i, !blocked
      {
        blocked := bans[i].id == candidate.id && now < bans[i].until;
        i := i + 1;
      }
      if blocked { return NotYet(candidate.id); }
      if Degraded(current) {
        if degradedSince.None? { degradedSince := Some(now); }
      } else {
        degradedSince := None;
      }
      var longEnough := degradedSince.Some? && Since(now, degradedSince.value) >= cfg.minDegradationMs;
      if LatencyImproves(current, candidate.metrics, cfg) && !Falling(candidate.metrics) {
        v := SwitchTo(candidate, SustainedImprovement, now);
      } else if longEnough {
        v := SwitchTo(candidate, CurrentRouteDegraded, now);
      } else if JitterAndLossImprove(current, candidate.metrics, cfg) {
        v := SwitchTo(candidate, SustainedImprovement, now);
      } else {
        v := Keep;
      }
    }

    method SwitchTo(candidate: RouteCandidate, reason: Reason, now: nat) returns (v: Verdict)
      modifies this
      ensures v == Switch(candidate.id, reason)
      ensures View() == Moved(old(View()), candidate, now)
    {
      var left := currentId;
      currentId := "";
      if left != "" && left != candidate.id {
        ApplyCooldown(left, now + cfg.cooldownMs);
      }
      currentId := candidate.id;
      current := Some(candidate.metrics);
      degradedSince := None;
      v := Switch(candidate.id, reason);
    }

    method ApplyCooldown(id: string, until: nat)
      modifies this`bans
      ensures bans == Imposed(old(bans), cfg.cooldownMs, id, until)
    {
      PruneCooldowns(Since(until, cfg.cooldownMs * 2));
      var i := 0;
      while i < |bans| && bans[i].id != id
        invariant 0 <= i <= |bans|
        invariant forall j | 0 <= j < i :: bans[j].id != id
      {
        i := i + 1;
      }
      WithBanAt(bans, id, until, i);
      if i < |bans| {
        bans := bans[i := Ban(id, until)];
      } else {
        bans := bans + [Ban(id, until)];
      }
    }

    // `retain`: drop the bans that end at or before now.
    method PruneCooldowns(now: nat)
      modifies this`bans
      ensures bans == Later(old(bans), now)
    {
      var kept := [];
      for i := 0 to |bans|
        invariant bans == old(bans)
        invariant Later(bans, now) == kept + Later(bans[i..], now)
      {
        var here := if bans[i].until > now then [bans[i]] else [];
        assert bans[i..][1..] == bans[i + 1..];
        assert Later(bans[i..], now) == here + Later(bans[i + 1..], now);
        Regroup(kept, here, Later(bans[i + 1..], now));
        kept := kept + here;
      }
      assert bans[|bans|..] == [];
      bans := kept;
    }

    method UpdateCurrentMetrics(metrics: Metrics)
      modifies this`current
      ensures current == Some(metrics)
    {
      current := Some(metrics);
    }
  }

  // ---------------------------------------------------------------------
  // Runs, as the engine drives the decider

  datatype Event = Consult(candidate: RouteCandidate, at: nat) | Refresh(metrics: Metrics) | Prune(at: nat)

  // One evaluation: the route the decider thought current, what was asked, what was known of the
  // current route, whether a ban held and the current route looked degraded, and the answer.
  datatype Record = Record(
    at: nat, left: string, candidate: RouteCandidate, known: Option<Metrics>,
    banned: bool, degraded: bool, verdict: Verdict)

  // After a switch the engine also bans the route it switched to, with its own cooldown.
  function Consulted(d: Decider, engineCooldown: nat, candidate: RouteCandidate, now: nat): Decider {
    var d' := Evaluated(d, candidate, now);
    if VerdictOf(d, candidate, now).Switch?
    then d'.(bans := Imposed(d'.bans, d'.cfg.cooldownMs, candidate.id, now + engineCooldown))
    else d'
  }

  function RecordOf(d: Decider, candidate: RouteCandidate, now: nat): Record {
    Record(now, d.currentId, candidate, d.current,
           Banned(d.bans, candidate.id, now), Degraded(d.current),
           VerdictOf(d, candidate, now))
  }

  function Advanced(d: Decider, engineCooldown: nat, e: Event): Decider {
    match e
    case Consult(candidate, now) => Consulted(d, engineCooldown, candidate, now)
    case Refresh(metrics) => d.(current := Some(metrics))
    case Prune(now) => d.(bans := Later(d.bans, now))
  }

  function After(d: Decider, engineCooldown: nat, events: seq<Event>): Decider {
    if events == [] then d
    else Advanced(After(d, engineCooldown, events[..|events| - 1]), engineCooldown, events[|events| - 1])
  }

  function Records(d: Decider, engineCooldown: nat, events: seq<Event>): seq<Record> {
    if events == [] then [] else
      var init := events[..|events| - 1];
      Records(d, engineCooldown, init) +
      (match events[|events| - 1]
       case Consult(candidate, now) => [RecordOf(After(d, engineCooldown, init), candidate, now)]
       case _ => [])
  }

  lemma {:induction false} RunConcat(d: Decider, eng: nat, xs: seq<Event>, ys: seq<Event>)
    ensures After(d, eng, xs + ys) == After(After(d, eng, xs), eng, ys)
    ensures Records(d, eng, xs + ys) == Records(d, eng, xs) + Records(After(d, eng, xs), eng, ys)
    decreases |ys|
  {
    if ys == [] {
      assert xs + ys == xs;
    } else {
      var n := |ys| - 1;
      assert (xs + ys)[..|xs + ys| - 1] == xs + ys[..n] && (xs + ys)[|xs + ys| - 1] == ys[n];
      RunConcat(d, eng, xs, ys[..n]);
    }
  }

  predicate NoLaterThan(e: Event, now: nat) { e.Refresh? || e.at <= now }

  // The clock never runs backwards over the events.
  ghost predicate Ordered(events: seq<Event>) {
    forall i, j | 0 <= i < j < |events| && !events[j].Refresh? :: NoLaterThan(events[i], events[j].at)
  }

  // ---------------------------------------------------------------------
  // Bounded flapping

  // A switch at r.at still holds its route back, or its guard time is over.
  predicate Guards(bans: seq<Ban>, r: Record, gap: nat, now: nat) {
    r.verdict.Switch? ==>
      r.at + gap <= now || exists i | 0 <= i < |bans| :: bans[i].id == r.verdict.id && bans[i].until >= r.at + gap
  }

  lemma {:induction false} LaterKeeps(bans: seq<Ban>, threshold: nat, i: nat)
    requires i < |bans| && bans[i].until > threshold
    ensures bans[i] in Later(bans, threshold)
    decreases |bans|
  {
    if i > 0 { LaterKeeps(bans[1..], threshold, i - 1); }
  }

  lemma {:induction false} WithBanHolds(bans: seq<Ban>, id: string, until: nat)
    ensures Ban(id, until) in WithBan(bans, id, until)
    ensures forall b | b in bans && b.id != id :: b in WithBan(bans, id, until)
    decreases |bans|
  {
    if bans != [] && bans[0].id != id { WithBanHolds(bans[1..], id, until); }
  }

  // Imposing a ban keeps every guard, provided the threshold does not pass the clock.
  lemma ImposedKeepsGuard(bans: seq<Ban>, c: nat, id: string, until: nat, r: Record, gap: nat, now: nat)
    requires Guards(bans, r, gap, now) && r.at <= now
    requires until <= now + 2 * c && now + gap <= until
    ensures Guards(Imposed(bans, c, id, until), r, gap, now)
  {
    var threshold := Since(until, c * 2);
    var kept := Later(bans, threshold);
    WithBanHolds(kept, id, until);
    if r.verdict.Switch? && now < r.at + gap {
      var i :| 0 <= i < |bans| && bans[i].id == r.verdict.id && bans[i].until >= r.at + gap;
      LaterKeeps(bans, threshold, i);
      var b := if bans[i].id == id then Ban(id, until) else bans[i];
      assert b in Imposed(bans, c, id, until);
      var k :| 0 <= k < |Imposed(bans, c, id, until)| && Imposed(bans, c, id, until)[k] == b;
    }
  }

  lemma PruneKeepsGuard(bans: seq<Ban>, r: Record, gap: nat, now: nat)
    requires Guards(bans, r, gap, now)
    ensures Guards(Later(bans, now), r, gap, now)
  {
    if r.verdict.Switch? && now < r.at + gap {
      var i :| 0 <= i < |bans| && bans[i].id == r.verdict.id && bans[i].until >= r.at + gap;
      LaterKeeps(bans, now, i);
      var k :| 0 <= k < |Later(bans, now)| && Later(bans, now)[k] == bans[i];
    }
  }

  ghost predicate Guarded(bans: seq<Ban>, log: seq<Record>, gap: nat, now: nat) {
    forall r | r in log :: r.at <= now && Guards(bans, r, gap, now)
  }

  predicate SameSwitch(r: Record, x: Record) {
    r.verdict.Switch? && x.verdict.Switch? && r.verdict.id == x.verdict.id
  }

  ghost predicate Apart(log: seq<Record>, gap: nat) {
    forall i, j | 0 <= i < j < |log| && SameSwitch(log[i], log[j]) :: log[j].at >= log[i].at + gap
  }

  lemma GuardedLater(bans: seq<Ban>, log: seq<Record>, gap: nat, now: nat, now': nat)
    requires Guarded(bans, log, gap, now) && now <= now'
    ensures Guarded(bans, log, gap, now')
  {
    forall r | r in log ensures r.at <= now' && Guards(bans, r, gap, now') {
      assert Guards(bans, r, gap, now);
    }
  }

  lemma ImposedKeepsAll(bans: seq<Ban>, c: nat, id: string, until: nat, log: seq<Record>, gap: nat, now: nat)
    requires Guarded(bans, log, gap, now)
    requires until <= now + 2 * c && now + gap <= until
    ensures Guarded(Imposed(bans, c, id, until), log, gap, now)
    ensures Ban(id, until) in Imposed(bans, c, id, until)
  {
    WithBanHolds(Later(bans, Since(until, c * 2)), id, until);
    forall r | r in log ensures Guards(Imposed(bans, c, id, until), r, gap, now) {
      ImposedKeepsGuard(bans, c, id, until, r, gap, now);
    }
  }

  lemma GuardedSnoc(bans: seq<Ban>, log: seq<Record>, r: Record, gap: nat, now: nat)
    requires Guarded(bans, log, gap, now) && r.at == now
    requires r.verdict.Switch? ==> exists b | b in bans :: b.id == r.verdict.id && b.until >= now + gap
    ensures Guarded(bans, log + [r], gap, now)
  {
    forall x | x in log + [r] ensures x.at <= now && Guards(bans, x, gap, now) {
      if x !in log && r.verdict.Switch? {
        var b :| b in bans && b.id == r.verdict.id && b.until >= now + gap;
        var k :| 0 <= k < |bans| && bans[k] == b;
      }
    }
  }

  lemma ApartSnoc(log: seq<Record>, r: Record, gap: nat)
    requires Apart(log, gap)
    requires forall x | x in log && SameSwitch(x, r) :: r.at >= x.at + gap
    ensures Apart(log + [r], gap)
  {
  }

  lemma SwitchIsApart(d: Decider, candidate: RouteCandidate, now: nat, log: seq<Record>, gap: nat)
    requires Guarded(d.bans, log, gap, now) && VerdictOf(d, candidate, now).Switch?
    ensures forall x | x in log && x.verdict.Switch? && x.verdict.id == candidate.id :: now >= x.at + gap
  {
    forall x | x in log && x.verdict.Switch? && x.verdict.id == candidate.id ensures now >= x.at + gap {
      assert Guards(d.bans, x, gap, now);
    }
  }

  lemma ConsultKeepsGuards(d: Decider, eng: nat, candidate: RouteCandidate, now: nat, log: seq<Record>, gap: nat)
    requires gap <= d.cfg.cooldownMs && gap <= eng <= 2 * d.cfg.cooldownMs
    requires Guarded(d.bans, log, gap, now)
    ensures Guarded(Consulted(d, eng, candidate, now).bans, log + [RecordOf(d, candidate, now)], gap, now)
  {
    var c := d.cfg.cooldownMs;
    if VerdictOf(d, candidate, now).Switch? {
      var moved := Moved(d, candidate, now).bans;
      if moved != d.bans { ImposedKeepsAll(d.bans, c, d.currentId, now + c, log, gap, now); }
      ImposedKeepsAll(moved, c, candidate.id, now + eng, log, gap, now);
    }
    GuardedSnoc(Consulted(d, eng, candidate, now).bans, log, RecordOf(d, candidate, now), gap, now);
  }

  /** One consultation: a switch to a route is at least the gap after every earlier switch
      to it, and every switch so far, this one included, stays guarded. */
  lemma ConsultKeepsApart(d: Decider, eng: nat, candidate: RouteCandidate, now: nat, log: seq<Record>, gap: nat)
    requires gap <= d.cfg.cooldownMs && gap <= eng <= 2 * d.cfg.cooldownMs
    requires Guarded(d.bans, log, gap, now) && Apart(log, gap)
    ensures Guarded(Consulted(d, eng, candidate, now).bans, log + [RecordOf(d, candidate, now)], gap, now)
    ensures Apart(log + [RecordOf(d, candidate, now)], gap)
  {
    ConsultKeepsGuards(d, eng, candidate, now, log, gap);
    if VerdictOf(d, candidate, now).Switch? { SwitchIsApart(d, candidate, now, log, gap); }
    ApartSnoc(log, RecordOf(d, candidate, now), gap);
  }

  function ClockOf(events: seq<Event>): nat {
    if events == [] then 0
    else Max(ClockOf(events[..|events| - 1]), if events[|events| - 1].Refresh? then 0 else events[|events| - 1].at)
  }

  lemma {:induction false} ClockBound(events: seq<Event>, now: nat)
    requires forall i | 0 <= i < |events| :: NoLaterThan(events[i], now)
    ensures ClockOf(events) <= now
    decreases |events|
  {
    if events != [] {
      assert NoLaterThan(events[|events| - 1], now);
      ClockBound(events[..|events| - 1], now);
    }
  }

  lemma {:induction false} RunKeepsApart(d: Decider, eng: nat, events: seq<Event>, gap: nat)
    requires Ordered(events)
    requires gap <= d.cfg.cooldownMs && gap <= eng <= 2 * d.cfg.cooldownMs
    ensures After(d, eng, events).cfg == d.cfg
    ensures Guarded(After(d, eng, events).bans, Records(d, eng, events), gap, ClockOf(events))
    ensures Apart(Records(d, eng, events), gap)
    decreases |events|
  {
    if events != [] {
      var n := |events| - 1;
      var init, e := events[..n], events[n];
      RunKeepsApart(d, eng, init, gap);
      var d', log := After(d, eng, init), Records(d, eng, init);
      if !e.Refresh? {
        forall i | 0 <= i < |init| ensures NoLaterThan(init[i], e.at) { assert init[i] == events[i]; }
        ClockBound(init, e.at);
        GuardedLater(d'.bans, log, gap, ClockOf(init), e.at);
      }
      match e
      case Consult(candidate, now) =>
        ConsultKeepsApart(d', eng, candidate, now, log, gap);
      case Refresh(_) =>
      case Prune(now) =>
        forall r | r in log ensures Guards(Later(d'.bans, now), r, gap, now) { PruneKeepsGuard(d'.bans, r, gap, now); }
    }
  }
}
