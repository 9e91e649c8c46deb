/** Rate-limited probing (crates/radin-core/src/probe.rs). */
module Probe {
  import opened Common
  import opened Health

  datatype ProbeKind =
    | DnsResolution
    | TcpConnect
    | UdpProbe
    | QuicHandshake
    | TunnelHealth
    | EdgeToClientRtt
    | ApplicationEndpointRtt

  function DefaultInterval(k: ProbeKind): nat {
    match k
    case DnsResolution => 30_000
    case TcpConnect => 30_000
    case UdpProbe => 20_000
    case QuicHandshake => 60_000
    case TunnelHealth => 10_000
    case EdgeToClientRtt => 5_000
    case ApplicationEndpointRtt => 60_000
  }

  datatype Budget = Budget(kind: ProbeKind, interval: nat, lastSent: Option<nat>, sent: nat)

  function FreshBudget(k: ProbeKind): Budget { Budget(k, DefaultInterval(k), None, 0) }

  predicate Allows(b: Budget, now: nat) { b.lastSent.None? || Since(now, b.lastSent.value) >= b.interval }

  // `as u64` drops the fraction.
  function Scaled(n: nat, factor: real): nat
    requires factor >= 0.0
  {
    (n as real * factor).Floor
  }

  function Tightened(b: Budget, factor: real, floorMs: nat): Budget
    requires factor >= 0.0
  {
    b.(interval := Max(Scaled(DefaultInterval(b.kind), factor), floorMs))
  }

  function Loosened(b: Budget, factor: real): Budget
    requires factor >= 0.0
  {
    b.(interval := Min(Scaled(b.interval, factor), DefaultInterval(b.kind)))
  }

  function Adapted(b: Budget, level: MonitorLevel): Budget {
    match level
    case Low => Loosened(b, 1.15)
    case Normal => Loosened(b, 1.05)
    case High => Tightened(b, 0.5, 3_000)
    case Aggressive => Tightened(b, 0.25, 1_000)
  }

  datatype Scheduler = Scheduler(budgets: seq<Budget>, enabled: bool)

  function KindAt(i: nat): ProbeKind {
    if i == 0 then DnsResolution else if i == 1 then TcpConnect else if i == 2 then UdpProbe
    else if i == 3 then QuicHandshake else if i == 4 then TunnelHealth else if i == 5 then EdgeToClientRtt
    else ApplicationEndpointRtt
  }

  // Eight budgets; the last kind appears twice, and only its first budget is ever used.
  function Initial(): Scheduler { Scheduler(seq(8, i requires 0 <= i < 8 => FreshBudget(KindAt(i))), true) }

  function Find(budgets: seq<Budget>, k: ProbeKind): (i: nat)
    ensures i <= |budgets| && (i < |budgets| ==> budgets[i].kind == k)
    ensures forall j | 0 <= j < i :: budgets[j].kind != k
  {
    if budgets == [] || budgets[0].kind == k then 0 else 1 + Find(budgets[1..], k)
  }

  predicate MaySend(s: Scheduler, k: ProbeKind, now: nat) {
    s.enabled && Find(s.budgets, k) < |s.budgets| && Allows(s.budgets[Find(s.budgets, k)], now)
  }

  function Recorded(s: Scheduler, k: ProbeKind, now: nat): Scheduler {
    var i := Find(s.budgets, k);
    if i == |s.budgets| then s
    else s.(budgets := s.budgets[i := s.budgets[i].(lastSent := Some(now), sent := s.budgets[i].sent + 1)])
  }

  function HealthApplied(s: Scheduler, level: MonitorLevel): Scheduler {
    s.(budgets := seq(|s.budgets|, i requires 0 <= i < |s.budgets| => Adapted(s.budgets[i], level)))
  }

  class ProbeScheduler {
    var budgets: seq<Budget>
    var enabled: bool

    ghost function View(): Scheduler
      reads this
    {
      Scheduler(budgets, enabled)
    }

    constructor ()
      ensures View() == Initial()
    {
      budgets, enabled := Initial().budgets, true;
    }

    method MaySendNow(k: ProbeKind, now: nat) returns (ok: bool)
      ensures ok == MaySend(View(), k, now)
    {
      if !enabled { return false; }
      var i := Find(budgets, k);
      ok := i < |budgets| && Allows(budgets[i], now);
    }

    method Record(k: ProbeKind, now: nat)
      modifies this`budgets
      ensures View() == Recorded(old(View()), k, now)
    {
      var i := Find(budgets, k);
      if i < |budgets| {
        budgets := budgets[i := budgets[i].(lastSent := Some(now), sent := budgets[i].sent + 1)];
      }
    }

    method ApplyHealth(level: MonitorLevel)
      modifies this`budgets
      ensures View() == HealthApplied(old(View()), level)
    {
      for i := 0 to |budgets|
        invariant |budgets| == |old(budgets)|
        invariant forall j | 0 <= j < |budgets| ::
                    budgets[j] == if j < i then Adapted(old(budgets)[j], level) else old(budgets)[j]
      {
        budgets := budgets[i := Adapted(budgets[i], level)];
      }
      assert budgets == HealthApplied(old(View()), level).budgets;
    }
  }

  // ---------------------------------------------------------------------
  // Runs

  datatype Event = Apply(level: MonitorLevel) | TrySend(kind: ProbeKind, at: nat)

  // A send happens only when it may.
  function Next(s: Scheduler, e: Event): Scheduler {
    match e
    case Apply(level) => HealthApplied(s, level)
    case TrySend(k, now) => if MaySend(s, k, now) then Recorded(s, k, now) else s
  }

  function After(s: Scheduler, events: seq<Event>): Scheduler {
    if events == [] then s else Next(After(s, events[..|events| - 1]), events[|events| - 1])
  }

  function Sends(s: Scheduler, events: seq<Event>, k: ProbeKind): seq<nat> {
    if events == [] then [] else
      var init, e := events[..|events| - 1], events[|events| - 1];
      Sends(s, init, k) + if e.TrySend? && e.kind == k && MaySend(After(s, init), k, e.at) then [e.at] else []
  }

  predicate InRange(b: Budget) { 1_000 <= b.interval <= DefaultInterval(b.kind) }

  lemma ScaledAtLeast(n: nat, factor: real, bound: int)
    requires factor >= 0.0 && bound as real <= n as real * factor
    ensures bound <= Scaled(n, factor)
  {
  }

  /** Every health level keeps the interval between one second and its default; a calm level
      raises it by at least 50 ms, unless it is back at the default. */
  lemma AdaptedInRange(b: Budget, level: MonitorLevel)
    requires InRange(b)
    ensures InRange(Adapted(b, level)) && Adapted(b, level).kind == b.kind
    ensures level.Low? || level.Normal? ==>
              Adapted(b, level).interval >= Min(b.interval + 50, DefaultInterval(b.kind))
  {
    match level
    case Low => ScaledAtLeast(b.interval, 1.15, b.interval + 50);
    case Normal => ScaledAtLeast(b.interval, 1.05, b.interval + 50);
    case High =>
    case Aggressive =>
  }

  function AdaptedAll(b: Budget, levels: seq<MonitorLevel>): Budget {
    if levels == [] then b else Adapted(AdaptedAll(b, levels[..|levels| - 1]), levels[|levels| - 1])
  }

  /** However tight, an interval is back at its default after enough calm observations, in any
      mixture of the two calm levels, and stays there as long as the calm lasts. */
  lemma {:induction false} CalmRestores(b: Budget, levels: seq<MonitorLevel>)
    requires InRange(b) && forall l | l in levels :: l.Low? || l.Normal?
    ensures InRange(AdaptedAll(b, levels)) && AdaptedAll(b, levels).kind == b.kind
    ensures AdaptedAll(b, levels).interval >= Min(b.interval + 50 * |levels|, DefaultInterval(b.kind))
    ensures |levels| >= 1_180 ==> AdaptedAll(b, levels).interval == DefaultInterval(b.kind)
    decreases |levels|
  {
    if levels != [] {
      var init := levels[..|levels| - 1];
      CalmRestores(b, init);
      AdaptedInRange(AdaptedAll(b, init), levels[|levels| - 1]);
    }
  }

  ghost predicate Healthy(s: Scheduler, k: ProbeKind, sends: seq<nat>) {
    && Find(s.budgets, k) < |s.budgets|
    && (forall i | 0 <= i < |s.budgets| :: InRange(s.budgets[i]))
    && (var b := s.budgets[Find(s.budgets, k)];
        b.lastSent == (if sends == [] then None else Some(sends[|sends| - 1])) && b.sent == |sends|)
  }

  lemma {:induction false} FindSame(a: seq<Budget>, b: seq<Budget>, k: ProbeKind)
    requires |a| == |b| && forall i | 0 <= i < |a| :: a[i].kind == b[i].kind
    ensures Find(a, k) == Find(b, k)
  {
    if a != [] { FindSame(a[1..], b[1..], k); }
  }

  lemma ApplyHealthy(s: Scheduler, level: MonitorLevel, k: ProbeKind, sends: seq<nat>)
    requires Healthy(s, k, sends)
    ensures Healthy(HealthApplied(s, level), k, sends)
  {
    var s' := HealthApplied(s, level);
    forall i | 0 <= i < |s.budgets| ensures InRange(s'.budgets[i]) && s'.budgets[i].kind == s.budgets[i].kind {
      AdaptedInRange(s.budgets[i], level);
    }
    FindSame(s.budgets, s'.budgets, k);
  }

  lemma StepHealthy(s: Scheduler, e: Event, k: ProbeKind, sends: seq<nat>)
    requires Healthy(s, k, sends)
    ensures var sends' := if e.TrySend? && e.kind == k && MaySend(s, k, e.at) then sends + [e.at] else sends;
            Healthy(Next(s, e), k, sends')
    ensures e.TrySend? && e.kind == k && MaySend(s, k, e.at) && sends != [] ==>
              e.at >= sends[|sends| - 1] + s.budgets[Find(s.budgets, k)].interval
  {
    match e
    case Apply(level) => ApplyHealthy(s, level, k, sends);
    case TrySend(kind, now) =>
      if MaySend(s, kind, now) { FindSame(s.budgets, Recorded(s, kind, now).budgets, k); }
  }

  // The interval in force for a kind.
  function Interval(s: Scheduler, k: ProbeKind): nat {
    var i := Find(s.budgets, k);
    if i < |s.budgets| then s.budgets[i].interval else 0
  }

  predicate SendsAt(events: seq<Event>, n: nat, k: ProbeKind)
    requires n < |events|
  {
    var e := events[n];
    e.TrySend? && e.kind == k && MaySend(After(Initial(), events[..n]), k, e.at)
  }

  // The send at n keeps the interval then in force from the one before it.
  ghost predicate KeepsInterval(events: seq<Event>, n: nat, k: ProbeKind)
    requires n < |events| && events[n].TrySend?
  {
    var before, interval := Sends(Initial(), events[..n], k), Interval(After(Initial(), events[..n]), k);
    interval >= 1_000 && (before != [] ==> events[n].at >= before[|before| - 1] + interval)
  }

  lemma {:induction false} SendsTracked(events: seq<Event>, k: ProbeKind)
    ensures Healthy(After(Initial(), events), k, Sends(Initial(), events, k))
    ensures Ascends(Sends(Initial(), events, k))
    decreases |events|
  {
    if events == [] {
      KindIsBudgeted(k);
    } else {
      var init, e := events[..|events| - 1], events[|events| - 1];
      SendsTracked(init, k);
      var s := After(Initial(), init);
      assert InRange(s.budgets[Find(s.budgets, k)]);
      StepHealthy(s, e, k, Sends(Initial(), init, k));
    }
  }

  ghost predicate Ascends(sends: seq<nat>) { forall i, j | 0 <= i < j < |sends| :: sends[j] >= sends[i] + 1_000 }

  /** On the initial budgets, every send of a kind gated by `may_send` comes at least the interval
      then in force after the one before it, and so a second after every earlier one, under any
      sequence of health levels and any clock. */
  lemma SendsApart(events: seq<Event>, k: ProbeKind, n: nat)
    requires n < |events| && SendsAt(events, n, k)
    ensures KeepsInterval(events, n, k)
    ensures Ascends(Sends(Initial(), events[..n], k) + [events[n].at])
  {
    var s, before := After(Initial(), events[..n]), Sends(Initial(), events[..n], k);
    SendsTracked(events[..n], k);
    assert InRange(s.budgets[Find(s.budgets, k)]);
    StepHealthy(s, events[n], k, before);
    assert before != [] ==> forall i | 0 <= i < |before| :: before[|before| - 1] >= before[i];
  }

  lemma {:induction false} FindFinds(budgets: seq<Budget>, k: ProbeKind, i: nat)
    requires i < |budgets| && budgets[i].kind == k
    ensures Find(budgets, k) <= i
    decreases |budgets|
  {
    if budgets[0].kind != k { FindFinds(budgets[1..], k, i - 1); }
  }

  lemma InitialBudgets(i: nat)
    requires i < 8
    ensures |Initial().budgets| == 8 && Initial().budgets[i] == FreshBudget(KindAt(i)) && InRange(Initial().budgets[i])
  {
  }

  lemma KindIsBudgeted(k: ProbeKind)
    ensures Healthy(Initial(), k, [])
  {
    var i := match k case DnsResolution => 0 case TcpConnect => 1 case UdpProbe => 2 case QuicHandshake => 3
             case TunnelHealth => 4 case EdgeToClientRtt => 5 case ApplicationEndpointRtt => 6;
    forall n: nat | n < 8
      ensures Initial().budgets[n] == FreshBudget(KindAt(n)) && InRange(Initial().budgets[n])
    {
      InitialBudgets(n);
    }
    assert KindAt(i) == k;
    FindFinds(Initial().budgets, k, i);
  }

  // ---------------------------------------------------------------------
  // Levels

  /** The intervals in figures: by default, under heightened and under aggressive monitoring. */
  lemma IntervalsInFigures(b: Budget)
    ensures (DefaultInterval(b.kind), Adapted(b, High).interval, Adapted(b, Aggressive).interval)
            == match b.kind
               case DnsResolution => (30_000, 15_000, 7_500)
               case TcpConnect => (30_000, 15_000, 7_500)
               case UdpProbe => (20_000, 10_000, 5_000)
               case QuicHandshake => (60_000, 30_000, 15_000)
               case TunnelHealth => (10_000, 5_000, 2_500)
               case EdgeToClientRtt => (5_000, 3_000, 1_250)
               case ApplicationEndpointRtt => (60_000, 30_000, 15_000)
  {
  }

  /** A calm level raises an interval by 15 or 5 percent, in whole milliseconds, up to the default. */
  lemma CalmInFigures(b: Budget)
    ensures Adapted(b, Low).interval == Min(115 * b.interval / 100, DefaultInterval(b.kind))
    ensures Adapted(b, Normal).interval == Min(105 * b.interval / 100, DefaultInterval(b.kind))
  {
    FloorOfPercent(b.interval, 115);
    FloorOfPercent(b.interval, 105);
  }

  lemma FloorOfPercent(n: nat, percent: nat)
    ensures (n as real * (percent as real / 100.0)).Floor == percent * n / 100
  {
    var q := percent * n / 100;
    var r := percent * n % 100;
    assert percent * n == 100 * q + r;
    assert n as real * (percent as real / 100.0) == (percent * n) as real / 100.0;
    assert (percent * n) as real / 100.0 == q as real + r as real / 100.0;
  }

  function Levels(levels: seq<MonitorLevel>): (events: seq<Event>)
    ensures |events| == |levels| && forall i | 0 <= i < |levels| :: events[i] == Apply(levels[i])
  {
    seq(|levels|, i requires 0 <= i < |levels| => Apply(levels[i]))
  }

  /** The scheduler adapts each of its budgets to every level, in order; so calm levels restore all. */
  lemma {:induction false} SchedulerAdapts(levels: seq<MonitorLevel>, i: nat)
    requires i < 8
    ensures var s := After(Initial(), Levels(levels));
            && |s.budgets| == 8 && s.enabled
            && s.budgets[i] == AdaptedAll(FreshBudget(KindAt(i)), levels)
    decreases |levels|
  {
    InitialBudgets(i);
    if levels != [] {
      var init := levels[..|levels| - 1];
      SchedulerAdapts(init, i);
      assert Levels(levels)[..|levels| - 1] == Levels(init);
    }
  }

  /** After any run a send of a kind is allowed exactly if it was never sent, or the interval in force
      has passed since the last send. */
  lemma MaySendIff(events: seq<Event>, k: ProbeKind, now: nat)
    ensures var s, sends := After(Initial(), events), Sends(Initial(), events, k);
            MaySend(s, k, now)
            <==> sends == [] || now >= sends[|sends| - 1] + Interval(s, k)
  {
    SendsTracked(events, k);
    StaysEnabled(events);
    var s := After(Initial(), events);
    assert InRange(s.budgets[Find(s.budgets, k)]);
  }

  lemma {:induction false} StaysEnabled(events: seq<Event>)
    ensures After(Initial(), events).enabled
    decreases |events|
  {
    if events != [] { StaysEnabled(events[..|events| - 1]); }
  }
}
