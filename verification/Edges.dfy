/** Edge statistics and the registry (crates/radin-core/src/edges.rs). */
module Edges {
  import opened Common
  import opened Model
  import Scoring

  // A metric at the largest float means "not measured yet".
  datatype Stats = Stats(
    edgeId: string, latency: Option<Measure>, jitter: Option<Measure>, loss: real, availability: real,
    handshake: Option<real>, samples: nat, reconnects: nat, successes: nat, failures: nat,
    lastProbedAt: Option<nat>, expiresAt: nat)

  function NewStats(e: EdgeInfo): Stats {
    Stats(e.id, None, None, 1.0, 0.0, None, 0, 0, 0, 0, None, e.expiresAt)
  }

  // Moving average with weight one quarter on the new sample.
  function Smoothed(before: Option<Measure>, first: bool, x: Measure): Option<Measure> {
    if first || before.None? then Some(x) else Some(0.25 * x + 0.75 * before.value)
  }

  function Observed(s: Stats, latency: Measure, jitter: Measure, lost: bool): Stats {
    var successes := s.successes + if lost then 0 else 1;
    var failures := s.failures + if lost then 1 else 0;
    var total := successes + failures;
    s.(samples := s.samples + 1, successes := successes, failures := failures,
       lastProbedAt := Some(if s.lastProbedAt.Some? then s.lastProbedAt.value else 0),
       latency := Smoothed(s.latency, s.samples == 0, latency),
       jitter := Smoothed(s.jitter, s.samples == 0, jitter),
       loss := failures as real / total as real,
       availability := successes as real / total as real)
  }

  function HandshakeRecorded(s: Stats, ms: real): Stats {
    s.(handshake := Some(if s.handshake.None? then ms else 0.25 * ms + 0.75 * s.handshake.value))
  }

  function Stability(s: Stats): real {
    Scoring.StabilityScore((1.0 - Scoring.StabilityScore(s.loss)) * s.availability)
  }

  function ReconnectRate(s: Stats): Measure {
    if s.samples == 0 then 0.0
    else if s.samples < 60 then s.reconnects as real
    else s.reconnects as real / (s.samples as real / 60.0)
  }

  function OrZero(x: Option<Measure>): Measure { if x.Some? then x.value else 0.0 }

  // The decision snapshot of live statistics: unmeasured becomes zero.
  function Snapshot(s: Stats): Metrics {
    Metrics(OrZero(s.latency), OrZero(s.jitter), s.loss, Stability(s),
            if s.handshake.Some? then s.handshake.value else 0.0, ReconnectRate(s))
  }

  // What every statistic satisfies: the counts add up to the ratios, and without samples nothing
  // else is there.
  predicate Sound(s: Stats) {
    && s.samples == s.successes + s.failures
    && (s.samples > 0 ==> s.loss == s.failures as real / s.samples as real
                          && s.availability == s.successes as real / s.samples as real)
    && (s.samples == 0 ==> s.loss == 1.0 && s.availability == 0.0
                           && s.latency.None? && s.jitter.None? && s.handshake.None?)
  }

  // Observations keep the counts sound: loss and availability are the shares of lost and delivered samples.
  lemma ObservedSound(s: Stats, latency: Measure, jitter: Measure, lost: bool)
    requires Sound(s)
    ensures Sound(Observed(s, latency, jitter, lost)) && Observed(s, latency, jitter, lost).samples > 0
  {
  }

  /** Once sampled, loss and availability sum to one, so the stability index is the square of
      the availability. */
  lemma StabilityIsSquare(t: Stats)
    requires Sound(t) && t.samples > 0
    ensures t.loss + t.availability == 1.0
    ensures Stability(t) == t.availability * t.availability
  {
    SharesSum(t.failures as real, t.successes as real, t.samples as real);
    SquareOfShare(t.loss, t.availability);
  }

  lemma SquareOfShare(loss: real, availability: real)
    requires loss + availability == 1.0 && 0.0 <= availability && 0.0 <= loss
    ensures Scoring.StabilityScore((1.0 - Scoring.StabilityScore(loss)) * availability) == availability * availability
  {
    UnitSquare(availability);
  }

  lemma Times(x: real, y: real)
    requires 0.0 <= x && 0.0 <= y
    ensures 0.0 <= x * y
  {
  }

  lemma Rest(x: real)
    ensures x * (1.0 - x) == x - x * x
  {
  }

  lemma UnitSquare(x: real)
    requires 0.0 <= x <= 1.0
    ensures 0.0 <= x * x <= 1.0
  {
    Times(x, x);
    Times(x, 1.0 - x);
    Rest(x);
  }

  lemma SharesSum(a: real, b: real, n: real)
    requires a >= 0.0 && b >= 0.0 && n > 0.0 && a + b == n
    ensures a / n + b / n == 1.0 && 0.0 <= a / n && 0.0 <= b / n
  {
    assert a / n + b / n == (a + b) / n;
  }

  // One probe as it came in.
  datatype Sample = Sample(latency: Measure, jitter: Measure, lost: bool, handshake: Option<real>, at: nat)

  function AfterSamples(s: Stats, samples: seq<Sample>): Stats {
    if samples == [] then s else
      var x := samples[|samples| - 1];
      Probed(AfterSamples(s, samples[..|samples| - 1]), x.latency, x.jitter, x.lost, x.handshake, x.at)
  }

  function Lost(samples: seq<Sample>): nat {
    if samples == [] then 0 else Lost(samples[..|samples| - 1]) + if samples[|samples| - 1].lost then 1 else 0
  }

  function Latencies(samples: seq<Sample>): (r: seq<real>)
    ensures |r| == |samples| && forall i | 0 <= i < |samples| :: r[i] == samples[i].latency
  {
    seq(|samples|, i requires 0 <= i < |samples| => samples[i].latency)
  }

  function Jitters(samples: seq<Sample>): (r: seq<real>)
    ensures |r| == |samples| && forall i | 0 <= i < |samples| :: r[i] == samples[i].jitter
  {
    seq(|samples|, i requires 0 <= i < |samples| => samples[i].jitter)
  }

  // The handshakes of the probes that made one.
  function Handshakes(samples: seq<Sample>): seq<real> {
    if samples == [] then [] else
      var x := samples[|samples| - 1];
      Handshakes(samples[..|samples| - 1]) + if x.handshake.Some? then [x.handshake.value] else []
  }

  // The moving average of a list: the first value, then a quarter of each new one and three of the old.
  function Average(xs: seq<real>): real
    requires xs != []
  {
    var n := |xs| - 1;
    if n == 0 then xs[0] else xs[n] / 4.0 + 3.0 * Average(xs[..n]) / 4.0
  }

  lemma AverageSnoc(xs: seq<real>, x: real)
    ensures Average(xs + [x]) == if xs == [] then x else x / 4.0 + 3.0 * Average(xs) / 4.0
  {
    assert xs != [] ==> (xs + [x])[..|xs|] == xs;
  }

  // What statistics say of a list of probes.
  ghost predicate Describes(s: Stats, samples: seq<Sample>) {
    && s.samples == |samples| && s.failures == Lost(samples) && s.successes == |samples| - Lost(samples)
    && s.reconnects == 0
    && s.latency == (if samples == [] then None else Some(Average(Latencies(samples))))
    && s.jitter == (if samples == [] then None else Some(Average(Jitters(samples))))
    && s.handshake == (if Handshakes(samples) == [] then None else Some(Average(Handshakes(samples))))
    && s.lastProbedAt == (if samples == [] then None else Some(samples[|samples| - 1].at))
    && Sound(s)
  }

  lemma ListsSnoc(samples: seq<Sample>, x: Sample)
    ensures Latencies(samples + [x]) == Latencies(samples) + [x.latency]
    ensures Jitters(samples + [x]) == Jitters(samples) + [x.jitter]
    ensures Handshakes(samples + [x]) == Handshakes(samples) + (if x.handshake.Some? then [x.handshake.value] else [])
    ensures Lost(samples + [x]) == Lost(samples) + if x.lost then 1 else 0
  {
    assert (samples + [x])[..|samples|] == samples;
  }

  lemma SmoothedIsAverage(xs: seq<real>, x: real, before: Option<real>)
    requires before == if xs == [] then None else Some(Average(xs))
    ensures Average(xs + [x]) == if before.None? then x else 0.25 * x + 0.75 * before.value
  {
    AverageSnoc(xs, x);
  }

  // A probe smooths what it measured and keeps the counts sound.
  lemma ProbedParts(s: Stats, x: Sample)
    requires Sound(s)
    ensures var t := Probed(s, x.latency, x.jitter, x.lost, x.handshake, x.at);
            && Sound(t)
            && t.samples == s.samples + 1 && t.failures == s.failures + (if x.lost then 1 else 0)
            && t.successes == s.successes + (if x.lost then 0 else 1) && t.reconnects == s.reconnects
            && t.latency == Smoothed(s.latency, s.samples == 0, x.latency)
            && t.jitter == Smoothed(s.jitter, s.samples == 0, x.jitter)
            && t.lastProbedAt == Some(x.at)
            && t.handshake ==
               if x.handshake.None? then s.handshake
               else if s.handshake.None? then x.handshake
               else Some(0.25 * x.handshake.value + 0.75 * s.handshake.value)
  {
    ObservedSound(s, x.latency, x.jitter, x.lost);
  }

  lemma DescribesSnoc(s: Stats, samples: seq<Sample>, x: Sample)
    requires Describes(s, samples)
    ensures Describes(Probed(s, x.latency, x.jitter, x.lost, x.handshake, x.at), samples + [x])
  {
    ProbedParts(s, x);
    ListsSnoc(samples, x);
    SmoothedIsAverage(Latencies(samples), x.latency, s.latency);
    SmoothedIsAverage(Jitters(samples), x.jitter, s.jitter);
    if x.handshake.Some? {
      SmoothedIsAverage(Handshakes(samples), x.handshake.value, s.handshake);
    } else {
      assert Handshakes(samples) + [] == Handshakes(samples);
    }
  }

  /** From a new edge, over any history: loss and availability are the exact shares of lost and
      delivered probes; latency, jitter and handshake are the moving averages of what was probed. */
  lemma {:induction false} HistoryIsHonest(e: EdgeInfo, samples: seq<Sample>)
    ensures Describes(AfterSamples(NewStats(e), samples), samples)
    decreases |samples|
  {
    if samples != [] {
      var n := |samples| - 1;
      HistoryIsHonest(e, samples[..n]);
      DescribesSnoc(AfterSamples(NewStats(e), samples[..n]), samples[..n], samples[n]);
      assert samples[..n] + [samples[n]] == samples;
    }
  }

  /** Reconnections count per sixty samples, and each in full before the sixtieth. */
  lemma ReconnectsPerMinute(s: Stats)
    ensures s.samples == 0 ==> ReconnectRate(s) == 0.0
    ensures 0 < s.samples <= 60 ==> ReconnectRate(s) == s.reconnects as real
    ensures s.samples >= 60 ==> ReconnectRate(s) * s.samples as real == 60.0 * s.reconnects as real
  {
    if s.samples >= 60 {
      var minutes := s.samples as real / 60.0;
      QuotientTimes(s.reconnects as real, minutes);
      assert ReconnectRate(s) * s.samples as real == 60.0 * (ReconnectRate(s) * minutes);
    }
  }

  lemma QuotientTimes(x: real, y: real)
    requires y > 0.0
    ensures x / y * y == x
  {
  }

  lemma NoReconnects(s: Stats)
    requires s.reconnects == 0
    ensures ReconnectRate(s) == 0.0
  {
    if s.samples >= 60 { assert 0.0 / (s.samples as real / 60.0) == 0.0; }
  }

  // What metrics say of a list of probes.
  ghost predicate Measures(m: Metrics, samples: seq<Sample>)
    requires samples != []
  {
    && m.latency == Average(Latencies(samples)) && m.jitter == Average(Jitters(samples))
    && m.loss == Lost(samples) as real / |samples| as real
    && m.stability == (1.0 - m.loss) * (1.0 - m.loss)
    && m.handshake == (if Handshakes(samples) == [] then 0.0 else Average(Handshakes(samples)))
    && m.reconnectRate == 0.0
  }

  lemma StabilityOf(s: Stats)
    requires Sound(s) && s.samples > 0
    ensures Stability(s) == (1.0 - s.loss) * (1.0 - s.loss)
  {
    StabilityIsSquare(s);
    assert s.availability == 1.0 - s.loss;
  }

  /** And so are the metrics the engine decides and scores on. */
  lemma SnapshotOfHistory(s: Stats, samples: seq<Sample>)
    requires Describes(s, samples) && samples != []
    ensures Measures(Snapshot(s), samples)
  {
    NoReconnects(s);
    StabilityOf(s);
  }

  /** The average stays within the range of what was observed. */
  lemma {:induction false} AverageWithin(xs: seq<real>, lo: real, hi: real)
    requires xs != [] && forall x | x in xs :: lo <= x <= hi
    ensures lo <= Average(xs) <= hi
    decreases |xs|
  {
    var n := |xs| - 1;
    assert xs[n] in xs;
    if n > 0 {
      assert forall x | x in xs[..n] :: x in xs;
      AverageWithin(xs[..n], lo, hi);
    }
  }

  function Repeated(x: real, n: nat): (xs: seq<real>)
    ensures |xs| == n && forall i | 0 <= i < n :: xs[i] == x
  {
    seq(n, i => x)
  }

  /** Closed form on a steady signal: whatever came before, the distance to it shrinks by a quarter
      with each new value. */
  lemma {:induction false} AverageConverges(xs: seq<real>, x: real, n: nat)
    requires xs != []
    ensures Average(xs + Repeated(x, n)) - x == Scoring.Power(0.75, n) * (Average(xs) - x)
  {
    if n == 0 {
      assert xs + Repeated(x, 0) == xs;
    } else {
      AverageConverges(xs, x, n - 1);
      ConvergesOnce(xs, x, n);
    }
  }

  lemma ConvergesOnce(xs: seq<real>, x: real, n: nat)
    requires xs != [] && n > 0
    requires Average(xs + Repeated(x, n - 1)) - x == Scoring.Power(0.75, n - 1) * (Average(xs) - x)
    ensures Average(xs + Repeated(x, n)) - x == Scoring.Power(0.75, n) * (Average(xs) - x)
  {
    var before := xs + Repeated(x, n - 1);
    assert xs + Repeated(x, n) == before + [x];
    AverageSnoc(before, x);
    Shrinks(Average(xs), Average(before), Average(before + [x]), x, Scoring.Power(0.75, n - 1), Scoring.Power(0.75, n));
  }

  lemma Shrinks(start: real, before: real, after: real, x: real, p: real, q: real)
    requires before - x == p * (start - x) && after == x / 4.0 + 3.0 * before / 4.0 && q == 0.75 * p
    ensures after - x == q * (start - x)
  {
    assert 0.75 * (p * (start - x)) == (0.75 * p) * (start - x);
  }

  // ---------------------------------------------------------------------
  // The registry

  datatype Registry = Registry(edges: seq<EdgeInfo>, stats: seq<Stats>)

  const EMPTY := Registry([], [])

  function EdgeIndex(edges: seq<EdgeInfo>, id: string): (i: nat)
    ensures i <= |edges| && (i < |edges| ==> edges[i].id == id)
    ensures forall j | 0 <= j < i :: edges[j].id != id
  {
    if edges == [] || edges[0].id == id then 0 else 1 + EdgeIndex(edges[1..], id)
  }

  function StatsIndex(stats: seq<Stats>, id: string): (i: nat)
    ensures i <= |stats| && (i < |stats| ==> stats[i].edgeId == id)
    ensures forall j | 0 <= j < i :: stats[j].edgeId != id
  {
    if stats == [] || stats[0].edgeId == id then 0 else 1 + StatsIndex(stats[1..], id)
  }

  predicate Acceptable(e: EdgeInfo, now: nat) { e.expiresAt > now && e.address != "" && e.id != "" }

  // One acceptable edge: replaced under its id, or appended with new statistics.
  function Upserted(r: Registry, e: EdgeInfo): Registry {
    var i := EdgeIndex(r.edges, e.id);
    if i < |r.edges| then r.(edges := r.edges[i := e])
    else Registry(r.edges + [e], r.stats + [NewStats(e)])
  }

  function Added(r: Registry, infos: seq<EdgeInfo>, now: nat): Registry
    decreases |infos|
  {
    if infos == [] then r
    else Added(if Acceptable(infos[0], now) then Upserted(r, infos[0]) else r, infos[1..], now)
  }

  function LiveStats(stats: seq<Stats>, edges: seq<EdgeInfo>): seq<Stats> {
    if stats == [] then []
    else (if EdgeIndex(edges, stats[0].edgeId) < |edges| then [stats[0]] else []) + LiveStats(stats[1..], edges)
  }

  function Ingested(r: Registry, infos: seq<EdgeInfo>, now: nat): Registry {
    var a := Added(r, infos, now);
    a.(stats := LiveStats(a.stats, a.edges))
  }

  function AcceptedIds(infos: seq<EdgeInfo>, now: nat): seq<string> {
    if infos == [] then []
    else (if Acceptable(infos[0], now) then [infos[0].id] else []) + AcceptedIds(infos[1..], now)
  }

  // One probe result: the statistics move, the clock is noted, a fresh handshake is averaged in.
  function Probed(s: Stats, latency: Measure, jitter: Measure, lost: bool, handshake: Option<real>, now: nat): Stats {
    var t := Observed(s, latency, jitter, lost).(lastProbedAt := Some(now));
    if handshake.Some? then HandshakeRecorded(t, handshake.value) else t
  }

  function ObservedAt(
    r: Registry, id: string, latency: Measure, jitter: Measure, lost: bool, handshake: Option<real>, now: nat)
    : Registry
  {
    var i := StatsIndex(r.stats, id);
    if i == |r.stats| then r else r.(stats := r.stats[i := Probed(r.stats[i], latency, jitter, lost, handshake, now)])
  }

  function CandidateId(edgeId: string, t: TransportKind): string { edgeId + "-" + Name(t) }

  function CandidateOf(edgeId: string, m: Metrics, info: EdgeInfo, t: TransportKind): RouteCandidate {
    RouteCandidate(CandidateId(edgeId, t), info.address, t, info.region, m, None, Real)
  }

  function OfEdge(edgeId: string, m: Metrics, info: EdgeInfo, desired: seq<TransportKind>): seq<RouteCandidate> {
    if desired == [] then []
    else (if desired[0] in info.supported then [CandidateOf(edgeId, m, info, desired[0])] else [])
         + OfEdge(edgeId, m, info, desired[1..])
  }

  function OfStats(s: Stats, edges: seq<EdgeInfo>, desired: seq<TransportKind>): seq<RouteCandidate> {
    var i := EdgeIndex(edges, s.edgeId);
    if i < |edges| then OfEdge(s.edgeId, Snapshot(s), edges[i], desired) else []
  }

  function CandidatesOf(stats: seq<Stats>, edges: seq<EdgeInfo>, desired: seq<TransportKind>): seq<RouteCandidate> {
    if stats == [] then [] else OfStats(stats[0], edges, desired) + CandidatesOf(stats[1..], edges, desired)
  }

  lemma IngestStep(r: Registry, infos: seq<EdgeInfo>, k: nat, now: nat)
    requires k < |infos|
    ensures Added(r, infos[k..], now)
            == Added(if Acceptable(infos[k], now) then Upserted(r, infos[k]) else r, infos[k + 1..], now)
    ensures AcceptedIds(infos[k..], now)
            == (if Acceptable(infos[k], now) then [infos[k].id] else []) + AcceptedIds(infos[k + 1..], now)
  {
    assert infos[k..][1..] == infos[k + 1..];
  }

  class EdgeRegistry {
    var edges: seq<EdgeInfo>
    var stats: seq<Stats>

    ghost function View(): Registry
      reads this
    {
      Registry(edges, stats)
    }

    constructor ()
      ensures View() == EMPTY
    {
      edges, stats := [], [];
    }

    method Ingest(infos: seq<EdgeInfo>, now: nat) returns (accepted: seq<string>)
      modifies this
      ensures View() == Ingested(old(View()), infos, now) && accepted == AcceptedIds(infos, now)
    {
      accepted := [];
      for k := 0 to |infos|
        invariant Added(old(View()), infos, now) == Added(View(), infos[k..], now)
        invariant AcceptedIds(infos, now) == accepted + AcceptedIds(infos[k..], now)
      {
        IngestStep(View(), infos, k, now);
        if infos[k].expiresAt > now && infos[k].address != "" && infos[k].id != "" {
          Upsert(infos[k]);
          accepted := accepted + [infos[k].id];
        }
      }
      assert infos[|infos|..] == [];
      assert View() == Added(old(View()), infos, now);
      RetainLive();
    }

    method Upsert(info: EdgeInfo)
      modifies this
      ensures View() == Upserted(old(View()), info)
    {
      var i := EdgeIndex(edges, info.id);
      if i < |edges| {
        edges := edges[i := info];
      } else {
        stats := stats + [NewStats(info)];
        edges := edges + [info];
      }
    }

    method RetainLive()
      modifies this`stats
      ensures stats == LiveStats(old(stats), edges)
    {
      var live := [];
      for k := 0 to |stats|
        invariant stats == old(stats) && LiveStats(stats, edges) == live + LiveStats(stats[k..], edges)
      {
        assert stats[k..][1..] == stats[k + 1..];
        if EdgeIndex(edges, stats[k].edgeId) < |edges| { live := live + [stats[k]]; }
      }
      stats := live;
    }

    // Feeds one observation to the statistics of an edge, if it has any.
    method Observe(
      id: string, latency: Measure, jitter: Measure, lost: bool, handshake: Option<real>, now: nat)
      returns (known: bool)
      modifies this`stats
      ensures known == (StatsIndex(old(stats), id) < |old(stats)|)
      ensures View() == ObservedAt(old(View()), id, latency, jitter, lost, handshake, now)
    {
      var i := StatsIndex(stats, id);
      if i == |stats| { return false; }
      stats := stats[i := Observed(stats[i], latency, jitter, lost).(lastProbedAt := Some(now))];
      if handshake.Some? { stats := stats[i := HandshakeRecorded(stats[i], handshake.value)]; }
      known := true;
    }

    method RouteCandidates(desired: seq<TransportKind>) returns (cs: seq<RouteCandidate>)
      ensures cs == CandidatesOf(stats, edges, desired)
    {
      cs := [];
      var live, known := stats, edges;
      for k := 0 to |live|
        invariant Splits(live, known, desired, k, cs)
      {
        var part := StatsCandidates(live[k], known, desired);
        SplitsStep(live, known, desired, k, cs);
        cs := cs + part;
      }
      assert live[|live|..] == [];
    }
  }

  // cs are the candidates of the first k statistics.
  ghost predicate Splits(
    stats: seq<Stats>, edges: seq<EdgeInfo>, desired: seq<TransportKind>, k: nat, cs: seq<RouteCandidate>)
  {
    k <= |stats| && CandidatesOf(stats, edges, desired) == cs + CandidatesOf(stats[k..], edges, desired)
  }

  lemma SplitsStep(
    stats: seq<Stats>, edges: seq<EdgeInfo>, desired: seq<TransportKind>, k: nat, cs: seq<RouteCandidate>)
    requires k < |stats| && Splits(stats, edges, desired, k, cs)
    ensures Splits(stats, edges, desired, k + 1, cs + OfStats(stats[k], edges, desired))
  {
    CandidatesStep(stats, edges, desired, k);
    Regroup(cs, OfStats(stats[k], edges, desired), CandidatesOf(stats[k + 1..], edges, desired));
  }

  method StatsCandidates(s: Stats, edges: seq<EdgeInfo>, desired: seq<TransportKind>) returns (cs: seq<RouteCandidate>)
    ensures cs == OfStats(s, edges, desired)
  {
    cs := [];
    var i := EdgeIndex(edges, s.edgeId);
    if i < |edges| { cs := EdgeCandidates(s.edgeId, Snapshot(s), edges[i], desired); }
  }

  lemma CandidatesStep(stats: seq<Stats>, edges: seq<EdgeInfo>, desired: seq<TransportKind>, k: nat)
    requires k < |stats|
    ensures CandidatesOf(stats[k..], edges, desired)
            == OfStats(stats[k], edges, desired) + CandidatesOf(stats[k + 1..], edges, desired)
  {
    assert stats[k..][1..] == stats[k + 1..];
  }

  lemma OfEdgeStep(edgeId: string, m: Metrics, info: EdgeInfo, desired: seq<TransportKind>, d: nat)
    requires d < |desired|
    ensures OfEdge(edgeId, m, info, desired[d..])
            == (if desired[d] in info.supported then [CandidateOf(edgeId, m, info, desired[d])] else [])
                + OfEdge(edgeId, m, info, desired[d + 1..])
  {
    assert desired[d..][1..] == desired[d + 1..];
  }

  method EdgeCandidates(
    edgeId: string, m: Metrics, info: EdgeInfo, desired: seq<TransportKind>) returns (cs: seq<RouteCandidate>)
    ensures cs == OfEdge(edgeId, m, info, desired)
  {
    cs := [];
    for d := 0 to |desired|
      invariant OfEdge(edgeId, m, info, desired) == cs + OfEdge(edgeId, m, info, desired[d..])
    {
      OfEdgeStep(edgeId, m, info, desired, d);
      if desired[d] in info.supported { cs := cs + [CandidateOf(edgeId, m, info, desired[d])]; }
    }
    assert desired[|desired|..] == [];
  }

  // Reachable registries: edges and statistics pair up, under distinct non-empty ids.
  ghost predicate Paired(r: Registry) {
    && |r.edges| == |r.stats|
    && (forall i | 0 <= i < |r.edges| :: r.edges[i].id == r.stats[i].edgeId && r.edges[i].id != "" && Sound(r.stats[i]))
    && (forall i, j | 0 <= i < j < |r.edges| :: r.edges[i].id != r.edges[j].id)
  }

  predicate Has(r: Registry, id: string) { EdgeIndex(r.edges, id) < |r.edges| }

  lemma HasIff(r: Registry, id: string)
    ensures Has(r, id) <==> exists i | 0 <= i < |r.edges| :: r.edges[i].id == id
  {
  }

  lemma UpsertedPaired(r: Registry, e: EdgeInfo)
    requires Paired(r) && e.id != ""
    ensures Paired(Upserted(r, e))
    ensures forall id | Has(r, id) :: Has(Upserted(r, e), id)
  {
    forall id | Has(r, id) ensures Has(Upserted(r, e), id) {
      var i := EdgeIndex(r.edges, id);
      assert Upserted(r, e).edges[i].id == id;
      HasIff(Upserted(r, e), id);
    }
  }

  lemma {:induction false} AddedPaired(r: Registry, infos: seq<EdgeInfo>, now: nat)
    requires Paired(r)
    ensures Paired(Added(r, infos, now))
    ensures forall id | Has(r, id) :: Has(Added(r, infos, now), id)
    decreases |infos|
  {
    if infos != [] {
      if Acceptable(infos[0], now) { UpsertedPaired(r, infos[0]); }
      AddedPaired(if Acceptable(infos[0], now) then Upserted(r, infos[0]) else r, infos[1..], now);
    }
  }

  lemma {:induction false} AllLive(stats: seq<Stats>, edges: seq<EdgeInfo>)
    requires forall i | 0 <= i < |stats| :: EdgeIndex(edges, stats[i].edgeId) < |edges|
    ensures LiveStats(stats, edges) == stats
    decreases |stats|
  {
    if stats != [] { AllLive(stats[1..], edges); }
  }

  /** Ingesting any list keeps edges and statistics paired and removes no edge: the final
      pruning of statistics never drops one. */
  lemma IngestedPaired(r: Registry, infos: seq<EdgeInfo>, now: nat)
    requires Paired(r)
    ensures Paired(Ingested(r, infos, now))
    ensures forall id | Has(r, id) :: Has(Ingested(r, infos, now), id)
    ensures Ingested(r, infos, now) == Added(r, infos, now)
  {
    var a := Added(r, infos, now);
    AddedPaired(r, infos, now);
    forall i | 0 <= i < |a.stats| ensures EdgeIndex(a.edges, a.stats[i].edgeId) < |a.edges| {
      assert a.edges[i].id == a.stats[i].edgeId;
    }
    AllLive(a.stats, a.edges);
  }

  // ---------------------------------------------------------------------
  // What a list does to one id

  function InfoOf(r: Registry, id: string): Option<EdgeInfo> {
    var i := EdgeIndex(r.edges, id);
    if i < |r.edges| then Some(r.edges[i]) else None
  }

  function StatsOf(r: Registry, id: string): Option<Stats> {
    var i := StatsIndex(r.stats, id);
    if i < |r.stats| then Some(r.stats[i]) else None
  }

  // The record is for the id, in force, and complete.
  predicate Valid(e: EdgeInfo, id: string, now: nat) { e.id == id && id != "" && e.address != "" && now < e.expiresAt }

  function FirstValid(infos: seq<EdgeInfo>, id: string, now: nat): Option<EdgeInfo> {
    if infos == [] then None
    else if Valid(infos[0], id, now) then Some(infos[0])
    else FirstValid(infos[1..], id, now)
  }

  function LastValid(infos: seq<EdgeInfo>, id: string, now: nat): Option<EdgeInfo> {
    if infos == [] then None
    else
      var later := LastValid(infos[1..], id, now);
      if later.Some? then later else if Valid(infos[0], id, now) then Some(infos[0]) else None
  }

  lemma PairedOf(r: Registry, id: string)
    requires Paired(r)
    ensures EdgeIndex(r.edges, id) == StatsIndex(r.stats, id)
    ensures InfoOf(r, id).Some? <==> StatsOf(r, id).Some?
  {
    var i, j := EdgeIndex(r.edges, id), StatsIndex(r.stats, id);
    assert i < |r.edges| ==> r.edges[i].id == r.stats[i].edgeId;
    assert j < |r.stats| ==> r.edges[j].id == r.stats[j].edgeId;
  }

  lemma UpsertedOf(r: Registry, e: EdgeInfo, id: string)
    requires Paired(r) && e.id != ""
    ensures var r' := Upserted(r, e);
            && Paired(r')
            && InfoOf(r', id) == (if e.id == id then Some(e) else InfoOf(r, id))
            && StatsOf(r', id) == (if StatsOf(r, id).Some? then StatsOf(r, id)
                                   else if e.id == id then Some(NewStats(e)) else None)
  {
    UpsertedPaired(r, e);
    var r' := Upserted(r, e);
    PairedOf(r, id);
    PairedOf(r', id);
    var i, i' := EdgeIndex(r.edges, id), EdgeIndex(r'.edges, id);
    var known := EdgeIndex(r.edges, e.id);
    assert forall k | 0 <= k < |r.edges| :: r'.edges[k].id == r.edges[k].id;
    if i < |r.edges| {
      assert r'.edges[i].id == id && i' == i;
      assert e.id == id ==> known == i;
    } else if known == |r.edges| && e.id == id {
      assert r'.edges[|r.edges|] == e && i' == |r.edges|;
    }
  }

  lemma {:induction false} AddedOf(r: Registry, infos: seq<EdgeInfo>, now: nat, id: string)
    requires Paired(r)
    ensures var r' := Added(r, infos, now);
            && InfoOf(r', id) == (if LastValid(infos, id, now).Some? then LastValid(infos, id, now) else InfoOf(r, id))
            && StatsOf(r', id) == (if StatsOf(r, id).Some? then StatsOf(r, id)
                                   else if FirstValid(infos, id, now).Some?
                                   then Some(NewStats(FirstValid(infos, id, now).value)) else None)
    decreases |infos|
  {
    if infos != [] {
      if Acceptable(infos[0], now) {
        UpsertedOf(r, infos[0], id);
        AddedOf(Upserted(r, infos[0]), infos[1..], now, id);
      } else {
        AddedOf(r, infos[1..], now, id);
      }
    }
  }

  /** After a list came in, the record of an id is the last valid one for it in the list, else the old
      one; the statistics of a known edge are kept, and those of a new one start from its first record. */
  lemma IngestedOf(r: Registry, infos: seq<EdgeInfo>, now: nat, id: string)
    requires Paired(r)
    ensures var r' := Ingested(r, infos, now);
            && InfoOf(r', id) == (if LastValid(infos, id, now).Some? then LastValid(infos, id, now) else InfoOf(r, id))
            && StatsOf(r', id) == (if StatsOf(r, id).Some? then StatsOf(r, id)
                                   else if FirstValid(infos, id, now).Some?
                                   then Some(NewStats(FirstValid(infos, id, now).value)) else None)
  {
    AddedOf(r, infos, now, id);
    IngestedPaired(r, infos, now);
  }

  // A probe changes the statistics of its own edge only.
  lemma ObservedOf(r: Registry, edge: string, x: Sample, id: string)
    ensures var r' := ObservedAt(r, edge, x.latency, x.jitter, x.lost, x.handshake, x.at);
            && InfoOf(r', id) == InfoOf(r, id)
            && StatsOf(r', id) == (var s := StatsOf(r, id);
                                   if edge == id && s.Some?
                                   then Some(Probed(s.value, x.latency, x.jitter, x.lost, x.handshake, x.at))
                                   else StatsOf(r, id))
  {
    var r' := ObservedAt(r, edge, x.latency, x.jitter, x.lost, x.handshake, x.at);
    assert forall n | 0 <= n < |r.stats| :: r'.stats[n].edgeId == r.stats[n].edgeId;
  }

  // ---------------------------------------------------------------------
  // Candidates

  // A registered edge, a transport both it and the caller support, and its live statistics.
  ghost predicate Offers(r: Registry, desired: seq<TransportKind>, c: RouteCandidate) {
    exists i | 0 <= i < |r.edges| && i < |r.stats| ::
      && c.transport in desired && c.transport in r.edges[i].supported
      && c == CandidateOf(r.stats[i].edgeId, Snapshot(r.stats[i]), r.edges[i], c.transport)
  }

  lemma {:induction false} OfEdgeExactly(
    edgeId: string, m: Metrics, info: EdgeInfo, desired: seq<TransportKind>, c: RouteCandidate)
    ensures c in OfEdge(edgeId, m, info, desired)
            <==> (&& c.transport in desired && c.transport in info.supported
                  && c == CandidateOf(edgeId, m, info, c.transport))
    decreases |desired|
  {
    if desired != [] { OfEdgeExactly(edgeId, m, info, desired[1..], c); }
  }

  lemma {:induction false} CandidatesFrom(
    stats: seq<Stats>, edges: seq<EdgeInfo>, desired: seq<TransportKind>, c: RouteCandidate)
    ensures c in CandidatesOf(stats, edges, desired)
            <==> exists k | 0 <= k < |stats| :: c in OfStats(stats[k], edges, desired)
    decreases |stats|
  {
    if stats != [] {
      CandidatesFrom(stats[1..], edges, desired, c);
      if c in CandidatesOf(stats[1..], edges, desired) {
        var k :| 0 <= k < |stats[1..]| && c in OfStats(stats[1..][k], edges, desired);
        assert c in OfStats(stats[k + 1], edges, desired);
      }
      if k :| 0 < k < |stats| && c in OfStats(stats[k], edges, desired) {
        assert c in OfStats(stats[1..][k - 1], edges, desired);
      }
    }
  }

  /** The candidates are exactly the pairs of a registered edge and a transport that both the
      edge and the caller support. */
  lemma CandidatesExactly(r: Registry, desired: seq<TransportKind>, c: RouteCandidate)
    requires Paired(r)
    ensures c in CandidatesOf(r.stats, r.edges, desired) <==> Offers(r, desired, c)
  {
    CandidatesFrom(r.stats, r.edges, desired, c);
    forall k | 0 <= k < |r.stats|
      ensures EdgeIndex(r.edges, r.stats[k].edgeId) == k
      ensures c in OfStats(r.stats[k], r.edges, desired)
              <==> c.transport in desired && c.transport in r.edges[k].supported
                   && c == CandidateOf(r.stats[k].edgeId, Snapshot(r.stats[k]), r.edges[k], c.transport)
    {
      assert r.edges[k].id == r.stats[k].edgeId;
      OfEdgeExactly(r.stats[k].edgeId, Snapshot(r.stats[k]), r.edges[k], desired, c);
    }
  }

  /** A candidate carries the address, the region and the live statistics of its own edge, unscored. */
  lemma CandidatesCarry(r: Registry, desired: seq<TransportKind>, c: RouteCandidate)
    requires Paired(r) && c in CandidatesOf(r.stats, r.edges, desired)
    ensures exists k | 0 <= k < |r.stats| ::
              && c.id == r.edges[k].id + "-" + Name(c.transport) && c.endpoint == r.edges[k].address
              && c.region == r.edges[k].region && c.metrics == Snapshot(r.stats[k])
              && c.score == None && c.source == Real
  {
    CandidatesExactly(r, desired, c);
  }

  // ---------------------------------------------------------------------
  // Identifiers

  // Everything before the last dash; the whole text if there is none.
  function EdgeIdOf(candidateId: string): string {
    if candidateId == "" then ""
    else if '-' !in candidateId then candidateId
    else if candidateId[|candidateId| - 1] == '-' then candidateId[..|candidateId| - 1]
    else EdgeIdOf(candidateId[..|candidateId| - 1])
  }

  lemma {:induction false} EdgeIdBeforeDash(edge: string, rest: string)
    requires '-' !in rest
    ensures EdgeIdOf(edge + "-" + rest) == edge
    decreases |rest|
  {
    var id := edge + "-" + rest;
    assert id[|edge|] == '-';
    if rest == "" {
      assert id[..|id| - 1] == edge;
    } else {
      assert id[..|id| - 1] == edge + "-" + rest[..|rest| - 1];
      EdgeIdBeforeDash(edge, rest[..|rest| - 1]);
    }
  }

  lemma NamesArePlain(t: TransportKind)
    ensures '-' !in Name(t) && ':' !in Name(t)
  {
  }

  lemma NamesDiffer(t: TransportKind, u: TransportKind)
    requires Name(t) == Name(u)
    ensures t == u
  {
    match t
    case Quic => assert Name(t) == "quic" && |Name(t)| == 4;
    case Udp => assert |Name(t)| == 3;
    case TcpTls => assert |Name(t)| == 7;
    case Http2 => assert |Name(t)| == 5;
    case WebSocketTls => assert |Name(t)| == 13;
    case Direct => assert |Name(t)| == 6;
  }

  /** A candidate id determines its edge, even one with dashes, and its transport. */
  lemma CandidateIdInjective(e: string, t: TransportKind, f: string, u: TransportKind)
    ensures EdgeIdOf(CandidateId(e, t)) == e
    ensures CandidateId(e, t) == CandidateId(f, u) ==> e == f && t == u
  {
    NamesArePlain(t);
    NamesArePlain(u);
    EdgeIdBeforeDash(e, Name(t));
    EdgeIdBeforeDash(f, Name(u));
    if CandidateId(e, t) == CandidateId(f, u) {
      assert CandidateId(e, t)[|e| + 1..] == Name(t) && CandidateId(f, u)[|f| + 1..] == Name(u);
      NamesDiffer(t, u);
    }
  }
}
