/** The network health grade and how it moves (crates/radin-core/src/health.rs). */
module Health {
  import opened Common
  import opened Model
  import Scoring

  datatype Grade = Excellent | Good | Degraded | Poor | Critical

  function Rank(g: Grade): nat {
    match g case Excellent => 5 case Good => 4 case Degraded => 3 case Poor => 2 case Critical => 1
  }

  predicate Better(g: Grade, h: Grade) { Rank(g) > Rank(h) }

  datatype MonitorLevel = Low | Normal | High | Aggressive

  function LevelOf(g: Grade): MonitorLevel {
    match g case Excellent => Low case Good => Normal case Degraded => High case _ => Aggressive
  }

  datatype GradeModel = GradeModel(excellentAbove: real, goodAbove: real, degradedAbove: real, poorAbove: real)

  const DEFAULT_MODEL := GradeModel(80.0, 65.0, 50.0, 30.0)

  function GradeFor(score: real, m: GradeModel): Grade {
    if score >= m.excellentAbove then Excellent
    else if score >= m.goodAbove then Good
    else if score >= m.degradedAbove then Degraded
    else if score >= m.poorAbove then Poor
    else Critical
  }

  function Clamp(x: real, lo: real, hi: real): real { if x < lo then lo else if x > hi then hi else x }

  // One number for each of the six inputs: a sub-score or a weight.
  datatype Six = Six(
    latency: real, jitter: real, loss: real, stability: real, reconnect: real, availability: real)

  const DEFAULT_WEIGHTS := Six(0.20, 0.15, 0.30, 0.15, 0.10, 0.10)

  function Sum(w: Six): real { w.latency + w.jitter + w.loss + w.stability + w.reconnect + w.availability }

  function Normalize(w: Six): Six {
    var s := Sum(w);
    if s <= Scoring.EPSILON then DEFAULT_WEIGHTS
    else Six(w.latency / s, w.jitter / s, w.loss / s, w.stability / s, w.reconnect / s, w.availability / s)
  }

  function SubscoresOf(m: Metrics): Six {
    Six(
      1.0 / (1.0 + m.latency / 150.0),
      1.0 / (1.0 + m.jitter / 15.0),
      if m.loss <= 0.0 then 1.0 else 1.0 / (1.0 + m.loss * 100.0 / 1.5) / (1.0 + m.loss * 100.0 / 1.5),
      Clamp(m.stability, 0.0, 1.0),
      1.0 / (1.0 + m.reconnectRate),
      Clamp(1.0 - m.loss, 0.0, 1.0))
  }

  function Weighted(w: Six, s: Six): real {
    w.latency * s.latency + w.jitter * s.jitter + w.loss * s.loss
    + w.stability * s.stability + w.reconnect * s.reconnect + w.availability * s.availability
  }

  function HealthScore(w: Six, m: Metrics): real {
    Clamp(Weighted(Normalize(w), SubscoresOf(m)) * 100.0, 0.0, 100.0)
  }

  predicate NoWorse(a: Metrics, b: Metrics) {
    && a.latency <= b.latency && a.jitter <= b.jitter && a.loss <= b.loss
    && a.stability >= b.stability && a.reconnectRate <= b.reconnectRate
  }

  lemma SquareMonotone(x: real, y: real)
    requires 0.0 <= x <= y
    ensures 0.0 <= 1.0 / (1.0 + y) / (1.0 + y) <= 1.0 / (1.0 + x) / (1.0 + x) <= 1.0
  {
    Scoring.Hyperbola(x, y);
    var p, q := 1.0 / (1.0 + x), 1.0 / (1.0 + y);
    assert p / (1.0 + x) == p * p && q / (1.0 + y) == q * q;
    Scoring.WeightedMonotone(p, p, q);
    Scoring.WeightedMonotone(q, p, q);
    Scoring.WeightedMonotone(p, 1.0, p);
    Scoring.WeightedMonotone(q, q, 0.0);
  }

  lemma SubscoresMonotone(a: Metrics, b: Metrics)
    requires NoWorse(a, b)
    ensures var s, t := SubscoresOf(a), SubscoresOf(b);
            && AtLeast(Six(1.0, 1.0, 1.0, 1.0, 1.0, 1.0), s) && AtLeast(s, t) && Nonnegative(t)
  {
    Scoring.Hyperbola(a.latency / 150.0, b.latency / 150.0);
    Scoring.Hyperbola(a.jitter / 15.0, b.jitter / 15.0);
    Scoring.Hyperbola(a.reconnectRate, b.reconnectRate);
    if a.loss > 0.0 { SquareMonotone(a.loss * 100.0 / 1.5, b.loss * 100.0 / 1.5); }
    else if b.loss > 0.0 { SquareMonotone(0.0, b.loss * 100.0 / 1.5); }
  }

  predicate Nonnegative(w: Six) {
    && w.latency >= 0.0 && w.jitter >= 0.0 && w.loss >= 0.0
    && w.stability >= 0.0 && w.reconnect >= 0.0 && w.availability >= 0.0
  }

  predicate AtLeast(a: Six, b: Six) {
    && a.latency >= b.latency && a.jitter >= b.jitter && a.loss >= b.loss
    && a.stability >= b.stability && a.reconnect >= b.reconnect && a.availability >= b.availability
  }

  lemma Quotients(w: Six, s: real)
    requires s > 0.0 && s == Sum(w)
    ensures w.latency / s + w.jitter / s + w.loss / s + w.stability / s + w.reconnect / s + w.availability / s == 1.0
  {
    var rest := w.reconnect + w.availability;
    Scoring.Quotients(w.latency, w.jitter, w.loss, w.stability, rest, s);
    assert rest / s == w.reconnect / s + w.availability / s;
  }

  lemma NormalizedSum(w: Six)
    ensures Sum(Normalize(w)) == 1.0
    ensures Nonnegative(w) ==> Nonnegative(Normalize(w))
  {
    var s := Sum(w);
    if s > Scoring.EPSILON {
      Quotients(w, s);
      if Nonnegative(w) {
        Scoring.QuotientNonneg(w.latency, s);
        Scoring.QuotientNonneg(w.jitter, s);
        Scoring.QuotientNonneg(w.loss, s);
        Scoring.QuotientNonneg(w.stability, s);
        Scoring.QuotientNonneg(w.reconnect, s);
        Scoring.QuotientNonneg(w.availability, s);
      }
    }
  }

  lemma WeightedMonotone(w: Six, a: Six, b: Six)
    requires Nonnegative(w) && AtLeast(a, b)
    ensures Weighted(w, a) >= Weighted(w, b)
  {
    Scoring.WeightedMonotone(w.latency, a.latency, b.latency);
    Scoring.WeightedMonotone(w.jitter, a.jitter, b.jitter);
    Scoring.WeightedMonotone(w.loss, a.loss, b.loss);
    Scoring.WeightedMonotone(w.stability, a.stability, b.stability);
    Scoring.WeightedMonotone(w.reconnect, a.reconnect, b.reconnect);
    Scoring.WeightedMonotone(w.availability, a.availability, b.availability);
    SumOfSix(w.latency * a.latency, w.jitter * a.jitter, w.loss * a.loss,
             w.stability * a.stability, w.reconnect * a.reconnect, w.availability * a.availability,
             w.latency * b.latency, w.jitter * b.jitter, w.loss * b.loss,
             w.stability * b.stability, w.reconnect * b.reconnect, w.availability * b.availability);
  }

  lemma SumOfSix(
    a: real, b: real, c: real, d: real, e: real, f: real, u: real, v: real, w: real, x: real, y: real, z: real)
    requires a >= u && b >= v && c >= w && d >= x && e >= y && f >= z
    ensures a + b + c + d + e + f >= u + v + w + x + y + z
  {
  }

  /** With any non-negative weights the health score is in [0, 100] before it is clamped, and
      metrics that are no worse never give a lower score or a worse grade. */
  lemma HealthMonotone(w: Six, a: Metrics, b: Metrics)
    requires Nonnegative(w) && NoWorse(a, b)
    ensures HealthScore(w, a) == Weighted(Normalize(w), SubscoresOf(a)) * 100.0
    ensures HealthScore(w, a) >= HealthScore(w, b)
    ensures !Better(GradeFor(HealthScore(w, b), DEFAULT_MODEL), GradeFor(HealthScore(w, a), DEFAULT_MODEL))
  {
    var n, one, zero := Normalize(w), Six(1.0, 1.0, 1.0, 1.0, 1.0, 1.0), Six(0.0, 0.0, 0.0, 0.0, 0.0, 0.0);
    NormalizedSum(w);
    SubscoresMonotone(a, b);
    WeightedMonotone(n, SubscoresOf(a), SubscoresOf(b));
    WeightedMonotone(n, one, SubscoresOf(a));
    WeightedMonotone(n, SubscoresOf(b), zero);
    assert Weighted(n, one) == Sum(n) && Weighted(n, zero) == 0.0;
  }

  lemma SquareInverse(x: real, y: real)
    requires x >= 0.0 && 0.0 < y < 1.0
    ensures 1.0 / (1.0 + x) / (1.0 + x) == y * y <==> x == 1.0 / y - 1.0
  {
    Scoring.BeyondOne(y);
    var q := 1.0 / (1.0 + x);
    Scoring.Hyperbola(x, x);
    assert q / (1.0 + x) == q * q;
    if x > 0.0 { Scoring.HyperbolaInverse(x, y); }
    assert q == y <==> x == 1.0 / y - 1.0;
    if q != y { UnequalSquares(q, y); }
  }

  lemma UnequalSquares(p: real, q: real)
    requires p >= 0.0 && q > 0.0 && p != q
    ensures p * p != q * q
  {
    assert p * p - q * q == (p - q) * (p + q);
    if p > q { Scoring.ProductPositive(p - q, p + q); } else { Scoring.ProductPositive(q - p, p + q); }
  }

  /** The sub-scores in figures: each falling one takes every value between zero and one at exactly one
      place, one half for 150 ms of latency, 15 ms of jitter and one reconnect, one quarter for 1.5
      percent of loss; stability and availability count as they are. */
  lemma SubscoresInvert(m: Metrics, y: real)
    requires 0.0 < y < 1.0
    ensures var s := SubscoresOf(m);
            && (s.latency == y <==> m.latency == 150.0 * (1.0 / y - 1.0))
            && (s.jitter == y <==> m.jitter == 15.0 * (1.0 / y - 1.0))
            && (s.reconnect == y <==> m.reconnectRate == 1.0 / y - 1.0)
            && (s.loss == y * y <==> m.loss == 0.015 * (1.0 / y - 1.0))
            && (s.stability == y <==> m.stability == y) && (s.availability == y <==> m.loss == 1.0 - y)
  {
    Scoring.BeyondOne(y);
    Inverse(m.latency / 150.0, y);
    Inverse(m.jitter / 15.0, y);
    Inverse(m.reconnectRate, y);
    if m.loss > 0.0 {
      SquareInverse(m.loss * 100.0 / 1.5, y);
      assert m.loss * 100.0 / 1.5 == 1.0 / y - 1.0 <==> m.loss == 0.015 * (1.0 / y - 1.0);
    } else {
      UnequalSquares(1.0, y);
    }
  }

  lemma Inverse(x: real, y: real)
    requires x >= 0.0 && 0.0 < y < 1.0
    ensures 1.0 / (1.0 + x) == y <==> x == 1.0 / y - 1.0
  {
    Scoring.BeyondOne(y);
    if x > 0.0 { Scoring.HyperbolaInverse(x, y); }
  }

  /** Under the default weights a full sub-score is worth 20, 15, 30, 15, 10 and 10 points. */
  lemma DefaultHealth(m: Metrics)
    ensures var s := SubscoresOf(m);
            HealthScore(DEFAULT_WEIGHTS, m)
            == 20.0 * s.latency + 15.0 * s.jitter + 30.0 * s.loss
               + 15.0 * s.stability + 10.0 * s.reconnect + 10.0 * s.availability
  {
    HealthMonotone(DEFAULT_WEIGHTS, m, m);
    assert Sum(DEFAULT_WEIGHTS) == 1.0;
    assert Normalize(DEFAULT_WEIGHTS) == DEFAULT_WEIGHTS;
  }

  predicate Perfect(m: Metrics) {
    m.latency == 0.0 && m.jitter == 0.0 && m.loss <= 0.0 && m.stability >= 1.0 && m.reconnectRate == 0.0
  }

  // Worse in something the score still tells apart.
  predicate TrulyWorse(a: Metrics, b: Metrics) {
    || a.latency < b.latency || a.jitter < b.jitter || a.reconnectRate < b.reconnectRate
    || (a.loss < b.loss && 0.0 < b.loss) || (a.stability > b.stability && a.stability > 0.0 && b.stability < 1.0)
  }

  lemma StrictHyperbola(x: real, y: real)
    requires 0.0 <= x < y
    ensures 1.0 / (1.0 + y) < 1.0 / (1.0 + x)
  {
    var p, q := 1.0 / (1.0 + x), 1.0 / (1.0 + y);
    assert p * (1.0 + x) == 1.0 && q * (1.0 + y) == 1.0;
    Scoring.Reciprocals(q, 1.0 + y, p, 1.0 + x);
  }

  lemma StrictSquare(x: real, y: real)
    requires 0.0 <= x < y
    ensures 1.0 / (1.0 + y) / (1.0 + y) < 1.0 / (1.0 + x) / (1.0 + x)
  {
    var p, q := 1.0 / (1.0 + x), 1.0 / (1.0 + y);
    StrictHyperbola(x, y);
    Scoring.Hyperbola(x, y);
    assert p / (1.0 + x) == p * p && q / (1.0 + y) == q * q;
    assert p * p - q * q == (p - q) * (p + q);
    Scoring.ProductPositive(p - q, p + q);
  }

  /** Metrics that are no worse and truly better in one thing score strictly higher. */
  lemma HealthStrict(a: Metrics, b: Metrics)
    requires NoWorse(a, b) && TrulyWorse(a, b)
    ensures HealthScore(DEFAULT_WEIGHTS, a) > HealthScore(DEFAULT_WEIGHTS, b)
  {
    DefaultHealth(a);
    DefaultHealth(b);
    SubscoresMonotone(a, b);
    var s, t := SubscoresOf(a), SubscoresOf(b);
    if a.latency < b.latency { StrictHyperbola(a.latency / 150.0, b.latency / 150.0); assert s.latency > t.latency; }
    if a.jitter < b.jitter { StrictHyperbola(a.jitter / 15.0, b.jitter / 15.0); assert s.jitter > t.jitter; }
    if a.reconnectRate < b.reconnectRate { StrictHyperbola(a.reconnectRate, b.reconnectRate); }
    if a.loss < b.loss && 0.0 < b.loss {
      StrictSquare(if a.loss <= 0.0 then 0.0 else a.loss * 100.0 / 1.5, b.loss * 100.0 / 1.5);
      assert s.loss > t.loss;
    }
  }

  /** The score is 100 exactly without any delay, loss or reconnect, at full stability. */
  lemma PerfectIff(m: Metrics)
    ensures HealthScore(DEFAULT_WEIGHTS, m) == 100.0 <==> Perfect(m)
  {
    var best := Metrics(0.0, 0.0, if m.loss < 0.0 then m.loss else 0.0,
                        if m.stability > 1.0 then m.stability else 1.0, 0.0, 0.0);
    DefaultHealth(best);
    if Perfect(m) {
      DefaultHealth(m);
    } else {
      HealthStrict(best, m);
    }
  }

  /** The grades and the monitoring they ask for, in figures. */
  lemma GradesInFigures(score: real)
    ensures var g := GradeFor(score, DEFAULT_MODEL);
            && (LevelOf(g) == Low <==> score >= 80.0) && (g == Excellent <==> score >= 80.0)
            && (LevelOf(g) == Normal <==> 65.0 <= score < 80.0) && (g == Good <==> 65.0 <= score < 80.0)
            && (LevelOf(g) == High <==> 50.0 <= score < 65.0) && (g == Degraded <==> 50.0 <= score < 65.0)
            && (LevelOf(g) == Aggressive <==> score < 50.0) && (g == Poor <==> 30.0 <= score < 50.0)
            && (g == Critical <==> score < 30.0)
  {
  }

  // ---------------------------------------------------------------------
  // The tracker

  datatype Tracker = Tracker(model: GradeModel, grade: Grade, since: Option<nat>)

  const INITIAL := Tracker(DEFAULT_MODEL, Good, None)

  predicate Improvement(t: Tracker, score: real) { Better(GradeFor(score, t.model), t.grade) }

  // An improving observation starts the sustain clock if none runs; any other settles the
  // grade at once and restarts the clock.
  function Observed(t: Tracker, score: real, now: nat, sustainMs: nat): Tracker {
    var target := GradeFor(score, t.model);
    if !Improvement(t, score) then Tracker(t.model, target, Some(now))
    else
      var since := if t.since.Some? then t.since.value else now;
      Tracker(t.model, if Since(now, since) >= sustainMs then target else t.grade, Some(since))
  }

  class HealthTracker {
    const model: GradeModel
    var grade: Grade
    var since: Option<nat>

    ghost function View(): Tracker
      reads this
    {
      Tracker(model, grade, since)
    }

    constructor ()
      ensures View() == INITIAL
    {
      model, grade, since := DEFAULT_MODEL, Good, None;
    }

    method Observe(score: real, now: nat, sustainMs: nat) returns (graded: Grade, sustained: nat)
      modifies this
      ensures View() == Observed(old(View()), score, now, sustainMs)
      ensures graded == grade && since.Some? && sustained == Since(now, since.value)
    {
      var target := GradeFor(score, model);
      if Better(target, grade) {
        if since.None? { since := Some(now); }
        if Since(now, since.value) >= sustainMs { grade := target; }
      } else {
        if target != grade { grade := target; }
        since := Some(now);
      }
      graded, sustained := grade, Since(now, since.value);
    }
  }

  // ---------------------------------------------------------------------
  // Runs

  datatype Observation = Observation(score: real, at: nat)

  function After(obs: seq<Observation>, sustainMs: nat): Tracker {
    if obs == [] then INITIAL
    else Observed(After(obs[..|obs| - 1], sustainMs), obs[|obs| - 1].score, obs[|obs| - 1].at, sustainMs)
  }

  ghost predicate Ordered(obs: seq<Observation>) { forall i, j | 0 <= i < j < |obs| :: obs[i].at <= obs[j].at }

  // Observation i improved on the grade held when it came.
  predicate ImprovedAt(obs: seq<Observation>, sustainMs: nat, i: nat)
    requires i < |obs|
  {
    Improvement(After(obs[..i], sustainMs), obs[i].score)
  }

  // s is the time of the last observation that settled the grade, or of the first one.
  ghost predicate LastSettled(obs: seq<Observation>, sustainMs: nat, n: nat, s: nat)
    requires 0 < n <= |obs|
  {
    || (obs[0].at == s && forall i | 0 <= i < n :: ImprovedAt(obs, sustainMs, i))
    || (exists i | 0 <= i < n :: obs[i].at == s && !ImprovedAt(obs, sustainMs, i)
                                 && forall j | i < j < n :: ImprovedAt(obs, sustainMs, j))
  }

  // An improving observation leaves the last settling one where it was.
  lemma StillSettled(obs: seq<Observation>, sustainMs: nat, n: nat, s: nat)
    requires 0 < n < |obs| && LastSettled(obs, sustainMs, n, s) && ImprovedAt(obs, sustainMs, n)
    ensures LastSettled(obs, sustainMs, n + 1, s)
  {
    if !(obs[0].at == s && forall i | 0 <= i < n :: ImprovedAt(obs, sustainMs, i)) {
      var i :| 0 <= i < n && obs[i].at == s && !ImprovedAt(obs, sustainMs, i)
               && forall j | i < j < n :: ImprovedAt(obs, sustainMs, j);
      assert forall j | i < j < n + 1 :: ImprovedAt(obs, sustainMs, j);
    }
  }

  lemma {:induction false} ClockIsLastSettled(obs: seq<Observation>, sustainMs: nat, n: nat)
    requires n <= |obs|
    ensures After(obs[..n], sustainMs).model == DEFAULT_MODEL
    ensures n == 0 ==> After(obs[..n], sustainMs).since == None
    ensures n > 0 ==> After(obs[..n], sustainMs).since.Some?
                      && LastSettled(obs, sustainMs, n, After(obs[..n], sustainMs).since.value)
    decreases n
  {
    if n > 0 {
      ClockIsLastSettled(obs, sustainMs, n - 1);
      assert obs[..n][..n - 1] == obs[..n - 1] && obs[..n][n - 1] == obs[n - 1];
      var s := After(obs[..n], sustainMs).since.value;
      if !ImprovedAt(obs, sustainMs, n - 1) {
        assert obs[n - 1].at == s;
      } else if n > 1 {
        StillSettled(obs, sustainMs, n - 1, s);
      }
    }
  }

  predicate RisesAt(obs: seq<Observation>, sustainMs: nat, n: nat)
    requires n < |obs|
  {
    Better(After(obs[..n + 1], sustainMs).grade, After(obs[..n], sustainMs).grade)
  }

  lemma RiseByClock(obs: seq<Observation>, sustainMs: nat, n: nat, s: nat)
    requires n < |obs| && s <= obs[n].at
    requires var since := After(obs[..n], sustainMs).since;
             if n == 0 then s == obs[0].at else since == Some(s)
    ensures RisesAt(obs, sustainMs, n) <==> ImprovedAt(obs, sustainMs, n) && s + sustainMs <= obs[n].at
  {
    assert obs[..n + 1][..n] == obs[..n] && obs[..n + 1][n] == obs[n];
  }

  // What was observed within the sustain time, against the clock.
  ghost predicate WindowImproved(obs: seq<Observation>, sustainMs: nat, n: nat)
    requires n < |obs|
  {
    && (forall i | 0 <= i < n && obs[i].at + sustainMs > obs[n].at :: ImprovedAt(obs, sustainMs, i))
    && obs[0].at + sustainMs <= obs[n].at
  }

  // The same on bare flags: i is the last unmarked place before n.
  lemma WindowOfFlags(obs: seq<Observation>, ok: seq<bool>, sustainMs: nat, n: nat, i: nat)
    requires Ordered(obs) && i < n < |obs| && |ok| == n
    requires !ok[i] && forall j | i < j < n :: ok[j]
    ensures (forall j | 0 <= j < n && obs[j].at + sustainMs > obs[n].at :: ok[j]) && obs[0].at + sustainMs <= obs[n].at
            <==> obs[i].at + sustainMs <= obs[n].at
  {
    assert forall j | 0 <= j <= i :: obs[j].at <= obs[i].at;
  }

  lemma WindowByClock(obs: seq<Observation>, sustainMs: nat, n: nat, s: nat)
    requires Ordered(obs) && 0 < n < |obs| && LastSettled(obs, sustainMs, n, s)
    ensures s <= obs[n].at
    ensures WindowImproved(obs, sustainMs, n) <==> s + sustainMs <= obs[n].at
  {
    if !(obs[0].at == s && forall i | 0 <= i < n :: ImprovedAt(obs, sustainMs, i)) {
      var i :| 0 <= i < n && obs[i].at == s && !ImprovedAt(obs, sustainMs, i)
               && forall j | i < j < n :: ImprovedAt(obs, sustainMs, j);
      var ok := seq(n, j requires 0 <= j < n => ImprovedAt(obs, sustainMs, j));
      WindowOfFlags(obs, ok, sustainMs, n, i);
      assert forall j | 0 <= j < n :: ok[j] == ImprovedAt(obs, sustainMs, j);
    }
  }

  /** On a clock that never runs backwards the grade rises at an observation exactly when that
      one and every other within the sustain time improved on the grade then held, and
      observations reach back that far. */
  lemma RisesIff(obs: seq<Observation>, sustainMs: nat, n: nat)
    requires Ordered(obs) && n < |obs|
    ensures RisesAt(obs, sustainMs, n) <==> ImprovedAt(obs, sustainMs, n) && WindowImproved(obs, sustainMs, n)
  {
    ClockIsLastSettled(obs, sustainMs, n);
    if n == 0 {
      assert obs[..0] == [];
      RiseByClock(obs, sustainMs, n, obs[0].at);
    } else {
      var s := After(obs[..n], sustainMs).since.value;
      WindowByClock(obs, sustainMs, n, s);
      RiseByClock(obs, sustainMs, n, s);
    }
  }

  /** The grade held is never better than the grade of the latest score. */
  lemma NeverFlatters(obs: seq<Observation>, sustainMs: nat)
    requires obs != []
    ensures !Better(After(obs, sustainMs).grade, GradeFor(obs[|obs| - 1].score, DEFAULT_MODEL))
  {
    ClockIsLastSettled(obs, sustainMs, |obs| - 1);
  }

  /** A rise does not restart the sustain clock: the next observation that improves again
      raises the grade at once, on no more evidence than itself. */
  lemma RisesChain(obs: seq<Observation>, sustainMs: nat, n: nat)
    requires Ordered(obs) && n + 1 < |obs|
    requires RisesAt(obs, sustainMs, n) && ImprovedAt(obs, sustainMs, n + 1)
    ensures RisesAt(obs, sustainMs, n + 1)
  {
    RisesIff(obs, sustainMs, n);
    RisesIff(obs, sustainMs, n + 1);
    assert obs[n].at <= obs[n + 1].at;
  }

  /** The exact grade after each observation: that of its score, unless it improved too soon. However
      many grades a rise skips, and though that grade was never seen before. */
  lemma GradeAfter(obs: seq<Observation>, sustainMs: nat, n: nat)
    requires Ordered(obs) && n < |obs|
    ensures After(obs[..n + 1], sustainMs).grade
            == if ImprovedAt(obs, sustainMs, n) && !WindowImproved(obs, sustainMs, n)
               then After(obs[..n], sustainMs).grade else GradeFor(obs[n].score, DEFAULT_MODEL)
  {
    RisesIff(obs, sustainMs, n);
    ClockIsLastSettled(obs, sustainMs, n);
    assert obs[..n + 1][..n] == obs[..n] && obs[..n + 1][n] == obs[n];
  }

  function Recovery(): seq<Observation> {
    [Observation(10.0, 0), Observation(10.0, 0), Observation(35.0, 3_000), Observation(70.0, 3_000)]
  }

  lemma RecoveryGrades()
    ensures After(Recovery()[..2], 3_000) == Tracker(DEFAULT_MODEL, Critical, Some(0))
    ensures After(Recovery()[..3], 3_000) == Tracker(DEFAULT_MODEL, Poor, Some(0))
    ensures After(Recovery()[..4], 3_000) == Tracker(DEFAULT_MODEL, Good, Some(0))
  {
    var obs := Recovery();
    AfterNext(obs, 0);
    AfterNext(obs, 1);
    AfterNext(obs, 2);
    AfterNext(obs, 3);
    assert obs[..0] == [];
  }

  lemma AfterNext(obs: seq<Observation>, n: nat)
    requires n < |obs|
    ensures After(obs[..n + 1], 3_000) == Observed(After(obs[..n], 3_000), obs[n].score, obs[n].at, 3_000)
  {
    assert obs[..n + 1][..n] == obs[..n] && obs[..n + 1][n] == obs[n];
  }

  /** A history in which the grade rises twice at one instant, the second time on one observation. */
  lemma RisesTwiceAtOnce()
    ensures Ordered(Recovery()) && Recovery()[2].at == Recovery()[3].at
    ensures RisesAt(Recovery(), 3_000, 2) && RisesAt(Recovery(), 3_000, 3)
    ensures After(Recovery(), 3_000).grade == Good
  {
    RecoveryGrades();
    assert Recovery()[..4] == Recovery();
  }
}
