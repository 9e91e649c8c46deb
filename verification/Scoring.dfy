/** Route scores (crates/radin-core/src/scoring.rs, transport.rs). */
module Scoring {
  import opened Common
  import opened Model

  // The weight sum at or below which the defaults apply: the spacing of floats at one.
  const EPSILON := 1.0 / 4503599627370496.0

  datatype Weights = Weights(latency: real, jitter: real, loss: real, stability: real, handshake: real)

  const DEFAULT := Weights(0.30, 0.20, 0.30, 0.15, 0.05)

  function Sum(w: Weights): real { w.latency + w.jitter + w.loss + w.stability + w.handshake }

  function Normalize(w: Weights): Weights {
    var s := Sum(w);
    if s <= EPSILON then DEFAULT
    else Weights(w.latency / s, w.jitter / s, w.loss / s, w.stability / s, w.handshake / s)
  }

  // The power curve of the loss score strictly between no loss and half: any decreasing map into [0, 1].
  ghost predicate IsLossCurve(f: real -> real) {
    && (forall x: real | 0.0 < x < 0.5 :: 0.0 <= f(x) <= 1.0)
    && (forall x: real, y: real | 0.0 < x <= y < 0.5 :: f(y) <= f(x))
  }

  type LossCurve = f: real -> real | IsLossCurve(f) witness (x => 0.0)

  function LatencyScore(ms: real): real { if ms <= 0.0 then 1.0 else 1.0 / (1.0 + ms / 100.0) }

  function JitterScore(ms: real): real { if ms <= 0.0 then 1.0 else 1.0 / (1.0 + ms / 10.0) }

  function LossScore(curve: LossCurve, ratio: real): real {
    if ratio <= 0.0 then 1.0 else if ratio >= 0.5 then 0.0 else curve(ratio)
  }

  function StabilityScore(s: real): real { if s < 0.0 then 0.0 else if s > 1.0 then 1.0 else s }

  function HandshakeScore(ms: real): real { if ms <= 50.0 then 1.0 else 1.0 / (1.0 + (ms - 50.0) / 250.0) }

  function Breakdown(curve: LossCurve, m: Metrics): Weights {
    Weights(LatencyScore(m.latency), JitterScore(m.jitter), LossScore(curve, m.loss),
            StabilityScore(m.stability), HandshakeScore(m.handshake))
  }

  function Raw(w: Weights, sub: Weights): real {
    w.latency * sub.latency + w.jitter * sub.jitter + w.loss * sub.loss
    + w.stability * sub.stability + w.handshake * sub.handshake
  }

  function Score(curve: LossCurve, w: Weights, m: Metrics): real {
    var raw := Raw(Normalize(w), Breakdown(curve, m)) * 100.0;
    if raw < 0.0 then 0.0 else if raw > 100.0 then 100.0 else raw
  }

  // `score_all`: every candidate gets its score; a synthetic one is refused unless allowed.
  function Scored(curve: LossCurve, w: Weights, cs: seq<RouteCandidate>): (r: seq<RouteCandidate>)
    ensures |r| == |cs|
    ensures forall i | 0 <= i < |cs| :: r[i] == cs[i].(score := Some(Score(curve, w, cs[i].metrics)))
  {
    seq(|cs|, i requires 0 <= i < |cs| => cs[i].(score := Some(Score(curve, w, cs[i].metrics))))
  }

  method ScoreAll(curve: LossCurve, w: Weights, cs: seq<RouteCandidate>, allowSynthetic: bool)
    returns (r: seq<RouteCandidate>, ok: bool)
    ensures ok <==> allowSynthetic || forall c | c in cs :: c.source.Real?
    ensures ok ==> r == Scored(curve, w, cs)
  {
    r := cs;
    for i := 0 to |cs|
      invariant |r| == |cs|
      invariant allowSynthetic || forall j | 0 <= j < i :: cs[j].source.Real?
      invariant forall j | 0 <= j < |cs| :: r[j] == if j < i then Scored(curve, w, cs)[j] else cs[j]
    {
      if cs[i].source.Synthetic? && !allowSynthetic {
        assert cs[i] in cs;
        return r, false;
      }
      r := r[i := cs[i].(score := Some(Score(curve, w, cs[i].metrics)))];
    }
    ok := true;
  }

  // ---------------------------------------------------------------------
  // Properties

  predicate Nonnegative(w: Weights) {
    w.latency >= 0.0 && w.jitter >= 0.0 && w.loss >= 0.0 && w.stability >= 0.0 && w.handshake >= 0.0
  }

  // Component-wise order.
  predicate NoWorse(a: Weights, b: Weights) {
    && a.latency >= b.latency && a.jitter >= b.jitter && a.loss >= b.loss
    && a.stability >= b.stability && a.handshake >= b.handshake
  }

  lemma Quotients(a: real, b: real, c: real, d: real, e: real, s: real)
    requires s > 0.0 && s == a + b + c + d + e
    ensures a / s + b / s + c / s + d / s + e / s == 1.0
  {
    assert a / s + b / s + c / s + d / s + e / s == (a + b + c + d + e) / s;
  }

  /** Normalized weights sum to one, and are non-negative when the given ones are. */
  lemma NormalizedSum(w: Weights)
    ensures Sum(Normalize(w)) == 1.0
    ensures Nonnegative(w) ==> Nonnegative(Normalize(w))
  {
    var s := Sum(w);
    if s > EPSILON {
      Quotients(w.latency, w.jitter, w.loss, w.stability, w.handshake, s);
      if Nonnegative(w) {
        QuotientNonneg(w.latency, s);
        QuotientNonneg(w.jitter, s);
        QuotientNonneg(w.loss, s);
        QuotientNonneg(w.stability, s);
        QuotientNonneg(w.handshake, s);
      }
    }
  }

  lemma QuotientNonneg(x: real, s: real)
    requires x >= 0.0 && s > 0.0
    ensures x / s >= 0.0
  {
  }

  lemma Hyperbola(x: real, y: real)
    requires 0.0 <= x <= y
    ensures 0.0 < 1.0 / (1.0 + y) <= 1.0 / (1.0 + x) <= 1.0
  {
  }

  ghost predicate InUnit(s: Weights) { NoWorse(Weights(1.0, 1.0, 1.0, 1.0, 1.0), s) && Nonnegative(s) }

  // At least as good on each of the five metrics that are scored.
  predicate Dominates(a: Metrics, b: Metrics) {
    && a.latency <= b.latency && a.jitter <= b.jitter && a.loss <= b.loss
    && a.stability >= b.stability && a.handshake <= b.handshake
  }

  lemma BreakdownMonotone(curve: LossCurve, a: Metrics, b: Metrics)
    requires Dominates(a, b)
    ensures NoWorse(Breakdown(curve, a), Breakdown(curve, b))
    ensures InUnit(Breakdown(curve, a))
  {
    LatencyMonotone(a.latency, b.latency);
    JitterMonotone(a.jitter, b.jitter);
    HandshakeMonotone(a.handshake, b.handshake);
  }

  lemma LatencyMonotone(x: real, y: real)
    requires x <= y
    ensures LatencyScore(y) <= LatencyScore(x) && 0.0 <= LatencyScore(x) <= 1.0
  {
    if x > 0.0 { Hyperbola(x / 100.0, y / 100.0); } else if y > 0.0 { Hyperbola(0.0, y / 100.0); }
  }

  lemma JitterMonotone(x: real, y: real)
    requires x <= y
    ensures JitterScore(y) <= JitterScore(x) && 0.0 <= JitterScore(x) <= 1.0
  {
    if x > 0.0 { Hyperbola(x / 10.0, y / 10.0); } else if y > 0.0 { Hyperbola(0.0, y / 10.0); }
  }

  lemma HandshakeMonotone(x: real, y: real)
    requires x <= y
    ensures HandshakeScore(y) <= HandshakeScore(x) && 0.0 <= HandshakeScore(x) <= 1.0
  {
    if x > 50.0 { Hyperbola((x - 50.0) / 250.0, (y - 50.0) / 250.0); }
    else if y > 50.0 { Hyperbola(0.0, (y - 50.0) / 250.0); }
  }

  lemma WeightedMonotone(w: real, a: real, b: real)
    requires w >= 0.0 && a >= b
    ensures w * a >= w * b
  {
  }

  lemma RawMonotone(w: Weights, a: Weights, b: Weights)
    requires Nonnegative(w) && NoWorse(a, b)
    ensures Raw(w, a) >= Raw(w, b)
  {
    WeightedMonotone(w.latency, a.latency, b.latency);
    WeightedMonotone(w.jitter, a.jitter, b.jitter);
    WeightedMonotone(w.loss, a.loss, b.loss);
    WeightedMonotone(w.stability, a.stability, b.stability);
    WeightedMonotone(w.handshake, a.handshake, b.handshake);
  }

  /** With non-negative weights the score is in [0, 100] before it is clamped, and a route
      that is no worse on all five metrics never scores lower. */
  lemma ScoreMonotone(curve: LossCurve, w: Weights, a: Metrics, b: Metrics)
    requires Nonnegative(w) && Dominates(a, b)
    ensures Score(curve, w, a) >= Score(curve, w, b)
    ensures Score(curve, w, a) == Raw(Normalize(w), Breakdown(curve, a)) * 100.0
  {
    var n, sub := Normalize(w), Breakdown(curve, a);
    NormalizedSum(w);
    BreakdownMonotone(curve, a, b);
    BreakdownMonotone(curve, b, b);
    RawMonotone(n, sub, Breakdown(curve, b));
    RawMonotone(n, sub, Weights(0.0, 0.0, 0.0, 0.0, 0.0));
    RawMonotone(n, Weights(1.0, 1.0, 1.0, 1.0, 1.0), sub);
    assert Raw(n, Weights(1.0, 1.0, 1.0, 1.0, 1.0)) == Sum(n);
  }

  function Times(w: Weights, k: real): Weights {
    Weights(w.latency * k, w.jitter * k, w.loss * k, w.stability * k, w.handshake * k)
  }

  lemma QuotientScaled(x: real, s: real, k: real, t: real)
    requires s > 0.0 && k > 0.0 && t == s * k && t > 0.0
    ensures (x * k) / t == x / s
  {
    var q := x / s;
    assert x == q * s;
    assert x * k == q * t;
  }

  lemma SumTimes(w: Weights, k: real)
    ensures Sum(Times(w, k)) == Sum(w) * k
  {
    assert Sum(w) * k == w.latency * k + w.jitter * k + w.loss * k + w.stability * k + w.handshake * k;
  }

  lemma NormalizeTimes(w: Weights, k: real)
    requires k > 0.0 && Sum(w) > EPSILON && Sum(Times(w, k)) > EPSILON
    ensures Normalize(Times(w, k)) == Normalize(w)
  {
    var s, t, v := Sum(w), Sum(Times(w, k)), Times(w, k);
    SumTimes(w, k);
    assert v.latency / t == w.latency / s by { QuotientScaled(w.latency, s, k, t); }
    assert v.jitter / t == w.jitter / s by { QuotientScaled(w.jitter, s, k, t); }
    assert v.loss / t == w.loss / s by { QuotientScaled(w.loss, s, k, t); }
    assert v.stability / t == w.stability / s by { QuotientScaled(w.stability, s, k, t); }
    assert v.handshake / t == w.handshake / s by { QuotientScaled(w.handshake, s, k, t); }
  }

  /** Only the proportions of the weights matter: scaling them all changes no score, as long as
      the sum stays above the spacing of floats. */
  lemma ProportionsMatter(curve: LossCurve, w: Weights, k: real, m: Metrics)
    requires k > 0.0 && Sum(w) > EPSILON && Sum(Times(w, k)) > EPSILON
    ensures Score(curve, Times(w, k), m) == Score(curve, w, m)
  {
    NormalizeTimes(w, k);
  }

  lemma ShareOf(w: real, s: real, x: real)
    requires s > 0.0
    ensures w / s * x * s == w * x
  {
    var q := w / s;
    assert q * s == w;
    assert q * x * s == (q * s) * x;
  }

  lemma MeanOfFive(s: real, a: real, b: real, c: real, d: real, e: real)
    ensures (a + b + c + d + e) * s == a * s + b * s + c * s + d * s + e * s
  {
  }

  lemma RawShared(w: Weights, sub: Weights)
    requires Sum(w) > EPSILON
    ensures Raw(Normalize(w), sub) * Sum(w)
            == w.latency * sub.latency + w.jitter * sub.jitter + w.loss * sub.loss
               + w.stability * sub.stability + w.handshake * sub.handshake
  {
    var s, n := Sum(w), Normalize(w);
    ShareOf(w.latency, s, sub.latency);
    ShareOf(w.jitter, s, sub.jitter);
    ShareOf(w.loss, s, sub.loss);
    ShareOf(w.stability, s, sub.stability);
    ShareOf(w.handshake, s, sub.handshake);
    MeanOfFive(s, n.latency * sub.latency, n.jitter * sub.jitter, n.loss * sub.loss,
               n.stability * sub.stability, n.handshake * sub.handshake);
  }

  lemma ScoreIsRaw(curve: LossCurve, w: Weights, m: Metrics)
    requires Nonnegative(w)
    ensures Score(curve, w, m) == Raw(Normalize(w), Breakdown(curve, m)) * 100.0
  {
    ScoreMonotone(curve, w, m, m);
  }

  lemma TimesHundred(x: real, s: real, score: real, y: real)
    requires score == x * 100.0 && x * s == y
    ensures score * s == 100.0 * y
  {
    assert x * 100.0 * s == 100.0 * (x * s);
  }

  /** The score is the mean of the five sub-scores, each under its own weight. */
  lemma ScoreIsMean(curve: LossCurve, w: Weights, m: Metrics, sub: Weights)
    requires Nonnegative(w) && Sum(w) > EPSILON && sub == Breakdown(curve, m)
    ensures Score(curve, w, m) * Sum(w)
            == 100.0 * (w.latency * sub.latency + w.jitter * sub.jitter + w.loss * sub.loss
                        + w.stability * sub.stability + w.handshake * sub.handshake)
  {
    ScoreIsRaw(curve, w, m);
    SharedScore(w, sub, Score(curve, w, m));
  }

  lemma SharedScore(w: Weights, sub: Weights, score: real)
    requires Sum(w) > EPSILON && score == Raw(Normalize(w), sub) * 100.0
    ensures score * Sum(w)
            == 100.0 * (w.latency * sub.latency + w.jitter * sub.jitter + w.loss * sub.loss
                        + w.stability * sub.stability + w.handshake * sub.handshake)
  {
    RawShared(w, sub);
    TimesHundred(Raw(Normalize(w), sub), Sum(w), score,
                 w.latency * sub.latency + w.jitter * sub.jitter + w.loss * sub.loss
                 + w.stability * sub.stability + w.handshake * sub.handshake);
  }

  /** Under the default weights a full sub-score is worth 30, 20, 30, 15 and 5 points. */
  lemma DefaultScore(curve: LossCurve, m: Metrics)
    ensures Score(curve, DEFAULT, m)
            == 30.0 * LatencyScore(m.latency) + 20.0 * JitterScore(m.jitter) + 30.0 * LossScore(curve, m.loss)
               + 15.0 * StabilityScore(m.stability) + 5.0 * HandshakeScore(m.handshake)
  {
    assert Sum(DEFAULT) == 1.0;
    ScoreIsMean(curve, DEFAULT, m, Breakdown(curve, m));
  }

  // ---------------------------------------------------------------------
  // The curves

  lemma HyperbolaInverse(x: real, y: real)
    requires x > 0.0 && 0.0 < y < 1.0
    ensures 1.0 / (1.0 + x) == y <==> x == 1.0 / y - 1.0
  {
    var q := 1.0 / (1.0 + x);
    assert q * (1.0 + x) == 1.0;
    if q == y { assert 1.0 / y == 1.0 + x; }
    if x == 1.0 / y - 1.0 { assert 1.0 + x == 1.0 / y; }
  }

  lemma BeyondOne(y: real)
    requires 0.0 < y < 1.0
    ensures 1.0 / y > 1.0
  {
    var q := 1.0 / y;
    assert q * y == 1.0;
    if q <= 1.0 { WeightedMonotone(y, 1.0, q); }
  }

  /** Each curve takes every value between zero and one at exactly one place, the stability as it is, so at no other
      than 100 ms latency, 10 ms jitter and a 300 ms handshake is it one half. */
  lemma CurvesInvert(x: real, y: real)
    requires 0.0 < y < 1.0
    ensures LatencyScore(x) == y <==> x == 100.0 * (1.0 / y - 1.0)
    ensures JitterScore(x) == y <==> x == 10.0 * (1.0 / y - 1.0)
    ensures HandshakeScore(x) == y <==> x == 50.0 + 250.0 * (1.0 / y - 1.0)
    ensures StabilityScore(x) == y <==> x == y
  {
    BeyondOne(y);
    if x > 0.0 {
      HyperbolaInverse(x / 100.0, y);
      HyperbolaInverse(x / 10.0, y);
    }
    if x > 50.0 { HyperbolaInverse((x - 50.0) / 250.0, y); }
  }

  function Power(x: real, n: nat): real { if n == 0 then 1.0 else x * Power(x, n - 1) }

  lemma {:induction false} PowerMonotone(x: real, y: real, n: nat)
    requires 0.0 <= x <= y
    ensures 0.0 <= Power(x, n) <= Power(y, n)
    ensures n > 0 && x < y ==> Power(x, n) < Power(y, n)
    ensures x >= 1.0 ==> Power(x, n) >= 1.0
  {
    if n > 0 {
      PowerMonotone(x, y, n - 1);
      var p, q := Power(x, n - 1), Power(y, n - 1);
      WeightedMonotone(x, q, p);
      WeightedMonotone(q, y, x);
      WeightedMonotone(x, p, 0.0);
      if x < y { PowerPositive(x, y, n - 1); Grows(x, y, p, q); }
      if x >= 1.0 { WeightedMonotone(p, x, 1.0); }
    }
  }

  lemma {:induction false} PowerPositive(x: real, y: real, n: nat)
    requires 0.0 <= x < y
    ensures Power(y, n) > 0.0
  {
    if n > 0 { PowerPositive(x, y, n - 1); }
  }

  lemma Grows(x: real, y: real, p: real, q: real)
    requires 0.0 <= x < y && 0.0 <= p <= q && q > 0.0
    ensures x * p < y * q
  {
    WeightedMonotone(x, q, p);
    assert (y - x) * q > 0.0;
  }

  function Growth(ratio: real): real { 1.0 + ratio * 100.0 / 1.5 }

  // The code's loss curve, one over the 1.6th power of the growth: its fifth power times the
  // growth's eighth is one.
  ghost predicate IsPowerCurve(f: real -> real) {
    forall x: real | 0.0 < x < 0.5 :: f(x) >= 0.0 && Power(f(x), 5) * Power(Growth(x), 8) == 1.0
  }

  lemma PowerOrder(x: real, y: real, n: nat)
    requires x >= 0.0 && y >= 0.0 && n > 0
    ensures x < y <==> Power(x, n) < Power(y, n)
  {
    if x <= y { PowerMonotone(x, y, n); } else { PowerMonotone(y, x, n); }
  }

  lemma ProductPositive(x: real, y: real)
    requires x > 0.0 && y > 0.0
    ensures x * y > 0.0
  {
  }

  lemma Reciprocals(a: real, b: real, c: real, d: real)
    requires b > 0.0 && d > 0.0 && a * b == 1.0 && c * d == 1.0
    ensures a < c <==> d < b
  {
    ProductPositive(b, d);
    assert (c - a) * (b * d) == b - d;
    if a < c { ProductPositive(c - a, b * d); }
    if c < a { ProductPositive(a - c, b * d); }
  }

  lemma {:induction false} OnePower(n: nat)
    ensures Power(1.0, n) == 1.0
  {
    if n > 0 { OnePower(n - 1); }
  }

  /** The code's loss curve is decreasing and between zero and one, so what holds of every such
      curve holds of it. */
  lemma PowerCurveFits(f: real -> real)
    requires IsPowerCurve(f)
    ensures IsLossCurve(f)
  {
    OnePower(5);
    forall x: real, y: real | 0.0 < x <= y < 0.5 ensures 0.0 <= f(y) <= f(x) <= 1.0 {
      var p, q, g, h := Power(f(x), 5), Power(f(y), 5), Power(Growth(x), 8), Power(Growth(y), 8);
      PowerMonotone(Growth(x), Growth(y), 8);
      Reciprocals(p, g, q, h);
      Reciprocals(1.0, 1.0, p, g);
      PowerOrder(f(x), f(y), 5);
      PowerOrder(1.0, f(x), 5);
    }
  }

  lemma Powers(x: real)
    ensures Power(x, 5) == x * (x * (x * (x * x)))
    ensures Power(x, 8) == x * (x * (x * Power(x, 5)))
  {
    assert Power(x, 1) == x && Power(x, 2) == x * Power(x, 1);
    assert Power(x, 4) == x * Power(x, 3) && Power(x, 5) == x * Power(x, 4);
    assert Power(x, 6) == x * Power(x, 5) && Power(x, 7) == x * Power(x, 6) && Power(x, 8) == x * Power(x, 7);
  }

  /** The loss score is one half exactly where the eighth power of the growth is 32, which is
      below one percent; at the documented 1.5 percent it is under a third. */
  lemma HalfLoss(f: real -> real, x: real)
    requires IsPowerCurve(f) && 0.0 < x < 0.5
    ensures f(x) == 0.5 <==> Power(Growth(x), 8) == 32.0
    ensures x >= 0.01 ==> f(x) < 0.5
    ensures 0.32 < f(0.015) < 0.33
  {
    PowerMonotone(1.0, Growth(x), 8);
    HalfByPower(f(x), Power(Growth(x), 8));
    Powers(1.6);
    if x >= 0.01 { PowerMonotone(1.6, Growth(x), 8); }
    AtReference(f);
  }

  lemma HalfByPower(v: real, g: real)
    requires v >= 0.0 && g > 0.0 && Power(v, 5) * g == 1.0
    ensures v == 0.5 <==> g == 32.0
    ensures v < 0.5 <==> g > 32.0
  {
    Powers(0.5);
    var p := Power(v, 5);
    PowerOrder(v, 0.5, 5);
    PowerOrder(0.5, v, 5);
    Reciprocals(p, g, Power(0.5, 5), 32.0);
    Reciprocals(Power(0.5, 5), 32.0, p, g);
  }

  lemma AtReference(f: real -> real)
    requires IsPowerCurve(f)
    ensures 0.32 < f(0.015) < 0.33
  {
    var v := f(0.015);
    assert Growth(0.015) == 2.0;
    Powers(2.0);
    assert Power(2.0, 8) == 256.0;
    assert Power(v, 5) * 256.0 == 1.0;
    Powers(0.32);
    Powers(0.33);
    PowerOrder(0.32, v, 5);
    PowerOrder(v, 0.33, 5);
  }

  // ---------------------------------------------------------------------
  // Transport selection

  datatype Benchmark = Benchmark(
    transport: TransportKind, handshake: real, rtt: Measure, jitter: Measure, loss: real, reconnectMs: real,
    stability: real, source: MeasuredSource)

  function MetricsOf(r: Benchmark): Metrics {
    Metrics(r.rtt, r.jitter, r.loss, r.stability, r.handshake,
            if r.reconnectMs <= 0.0 then 0.0 else if r.reconnectMs < 1.0 then 60_000.0 else 60_000.0 / r.reconnectMs)
  }

  function Merit(curve: LossCurve, r: Benchmark): real { Score(curve, DEFAULT, MetricsOf(r)) }

  /** A measurement is worth its round trip, jitter, loss, stability and handshake, in these shares. */
  lemma MeritInFigures(curve: LossCurve, r: Benchmark)
    ensures Merit(curve, r)
            == 30.0 * LatencyScore(r.rtt) + 20.0 * JitterScore(r.jitter) + 30.0 * LossScore(curve, r.loss)
               + 15.0 * StabilityScore(r.stability) + 5.0 * HandshakeScore(r.handshake)
  {
    DefaultScore(curve, MetricsOf(r));
  }

  ghost predicate FirstBest(curve: LossCurve, results: seq<Benchmark>, n: nat, i: int) {
    && 0 <= i < n <= |results| && results[i].source.Real?
    && (forall j | 0 <= j < n && results[j].source.Real? :: Merit(curve, results[j]) <= Merit(curve, results[i]))
    && (forall j | 0 <= j < i && results[j].source.Real? :: Merit(curve, results[j]) < Merit(curve, results[i]))
  }

  /** The transport of the first real measurement of the highest score; none without one. */
  method SelectTransport(curve: LossCurve, results: seq<Benchmark>) returns (t: Option<TransportKind>)
    ensures t.None? <==> forall j | 0 <= j < |results| :: !results[j].source.Real?
    ensures t.Some? ==> exists i :: FirstBest(curve, results, |results|, i) && t.value == results[i].transport
  {
    var best: Option<(real, TransportKind)> := None;
    ghost var at: nat := 0;
    for k := 0 to |results|
      invariant best.None? ==> forall j | 0 <= j < k :: !results[j].source.Real?
      invariant best.Some? ==> FirstBest(curve, results, k, at)
                               && best.value == (Merit(curve, results[at]), results[at].transport)
    {
      var r := results[k];
      if r.source.Real? {
        var score := Score(curve, DEFAULT, MetricsOf(r));
        if best.None? || score > best.value.0 {
          best, at := Some((score, r.transport)), k;
        }
      }
    }
    t := if best.Some? then Some(best.value.1) else None;
  }
}
