/** Circuit breakers (crates/radin-core/src/circuit.rs). */
module Circuit {
  import opened Common

  datatype State = Closed | Open(until: nat) | HalfOpen

  datatype Config = Config(failureThreshold: nat, openCooldownMs: nat, requiredSuccesses: nat)

  const DEFAULT := Config(3, 5_000, 2)

  datatype Breaker = Breaker(cfg: Config, state: State, failures: nat, successes: nat, trips: nat)

  function Fresh(cfg: Config): Breaker { Breaker(cfg, Closed, 0, 0, 0) }

  predicate Refuses(b: Breaker, now: nat) { b.state.Open? && now < b.state.until }

  // `allow`: past its cooldown an open breaker starts a trial.
  function Asked(b: Breaker, now: nat): Breaker {
    if b.state.Open? && b.state.until <= now then b.(state := HalfOpen, successes := 0) else b
  }

  function Succeeded(b: Breaker): Breaker {
    if b.state.HalfOpen? && b.successes + 1 < b.cfg.requiredSuccesses
    then b.(failures := 0, successes := b.successes + 1)
    else b.(state := Closed, failures := 0, successes := 0)
  }

  predicate Trips(b: Breaker) {
    b.state.HalfOpen? || (b.state.Closed? && b.failures + 1 >= b.cfg.failureThreshold)
  }

  function Failed(b: Breaker, now: nat): Breaker {
    b.(failures := b.failures + 1, successes := 0,
       state := if Trips(b) then Open(now + b.cfg.openCooldownMs) else b.state,
       trips := b.trips + if Trips(b) then 1 else 0)
  }

  class CircuitBreaker {
    const cfg: Config
    var state: State
    var consecutiveFailures: nat
    var halfOpenSuccesses: nat
    var tripCount: nat

    ghost function View(): Breaker
      reads this
    {
      Breaker(cfg, state, consecutiveFailures, halfOpenSuccesses, tripCount)
    }

    constructor (cfg: Config)
      ensures View() == Fresh(cfg)
    {
      this.cfg, state, consecutiveFailures, halfOpenSuccesses, tripCount := cfg, Closed, 0, 0, 0;
    }

    method Allow(now: nat) returns (ok: bool)
      modifies this
      ensures View() == Asked(old(View()), now)
      ensures ok == !Refuses(old(View()), now) && (!ok <==> old(state).Open? && now < old(state).until)
      ensures state == if ok && old(state).Open? then HalfOpen else old(state)
    {
      match state
      case Closed => ok := true;
      case HalfOpen => ok := true;
      case Open(until) =>
        ok := now >= until;
        if ok {
          state := HalfOpen;
          halfOpenSuccesses := 0;
        }
    }

    method RecordSuccess()
      modifies this
      ensures View() == Succeeded(old(View())) && consecutiveFailures == 0 && tripCount == old(tripCount)
      ensures state == HalfOpen <==> old(state).HalfOpen? && old(halfOpenSuccesses) + 1 < cfg.requiredSuccesses
      ensures state.HalfOpen? || state.Closed?
    {
      consecutiveFailures := 0;
      if state.HalfOpen? {
        halfOpenSuccesses := halfOpenSuccesses + 1;
        if halfOpenSuccesses >= cfg.requiredSuccesses {
          state := Closed;
          halfOpenSuccesses := 0;
        }
      } else {
        state := Closed;
        halfOpenSuccesses := 0;
      }
    }

    method RecordFailure(now: nat)
      modifies this
      ensures View() == Failed(old(View()), now) && consecutiveFailures == old(consecutiveFailures) + 1
      ensures halfOpenSuccesses == 0
      ensures old(state).HalfOpen? ==> state == Open(now + cfg.openCooldownMs) && tripCount == old(tripCount) + 1
      ensures old(state).Open? ==> state == old(state) && tripCount == old(tripCount)
    {
      consecutiveFailures := consecutiveFailures + 1;
      halfOpenSuccesses := 0;
      if state.HalfOpen? || (state.Closed? && consecutiveFailures >= cfg.failureThreshold) {
        tripCount := tripCount + 1;
        state := Open(now + cfg.openCooldownMs);
      }
    }
  }

  // ---------------------------------------------------------------------
  // Runs

  datatype Op = Ask(at: nat) | Success | Failure(at: nat)

  function Step(b: Breaker, op: Op): Breaker {
    match op
    case Ask(now) => Asked(b, now)
    case Success => Succeeded(b)
    case Failure(now) => Failed(b, now)
  }

  function Run(b: Breaker, ops: seq<Op>): Breaker {
    if ops == [] then b else Step(Run(b, ops[..|ops| - 1]), ops[|ops| - 1])
  }

  // The times of the trips of a run.
  function TripTimes(b: Breaker, ops: seq<Op>): seq<nat> {
    if ops == [] then [] else
      var init, op := ops[..|ops| - 1], ops[|ops| - 1];
      TripTimes(b, init) + if op.Failure? && Trips(Run(b, init)) then [op.at] else []
  }

  // Reachable states: closed means fewer failures than trip it, half-open fewer successes than close it.
  predicate Consistent(b: Breaker) {
    && (b.state.Closed? ==> b.failures < Max(1, b.cfg.failureThreshold))
    && (b.state.HalfOpen? ==> b.successes < Max(1, b.cfg.requiredSuccesses))
  }

  /** Every run keeps the counters below their thresholds and counts each trip once. */
  lemma {:induction false} RunConsistent(b: Breaker, ops: seq<Op>)
    requires Consistent(b)
    ensures Consistent(Run(b, ops)) && Run(b, ops).cfg == b.cfg
    ensures Run(b, ops).trips == b.trips + |TripTimes(b, ops)|
    decreases |ops|
  {
    if ops != [] { RunConsistent(b, ops[..|ops| - 1]); }
  }

  // A stretch without a success, on a clock that never runs backwards.
  ghost predicate Steady(ops: seq<Op>) {
    && (forall i | 0 <= i < |ops| :: !ops[i].Success?)
    && (forall i, j | 0 <= i < j < |ops| :: ops[i].at <= ops[j].at)
  }

  function LastAt(ops: seq<Op>): nat { TimeOf(ops, |ops|) }

  // After a trip and no success the breaker is open for the cooldown, or its cooldown is over.
  ghost predicate CoolsDown(b: Breaker, trips: seq<nat>, now: nat) {
    trips != [] ==>
      var last := trips[|trips| - 1];
      && last <= now
      && (forall t | t in trips :: t <= last)
      && (b.state == Open(last + b.cfg.openCooldownMs) || (b.state.HalfOpen? && last + b.cfg.openCooldownMs <= now))
  }

  predicate Spaced(trips: seq<nat>, c: nat) { forall i, j | 0 <= i < j < |trips| :: trips[j] >= trips[i] + c }

  lemma StepCoolsDown(b: Breaker, op: Op, trips: seq<nat>, before: nat)
    requires !op.Success? && before <= op.at && CoolsDown(b, trips, before) && Spaced(trips, b.cfg.openCooldownMs)
    ensures var trips' := trips + if op.Failure? && Trips(b) then [op.at] else [];
            Step(b, op).cfg == b.cfg && CoolsDown(Step(b, op), trips', op.at) && Spaced(trips', b.cfg.openCooldownMs)
  {
    if op.Failure? && Trips(b) {
      forall t | t in trips ensures t + b.cfg.openCooldownMs <= op.at { assert t <= trips[|trips| - 1]; }
    }
  }

  lemma RunSnoc(b: Breaker, ops: seq<Op>, n: nat)
    requires n < |ops|
    ensures Run(b, ops[..n + 1]) == Step(Run(b, ops[..n]), ops[n])
    ensures TripTimes(b, ops[..n + 1])
            == TripTimes(b, ops[..n]) + if ops[n].Failure? && Trips(Run(b, ops[..n])) then [ops[n].at] else []
  {
    assert ops[..n + 1][..n] == ops[..n] && ops[..n + 1][n] == ops[n];
  }

  function TimeOf(ops: seq<Op>, n: nat): nat
    requires n <= |ops|
  {
    if n == 0 || ops[n - 1].Success? then 0 else ops[n - 1].at
  }

  ghost predicate TripsFit(cfg: Config, b: Breaker, trips: seq<nat>, now: nat) {
    b.cfg == cfg && CoolsDown(b, trips, now) && Spaced(trips, cfg.openCooldownMs)
  }

  lemma {:induction false} TripsAreSpaced(b: Breaker, ops: seq<Op>, n: nat)
    requires Steady(ops) && n <= |ops|
    ensures TripsFit(b.cfg, Run(b, ops[..n]), TripTimes(b, ops[..n]), TimeOf(ops, n))
  {
    if n > 0 {
      TripsAreSpaced(b, ops, n - 1);
      RunSnoc(b, ops, n - 1);
      StepCoolsDown(Run(b, ops[..n - 1]), ops[n - 1], TripTimes(b, ops[..n - 1]), TimeOf(ops, n - 1));
    }
  }

  /** Between two successes, on a clock that never runs backwards, the cooldowns of all trips
      but the last fit between the first trip and the last operation. */
  lemma TripRate(b: Breaker, ops: seq<Op>)
    requires Steady(ops) && TripTimes(b, ops) != []
    ensures TripTimes(b, ops)[0] + (|TripTimes(b, ops)| - 1) * b.cfg.openCooldownMs <= LastAt(ops)
  {
    TripsAreSpaced(b, ops, |ops|);
    assert ops[..|ops|] == ops;
    SpacedSpan(TripTimes(b, ops), b.cfg.openCooldownMs, |TripTimes(b, ops)| - 1);
  }

  lemma {:induction false} SpacedSpan(trips: seq<nat>, c: nat, n: nat)
    requires n < |trips| && Spaced(trips, c)
    ensures trips[n] >= trips[0] + n * c
  {
    if n > 0 { SpacedSpan(trips, c, n - 1); }
  }

  function Successes(b: Breaker, n: nat): Breaker { if n == 0 then b else Succeeded(Successes(b, n - 1)) }

  // Failures at the given times.
  function FailuresAt(at: seq<nat>): (ops: seq<Op>)
    ensures |ops| == |at| && forall i | 0 <= i < |at| :: ops[i] == Failure(at[i])
  {
    seq(|at|, i requires 0 <= i < |at| => Failure(at[i]))
  }

  /** A fresh breaker opens at exactly the threshold of consecutive failures, one at least, until the
      cooldown after the failure that tripped it; failures after that, whenever, do not move its end. */
  lemma {:induction false} FailuresToTrip(cfg: Config, at: seq<nat>)
    ensures var b, threshold := Run(Fresh(cfg), FailuresAt(at)), Max(1, cfg.failureThreshold);
            && b.cfg == cfg && b.failures == |at|
            && b.state == (if |at| < threshold then Closed else Open(at[threshold - 1] + cfg.openCooldownMs))
            && b.trips == if |at| < threshold then 0 else 1
    decreases |at|
  {
    if at != [] {
      var init := at[..|at| - 1];
      FailuresToTrip(cfg, init);
      assert FailuresAt(at)[..|at| - 1] == FailuresAt(init);
    }
  }

  /** A half-open breaker closes at exactly the required successes, one at least; an open one
      closes at the first success, whatever is left of its cooldown. */
  lemma {:induction false} SuccessesToClose(b: Breaker, n: nat)
    requires (b.state.HalfOpen? && b.successes == 0) || b.state.Open?
    ensures Successes(b, n).cfg == b.cfg
    ensures Successes(b, n).state.Closed? <==> n >= (if b.state.Open? then 1 else Max(1, b.cfg.requiredSuccesses))
    ensures b.state.HalfOpen? && n < Max(1, b.cfg.requiredSuccesses)
            ==> Successes(b, n).state.HalfOpen? && Successes(b, n).successes == n
    ensures n == 0 ==> Successes(b, n) == b
  {
    if n > 0 { SuccessesToClose(b, n - 1); }
  }

  // ---------------------------------------------------------------------
  // The answer

  // Operation k of a run is a failure that trips the breaker.
  predicate TripAt(b: Breaker, ops: seq<Op>, k: nat)
    requires k < |ops|
  {
    ops[k].Failure? && |TripTimes(b, ops[..k + 1])| > |TripTimes(b, ops[..k])|
  }

  // Operation j is no success, no further trip, and no ask once the cooldown of the trip at k is over.
  predicate LeavesShut(b: Breaker, ops: seq<Op>, k: nat, j: nat)
    requires k < |ops| && ops[k].Failure? && j < |ops|
  {
    && !ops[j].Success? && !TripAt(b, ops, j)
    && (ops[j].Ask? ==> ops[j].at < ops[k].at + b.cfg.openCooldownMs)
  }

  // The trip at k, with nothing after it that opens the breaker again or trips it anew.
  ghost predicate ShutSince(b: Breaker, ops: seq<Op>, k: nat) {
    k < |ops| && TripAt(b, ops, k) && forall j: nat | k < j < |ops| :: LeavesShut(b, ops, k, j)
  }

  // An ask at t comes before the cooldown of such a trip is over.
  ghost predicate Refused(b: Breaker, ops: seq<Op>, t: nat) {
    exists k | 0 <= k < |ops| :: ShutSince(b, ops, k) && t < ops[k].at + b.cfg.openCooldownMs
  }

  lemma TripIsLast(b: Breaker, ops: seq<Op>)
    requires ops != []
    ensures var init, op := ops[..|ops| - 1], ops[|ops| - 1];
            TripAt(b, ops, |ops| - 1) <==> op.Failure? && Trips(Run(b, init))
  {
    assert ops[..|ops|] == ops;
  }

  lemma TripInPrefix(b: Breaker, ops: seq<Op>, k: nat)
    requires k + 1 < |ops|
    ensures TripAt(b, ops, k) <==> TripAt(b, ops[..|ops| - 1], k)
  {
    var init := ops[..|ops| - 1];
    assert init[..k + 1] == ops[..k + 1] && init[..k] == ops[..k];
  }

  lemma ShutInPrefix(b: Breaker, ops: seq<Op>, k: nat)
    requires k + 1 < |ops|
    ensures var n := |ops| - 1;
            ShutSince(b, ops, k) <==> ShutSince(b, ops[..n], k) && ops[k].Failure? && LeavesShut(b, ops, k, n)
  {
    var n := |ops| - 1;
    TripInPrefix(b, ops, k);
    if ops[k].Failure? {
      forall j: nat | j < n ensures LeavesShut(b, ops, k, j) <==> LeavesShut(b, ops[..n], k, j) {
        TripInPrefix(b, ops, j);
      }
    }
  }

  // The state of a breaker is open exactly when a trip has shut it, and until when.
  ghost predicate ShutFor(b: Breaker, ops: seq<Op>, state: State) {
    && (forall k | 0 <= k < |ops| && ShutSince(b, ops, k) :: state == Open(ops[k].at + b.cfg.openCooldownMs))
    && (state.Open? ==> exists k | 0 <= k < |ops| :: ShutSince(b, ops, k))
  }

  // What the last operation leaves of an earlier trip.
  lemma ShutAfter(b: Breaker, ops: seq<Op>, k: nat)
    requires ops != []
    ensures var n, op := |ops| - 1, ops[|ops| - 1];
            && (k < n ==> (ShutSince(b, ops, k)
                           <==> && ShutSince(b, ops[..n], k) && !op.Success?
                                && !(op.Failure? && Trips(Run(b, ops[..n])))
                                && (op.Ask? ==> op.at < ops[k].at + b.cfg.openCooldownMs)))
            && (k == n ==> (ShutSince(b, ops, k) <==> op.Failure? && Trips(Run(b, ops[..n]))))
  {
    TripIsLast(b, ops);
    if k < |ops| - 1 { ShutInPrefix(b, ops, k); }
  }

  // The states a breaker may pass to, as seen from outside.
  lemma StepState(b: Breaker, op: Op)
    ensures op.Success? ==> !Step(b, op).state.Open?
    ensures op.Failure? ==> Step(b, op).state == if Trips(b) then Open(op.at + b.cfg.openCooldownMs) else b.state
    ensures op.Ask? ==> Step(b, op).state == if b.state.Open? && b.state.until <= op.at then HalfOpen else b.state
  {
  }

  lemma ShutStep(b: Breaker, ops: seq<Op>)
    requires ops != [] && Run(b, ops[..|ops| - 1]).cfg == b.cfg
    requires ShutFor(b, ops[..|ops| - 1], Run(b, ops[..|ops| - 1]).state)
    ensures ShutFor(b, ops, Run(b, ops).state)
  {
    var n := |ops| - 1;
    var init, op := ops[..n], ops[n];
    StepState(Run(b, init), op);
    var state, state' := Run(b, init).state, Run(b, ops).state;
    forall k: nat | k < |ops| && ShutSince(b, ops, k) ensures state' == Open(ops[k].at + b.cfg.openCooldownMs) {
      ShutAfter(b, ops, k);
      if k < n { assert state == Open(init[k].at + b.cfg.openCooldownMs); }
    }
    if state'.Open? {
      ShutAfter(b, ops, n);
      if !(op.Failure? && Trips(Run(b, init))) {
        var k :| 0 <= k < |init| && ShutSince(b, init, k);
        ShutAfter(b, ops, k);
        assert state == Open(init[k].at + b.cfg.openCooldownMs);
        assert ShutSince(b, ops, k);
      }
    }
  }

  lemma {:induction false} RunShut(b: Breaker, ops: seq<Op>)
    requires !b.state.Open?
    ensures ShutFor(b, ops, Run(b, ops).state) && Run(b, ops).cfg == b.cfg
    decreases |ops|
  {
    if ops != [] {
      RunShut(b, ops[..|ops| - 1]);
      ShutStep(b, ops);
    }
  }

  /** Over every run an ask at t is refused exactly when the last trip was less than the cooldown before
      t, with no success since and no ask since that came after the cooldown. */
  lemma RefusedIff(b: Breaker, ops: seq<Op>, t: nat)
    requires !b.state.Open?
    ensures Refuses(Run(b, ops), t) <==> Refused(b, ops, t)
  {
    RunShut(b, ops);
    if Refuses(Run(b, ops), t) {
      var k :| 0 <= k < |ops| && ShutSince(b, ops, k);
    }
  }

  /** With the default settings: two failures leave a fresh breaker closed, the third opens it, and a
      trial is let through from five seconds after that on. */
  lemma DefaultBreaker(a: nat, b: nat, c: nat, t: nat)
    ensures Run(Fresh(DEFAULT), FailuresAt([a, b])).state == Closed
    ensures Refuses(Run(Fresh(DEFAULT), FailuresAt([a, b, c])), t) <==> t < c + 5_000
    ensures t >= c + 5_000 ==> Asked(Run(Fresh(DEFAULT), FailuresAt([a, b, c])), t).state == HalfOpen
  {
    FailuresToTrip(DEFAULT, [a, b]);
    FailuresToTrip(DEFAULT, [a, b, c]);
  }
}
