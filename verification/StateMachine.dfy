/** Per-transport health (crates/radin-core/src/state.rs). */
module StateMachine {
  import opened Common

  datatype Health = Healthy | Degraded | Failing | Failed | Recovering

  datatype Config = Config(degradedAfter: nat, failingAfter: nat, failedAfter: nat, recoverAfter: nat)

  const DEFAULT := Config(2, 3, 5, 2)

  datatype Machine = Machine(cfg: Config, state: Health, failures: nat, successes: nat)

  function Fresh(cfg: Config): Machine { Machine(cfg, Healthy, 0, 0) }

  // One failure moves at most one stage down.
  function Worsened(cfg: Config, state: Health, failures: nat): Health {
    match state
    case Healthy => if failures >= cfg.degradedAfter then Degraded else Healthy
    case Degraded => if failures >= cfg.failingAfter then Failing else Degraded
    case Failing => if failures >= cfg.failedAfter then Failed else Failing
    case _ => state
  }

  function AfterFailure(m: Machine): Machine {
    m.(successes := 0, failures := m.failures + 1, state := Worsened(m.cfg, m.state, m.failures + 1))
  }

  function AfterSuccess(m: Machine): Machine {
    if (m.state.Recovering? || m.state.Failed?) && m.successes + 1 < m.cfg.recoverAfter
    then m.(failures := 0, successes := m.successes + 1, state := Recovering)
    else m.(failures := 0, successes := 0, state := Healthy)
  }

  function RecoveryBegun(m: Machine): Machine { m.(state := Recovering, failures := 0, successes := 0) }

  class TransportStateMachine {
    const cfg: Config
    var state: Health
    var consecutiveFailures: nat
    var consecutiveSuccesses: nat

    ghost function View(): Machine
      reads this
    {
      Machine(cfg, state, consecutiveFailures, consecutiveSuccesses)
    }

    constructor (cfg: Config)
      ensures View() == Fresh(cfg)
    {
      this.cfg, state, consecutiveFailures, consecutiveSuccesses := cfg, Healthy, 0, 0;
    }

    method RecordFailure()
      modifies this
      ensures View() == AfterFailure(old(View()))
    {
      consecutiveSuccesses := 0;
      consecutiveFailures := consecutiveFailures + 1;
      var f := consecutiveFailures;
      match state {
        case Healthy => if f >= cfg.degradedAfter { state := Degraded; }
        case Degraded => if f >= cfg.failingAfter { state := Failing; }
        case Failing => if f >= cfg.failedAfter { state := Failed; }
        case _ =>
      }
    }

    method RecordSuccess()
      modifies this
      ensures View() == AfterSuccess(old(View()))
    {
      consecutiveFailures := 0;
      if state.Recovering? || state.Failed? {
        consecutiveSuccesses := consecutiveSuccesses + 1;
        if consecutiveSuccesses >= cfg.recoverAfter {
          state := Healthy;
          consecutiveSuccesses := 0;
        } else {
          state := Recovering;
        }
      } else {
        consecutiveSuccesses := 0;
        state := Healthy;
      }
    }

    method BeginRecovery()
      modifies this
      ensures View() == RecoveryBegun(old(View()))
    {
      state := Recovering;
      consecutiveFailures := 0;
      consecutiveSuccesses := 0;
    }
  }

  function Failures(m: Machine, n: nat): Machine {
    if n == 0 then m else AfterFailure(Failures(m, n - 1))
  }

  // The failure counts at which a healthy transport reaches each stage.
  function DegradedAt(cfg: Config): nat { Max(1, cfg.degradedAfter) }

  function FailingAt(cfg: Config): nat { Max(DegradedAt(cfg) + 1, cfg.failingAfter) }

  function FailedAt(cfg: Config): nat { Max(FailingAt(cfg) + 1, cfg.failedAfter) }

  /** Closed form of the state after n consecutive failures: stages are never skipped, so at
      least three failures are needed to fail whatever the thresholds. */
  lemma {:induction false} FailuresNeeded(cfg: Config, n: nat)
    ensures Failures(Fresh(cfg), n).failures == n && Failures(Fresh(cfg), n).cfg == cfg
    ensures Failures(Fresh(cfg), n).state ==
            if n >= FailedAt(cfg) then Failed
            else if n >= FailingAt(cfg) then Failing
            else if n >= DegradedAt(cfg) then Degraded
            else Healthy
    ensures FailedAt(cfg) >= 3
  {
    if n > 0 { FailuresNeeded(cfg, n - 1); }
  }

  /** A recovering transport never fails again by failures alone, however many. */
  lemma {:induction false} RecoveringNeverFails(m: Machine, n: nat)
    requires m.state.Recovering?
    ensures Failures(m, n).state.Recovering?
  {
    if n > 0 { RecoveringNeverFails(m, n - 1); }
  }

  function Successes(m: Machine, n: nat): Machine {
    if n == 0 then m else AfterSuccess(Successes(m, n - 1))
  }

  /** A recovering or failed transport is healthy again after exactly the required successes in
      a row, and one at least. */
  lemma {:induction false} SuccessesNeeded(m: Machine, n: nat)
    requires (m.state.Recovering? || m.state.Failed?) && m.successes == 0
    ensures Successes(m, n).cfg == m.cfg
    ensures Successes(m, n).state.Healthy? <==> n >= Max(1, m.cfg.recoverAfter)
    ensures 0 < n < Max(1, m.cfg.recoverAfter) ==> Successes(m, n).state.Recovering?
    ensures n < Max(1, m.cfg.recoverAfter) ==> Successes(m, n).successes == n
  {
    if n > 0 { SuccessesNeeded(m, n - 1); }
  }

  /** A recovery, begun in any state, ends after exactly the required successes however many
      failures come first, and not before. */
  lemma RecoveryTakes(m: Machine, failures: nat, n: nat)
    ensures var b := Failures(RecoveryBegun(m), failures);
            b.state.Recovering? && (Successes(b, n).state.Healthy? <==> n >= Max(1, m.cfg.recoverAfter))
  {
    RecoveringNeverFails(RecoveryBegun(m), failures);
    FailuresClearSuccesses(RecoveryBegun(m), failures);
    SuccessesNeeded(Failures(RecoveryBegun(m), failures), n);
  }

  /** The successes that end a recovery come in a row: a failure among them starts the count again. */
  lemma FailureRestartsRecovery(m: Machine, n: nat)
    requires m.state.Recovering?
    ensures Successes(AfterFailure(m), n).state.Healthy? <==> n >= Max(1, m.cfg.recoverAfter)
  {
    SuccessesNeeded(AfterFailure(m), n);
  }

  lemma {:induction false} FailuresClearSuccesses(m: Machine, n: nat)
    requires m.successes == 0
    ensures Failures(m, n).successes == 0 && Failures(m, n).cfg == m.cfg
  {
    if n > 0 { FailuresClearSuccesses(m, n - 1); }
  }

  // ---------------------------------------------------------------------
  // Runs

  datatype Op = Fail | Succeed

  function Run(m: Machine, ops: seq<Op>): Machine {
    if ops == [] then m else
      var before := Run(m, ops[..|ops| - 1]);
      if ops[|ops| - 1].Fail? then AfterFailure(before) else AfterSuccess(before)
  }

  function Repeat(op: Op, n: nat): (ops: seq<Op>)
    ensures |ops| == n && forall i | 0 <= i < n :: ops[i] == op
  {
    seq(n, i => op)
  }

  lemma RunSnoc(m: Machine, ops: seq<Op>, op: Op)
    ensures Run(m, ops + [op]) == if op.Fail? then AfterFailure(Run(m, ops)) else AfterSuccess(Run(m, ops))
  {
    assert (ops + [op])[..|ops|] == ops;
  }

  lemma {:induction false} RunFails(m: Machine, ops: seq<Op>, n: nat)
    ensures Run(m, ops + Repeat(Fail, n)) == Failures(Run(m, ops), n)
  {
    if n == 0 {
      assert ops + Repeat(Fail, 0) == ops;
    } else {
      RunFails(m, ops, n - 1);
      RunSnoc(m, ops + Repeat(Fail, n - 1), Fail);
      assert ops + Repeat(Fail, n) == (ops + Repeat(Fail, n - 1)) + [Fail];
    }
  }

  /** A success wipes out everything short of a failure: the machine is then as new, so the stage after
      n more failures is that of n failures of a fresh one. */
  lemma SuccessRestarts(cfg: Config, ops: seq<Op>, n: nat)
    requires Run(Fresh(cfg), ops).cfg == cfg
    requires !Run(Fresh(cfg), ops).state.Failed? && !Run(Fresh(cfg), ops).state.Recovering?
    ensures Run(Fresh(cfg), ops + [Succeed] + Repeat(Fail, n)) == Failures(Fresh(cfg), n)
  {
    RunSnoc(Fresh(cfg), ops, Succeed);
    RunFails(Fresh(cfg), ops + [Succeed], n);
  }

  lemma {:induction false} RunCfg(m: Machine, ops: seq<Op>)
    ensures Run(m, ops).cfg == m.cfg
    decreases |ops|
  {
    if ops != [] { RunCfg(m, ops[..|ops| - 1]); }
  }

  /** The default thresholds: degraded at two failures in a row, failing at three, failed at five, and
      healthy again two successes after that. */
  lemma DefaultStages(n: nat)
    ensures Run(Fresh(DEFAULT), Repeat(Fail, n)).state
            == if n < 2 then Healthy else if n < 3 then Degraded else if n < 5 then Failing else Failed
    ensures Run(Fresh(DEFAULT), Repeat(Fail, 5) + [Succeed]).state == Recovering
    ensures Run(Fresh(DEFAULT), Repeat(Fail, 5) + [Succeed] + [Succeed]).state == Healthy
  {
    RunFails(Fresh(DEFAULT), [], n);
    assert [] + Repeat(Fail, n) == Repeat(Fail, n);
    FailuresNeeded(DEFAULT, n);
    RunFails(Fresh(DEFAULT), [], 5);
    assert [] + Repeat(Fail, 5) == Repeat(Fail, 5);
    FailuresNeeded(DEFAULT, 5);
    RunSnoc(Fresh(DEFAULT), Repeat(Fail, 5), Succeed);
    RunSnoc(Fresh(DEFAULT), Repeat(Fail, 5) + [Succeed], Succeed);
    FailuresClearSuccesses(Fresh(DEFAULT), 5);
  }
}
