/** Retry limits, termination of flushing and bounded waiting in the queue. */
module SyncProgress {
  import opened Common
  import opened Sync
  import opened SyncTheorems

  // A fresh item is always sent once, even under a limit of zero.
  function Limit(maxAttempts: nat): nat { Max(1, maxAttempts) }

  ghost predicate WithinLimit(items: seq<Item>, limit: nat) {
    forall it | it in items :: it.attempts <= limit && (Eligible(it) ==> it.attempts < limit)
  }

  lemma EachWithinLimit(items: seq<Item>, f: Item -> Item, limit: nat)
    requires forall it | it in items :: f(it).attempts <= limit && (Eligible(f(it)) ==> f(it).attempts < limit)
    ensures WithinLimit(Each(items, f), limit)
  {
    forall r | r in Each(items, f) ensures r.attempts <= limit && (Eligible(r) ==> r.attempts < limit) {
      var i :| 0 <= i < |items| && Each(items, f)[i] == r;
      assert items[i] in items;
    }
  }

  // Any call of the queue, with any batch: one never built, or resolved many times over.
  datatype Call =
    | Submit(op: ControlOp, now: nat)
    | Reconnected
    | Collect(maxOps: nat, now: nat)
    | Delivered(b: Batch)
    | Undelivered(b: Batch, error: string)
    | Forget

  function Answer(q: Queue, maxAttempts: nat, c: Call): Queue {
    match c
    case Submit(op, now) => Enqueued(q, op, now)
    case Reconnected => Recovered(q)
    case Collect(maxOps, now) => Built(q, maxOps, now)
    case Delivered(b) => Acked(q, b)
    case Undelivered(b, error) => FailedBatch(q, b, error, maxAttempts)
    case Forget => TelemetryDropped(q)
  }

  function Answers(q: Queue, maxAttempts: nat, calls: seq<Call>): Queue {
    if calls == [] then q
    else Answer(Answers(q, maxAttempts, calls[..|calls| - 1]), maxAttempts, calls[|calls| - 1])
  }

  lemma AnswerWithinLimit(q: Queue, maxAttempts: nat, c: Call)
    requires WithinLimit(q.items, Limit(maxAttempts))
    ensures WithinLimit(Answer(q, maxAttempts, c).items, Limit(maxAttempts))
  {
    var limit := Limit(maxAttempts);
    match c
    case Reconnected =>
      EachWithinLimit(q.items, (it: Item) => if it.state.LocalOnly? then it.(state := Pending) else it, limit);
    case Collect(maxOps, now) =>
      EachWithinLimit(q.items, SentIfIn(OpKeys(Taken(q.items, Max(maxOps, 1))), now), limit);
    case Undelivered(b, _) => EachWithinLimit(q.items, GivenUpOrRetrying(OpKeys(b.ops), maxAttempts), limit);
    case _ =>
  }

  /** From the empty queue, no item ever exceeds the limit, and none that reached it is eligible,
      whatever batches are acknowledged or failed, and however often. */
  lemma {:induction false} NeverOverLimit(maxAttempts: nat, calls: seq<Call>)
    ensures WithinLimit(Answers(EMPTY, maxAttempts, calls).items, Limit(maxAttempts))
    decreases |calls|
  {
    if calls != [] {
      NeverOverLimit(maxAttempts, calls[..|calls| - 1]);
      AnswerWithinLimit(Answers(EMPTY, maxAttempts, calls[..|calls| - 1]), maxAttempts, calls[|calls| - 1]);
    }
  }

  // An item knows when it was submitted, and when it was collected last if ever.
  ghost predicate Remembers(calls: seq<Call>, it: Item) {
    && Submit(it.op, it.queuedAt) in calls
    && (it.attempts == 0 <==> it.lastAttemptAt.None?)
    && (it.lastAttemptAt.Some? ==> exists c | c in calls :: c.Collect? && c.now == it.lastAttemptAt.value)
  }

  /** Over any calls: every item was submitted with its operation when it says, counts as attempted
      once it was collected, and was collected when it says. */
  lemma {:induction false} ItemsRemember(maxAttempts: nat, calls: seq<Call>)
    ensures forall it | it in Answers(EMPTY, maxAttempts, calls).items :: Remembers(calls, it)
    decreases |calls|
  {
    if calls != [] {
      var init, c := calls[..|calls| - 1], calls[|calls| - 1];
      ItemsRemember(maxAttempts, init);
      var q := Answers(EMPTY, maxAttempts, init);
      assert calls == init + [c];
      forall it | it in Answer(q, maxAttempts, c).items ensures Remembers(calls, it) {
        RemembersOn(q, maxAttempts, init, c, it);
      }
    }
  }

  lemma RemembersOn(q: Queue, maxAttempts: nat, calls: seq<Call>, c: Call, it: Item)
    requires forall x | x in q.items :: Remembers(calls, x)
    requires it in Answer(q, maxAttempts, c).items
    ensures Remembers(calls + [c], it)
  {
    if it !in q.items && !c.Submit? {
      var i :| 0 <= i < |q.items| && Answer(q, maxAttempts, c).items[i] == it;
      assert q.items[i] in q.items;
      assert c in calls + [c];
    }
  }

  // The call behind an event of a run.
  function CallOf(s: System, e: Event): Call
    requires Enabled(s, e)
  {
    match e
    case Enqueue(op, now) => Submit(op, now)
    case Recover => Reconnected
    case Build(maxOps, now) => Collect(maxOps, now)
    case Ack(i) => Delivered(s.flight[i])
    case Fail(i, error) => Undelivered(s.flight[i], error)
    case Drop => Forget
  }

  lemma StepWithinLimit(s: System, maxAttempts: nat, e: Event)
    requires Enabled(s, e) && WithinLimit(s.q.items, Limit(maxAttempts))
    ensures WithinLimit(Next(s, maxAttempts, e).q.items, Limit(maxAttempts))
  {
    AnswerWithinLimit(s.q, maxAttempts, CallOf(s, e));
  }

  lemma {:induction false} RunWithinLimit(s: System, maxAttempts: nat, events: seq<Event>)
    requires AllEnabled(s, maxAttempts, events) && WithinLimit(s.q.items, Limit(maxAttempts))
    ensures WithinLimit(Run(s, maxAttempts, events).q.items, Limit(maxAttempts))
    decreases |events|
  {
    if events != [] {
      StepWithinLimit(s, maxAttempts, events[0]);
      RunWithinLimit(Next(s, maxAttempts, events[0]), maxAttempts, events[1..]);
    }
  }

  const START := System(EMPTY, [], 0)

  // A state the queue gets into from empty.
  lemma Reached(maxAttempts: nat, past: seq<Event>)
    requires AllEnabled(START, maxAttempts, past)
    ensures Ok(Run(START, maxAttempts, past))
    ensures WithinLimit(Run(START, maxAttempts, past).q.items, Limit(maxAttempts))
  {
    RunOk(START, maxAttempts, past);
    RunWithinLimit(START, maxAttempts, past);
  }

  // ---------------------------------------------------------------------
  // Remaining attempts

  function Remaining(items: seq<Item>, limit: nat): int {
    if items == [] then 0 else limit - items[0].attempts + Remaining(items[1..], limit)
  }

  lemma {:induction false} RemainingNonneg(items: seq<Item>, limit: nat)
    requires WithinLimit(items, limit)
    ensures 0 <= Remaining(items, limit) <= |items| * limit
  {
    if items != [] {
      assert items[0] in items;
      RemainingNonneg(items[1..], limit);
    }
  }

  lemma {:induction false} RemainingFiltered(items: seq<Item>, keep: Item -> bool, limit: nat)
    requires WithinLimit(items, limit)
    ensures Remaining(Filter(items, keep), limit) <= Remaining(items, limit)
  {
    if items != [] {
      assert items[0] in items;
      RemainingFiltered(items[1..], keep, limit);
      var rest := Filter(items[1..], keep);
      assert ([items[0]] + rest)[1..] == rest && [] + rest == rest;
    }
  }

  lemma {:induction false} RemainingEach(items: seq<Item>, f: Item -> Item, limit: nat)
    requires forall it | it in items :: f(it).attempts >= it.attempts
    ensures Remaining(Each(items, f), limit) <= Remaining(items, limit)
  {
    if items != [] {
      assert Each(items, f)[1..] == Each(items[1..], f);
      RemainingEach(items[1..], f, limit);
    }
  }

  // Sending the first n eligible items costs one attempt each.
  lemma {:induction false} RemainingSent(items: seq<Item>, n: nat, keys: set<string>, now: nat, limit: nat)
    requires OpKeys(Taken(items, n)) <= keys
    ensures Remaining(Each(items, SentIfIn(keys, now)), limit) <= Remaining(items, limit) - |Taken(items, n)|
    decreases |items|
  {
    var f := SentIfIn(keys, now);
    if items != [] {
      assert Each(items, f)[1..] == Each(items[1..], f);
      var m := if Eligible(items[0]) && n > 0 then n - 1 else n;
      if n > 0 {
        if Eligible(items[0]) {
          assert Taken(items, n) == [items[0].op] + Taken(items[1..], m);
          assert items[0].op in Taken(items, n) && items[0].op.key in keys;
        }
        assert forall o | o in Taken(items[1..], m) :: o in Taken(items, n);
      }
      RemainingSent(items[1..], m, keys, now, limit);
    }
  }

  function OpsIn(batches: seq<Batch>): nat {
    if batches == [] then 0 else |batches[0].ops| + OpsIn(batches[1..])
  }

  lemma RemainingStep(s: System, maxAttempts: nat, e: Event)
    requires Enabled(s, e) && !e.Enqueue? && WithinLimit(s.q.items, Limit(maxAttempts))
    ensures var b := if e.Build? then BatchOf(s.q, e.maxOps, e.now) else None;
            Remaining(Next(s, maxAttempts, e).q.items, Limit(maxAttempts))
            <= Remaining(s.q.items, Limit(maxAttempts)) - if b.Some? then |b.value.ops| else 0
  {
    var items, limit := s.q.items, Limit(maxAttempts);
    match e
    case Recover =>
      RemainingEach(items, (it: Item) => if it.state.LocalOnly? then it.(state := Pending) else it, limit);
    case Build(maxOps, now) => RemainingSent(items, Max(maxOps, 1), OpKeys(Taken(items, Max(maxOps, 1))), now, limit);
    case Ack(i) => RemainingFiltered(items, KeyNotIn(OpKeys(s.flight[i].ops)), limit);
    case Fail(i, error) => RemainingEach(items, GivenUpOrRetrying(OpKeys(s.flight[i].ops), maxAttempts), limit);
    case Drop => RemainingFiltered(items, NotTelemetry(), limit);
  }

  lemma {:induction false} RunUsesUp(s: System, maxAttempts: nat, events: seq<Event>)
    requires AllEnabled(s, maxAttempts, events) && WithinLimit(s.q.items, Limit(maxAttempts))
    requires forall e | e in events :: !e.Enqueue?
    ensures OpsIn(Batches(s, maxAttempts, events)) <= Remaining(s.q.items, Limit(maxAttempts))
    decreases |events|
  {
    RemainingNonneg(s.q.items, Limit(maxAttempts));
    if events != [] {
      RemainingStep(s, maxAttempts, events[0]);
      StepWithinLimit(s, maxAttempts, events[0]);
      var s' := Next(s, maxAttempts, events[0]);
      RunUsesUp(s', maxAttempts, events[1..]);
      var b := if events[0].Build? then BatchOf(s.q, events[0].maxOps, events[0].now) else None;
      var later := Batches(s', maxAttempts, events[1..]);
      if b.Some? { assert ([b.value] + later)[1..] == later; } else { assert [] + later == later; }
    }
  }

  /** In every reachable queue, once no new operations come, every operation sent uses up one
      remaining attempt: all batches ever built carry at most the attempts left then. */
  lemma FlushingEnds(maxAttempts: nat, past: seq<Event>, events: seq<Event>)
    requires AllEnabled(START, maxAttempts, past)
    requires AllEnabled(Run(START, maxAttempts, past), maxAttempts, events)
    requires forall e | e in events :: !e.Enqueue?
    ensures var s, limit := Run(START, maxAttempts, past), Limit(maxAttempts);
            OpsIn(Batches(s, maxAttempts, events)) <= Remaining(s.q.items, limit) <= |s.q.items| * limit
  {
    Reached(maxAttempts, past);
    RemainingNonneg(Run(START, maxAttempts, past).q.items, Limit(maxAttempts));
    RunUsesUp(Run(START, maxAttempts, past), maxAttempts, events);
  }

  // ---------------------------------------------------------------------
  // Bounded waiting

  ghost predicate Waits(s: System, front: seq<Item>, it: Item, back: seq<Item>) {
    s.q.items == front + [it] + back && Eligible(it)
  }

  lemma {:induction false} EachConcat(xs: seq<Item>, it: Item, ys: seq<Item>, f: Item -> Item)
    ensures Each(xs + [it] + ys, f) == Each(xs, f) + [f(it)] + Each(ys, f)
  {
  }

  lemma FilterAround(xs: seq<Item>, it: Item, ys: seq<Item>, keep: Item -> bool)
    requires keep(it)
    ensures Filter(xs + [it] + ys, keep) == Filter(xs, keep) + [it] + Filter(ys, keep)
  {
    FilterConcat(xs + [it], ys, keep);
    FilterConcat(xs, [it], keep);
    assert Filter([it], keep) == [it] by { assert [it][1..] == []; }
  }

  // An eligible item is in no outstanding batch.
  lemma EligibleNotInFlight(s: System, it: Item, b: Batch)
    requires Ok(s) && it in s.q.items && !it.state.Syncing? && b in s.flight
    ensures it.op.key !in OpKeys(b.ops)
  {
    assert OpKeys(b.ops) <= FlightKeys(s.flight);
  }

  lemma {:induction false} TakenInFront(front: seq<Item>, it: Item, back: seq<Item>, n: nat)
    requires Eligible(it) && it.op !in Taken(front + [it] + back, n)
    ensures Taken(front + [it] + back, n) == Taken(front, n) && |Taken(front, n)| == n
    decreases |front|
  {
    var items := front + [it] + back;
    if front == [] {
      assert items[0] == it;
    } else if n > 0 {
      assert items[1..] == front[1..] + [it] + back && items[0] == front[0];
      TakenInFront(front[1..], it, back, if Eligible(front[0]) then n - 1 else n);
    }
  }

  lemma BuildWait(s: System, maxAttempts: nat, maxOps: nat, now: nat, front: seq<Item>, it: Item, back: seq<Item>)
    returns (front': seq<Item>, back': seq<Item>)
    requires Waits(s, front, it, back)
    requires var b := BatchOf(s.q, maxOps, now); b.Some? ==> it.op.key !in OpKeys(b.value.ops)
    ensures Waits(Next(s, maxAttempts, Build(maxOps, now)), front', it, back')
    ensures Remaining(front', Limit(maxAttempts)) < Remaining(front, Limit(maxAttempts))
  {
    var n := Max(maxOps, 1);
    var ops := Taken(s.q.items, n);
    assert it.op in ops ==> it.op.key in OpKeys(ops);
    TakenInFront(front, it, back, n);
    var f := SentIfIn(OpKeys(ops), now);
    EachConcat(front, it, back, f);
    front', back' := Each(front, f), Each(back, f);
    RemainingSent(front, n, OpKeys(ops), now, Limit(maxAttempts));
  }

  // One step that does not take the waiting item leaves it waiting, and a batch uses up
  // an attempt of something ahead of it.
  lemma WaitStep(s: System, maxAttempts: nat, e: Event, front: seq<Item>, it: Item, back: seq<Item>)
    returns (front': seq<Item>, it': Item, back': seq<Item>)
    requires Ok(s) && WithinLimit(s.q.items, Limit(maxAttempts)) && Enabled(s, e) && Waits(s, front, it, back)
    requires e.Build? ==> var b := BatchOf(s.q, e.maxOps, e.now); b.Some? ==> it.op.key !in OpKeys(b.value.ops)
    requires e.Drop? ==> !it.op.kind.TelemetryAck?
    ensures Waits(Next(s, maxAttempts, e), front', it', back') && it'.op == it.op
    ensures Remaining(front', Limit(maxAttempts)) <= Remaining(front, Limit(maxAttempts)) - if e.Build? then 1 else 0
  {
    var limit := Limit(maxAttempts);
    front', it', back' := front, it, back;
    assert it in s.q.items && forall x | x in front :: x in s.q.items;
    match e {
      case Enqueue(op, now) =>
        if op.key !in ItemKeys(s.q.items) {
          back' := back + [Next(s, maxAttempts, e).q.items[|s.q.items|]];
        }
      case Recover =>
        var f := (x: Item) => if x.state.LocalOnly? then x.(state := Pending) else x;
        EachConcat(front, it, back, f);
        RemainingEach(front, f, limit);
        front', it', back' := Each(front, f), f(it), Each(back, f);
        assert Next(s, maxAttempts, e).q.items == Each(s.q.items, f);
      case Build(maxOps, now) =>
        front', back' := BuildWait(s, maxAttempts, maxOps, now, front, it, back);
      case Ack(i) =>
        EligibleNotInFlight(s, it, s.flight[i]);
        var keep := KeyNotIn(OpKeys(s.flight[i].ops));
        FilterAround(front, it, back, keep);
        RemainingFiltered(front, keep, limit);
        front', back' := Filter(front, keep), Filter(back, keep);
      case Fail(i, error) =>
        EligibleNotInFlight(s, it, s.flight[i]);
        var f := GivenUpOrRetrying(OpKeys(s.flight[i].ops), maxAttempts);
        EachConcat(front, it, back, f);
        RemainingEach(front, f, limit);
        front', back' := Each(front, f), Each(back, f);
      case Drop =>
        FilterAround(front, it, back, NotTelemetry());
        RemainingFiltered(front, NotTelemetry(), limit);
        front', back' := Filter(front, NotTelemetry()), Filter(back, NotTelemetry());
    }
  }

  function Builds(events: seq<Event>): nat {
    if events == [] then 0 else (if events[0].Build? then 1 else 0) + Builds(events[1..])
  }

  ghost predicate Batched(key: string, batches: seq<Batch>) { exists b | b in batches :: key in OpKeys(b.ops) }

  lemma {:induction false} WaitRun(
    s: System, maxAttempts: nat, events: seq<Event>, front: seq<Item>, it: Item, back: seq<Item>)
    requires Ok(s) && WithinLimit(s.q.items, Limit(maxAttempts)) && AllEnabled(s, maxAttempts, events)
    requires Waits(s, front, it, back)
    requires it.op.kind.TelemetryAck? ==> Drop !in events
    ensures Builds(events) > Remaining(front, Limit(maxAttempts)) ==>
              Batched(it.op.key, Batches(s, maxAttempts, events))
    decreases |events|
  {
    assert forall x | x in front :: x in s.q.items;
    RemainingNonneg(front, Limit(maxAttempts));
    if events != [] {
      var e, s' := events[0], Next(s, maxAttempts, events[0]);
      var b := if e.Build? then BatchOf(s.q, e.maxOps, e.now) else None;
      var later := Batches(s', maxAttempts, events[1..]);
      if b.Some? && it.op.key in OpKeys(b.value.ops) {
        assert b.value in Batches(s, maxAttempts, events);
      } else {
        var front', it', back' := WaitStep(s, maxAttempts, e, front, it, back);
        StepOk(s, maxAttempts, e);
        StepWithinLimit(s, maxAttempts, e);
        WaitRun(s', maxAttempts, events[1..], front', it', back');
        assert forall x | x in later :: x in Batches(s, maxAttempts, events);
      }
    }
  }

  /** In every reachable queue an eligible item with k items ahead is in a batch by call
      k * limit + 1, whatever else happens, unless it is telemetry that is dropped. */
  lemma BoundedWaiting(maxAttempts: nat, past: seq<Event>, events: seq<Event>, k: nat)
    requires AllEnabled(START, maxAttempts, past)
    requires AllEnabled(Run(START, maxAttempts, past), maxAttempts, events)
    requires var items := Run(START, maxAttempts, past).q.items;
             k < |items| && Eligible(items[k]) && (items[k].op.kind.TelemetryAck? ==> Drop !in events)
    requires Builds(events) >= k * Limit(maxAttempts) + 1
    ensures var s := Run(START, maxAttempts, past);
            Batched(s.q.items[k].op.key, Batches(s, maxAttempts, events))
  {
    Reached(maxAttempts, past);
    var s := Run(START, maxAttempts, past);
    var items := s.q.items;
    assert items == items[..k] + [items[k]] + items[k + 1..];
    RemainingNonneg(items[..k], Limit(maxAttempts));
    WaitRun(s, maxAttempts, events, items[..k], items[k], items[k + 1..]);
  }

  // ---------------------------------------------------------------------
  // Where the code falls short of its comments

  // Telemetry is not dropped while the item is telemetry.
  predicate NotDropped(it: Item, e: Event) { e.Drop? ==> !it.op.kind.TelemetryAck? }

  lemma FailedStep(s: System, maxAttempts: nat, e: Event, it: Item)
    requires Ok(s) && Enabled(s, e) && it in s.q.items && it.state.Failed? && NotDropped(it, e)
    ensures it in Next(s, maxAttempts, e).q.items
  {
    var i :| 0 <= i < |s.q.items| && s.q.items[i] == it;
    match e
    case Recover => assert Recovered(s.q).items[i] == it;
    case Build(maxOps, now) =>
      if BatchOf(s.q, maxOps, now).Some? { assert Built(s.q, maxOps, now).items[i] == it; }
    case Ack(n) => EligibleNotInFlight(s, it, s.flight[n]);
    case Fail(n, error) =>
      EligibleNotInFlight(s, it, s.flight[n]);
      assert FailedBatch(s.q, s.flight[n], error, maxAttempts).items[i] == it;
    case _ =>
  }

  /** An item that used up its attempts is never retried, not even after the network recovered: unless
      it is telemetry that is dropped it stays in the queue for ever, so the queue never empties. */
  lemma {:induction false} FailedStays(s: System, maxAttempts: nat, events: seq<Event>, it: Item)
    requires Ok(s) && AllEnabled(s, maxAttempts, events)
    requires it in s.q.items && it.state.Failed? && forall e | e in events :: NotDropped(it, e)
    ensures it in Run(s, maxAttempts, events).q.items
    decreases |events|
  {
    if events != [] {
      FailedStep(s, maxAttempts, events[0], it);
      StepOk(s, maxAttempts, events[0]);
      FailedStays(Next(s, maxAttempts, events[0]), maxAttempts, events[1..], it);
    }
  }

  ghost predicate Waiting(s: System, op: ControlOp) { exists x | x in s.q.items :: x.op == op && Eligible(x) }

  // Some further run of the queue makes the operation eligible again.
  ghost predicate EverEligible(s: System, maxAttempts: nat, it: Item) {
    exists events ::
      && AllEnabled(s, maxAttempts, events) && (forall e | e in events :: NotDropped(it, e))
      && Waiting(Run(s, maxAttempts, events), it.op)
  }

  /** In every reachable queue, an item of a batch that failed is ever eligible again exactly if it has
      attempts left, whatever happens later. */
  lemma RetriedIff(maxAttempts: nat, past: seq<Event>, i: nat, error: string, it: Item)
    requires AllEnabled(START, maxAttempts, past)
    requires var s := Run(START, maxAttempts, past);
             i < |s.flight| && it in s.q.items && it.op.key in OpKeys(s.flight[i].ops)
    ensures EverEligible(Next(Run(START, maxAttempts, past), maxAttempts, Fail(i, error)), maxAttempts, it)
            <==> it.attempts < maxAttempts
  {
    var s := Run(START, maxAttempts, past);
    Reached(maxAttempts, past);
    StepOk(s, maxAttempts, Fail(i, error));
    var s' := Next(s, maxAttempts, Fail(i, error));
    var n :| 0 <= n < |s.q.items| && s.q.items[n] == it;
    var it' := s'.q.items[n];
    assert it' == GivenUpOrRetrying(OpKeys(s.flight[i].ops), maxAttempts)(it) && it' in s'.q.items;
    if it.attempts < maxAttempts {
      EligibleNow(s', maxAttempts, it');
    } else {
      forall events | AllEnabled(s', maxAttempts, events) && forall e | e in events :: NotDropped(it, e)
        ensures !Waiting(Run(s', maxAttempts, events), it.op)
      {
        assert forall e | e in events :: NotDropped(it', e);
        NeverWaiting(s', maxAttempts, events, it');
      }
    }
  }

  lemma EligibleNow(s: System, maxAttempts: nat, it: Item)
    requires it in s.q.items && Eligible(it)
    ensures forall x: Item | x.op == it.op :: EverEligible(s, maxAttempts, x)
  {
    var none: seq<Event> := [];
    assert Run(s, maxAttempts, none) == s && Waiting(s, it.op);
    forall x: Item | x.op == it.op ensures EverEligible(s, maxAttempts, x) {
      assert AllEnabled(s, maxAttempts, none) && Waiting(Run(s, maxAttempts, none), x.op);
    }
  }

  lemma NeverWaiting(s: System, maxAttempts: nat, events: seq<Event>, it: Item)
    requires Ok(s) && AllEnabled(s, maxAttempts, events)
    requires it in s.q.items && it.state.Failed? && forall e | e in events :: NotDropped(it, e)
    ensures !Waiting(Run(s, maxAttempts, events), it.op)
  {
    FailedStays(s, maxAttempts, events, it);
    RunOk(s, maxAttempts, events);
    var items := Run(s, maxAttempts, events).q.items;
    var n :| 0 <= n < |items| && items[n] == it;
    forall x | x in items && x.op == it.op ensures x == it {
      var m :| 0 <= m < |items| && items[m] == x;
    }
  }

  // n times: a batch is built and fails.
  function Failing(n: nat): seq<Event> { if n == 0 then [] else [Build(1, 0), Fail(0, "")] + Failing(n - 1) }

  lemma FailOnce(s: System, maxAttempts: nat, it: Item)
    requires s.q.items == [it] && s.flight == [] && Eligible(it)
    ensures var s1 := Next(s, maxAttempts, Build(1, 0));
            && Enabled(s1, Fail(0, ""))
            && var s2 := Next(s1, maxAttempts, Fail(0, ""));
               && s2.flight == [] && |s2.q.items| == 1 && s2.q.items[0].op == it.op
               && s2.q.items[0].attempts == it.attempts + 1
               && s2.q.items[0].state == if it.attempts + 1 >= maxAttempts then Failed else Retrying
  {
    assert Taken(s.q.items, 1) == [it.op] + Taken([], 0) == [it.op];
    var s1 := Next(s, maxAttempts, Build(1, 0));
    assert s1.flight == [Batch([it.op], 0)];
    assert it.op.key in OpKeys([it.op]);
    assert s1.q.items[0] == Sent(it, 0);
  }

  lemma RunTwo(s: System, maxAttempts: nat, e: Event, f: Event, rest: seq<Event>)
    requires Enabled(s, e) && Enabled(Next(s, maxAttempts, e), f)
    requires AllEnabled(Next(Next(s, maxAttempts, e), maxAttempts, f), maxAttempts, rest)
    ensures AllEnabled(s, maxAttempts, [e, f] + rest)
    ensures Run(s, maxAttempts, [e, f] + rest) == Run(Next(Next(s, maxAttempts, e), maxAttempts, f), maxAttempts, rest)
  {
    var events := [e, f] + rest;
    assert events[1..] == [f] + rest && events[1..][0] == f && events[1..][1..] == rest;
  }

  lemma {:induction false} FailsUntil(s: System, maxAttempts: nat, it: Item, n: nat)
    requires s.q.items == [it] && s.flight == [] && Eligible(it) && 0 < n && it.attempts + n <= Limit(maxAttempts)
    ensures AllEnabled(s, maxAttempts, Failing(n))
    ensures var s' := Run(s, maxAttempts, Failing(n));
            && |s'.q.items| == 1 && s'.q.items[0].op == it.op && s'.q.items[0].attempts == it.attempts + n
            && (s'.q.items[0].state.Failed? <==> it.attempts + n == Limit(maxAttempts))
    decreases n
  {
    FailOnce(s, maxAttempts, it);
    var s1 := Next(s, maxAttempts, Build(1, 0));
    var s2 := Next(s1, maxAttempts, Fail(0, ""));
    var rest := Failing(n - 1);
    if n > 1 { FailsUntil(s2, maxAttempts, s2.q.items[0], n - 1); }
    RunTwo(s, maxAttempts, Build(1, 0), Fail(0, ""), rest);
  }

  /** For every limit there is a run that ends with an operation given up: accepted, and then failed as
      often as the limit allows. */
  lemma GivesUp(maxAttempts: nat, op: ControlOp)
    ensures var events := [Enqueue(op, 0)] + Failing(Limit(maxAttempts));
            && AllEnabled(START, maxAttempts, events)
            && var items := Run(START, maxAttempts, events).q.items;
               |items| == 1 && items[0].op == op && items[0].state.Failed? && items[0].attempts == Limit(maxAttempts)
  {
    var rest := Failing(Limit(maxAttempts));
    var events := [Enqueue(op, 0)] + rest;
    assert events[0] == Enqueue(op, 0) && events[1..] == rest;
    var s := Next(START, maxAttempts, Enqueue(op, 0));
    FailsUntil(s, maxAttempts, s.q.items[0], Limit(maxAttempts));
  }

  /** Dropping a telemetry operation that is in flight and then acknowledging its batch
      breaks the count. */
  lemma DropInFlightMiscounts(q: Queue, b: Batch, it: Item)
    requires UniqueKeys(q.items) && UniqueOps(b.ops)
    requires it in q.items && it.op.kind.TelemetryAck? && it.op.key in OpKeys(b.ops)
    ensures var q' := Acked(TelemetryDropped(q), b);
            |q'.items| + q'.synced + q'.dropped != |q.items| + q.synced + q.dropped
  {
    var d := TelemetryDropped(q);
    FilterUnique(q.items, NotTelemetry());
    FilterShrinks(q.items, NotTelemetry());
    AckConservesIff(d, b);
    assert it.op.key !in ItemKeys(d.items);
  }

  // ---------------------------------------------------------------------
  // The state of the queue

  // What the state says of the items and batches, in every reachable queue.
  ghost predicate StateTold(s: System, built: bool) {
    && (forall it | it in s.q.items :: !it.state.Synced?) && (forall b | b in s.flight :: b.ops != [])
    && (s.q.state.LocalOnly? <==> !built)
    && (!built ==> s.flight == [] && s.q.synced == 0 && forall it | it in s.q.items :: Fresh(it))
    && (s.q.state.Synced? ==> s.flight == [] && forall it | it in s.q.items :: Fresh(it) && it.state.Pending?)
    && (s.q.state.Syncing? ==> s.flight != [])
  }

  // Never sent.
  predicate Fresh(it: Item) { it.attempts == 0 && it.lastAttemptAt.None? && (it.state.LocalOnly? || it.state.Pending?) }

  predicate AnyFailed(items: seq<Item>) { exists it | it in items :: it.state.Failed? }

  /** What each step makes of the queue's state, in figures of its items: a batch makes it syncing; an
      acknowledgement synced exactly if nothing is left, else pending; a failure failed exactly if an
      item is given up, else retrying; a recovery takes a failed queue to retrying. */
  lemma StateStep(s: System, maxAttempts: nat, e: Event)
    requires Ok(s) && Enabled(s, e) && forall it | it in s.q.items :: !it.state.Synced?
    ensures var q, q' := s.q, Next(s, maxAttempts, e).q;
            && (forall it | it in q'.items :: !it.state.Synced?)
            && q'.state == match e
                           case Build(_, _) => (if exists it | it in q.items :: Eligible(it) then Syncing else q.state)
                           case Ack(_) => (if q'.items == [] then Synced else Pending)
                           case Fail(_, _) => (if AnyFailed(q'.items) then Failed else Retrying)
                           case Recover => (if q.state.Failed? then Retrying else q.state)
                           case _ => q.state
  {
    var q, q' := s.q, Next(s, maxAttempts, e).q;
    match e
    case Build(maxOps, now) =>
      BatchIsFirstEligible(q, maxOps, now);
      NoSyncedEach(q.items, SentIfIn(OpKeys(Taken(q.items, Max(maxOps, 1))), now));
    case Ack(i) => if q'.items != [] { assert q'.items[0] in q'.items; }
    case Fail(i, error) => NoSyncedEach(q.items, GivenUpOrRetrying(OpKeys(s.flight[i].ops), maxAttempts));
    case Recover => NoSyncedEach(q.items, (it: Item) => if it.state.LocalOnly? then it.(state := Pending) else it);
    case _ =>
  }

  lemma NoSyncedEach(items: seq<Item>, f: Item -> Item)
    requires forall it | it in items :: !f(it).state.Synced?
    ensures forall r | r in Each(items, f) :: !r.state.Synced?
  {
    forall r | r in Each(items, f) ensures !r.state.Synced? {
      var i :| 0 <= i < |items| && Each(items, f)[i] == r;
      assert items[i] in items;
    }
  }

  /** After a recovery nothing is local any more, and every other item is as it was. */
  lemma RecoverySendsOn(q: Queue)
    ensures |Recovered(q).items| == |q.items|
    ensures forall i | 0 <= i < |q.items| ::
              Recovered(q).items[i] == if q.items[i].state.LocalOnly? then q.items[i].(state := Pending) else q.items[i]
    ensures forall it | it in Recovered(q).items :: !it.state.LocalOnly?
  {
    forall it | it in Recovered(q).items ensures !it.state.LocalOnly? {
      var i :| 0 <= i < |q.items| && Recovered(q).items[i] == it;
    }
  }

  predicate BuildsNow(s: System, e: Event) { e.Build? && BatchOf(s.q, e.maxOps, e.now).Some? }

  lemma EachFresh(items: seq<Item>, f: Item -> Item)
    requires forall it | it in items :: Fresh(it) && Fresh(f(it))
    ensures forall r | r in Each(items, f) :: Fresh(r)
  {
    forall r | r in Each(items, f) ensures Fresh(r) {
      var i :| 0 <= i < |items| && Each(items, f)[i] == r;
      assert items[i] in items;
    }
  }

  lemma FilterFresh(items: seq<Item>, keep: Item -> bool)
    requires forall it | it in items :: Fresh(it)
    ensures forall r | r in Filter(items, keep) :: Fresh(r)
  {
  }

  lemma StateToldStep(s: System, maxAttempts: nat, e: Event, built: bool)
    requires Ok(s) && Enabled(s, e) && StateTold(s, built)
    ensures StateTold(Next(s, maxAttempts, e), built || BuildsNow(s, e))
  {
    StateStep(s, maxAttempts, e);
    var items := s.q.items;
    match e
    case Enqueue(op, now) =>
      if op.key !in ItemKeys(items) {
        assert forall it | it in Next(s, maxAttempts, e).q.items ::
                 it in items || it == Next(s, maxAttempts, e).q.items[|items|];
      }
    case Recover =>
      if forall it | it in items :: Fresh(it) {
        EachFresh(items, (it: Item) => if it.state.LocalOnly? then it.(state := Pending) else it);
      }
      RecoverPending(items, (it: Item) => if it.state.LocalOnly? then it.(state := Pending) else it);
    case Build(maxOps, now) => BatchIsFirstEligible(s.q, maxOps, now);
    case Drop => if forall it | it in items :: Fresh(it) { FilterFresh(items, NotTelemetry()); }
    case Ack(i) =>
      FlightWithout(s.flight, i);
      AckOk(s, maxAttempts, i);
      NothingLeft(Next(s, maxAttempts, e));
    case Fail(i, _) => FlightWithout(s.flight, i);
  }

  lemma NothingLeft(s: System)
    requires Ok(s) && forall b | b in s.flight :: b.ops != []
    ensures s.q.items == [] ==> s.flight == []
  {
    if s.flight != [] {
      var b := s.flight[0];
      assert b in s.flight && b.ops[0] in b.ops;
      assert b.ops[0].key in FlightKeys(s.flight) by { assert OpKeys(b.ops) <= FlightKeys(s.flight); }
      var it :| it in s.q.items && it.state.Syncing?;
    }
  }

  lemma RecoverPending(items: seq<Item>, f: Item -> Item)
    requires forall it: Item | it.state.Pending? :: f(it) == it
    ensures (forall it | it in items :: it.state.Pending?) ==> forall r | r in Each(items, f) :: r.state.Pending?
  {
    if forall it | it in items :: it.state.Pending? {
      forall r | r in Each(items, f) ensures r.state.Pending? {
        var i :| 0 <= i < |items| && Each(items, f)[i] == r;
        assert items[i] in items;
      }
    }
  }

  lemma {:induction false} RunStateTold(s: System, maxAttempts: nat, events: seq<Event>, built: bool)
    requires Ok(s) && AllEnabled(s, maxAttempts, events) && StateTold(s, built)
    ensures StateTold(Run(s, maxAttempts, events), built || Batches(s, maxAttempts, events) != [])
    decreases |events|
  {
    if events != [] {
      var e := events[0];
      StateToldStep(s, maxAttempts, e, built);
      StepOk(s, maxAttempts, e);
      RunStateTold(Next(s, maxAttempts, e), maxAttempts, events[1..], built || BuildsNow(s, e));
    }
  }

  /** In every reachable queue the state tells of the items: local exactly until the first batch, with
      nothing sent before; syncing only with a batch in flight; synced only with none in flight and
      nothing but operations that came later and were never sent. */
  lemma StateTellsItems(maxAttempts: nat, events: seq<Event>)
    requires AllEnabled(START, maxAttempts, events)
    ensures StateTold(Run(START, maxAttempts, events), Batches(START, maxAttempts, events) != [])
  {
    RunOk(START, maxAttempts, []);
    RunStateTold(START, maxAttempts, events, false);
  }
}
