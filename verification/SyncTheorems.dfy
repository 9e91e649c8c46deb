/** The queue over whole runs, with batches in flight. */
module SyncTheorems {
  import opened Common
  import opened Sync

  // ---------------------------------------------------------------------
  // One batch

  ghost predicate UniqueKeys(items: seq<Item>) {
    forall i, j | 0 <= i < j < |items| :: items[i].op.key != items[j].op.key
  }

  ghost predicate UniqueOps(ops: seq<ControlOp>) {
    forall i, j | 0 <= i < j < |ops| :: ops[i].key != ops[j].key
  }

  // Eligible items ahead of position i.
  function Ahead(items: seq<Item>, i: nat): nat
    requires i <= |items|
  {
    if i == 0 then 0 else (if Eligible(items[0]) then 1 else 0) + Ahead(items[1..], i - 1)
  }

  lemma {:induction false} TakenAt(items: seq<Item>, n: nat, i: nat)
    requires i < |items| && Eligible(items[i])
    ensures Ahead(items, i) < n ==>
              Ahead(items, i) < |Taken(items, n)| && Taken(items, n)[Ahead(items, i)] == items[i].op
    decreases |items|
  {
    if i > 0 && n > 0 { TakenAt(items[1..], if Eligible(items[0]) then n - 1 else n, i - 1); }
  }

  lemma {:induction false} TakenFrom(items: seq<Item>, n: nat)
    ensures forall o | o in Taken(items, n) ::
              exists i | 0 <= i < |items| :: items[i].op == o && Eligible(items[i]) && Ahead(items, i) < n
    decreases |items|
  {
    if items != [] && n > 0 {
      var m := if Eligible(items[0]) then n - 1 else n;
      TakenFrom(items[1..], m);
      forall o | o in Taken(items, n)
        ensures exists i | 0 <= i < |items| :: items[i].op == o && Eligible(items[i]) && Ahead(items, i) < n
      {
        if o in Taken(items[1..], m) {
          var i :| 0 <= i < |items[1..]| && items[1..][i].op == o && Eligible(items[1..][i])
              && Ahead(items[1..], i) < m;
          assert items[i + 1].op == o && Ahead(items, i + 1) < n;
        } else {
          assert Eligible(items[0]) && o == items[0].op && Ahead(items, 0) < n;
        }
      }
    }
  }

  lemma {:induction false} TakenCount(items: seq<Item>, n: nat)
    ensures |Taken(items, n)| == Min(n, Ahead(items, |items|))
    decreases |items|
  {
    if items != [] && n > 0 { TakenCount(items[1..], if Eligible(items[0]) then n - 1 else n); }
  }

  lemma {:induction false} TakenUnique(items: seq<Item>, n: nat)
    requires UniqueKeys(items)
    ensures UniqueOps(Taken(items, n))
    decreases |items|
  {
    if items != [] && n > 0 {
      var m := if Eligible(items[0]) then n - 1 else n;
      TakenUnique(items[1..], m);
      TakenFrom(items[1..], m);
      var later := Taken(items[1..], m);
      forall j | 0 <= j < |later| ensures later[j].key != items[0].op.key {
        assert later[j] in later;
      }
    }
  }

  /** A batch holds, in queue order, exactly the first max(1, maxOps) eligible items, and
      building it marks these items as sent and changes no other. */
  lemma BatchIsFirstEligible(q: Queue, maxOps: nat, now: nat)
    requires UniqueKeys(q.items)
    ensures BatchOf(q, maxOps, now) == None <==> forall i | 0 <= i < |q.items| :: !Eligible(q.items[i])
    ensures BatchOf(q, maxOps, now).Some? ==>
              |BatchOf(q, maxOps, now).value.ops| == Min(Max(maxOps, 1), Ahead(q.items, |q.items|))
    ensures forall i | 0 <= i < |q.items| ::
              var chosen := Eligible(q.items[i]) && Ahead(q.items, i) < Max(maxOps, 1);
              && Built(q, maxOps, now).items[i] == (if chosen then Sent(q.items[i], now) else q.items[i])
              && (chosen ==> Ahead(q.items, i) < |BatchOf(q, maxOps, now).value.ops|
                             && BatchOf(q, maxOps, now).value.ops[Ahead(q.items, i)] == q.items[i].op)
  {
    var n := Max(maxOps, 1);
    var ops := Taken(q.items, n);
    TakenCount(q.items, n);
    TakenFrom(q.items, n);
    forall i | 0 <= i < |q.items| && Eligible(q.items[i])
      ensures q.items[i].op.key in OpKeys(ops) <==> Ahead(q.items, i) < n
      ensures Ahead(q.items, i) < n ==> Ahead(q.items, i) < |ops| && ops[Ahead(q.items, i)] == q.items[i].op
    {
      TakenAt(q.items, n, i);
      if q.items[i].op.key in OpKeys(ops) {
        var o :| o in ops && o.key == q.items[i].op.key;
        var j :| 0 <= j < |q.items| && q.items[j].op == o && Eligible(q.items[j]) && Ahead(q.items, j) < n;
        assert i == j;
      }
    }
    if ops == [] {
      AheadOfAll(q.items);
    } else {
      assert ops[0] in ops;
    }
  }

  lemma {:induction false} AheadOfAll(items: seq<Item>)
    ensures Ahead(items, |items|) == 0 ==> forall i | 0 <= i < |items| :: !Eligible(items[i])
    decreases |items|
  {
    if items != [] {
      AheadOfAll(items[1..]);
      assert forall i | 0 < i < |items| :: items[i] == items[1..][i - 1];
    }
  }

  // ---------------------------------------------------------------------
  // Runs

  datatype System = System(q: Queue, flight: seq<Batch>, accepted: nat)

  datatype Event =
    | Enqueue(op: ControlOp, now: nat)
    | Recover
    | Build(maxOps: nat, now: nat)
    | Ack(i: nat)
    | Fail(i: nat, error: string)
    | Drop

  // A batch is resolved once; telemetry is dropped only while no batch is in flight.
  predicate Enabled(s: System, e: Event) {
    match e
    case Ack(i) => i < |s.flight|
    case Fail(i, _) => i < |s.flight|
    case Drop => s.flight == []
    case _ => true
  }

  function Without(flight: seq<Batch>, i: nat): seq<Batch>
    requires i < |flight|
  {
    flight[..i] + flight[i + 1..]
  }

  function Next(s: System, maxAttempts: nat, e: Event): System
    requires Enabled(s, e)
  {
    match e
    case Enqueue(op, now) =>
      System(Enqueued(s.q, op, now), s.flight, s.accepted + if op.key in ItemKeys(s.q.items) then 0 else 1)
    case Recover => s.(q := Recovered(s.q))
    case Build(maxOps, now) =>
      var b := BatchOf(s.q, maxOps, now);
      s.(q := Built(s.q, maxOps, now), flight := s.flight + if b.Some? then [b.value] else [])
    case Ack(i) => s.(q := Acked(s.q, s.flight[i]), flight := Without(s.flight, i))
    case Fail(i, error) => s.(q := FailedBatch(s.q, s.flight[i], error, maxAttempts), flight := Without(s.flight, i))
    case Drop => s.(q := TelemetryDropped(s.q))
  }

  predicate AllEnabled(s: System, maxAttempts: nat, events: seq<Event>)
    decreases |events|
  {
    events == [] || (Enabled(s, events[0]) && AllEnabled(Next(s, maxAttempts, events[0]), maxAttempts, events[1..]))
  }

  function Run(s: System, maxAttempts: nat, events: seq<Event>): System
    requires AllEnabled(s, maxAttempts, events)
    decreases |events|
  {
    if events == [] then s else Run(Next(s, maxAttempts, events[0]), maxAttempts, events[1..])
  }

  // The batches a run builds.
  function Batches(s: System, maxAttempts: nat, events: seq<Event>): seq<Batch>
    requires AllEnabled(s, maxAttempts, events)
    decreases |events|
  {
    if events == [] then [] else
      var b := if events[0].Build? then BatchOf(s.q, events[0].maxOps, events[0].now) else None;
      (if b.Some? then [b.value] else []) + Batches(Next(s, maxAttempts, events[0]), maxAttempts, events[1..])
  }

  function SyncingKeys(items: seq<Item>): set<string> { set it | it in items && it.state.Syncing? :: it.op.key }

  function FlightKeys(flight: seq<Batch>): set<string> {
    set b, k | b in flight && k in OpKeys(b.ops) :: k
  }

  ghost predicate Disjoint(flight: seq<Batch>) {
    forall i, j | 0 <= i < j < |flight| :: OpKeys(flight[i].ops) !! OpKeys(flight[j].ops)
  }

  /** What every reachable state satisfies. */
  ghost predicate Ok(s: System) {
    && UniqueKeys(s.q.items)
    && Disjoint(s.flight)
    && (forall b | b in s.flight :: UniqueOps(b.ops))
    && FlightKeys(s.flight) == SyncingKeys(s.q.items)
    && s.accepted == |s.q.items| + s.q.synced + s.q.dropped
  }

  // ---------------------------------------------------------------------
  // Conservation

  lemma {:induction false} UniqueCount(items: seq<Item>)
    requires UniqueKeys(items)
    ensures |ItemKeys(items)| == |items|
    decreases |items|
  {
    if items != [] {
      UniqueCount(items[1..]);
      assert ItemKeys(items) == {items[0].op.key} + ItemKeys(items[1..]);
      assert items[0].op.key !in ItemKeys(items[1..]);
    }
  }

  lemma {:induction false} UniqueOpsCount(ops: seq<ControlOp>)
    requires UniqueOps(ops)
    ensures |OpKeys(ops)| == |ops|
    decreases |ops|
  {
    if ops != [] {
      UniqueOpsCount(ops[1..]);
      assert OpKeys(ops) == {ops[0].key} + OpKeys(ops[1..]);
      assert ops[0].key !in OpKeys(ops[1..]);
    }
  }

  lemma {:induction false} FilterUnique(items: seq<Item>, keep: Item -> bool)
    requires UniqueKeys(items)
    ensures UniqueKeys(Filter(items, keep))
    decreases |items|
  {
    if items != [] {
      FilterUnique(items[1..], keep);
      var later := Filter(items[1..], keep);
      forall j | 0 <= j < |later| ensures later[j].op.key != items[0].op.key {
        assert later[j] in items[1..];
      }
    }
  }

  lemma SizesOfDifference(a: set<string>, b: set<string>)
    ensures |a - b| + |b| == |a| <==> b <= a
  {
    assert a == (a - b) + (a * b);
    assert b == (b - a) + (a * b);
    assert |a| == |a - b| + |a * b| && |b| == |b - a| + |a * b|;
    assert b <= a <==> b - a == {};
  }

  lemma KeysFiltered(items: seq<Item>, keys: set<string>)
    ensures ItemKeys(Filter(items, KeyNotIn(keys))) == ItemKeys(items) - keys
  {
  }

  /** An acknowledgement of a batch with distinct keys keeps pending + synced unchanged
      exactly when every key it carries is still queued. */
  lemma AckConservesIff(q: Queue, b: Batch)
    requires UniqueKeys(q.items) && UniqueOps(b.ops)
    ensures |Acked(q, b).items| + Acked(q, b).synced == |q.items| + q.synced <==> OpKeys(b.ops) <= ItemKeys(q.items)
  {
    FilterUnique(q.items, KeyNotIn(OpKeys(b.ops)));
    UniqueCount(q.items);
    UniqueCount(Acked(q, b).items);
    UniqueOpsCount(b.ops);
    KeysFiltered(q.items, OpKeys(b.ops));
    SizesOfDifference(ItemKeys(q.items), OpKeys(b.ops));
  }

  // ---------------------------------------------------------------------
  // Invariant

  lemma FlightWithout(flight: seq<Batch>, i: nat)
    requires i < |flight| && Disjoint(flight)
    ensures Disjoint(Without(flight, i))
    ensures FlightKeys(Without(flight, i)) == FlightKeys(flight) - OpKeys(flight[i].ops)
    ensures forall b | b in Without(flight, i) :: b in flight
  {
    var rest := Without(flight, i);
    assert flight == flight[..i] + [flight[i]] + flight[i + 1..];
    assert forall b | b in flight :: b == flight[i] || b in rest;
    forall b | b in rest ensures OpKeys(b.ops) !! OpKeys(flight[i].ops) {
      var j :| 0 <= j < |rest| && rest[j] == b;
      assert b == if j < i then flight[j] else flight[j + 1];
    }
  }

  lemma FlightKeysSnoc(flight: seq<Batch>, b: Batch)
    ensures FlightKeys(flight + [b]) == FlightKeys(flight) + OpKeys(b.ops)
  {
    assert forall x :: x in flight + [b] <==> x in flight || x == b;
  }

  // The items a batch marks were not in flight, and now are.
  lemma BuildMarks(q: Queue, maxOps: nat, now: nat, i: nat)
    requires UniqueKeys(q.items) && BatchOf(q, maxOps, now).Some? && i < |q.items|
    ensures var it, keys := q.items[i], OpKeys(BatchOf(q, maxOps, now).value.ops);
            && Built(q, maxOps, now).items[i].op == it.op
            && (it.op.key in keys ==> Eligible(it))
            && (Built(q, maxOps, now).items[i].state.Syncing? <==> it.state.Syncing? || it.op.key in keys)
  {
    var ops := BatchOf(q, maxOps, now).value.ops;
    TakenFrom(q.items, Max(maxOps, 1));
    if q.items[i].op.key in OpKeys(ops) {
      var o :| o in ops && o.key == q.items[i].op.key;
      var j :| 0 <= j < |q.items| && q.items[j].op == o && Eligible(q.items[j]);
      assert i == j;
    }
  }

  lemma BuildSyncing(q: Queue, maxOps: nat, now: nat)
    requires UniqueKeys(q.items) && BatchOf(q, maxOps, now).Some?
    ensures var keys := OpKeys(BatchOf(q, maxOps, now).value.ops);
            && keys !! SyncingKeys(q.items)
            && SyncingKeys(Built(q, maxOps, now).items) == SyncingKeys(q.items) + keys
    ensures UniqueKeys(Built(q, maxOps, now).items)
  {
    var keys, items := OpKeys(BatchOf(q, maxOps, now).value.ops), Built(q, maxOps, now).items;
    forall i: nat | i < |q.items|
      ensures items[i].op == q.items[i].op && (q.items[i].op.key in keys ==> Eligible(q.items[i]))
      ensures items[i].state.Syncing? <==> q.items[i].state.Syncing? || q.items[i].op.key in keys
    {
      BuildMarks(q, maxOps, now, i);
    }
    forall k ensures k in SyncingKeys(items) <==> k in SyncingKeys(q.items) + keys {
      if k in SyncingKeys(items) {
        var i :| 0 <= i < |items| && items[i].state.Syncing? && items[i].op.key == k;
        assert q.items[i] in q.items;
      }
      if k in SyncingKeys(q.items) {
        var i :| 0 <= i < |q.items| && q.items[i].state.Syncing? && q.items[i].op.key == k;
        assert items[i] in items;
      }
      if k in keys {
        TakenFrom(q.items, Max(maxOps, 1));
        var o :| o in BatchOf(q, maxOps, now).value.ops && o.key == k;
        var i :| 0 <= i < |q.items| && q.items[i].op == o;
        assert items[i] in items;
      }
    }
  }

  lemma BuildOk(s: System, maxAttempts: nat, maxOps: nat, now: nat)
    requires Ok(s)
    ensures Ok(Next(s, maxAttempts, Build(maxOps, now)))
  {
    var b := BatchOf(s.q, maxOps, now);
    if b.Some? {
      TakenUnique(s.q.items, Max(maxOps, 1));
      FlightKeysSnoc(s.flight, b.value);
      BuildSyncing(s.q, maxOps, now);
      forall i | 0 <= i < |s.flight| ensures OpKeys(s.flight[i].ops) !! OpKeys(b.value.ops) {
        assert s.flight[i] in s.flight;
        assert OpKeys(s.flight[i].ops) <= FlightKeys(s.flight);
      }
    }
  }

  lemma AckOk(s: System, maxAttempts: nat, i: nat)
    requires Ok(s) && i < |s.flight|
    ensures Ok(Next(s, maxAttempts, Ack(i)))
  {
    var b := s.flight[i];
    FlightWithout(s.flight, i);
    FilterUnique(s.q.items, KeyNotIn(OpKeys(b.ops)));
    assert b in s.flight && OpKeys(b.ops) <= FlightKeys(s.flight);
    assert SyncingKeys(s.q.items) <= ItemKeys(s.q.items);
    AckConservesIff(s.q, b);
    var items := Acked(s.q, b).items;
    assert SyncingKeys(items) == SyncingKeys(s.q.items) - OpKeys(b.ops);
  }

  lemma FailOk(s: System, maxAttempts: nat, i: nat, error: string)
    requires Ok(s) && i < |s.flight|
    ensures Ok(Next(s, maxAttempts, Fail(i, error)))
  {
    var b := s.flight[i];
    FlightWithout(s.flight, i);
    var items, items' := s.q.items, FailedBatch(s.q, b, error, maxAttempts).items;
    forall k ensures k in SyncingKeys(items') <==> k in SyncingKeys(items) && k !in OpKeys(b.ops) {
      if k in SyncingKeys(items) && k !in OpKeys(b.ops) {
        var j :| 0 <= j < |items| && items[j].state.Syncing? && items[j].op.key == k;
        assert items'[j] in items';
      }
      if k in SyncingKeys(items') {
        var j :| 0 <= j < |items'| && items'[j].state.Syncing? && items'[j].op.key == k;
        assert items[j] in items;
      }
    }
  }

  lemma PlainStepOk(s: System, maxAttempts: nat, e: Event)
    requires Ok(s) && Enabled(s, e) && (e.Enqueue? || e.Recover? || e.Drop?)
    ensures Ok(Next(s, maxAttempts, e))
  {
    var items, items' := s.q.items, Next(s, maxAttempts, e).q.items;
    match e
    case Enqueue(op, now) =>
      if op.key !in ItemKeys(items) {
        assert forall it | it in items :: it.op.key in ItemKeys(items);
        assert forall it :: it in items' <==> it in items || it == items'[|items|];
        assert SyncingKeys(items') == SyncingKeys(items);
      }
    case Recover =>
      forall k ensures k in SyncingKeys(items') <==> k in SyncingKeys(items) {
        if k in SyncingKeys(items) {
          var j :| 0 <= j < |items| && items[j].state.Syncing? && items[j].op.key == k;
          assert items'[j] in items';
        }
        if k in SyncingKeys(items') {
          var j :| 0 <= j < |items'| && items'[j].state.Syncing? && items'[j].op.key == k;
          assert items[j] in items;
        }
      }
    case Drop =>
      FilterUnique(items, NotTelemetry());
      FilterShrinks(items, NotTelemetry());
      assert SyncingKeys(items') <= SyncingKeys(items);
  }

  /** Every step keeps the keys unique, the outstanding batches disjoint, sent items and
      batches in step, and accepted operations equal to pending + synced + dropped. */
  lemma StepOk(s: System, maxAttempts: nat, e: Event)
    requires Ok(s) && Enabled(s, e)
    ensures Ok(Next(s, maxAttempts, e))
  {
    match e
    case Build(maxOps, now) => BuildOk(s, maxAttempts, maxOps, now);
    case Ack(i) => AckOk(s, maxAttempts, i);
    case Fail(i, error) => FailOk(s, maxAttempts, i, error);
    case _ => PlainStepOk(s, maxAttempts, e);
  }

  lemma {:induction false} RunOk(s: System, maxAttempts: nat, events: seq<Event>)
    requires Ok(s) && AllEnabled(s, maxAttempts, events)
    ensures Ok(Run(s, maxAttempts, events))
    decreases |events|
  {
    if events != [] {
      StepOk(s, maxAttempts, events[0]);
      RunOk(Next(s, maxAttempts, events[0]), maxAttempts, events[1..]);
    }
  }

  /** From the empty queue, over any run: conservation and disjoint batches. */
  lemma Conservation(maxAttempts: nat, events: seq<Event>)
    requires AllEnabled(System(EMPTY, [], 0), maxAttempts, events)
    ensures var s := Run(System(EMPTY, [], 0), maxAttempts, events);
            && s.accepted == |s.q.items| + s.q.synced + s.q.dropped
            && UniqueKeys(s.q.items) && Disjoint(s.flight)
  {
    RunOk(System(EMPTY, [], 0), maxAttempts, events);
  }
}
