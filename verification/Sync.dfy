/** The queue of control operations (crates/radin-core/src/sync.rs). */
module Sync {
  import opened Common

  datatype OpKind = EdgeListRefresh | ConfigUpdate | OptimizationPolicy | TelemetryAck | RoutePin

  datatype ControlOp = ControlOp(
    operationId: string, key: string, kind: OpKind, payload: Option<string>, createdAt: nat, opcode: nat)

  datatype SyncState = LocalOnly | Pending | Syncing | Synced | Failed | Retrying

  datatype Item = Item(op: ControlOp, state: SyncState, attempts: nat, queuedAt: nat, lastAttemptAt: Option<nat>)

  datatype Batch = Batch(ops: seq<ControlOp>, createdAt: nat)

  datatype Queue = Queue(items: seq<Item>, state: SyncState, lastError: Option<string>, synced: nat, dropped: nat)

  const EMPTY := Queue([], LocalOnly, None, 0, 0)

  predicate Eligible(it: Item) { it.state.LocalOnly? || it.state.Pending? || it.state.Retrying? }

  function OpKeys(ops: seq<ControlOp>): set<string> { set o | o in ops :: o.key }

  function ItemKeys(items: seq<Item>): set<string> { set it | it in items :: it.op.key }

  function Filter(items: seq<Item>, keep: Item -> bool): (r: seq<Item>)
    ensures forall it | it in r :: it in items && keep(it)
    ensures forall it | it in items && keep(it) :: it in r
  {
    if items == [] then []
    else (if keep(items[0]) then [items[0]] else []) + Filter(items[1..], keep)
  }

  function Each(items: seq<Item>, f: Item -> Item): (r: seq<Item>)
    ensures |r| == |items| && forall i | 0 <= i < |items| :: r[i] == f(items[i])
  {
    seq(|items|, i requires 0 <= i < |items| => f(items[i]))
  }

  // ---------------------------------------------------------------------
  // Specification of the operations

  function Enqueued(q: Queue, op: ControlOp, now: nat): Queue {
    if op.key in ItemKeys(q.items) then q
    else q.(items := q.items + [Item(op, if q.state.LocalOnly? then LocalOnly else Pending, 0, now, None)])
  }

  function Recovered(q: Queue): Queue {
    q.(state := if q.state.Failed? then Retrying else q.state,
       items := Each(q.items, (it: Item) => if it.state.LocalOnly? then it.(state := Pending) else it))
  }

  // The operations of the first n eligible items.
  function Taken(items: seq<Item>, n: nat): seq<ControlOp> {
    if items == [] || n == 0 then []
    else if Eligible(items[0]) then [items[0].op] + Taken(items[1..], n - 1)
    else Taken(items[1..], n)
  }

  function Sent(it: Item, now: nat): Item {
    it.(state := Syncing, attempts := it.attempts + 1, lastAttemptAt := Some(now))
  }

  function SentIfIn(keys: set<string>, now: nat): Item -> Item {
    (it: Item) => if Eligible(it) && it.op.key in keys then Sent(it, now) else it
  }

  function BatchOf(q: Queue, maxOps: nat, now: nat): Option<Batch> {
    var ops := Taken(q.items, Max(maxOps, 1));
    if ops == [] then None else Some(Batch(ops, now))
  }

  function Built(q: Queue, maxOps: nat, now: nat): Queue {
    match BatchOf(q, maxOps, now)
    case None => q
    case Some(b) => q.(items := Each(q.items, SentIfIn(OpKeys(b.ops), now)), state := Syncing)
  }

  function KeyNotIn(keys: set<string>): Item -> bool { (it: Item) => it.op.key !in keys }

  function Acked(q: Queue, b: Batch): Queue {
    var items := Filter(q.items, KeyNotIn(OpKeys(b.ops)));
    q.(items := items, synced := q.synced + |b.ops|,
       state := if forall it | it in items :: it.state.Synced? then Synced else Pending)
  }

  function GivenUpOrRetrying(keys: set<string>, maxAttempts: nat): Item -> Item {
    (it: Item) =>
      if it.op.key in keys then it.(state := if it.attempts >= maxAttempts then Failed else Retrying) else it
  }

  function FailedBatch(q: Queue, b: Batch, error: string, maxAttempts: nat): Queue {
    var items := Each(q.items, GivenUpOrRetrying(OpKeys(b.ops), maxAttempts));
    q.(items := items, lastError := Some(error),
       state := if exists it | it in items :: it.state.Failed? then Failed else Retrying)
  }

  function NotTelemetry(): Item -> bool { (it: Item) => it.op.kind != TelemetryAck }

  function TelemetryDropped(q: Queue): Queue {
    var items := Filter(q.items, NotTelemetry());
    FilterShrinks(q.items, NotTelemetry());
    q.(items := items, dropped := q.dropped + (|q.items| - |items|))
  }

  lemma {:induction false} FilterShrinks(items: seq<Item>, keep: Item -> bool)
    ensures |Filter(items, keep)| <= |items|
  {
    if items != [] { FilterShrinks(items[1..], keep); }
  }

  lemma {:induction false} FilterConcat(xs: seq<Item>, ys: seq<Item>, keep: Item -> bool)
    ensures Filter(xs + ys, keep) == Filter(xs, keep) + Filter(ys, keep)
  {
    if xs == [] {
      assert xs + ys == ys;
    } else {
      assert (xs + ys)[1..] == xs[1..] + ys;
      FilterConcat(xs[1..], ys, keep);
    }
  }

  // ---------------------------------------------------------------------
  // The code

  class SyncEngine {
    var items: seq<Item>
    var state: SyncState
    var lastError: Option<string>
    var syncedCount: nat
    var droppedCount: nat

    ghost function View(): Queue
      reads this
    {
      Queue(items, state, lastError, syncedCount, droppedCount)
    }

    constructor ()
      ensures View() == EMPTY
    {
      items, state, lastError, syncedCount, droppedCount := [], LocalOnly, None, 0, 0;
    }

    method Enqueue(op: ControlOp, now: nat) returns (accepted: bool)
      modifies this
      ensures View() == Enqueued(old(View()), op, now)
      ensures accepted == (op.key !in ItemKeys(old(items)))
      ensures accepted ==>
                items == old(items) + [Item(op, if old(state) == LocalOnly then LocalOnly else Pending, 0, now, None)]
    {
      for i := 0 to |items|
        invariant View() == old(View())
        invariant forall j | 0 <= j < i :: items[j].op.key != op.key
      {
        if items[i].op.key == op.key {
          assert items[i] in items;
          return false;
        }
      }
      items := items + [Item(op, if state.LocalOnly? then LocalOnly else Pending, 0, now, None)];
      accepted := true;
    }

    method NetworkRecovered()
      modifies this
      ensures View() == Recovered(old(View()))
    {
      if state.Failed? { state := Retrying; }
      for i := 0 to |items|
        invariant |items| == |old(items)|
        invariant state == Recovered(old(View())).state
                && View().(items := [], state := state) == old(View()).(items := [], state := state)
        invariant forall j | 0 <= j < |items| ::
                items[j] == if j < i then Recovered(old(View())).items[j] else old(items)[j]
      {
        if items[i].state.LocalOnly? { items := items[i := items[i].(state := Pending)]; }
      }
      assert items == Recovered(old(View())).items;
    }

    method BuildBatch(maxOps: nat, now: nat) returns (b: Option<Batch>)
      modifies this
      ensures b == BatchOf(old(View()), maxOps, now)
      ensures View() == Built(old(View()), maxOps, now)
      ensures b.Some? ==> b.value.createdAt == now && state == Syncing
    {
      var n, eligible := Max(maxOps, 1), [];
      for i := 0 to |items|
        invariant View() == old(View())
        invariant |eligible| <= n && Taken(items, n) == eligible + Taken(items[i..], n - |eligible|)
      {
        assert items[i..][1..] == items[i + 1..];
        if Eligible(items[i]) && |eligible| < n { eligible := eligible + [items[i].op]; }
      }
      assert items[|items|..] == [] && eligible == Taken(items, n);
      if eligible == [] { return None; }
      ghost var sent := SentIfIn(OpKeys(eligible), now);
      for i := 0 to |items|
        invariant |items| == |old(items)|
        invariant View().(items := []) == old(View()).(items := [])
        invariant forall j | 0 <= j < |items| :: items[j] == if j < i then sent(old(items)[j]) else old(items)[j]
      {
        if Eligible(items[i]) && items[i].op.key in OpKeys(eligible) {
          items := items[i := Sent(items[i], now)];
        }
      }
      assert items == Each(old(items), sent);
      state := Syncing;
      b := Some(Batch(eligible, now));
    }

    method MarkSynced(b: Batch)
      modifies this
      ensures View() == Acked(old(View()), b)
    {
      var keys := OpKeys(b.ops);
      Retain(KeyNotIn(keys));
      syncedCount := syncedCount + |b.ops|;
      state := if forall it | it in items :: it.state.Synced? then Synced else Pending;
    }

    method MarkFailed(b: Batch, error: string, maxAttempts: nat)
      modifies this
      ensures View() == FailedBatch(old(View()), b, error, maxAttempts) && lastError == Some(error)
    {
      lastError := Some(error);
      var keys := OpKeys(b.ops);
      ghost var mark := GivenUpOrRetrying(keys, maxAttempts);
      for i := 0 to |items|
        invariant |items| == |old(items)| && lastError == Some(error)
        invariant View().(items := [], lastError := None) == old(View()).(items := [], lastError := None)
        invariant forall j | 0 <= j < |items| :: items[j] == if j < i then mark(old(items)[j]) else old(items)[j]
      {
        if items[i].op.key in keys {
          items := items[i := items[i].(state := if items[i].attempts >= maxAttempts then Failed else Retrying)];
        }
      }
      assert items == Each(old(items), mark);
      state := if exists it | it in items :: it.state.Failed? then Failed else Retrying;
    }

    method DropTelemetry()
      modifies this
      ensures View() == TelemetryDropped(old(View()))
    {
      var before := |items|;
      Retain(NotTelemetry());
      FilterShrinks(old(items), NotTelemetry());
      droppedCount := droppedCount + (before - |items|);
    }

    method Retain(keep: Item -> bool)
      modifies this`items
      ensures items == Filter(old(items), keep)
    {
      var kept := [];
      for i := 0 to |items|
        invariant items == old(items) && kept == Filter(items[..i], keep)
      {
        FilterConcat(items[..i], [items[i]], keep);
        assert items[..i + 1] == items[..i] + [items[i]] && [items[i]][1..] == [];
        if keep(items[i]) { kept := kept + [items[i]]; }
      }
      assert items[..|items|] == items;
      items := kept;
    }
  }
}
