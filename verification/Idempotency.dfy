/** The client-side guard against double submission (crates/radin-core/src/control.rs). */
module Idempotency {
  import opened Common

  function Live(seen: map<string, nat>, ttl: nat, now: nat): map<string, nat> {
    map k | k in seen && Since(now, seen[k]) < ttl :: seen[k]
  }

  class ClientIdempotencyGuard {
    const ttlMs: nat
    var seen: map<string, nat>

    constructor (ttlMs: nat)
      ensures this.ttlMs == ttlMs && seen == map[]
    {
      this.ttlMs, seen := ttlMs, map[];
    }

    method FirstTime(key: string, now: nat) returns (first: bool)
      modifies this`seen
      ensures first == (key !in Live(old(seen), ttlMs, now))
      ensures seen == if first then Live(old(seen), ttlMs, now)[key := now] else Live(old(seen), ttlMs, now)
    {
      seen := map k | k in seen && Since(now, seen[k]) < ttlMs :: seen[k];
      if key in seen { return false; }
      seen := seen[key := now];
      first := true;
    }
  }

  // ---------------------------------------------------------------------
  // Runs

  datatype Call = Call(key: string, at: nat)

  function SeenAfter(ttl: nat, calls: seq<Call>): map<string, nat> {
    if calls == [] then map[] else
      var n := |calls| - 1;
      var live := Live(SeenAfter(ttl, calls[..n]), ttl, calls[n].at);
      if calls[n].key in live then live else live[calls[n].key := calls[n].at]
  }

  predicate Accepted(ttl: nat, calls: seq<Call>, n: nat)
    requires n < |calls|
  {
    calls[n].key !in Live(SeenAfter(ttl, calls[..n]), ttl, calls[n].at)
  }

  ghost predicate Ordered(calls: seq<Call>) { forall i, j | 0 <= i < j < |calls| :: calls[i].at <= calls[j].at }

  // One call, on the map before it.
  lemma SeenStep(ttl: nat, calls: seq<Call>, n: nat)
    requires n < |calls|
    ensures var live := Live(SeenAfter(ttl, calls[..n]), ttl, calls[n].at);
            SeenAfter(ttl, calls[..n + 1])
            == if Accepted(ttl, calls, n) then live[calls[n].key := calls[n].at] else live
  {
    assert calls[..n + 1][..n] == calls[..n] && calls[..n + 1][n] == calls[n];
  }

  // The map holds acceptances only.
  lemma {:induction false} SeenWasAccepted(ttl: nat, calls: seq<Call>, n: nat, k: string) returns (j: nat)
    requires n <= |calls| && k in SeenAfter(ttl, calls[..n])
    ensures j < n && Accepted(ttl, calls, j) && calls[j] == Call(k, SeenAfter(ttl, calls[..n])[k])
    decreases n
  {
    var m := n - 1;
    SeenStep(ttl, calls, m);
    if Accepted(ttl, calls, m) && calls[m].key == k {
      j := m;
    } else {
      j := SeenWasAccepted(ttl, calls, m, k);
    }
  }

  // An acceptance that has not expired is still held, or was renewed.
  lemma {:induction false} LiveIsSeen(ttl: nat, calls: seq<Call>, n: nat, j: nat)
    requires Ordered(calls) && j < n <= |calls| && Accepted(ttl, calls, j) && calls[n - 1].at < calls[j].at + ttl
    ensures calls[j].key in SeenAfter(ttl, calls[..n]) && SeenAfter(ttl, calls[..n])[calls[j].key] >= calls[j].at
    decreases n
  {
    var m := n - 1;
    SeenStep(ttl, calls, m);
    if j < m {
      assert calls[m - 1].at <= calls[m].at && calls[j].at <= calls[m].at;
      LiveIsSeen(ttl, calls, m, j);
    }
  }

  /** On a clock that never runs backwards, a key is accepted exactly when it was not accepted
      within the last ttl: the pruned map answers as a scan of the whole history would. */
  lemma AcceptedIff(ttl: nat, calls: seq<Call>, n: nat)
    requires Ordered(calls) && n < |calls|
    ensures Accepted(ttl, calls, n)
            <==> !exists j | 0 <= j < n ::
                Accepted(ttl, calls, j) && calls[j].key == calls[n].key && calls[n].at < calls[j].at + ttl
  {
    if j: nat :| j < n && Accepted(ttl, calls, j) && calls[j].key == calls[n].key && calls[n].at < calls[j].at + ttl {
      assert calls[n - 1].at <= calls[n].at && calls[j].at <= calls[n].at;
      LiveIsSeen(ttl, calls, n, j);
    }
    if !Accepted(ttl, calls, n) {
      var j := SeenWasAccepted(ttl, calls, n, calls[n].key);
      assert calls[j].at <= calls[n].at;
    }
  }
}
