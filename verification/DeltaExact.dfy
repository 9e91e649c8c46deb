/** What a dotted change does to a diff, and what a replica holds after a history. */
module DeltaExact {
  import opened Common
  import opened Delta
  import opened DeltaTheorems
  import opened DeltaRoundTrip
  import Text

  predicate ChangedAt(a: Doc, b: Doc, k: string) {
    (k in a || k in b) && !(k in a && k in b && a[k] == b[k])
  }

  // Every key at which the objects differ, at any depth, is free of dots.
  predicate DotFreeChanges(a: Json, b: Json)
    decreases a
  {
    a.Obj? && b.Obj? ==>
      forall k | k in a.fields.Keys + b.fields.Keys ::
        ChangedAt(a.fields, b.fields, k) ==>
          '.' !in k && (k in a.fields && k in b.fields ==> DotFreeChanges(a.fields[k], b.fields[k]))
  }

  // The differ descends below an empty key of the root, whose name leaves no trace in the text.
  predicate EmptyRoot(a: Json, b: Json) {
    a.Obj? && b.Obj? && "" in a.fields && "" in b.fields
    && a.fields[""] != b.fields[""] && a.fields[""].Obj? && b.fields[""].Obj?
  }

  // No key disappears, at any depth at which both sides are objects.
  predicate Kept(a: Json, b: Json)
    decreases b
  {
    a.Obj? && b.Obj? ==> forall k | k in a.fields :: k in b.fields && Kept(a.fields[k], b.fields[k])
  }

  lemma {:induction false} FillIsTargetIffKept(a: Json, b: Json)
    ensures Fill(a, b) == b <==> Kept(a, b)
    decreases b
  {
    if a.Obj? && b.Obj? {
      forall k | k in a.fields && k in b.fields
        ensures Fill(a.fields[k], b.fields[k]) == b.fields[k] <==> Kept(a.fields[k], b.fields[k])
      {
        FillIsTargetIffKept(a.fields[k], b.fields[k]);
      }
      var f := Fill(a, b).fields;
      if Kept(a, b) {
        assert f == b.fields;
      } else {
        var k :| k in a.fields && !(k in b.fields && Kept(a.fields[k], b.fields[k]));
        assert k in f;
      }
    }
  }

  // ---------------------------------------------------------------------
  // What an emitted path points at

  function At(j: Json, p: seq<string>): Option<Json>
    decreases |p|
  {
    if p == [] then Some(j)
    else if j.Obj? && p[0] in j.fields then At(j.fields[p[0]], p[1..])
    else None
  }

  predicate ObjectAt(j: Json, p: seq<string>) { At(j, p).Some? && At(j, p).value.Obj? }

  predicate BothObjects(a: Json, b: Json, p: seq<string>) { ObjectAt(a, p) && ObjectAt(b, p) }

  predicate ChangedBelow(a: Json, b: Json, p: seq<string>, k: string) {
    BothObjects(a, b, p) && ChangedAt(At(a, p).value.fields, At(b, p).value.fields, k)
  }

  lemma {:induction false} ObjectAbove(j: Json, p: seq<string>, q: seq<string>)
    requires ObjectAt(j, p) && q <= p
    ensures ObjectAt(j, q)
    decreases |q|
  {
    if q != [] { ObjectAbove(j.fields[p[0]], p[1..], q[1..]); }
  }

  ghost predicate PointsAtChange(a: Json, b: Json, path: seq<string>) {
    && path != [] && !BothObjects(a, b, path)
    && forall j | 0 <= j < |path| :: ChangedBelow(a, b, path[..j], path[j])
  }

  lemma {:induction false} PathsPointAtChanges(a: Json, b: Json)
    requires a.Obj? && b.Obj?
    ensures forall e | e in Changes(a, b) :: PointsAtChange(a, b, e.path)
    decreases a, 2
  {
    PathsInPoint(a, b, KeysOf(a.fields, b.fields));
  }

  lemma {:induction false} PathsInPoint(a: Json, b: Json, keys: seq<string>)
    requires a.Obj? && b.Obj?
    ensures forall e | e in ChangesIn(a, b, keys) :: PointsAtChange(a, b, e.path)
    decreases a, 1, |keys|
  {
    if keys != [] {
      PathsAtPoint(a, b, keys[0]);
      PathsInPoint(a, b, keys[1..]);
    }
  }

  lemma PointsBelow(a: Json, b: Json, k: string, path: seq<string>)
    requires a.Obj? && b.Obj? && k in a.fields && k in b.fields && a.fields[k] != b.fields[k]
    requires a.fields[k].Obj? && b.fields[k].Obj? && PointsAtChange(a.fields[k], b.fields[k], path)
    ensures PointsAtChange(a, b, [k] + path)
  {
    var longer := [k] + path;
    assert longer[1..] == path;
    forall j | 0 <= j < |longer| ensures ChangedBelow(a, b, longer[..j], longer[j]) {
      if j > 0 {
        assert longer[..j][1..] == path[..j - 1];
        assert ChangedBelow(a.fields[k], b.fields[k], path[..j - 1], path[j - 1]);
      }
    }
  }

  lemma {:induction false} PathsAtPoint(a: Json, b: Json, k: string)
    requires a.Obj? && b.Obj?
    ensures forall e | e in ChangesAt(a, b, k) :: PointsAtChange(a, b, e.path)
    decreases a, 0
  {
    if k in a.fields && k in b.fields && a.fields[k] != b.fields[k] && a.fields[k].Obj? && b.fields[k].Obj? {
      var va, vb := a.fields[k], b.fields[k];
      PathsPointAtChanges(va, vb);
      forall e | e in ChangesAt(a, b, k) ensures PointsAtChange(a, b, e.path) {
        var i :| 0 <= i < |Changes(va, vb)| && e == Under(k, Changes(va, vb))[i];
        assert Changes(va, vb)[i] in Changes(va, vb);
        PointsBelow(a, b, k, Changes(va, vb)[i].path);
      }
    } else {
      forall e | e in ChangesAt(a, b, k) ensures PointsAtChange(a, b, e.path) {
        assert e.path == [k] && e.path[1..] == [] && e.path[..0] == [];
        assert k in a.fields ==> At(a, e.path) == Some(a.fields[k]);
        assert k in b.fields ==> At(b, e.path) == Some(b.fields[k]);
      }
    }
  }

  // ---------------------------------------------------------------------
  // Addressable changes

  lemma {:induction false} DottedWitness(a: Json, b: Json) returns (p: seq<string>, k: string)
    requires a.Obj? && b.Obj? && !DotFreeChanges(a, b)
    ensures '.' in k && ChangedBelow(a, b, p, k)
    decreases a
  {
    k :| k in a.fields.Keys + b.fields.Keys && ChangedAt(a.fields, b.fields, k)
         && !('.' !in k && (k in a.fields && k in b.fields ==> DotFreeChanges(a.fields[k], b.fields[k])));
    p := [];
    if '.' !in k {
      var h := k;
      p, k := DottedWitness(a.fields[h], b.fields[h]);
      assert ([h] + p)[1..] == p;
      p := [h] + p;
    }
  }

  lemma {:induction false} DottedChangeFound(a: Json, b: Json, p: seq<string>, k: string)
    requires ChangedBelow(a, b, p, k) && '.' in k
    ensures !DotFreeChanges(a, b)
    decreases |p|
  {
    if p != [] {
      var h := p[0];
      assert h in a.fields && h in b.fields;
      if '.' !in h { DottedChangeFound(a.fields[h], b.fields[h], p[1..], k); }
    }
  }

  lemma {:induction false} RootedIffNotEmptyRoot(a: Json, b: Json)
    requires a.Obj? && b.Obj?
    ensures (forall e | e in Changes(a, b) :: Rooted(e.path)) <==> !EmptyRoot(a, b)
  {
    PathsPointAtChanges(a, b);
    if EmptyRoot(a, b) {
      var va, vb := a.fields[""], b.fields[""];
      NoChanges(va, vb);
      ChangesNonempty(va, vb);
      var e := ChangesAt(a, b, "")[0];
      assert |e.path| > 1 && e.path[0] == "";
      KeyAmongChanges(a, b, KeysOf(a.fields, b.fields), "");
      assert e in Changes(a, b);
    } else {
      forall e | e in Changes(a, b) ensures Rooted(e.path) {
        assert PointsAtChange(a, b, e.path);
        if |e.path| > 1 && e.path[0] == "" {
          assert ChangedBelow(a, b, e.path[..0], e.path[0]);
          assert ChangedBelow(a, b, e.path[..1], e.path[1]);
          assert e.path[..1][1..] == [];
          assert e.path[..0] == [];
          assert At(a, e.path[..1]) == Some(a.fields[""]) && At(b, e.path[..1]) == Some(b.fields[""]);
        }
      }
    }
  }

  lemma {:induction false} KeyAmongChanges(a: Json, b: Json, keys: seq<string>, k: string)
    requires a.Obj? && b.Obj? && k in keys
    ensures forall e | e in ChangesAt(a, b, k) :: e in ChangesIn(a, b, keys)
    decreases |keys|
  {
    if k != keys[0] { KeyAmongChanges(a, b, keys[1..], k); }
  }

  lemma EmittedDotFree(a: Json, b: Json, path: seq<string>)
    requires DotFreeChanges(a, b) && PointsAtChange(a, b, path)
    ensures DotFree(path)
  {
    forall n | 0 <= n < |path| ensures '.' !in path[n] {
      assert ChangedBelow(a, b, path[..n], path[n]);
      if '.' in path[n] { DottedChangeFound(a, b, path[..n], path[n]); }
    }
  }

  /** The text of every change splits back into its path when no changed key holds
      a dot and the root's empty key is not descended into. */
  lemma ClearWhenDotFree(a: Json, b: Json)
    requires a.Obj? && b.Obj? && !EmptyRoot(a, b) && DotFreeChanges(a, b)
    ensures AllClear(Changes(a, b))
  {
    RootedIffNotEmptyRoot(a, b);
    PathsPointAtChanges(a, b);
    var ps := Changes(a, b);
    forall i | 0 <= i < |ps| ensures Clear(ps[i].path) {
      assert ps[i] in ps && PointsAtChange(a, b, ps[i].path);
      EmittedDotFree(a, b, ps[i].path);
    }
  }

  // ---------------------------------------------------------------------
  // A changed key that holds a dot is never written

  lemma {:induction false} SetKeeps(o: Doc, q: seq<string>, v: Json, p: seq<string>, k: string)
    requires DotFree(q) && q != [] && '.' in k && !(q <= p) && ObjectAt(Obj(o), p)
    ensures ObjectAt(Obj(Set(o, q, v)), p)
    ensures SameAt(At(Obj(o), p).value.fields, At(Obj(Set(o, q, v)), p).value.fields, k)
    decreases |p|
  {
    if p != [] && q[0] == p[0] {
      assert q == [q[0]] + q[1..] && p == [p[0]] + p[1..];
      ObjectAbove(o[p[0]], p[1..], []);
      SetKeeps(o[p[0]].fields, q[1..], v, p[1..], k);
    }
  }

  predicate SameAt(a: Doc, b: Doc, k: string) { (k in a <==> k in b) && (k in a ==> a[k] == b[k]) }

  lemma {:induction false} SetAllKeeps(o: Doc, ps: seq<Patch>, p: seq<string>, k: string)
    requires '.' in k && ObjectAt(Obj(o), p)
    requires forall e | e in ps :: DotFree(e.path) && e.path != [] && !(e.path <= p)
    ensures ObjectAt(Obj(SetAll(o, ps)), p)
    ensures SameAt(At(Obj(o), p).value.fields, At(Obj(SetAll(o, ps)), p).value.fields, k)
    decreases |ps|
  {
    if ps != [] {
      SetKeeps(o, ps[0].path, ps[0].value, p, k);
      SetAllKeeps(Set(o, ps[0].path, ps[0].value), ps[1..], p, k);
    }
  }

  ghost predicate Shallowest(a: Json, b: Json, p: seq<string>) {
    forall q, l :: '.' in l && ChangedBelow(a, b, q, l) ==> |p| <= |q|
  }

  lemma {:induction false} ShallowestExists(a: Json, b: Json, p: seq<string>, k: string)
    returns (q: seq<string>, l: string)
    requires '.' in k && ChangedBelow(a, b, p, k)
    ensures '.' in l && ChangedBelow(a, b, q, l) && Shallowest(a, b, q)
    decreases |p|
  {
    q, l := p, k;
    if !Shallowest(a, b, p) {
      var q0, l0 :| '.' in l0 && ChangedBelow(a, b, q0, l0) && |q0| < |p|;
      q, l := ShallowestExists(a, b, q0, l0);
    }
  }

  lemma NotAbove(a: Json, b: Json, p: seq<string>, path: seq<string>)
    requires BothObjects(a, b, p) && Shallowest(a, b, p) && PointsAtChange(a, b, path)
    ensures !(Shatter(path) <= p)
  {
    if DotFree(path) {
      ShatterPlain(path);
      if path <= p {
        ObjectAbove(a, p, path);
        ObjectAbove(b, p, path);
      }
    } else {
      var j :| 0 <= j < |path| && '.' in path[j];
      assert ChangedBelow(a, b, path[..j], path[j]);
    }
  }

  lemma ListedFromChanges(a: Json, b: Json, M: Doc, L: seq<Patch>)
    requires a.Obj? && b.Obj? && !EmptyRoot(a, b)
    requires M == Record(map[], "", Changes(a, b)) && L == Listed(M, Text.Ascending(M.Keys))
    ensures forall i | 0 <= i < |L| :: exists e | e in Changes(a, b) :: L[i].path == Shatter(e.path)
  {
    RecordKeys(Changes(a, b));
    RootedIffNotEmptyRoot(a, b);
    forall i | 0 <= i < |L| ensures exists e | e in Changes(a, b) :: L[i].path == Shatter(e.path) {
      var t := Text.Ascending(M.Keys)[i];
      assert t in Text.Ascending(M.Keys);
      var n :| 0 <= n < |Changes(a, b)| && Shown(Changes(a, b)[n]) == t;
      assert Changes(a, b)[n] in Changes(a, b);
      SplitOfRendered(Changes(a, b)[n].path);
    }
  }

  lemma DottedChangeIsLost(a: Json, b: Json)
    requires a.Obj? && b.Obj? && !EmptyRoot(a, b) && !DotFreeChanges(a, b)
    ensures Received(a, DiffOf(a, b)) != Some(b)
  {
    var p, k := DottedWitness(a, b);
    p, k := ShallowestExists(a, b, p, k);
    DiffNoneIffEqual(a, b);
    if a != b {
      var M := Record(map[], "", Changes(a, b));
      var L := Listed(M, Text.Ascending(M.Keys));
      ListedFromChanges(a, b, M, L);
      PathsPointAtChanges(a, b);
      forall g | g in L ensures DotFree(g.path) && g.path != [] && !(g.path <= p) {
        var i :| 0 <= i < |L| && L[i] == g;
        var e :| e in Changes(a, b) && L[i].path == Shatter(e.path);
        NotAbove(a, b, p, e.path);
      }
      SetAllKeeps(a.fields, L, p, k);
    }
  }

  lemma {:induction false} FillAgainDotFree(a: Json, b: Json)
    requires a.Obj? && b.Obj? && DotFreeChanges(a, b)
    ensures DotFreeChanges(Fill(a, b), b)
    decreases a
  {
    var f := Fill(a, b);
    forall k | k in f.fields.Keys + b.fields.Keys && ChangedAt(f.fields, b.fields, k)
      ensures '.' !in k && (k in f.fields && k in b.fields ==> DotFreeChanges(f.fields[k], b.fields[k]))
    {
      if k in a.fields && k in b.fields {
        if a.fields[k] == b.fields[k] {
          ExtendsSelf(a.fields[k]);
          FillSettled(a.fields[k], b.fields[k]);
        }
        assert f.fields[k] == Fill(a.fields[k], b.fields[k]);
        assert ChangedAt(a.fields, b.fields, k);
        if a.fields[k].Obj? && b.fields[k].Obj? { FillAgainDotFree(a.fields[k], b.fields[k]); }
      } else {
        assert k in a.fields && ChangedAt(a.fields, b.fields, k);
      }
    }
  }

  lemma FillAgainRooted(a: Json, b: Json)
    requires a.Obj? && b.Obj? && !EmptyRoot(a, b)
    ensures !EmptyRoot(Fill(a, b), b)
  {
    var f := Fill(a, b).fields;
    if "" in a.fields && "" in b.fields {
      assert f[""] == Fill(a.fields[""], b.fields[""]);
      ExtendsSelf(a.fields[""]);
      if a.fields[""] == b.fields[""] { FillSettled(a.fields[""], b.fields[""]); }
    }
  }

  lemma FillAgainClear(a: Json, b: Json)
    requires a.Obj? && b.Obj? && !EmptyRoot(a, b) && DotFreeChanges(a, b)
    ensures AllClear(Changes(Fill(a, b), b))
  {
    FillAgainDotFree(a, b);
    FillAgainRooted(a, b);
    ClearWhenDotFree(Fill(a, b), b);
  }

  /** After a diff was applied, a fresh diff against the same target changes nothing
      more; it is None exactly when no key was removed, so a removal is sent for ever. */
  lemma FreshDiff(a: Json, b: Json, r: Json)
    requires a.Obj? && b.Obj? && !EmptyRoot(a, b) && DotFreeChanges(a, b)
    requires Received(a, DiffOf(a, b)) == Some(r)
    ensures Received(r, DiffOf(r, b)) == Some(r)
    ensures DiffOf(r, b) == None <==> Kept(a, b)
  {
    ClearWhenDotFree(a, b);
    ExtendsSelf(a);
    ApplyDiffFills(a, a, b);
    FillIsTargetIffKept(a, b);
    DiffNoneIffEqual(r, b);
    FillAgainClear(a, b);
    ExtendsSelf(r);
    ApplyDiffFills(r, r, b);
    FillExtends(a, b);
    FillSettled(r, b);
  }

  // ---------------------------------------------------------------------
  // A replica that follows the sender

  datatype SyncDelta = SyncDelta(full: Option<Json>, patches: Option<Doc>)

  function EncodeSync(base: Option<Json>, next: Json): SyncDelta {
    if base.None? then SyncDelta(Some(next), None) else SyncDelta(None, DiffOf(base.value, next))
  }

  function Take(r: Option<Json>, d: SyncDelta): Option<Json> {
    if d.full.Some? then d.full
    else if r.None? then None
    else Received(r.value, d.patches)
  }

  // What the replica holds after the sender encoded each snapshot against the one before.
  function Replica(history: seq<Json>): Option<Json>
    requires history != []
  {
    var n := |history| - 1;
    if n == 0 then Take(None, EncodeSync(None, history[0]))
    else Take(Replica(history[..n]), EncodeSync(Some(history[n - 1]), history[n]))
  }

  // Every snapshot laid over the ones before it.
  function Layered(history: seq<Json>): Json
    requires history != []
  {
    var n := |history| - 1;
    if n == 0 then history[0] else Fill(Layered(history[..n]), history[n])
  }

  ghost predicate Sendable(history: seq<Json>) {
    && (forall i | 0 <= i < |history| :: history[i].Obj?)
    && (forall i | 0 < i < |history| ::
          !EmptyRoot(history[i - 1], history[i]) && DotFreeChanges(history[i - 1], history[i]))
  }

  /** After any history the replica holds the latest snapshot with Null at the keys
      some earlier snapshot had and it lacks. */
  lemma {:induction false} ReplicaIsLayered(history: seq<Json>)
    requires history != [] && Sendable(history)
    ensures Replica(history) == Some(Layered(history))
    ensures Extends(Layered(history), history[|history| - 1])
  {
    var n := |history| - 1;
    ExtendsSelf(history[n]);
    if n > 0 {
      ReplicaIsLayered(history[..n]);
      ClearWhenDotFree(history[n - 1], history[n]);
      ApplyDiffFills(Layered(history[..n]), history[n - 1], history[n]);
      FillExtends(Layered(history[..n]), history[n]);
    }
  }

  lemma {:induction false} LayeredKept(history: seq<Json>)
    requires history != []
    requires forall j | 0 < j < |history| :: Kept(history[j - 1], history[j])
    ensures Layered(history) == history[|history| - 1]
  {
    var n := |history| - 1;
    if n > 0 {
      LayeredKept(history[..n]);
      FillIsTargetIffKept(history[n - 1], history[n]);
    }
  }

  /** A replica of a history without removals equals the sender; every prefix of a history is
      one, so it does after each step. */
  lemma ReplicaFollows(history: seq<Json>)
    requires history != [] && Sendable(history)
    requires forall j | 0 < j < |history| :: Kept(history[j - 1], history[j])
    ensures Replica(history) == Some(history[|history| - 1])
  {
    ReplicaIsLayered(history);
    LayeredKept(history);
  }
}
