/** The exact result of applying a diff, and when that result is the target. */
module DeltaRoundTrip {
  import opened Common
  import opened Delta
  import opened DeltaTheorems
  import Text

  // The tree b on top of r: a key only r has is kept as Null, at any depth at
  // which both sides are objects.
  function Fill(r: Json, b: Json): Json
    decreases b
  {
    if r.Obj? && b.Obj? then
      Obj(map k | k in r.fields.Keys + b.fields.Keys ::
            if k !in b.fields then Null
            else if k in r.fields then Fill(r.fields[k], b.fields[k])
            else b.fields[k])
    else b
  }

  // r is s with extra keys that hold Null.
  predicate Extends(r: Json, s: Json)
    decreases s
  {
    if r.Obj? && s.Obj? then
      && (forall k | k in s.fields :: k in r.fields && Extends(r.fields[k], s.fields[k]))
      && (forall k | k in r.fields && k !in s.fields :: r.fields[k] == Null)
    else r == s
  }

  lemma {:induction false} ExtendsSelf(s: Json)
    ensures Extends(s, s)
  {
    if s.Obj? {
      forall k | k in s.fields ensures Extends(s.fields[k], s.fields[k]) { ExtendsSelf(s.fields[k]); }
    }
  }

  lemma {:induction false} FillExtends(r: Json, b: Json)
    ensures Extends(Fill(r, b), b)
    decreases b
  {
    ExtendsSelf(b);
    if r.Obj? && b.Obj? {
      forall k | k in b.fields ensures Extends(Fill(r, b).fields[k], b.fields[k]) {
        if k in r.fields { FillExtends(r.fields[k], b.fields[k]); } else { ExtendsSelf(b.fields[k]); }
      }
    }
  }

  /** Filling a tree that already extends b changes nothing. */
  lemma {:induction false} FillSettled(r: Json, b: Json)
    requires Extends(r, b)
    ensures Fill(r, b) == r
    decreases b
  {
    if r.Obj? && b.Obj? {
      forall k | k in b.fields ensures Fill(r.fields[k], b.fields[k]) == r.fields[k] {
        FillSettled(r.fields[k], b.fields[k]);
      }
      assert Fill(r, b).fields == r.fields;
    }
  }

  predicate ExtendsAt(o: Doc, a: Doc, k: string) {
    && (k in a ==> k in o && Extends(o[k], a[k]))
    && (k in o && k !in a ==> o[k] == Null)
  }

  function FillAt(o: Doc, b: Doc, k: string): Json {
    if k !in b then Null else if k in o then Fill(o[k], b[k]) else b[k]
  }

  lemma {:induction false} SetAllUnder(o: Doc, k: string, ps: seq<Patch>)
    requires k in o && o[k].Obj?
    requires forall i | 0 <= i < |ps| :: ps[i].path != []
    ensures SetAll(o, Under(k, ps)) == o[k := Obj(SetAll(o[k].fields, ps))]
    decreases |ps|
  {
    if ps == [] {
      assert o[k := o[k]] == o;
    } else {
      var p := ps[0];
      assert ([k] + p.path)[1..] == p.path;
      var o1 := Set(o, [k] + p.path, p.value);
      assert o1 == o[k := Obj(Set(o[k].fields, p.path, p.value))];
      assert Under(k, ps)[1..] == Under(k, ps[1..]);
      SetAllUnder(o1, k, ps[1..]);
    }
  }

  lemma ChangesNonempty(a: Json, b: Json)
    requires a.Obj? && b.Obj?
    ensures forall i | 0 <= i < |Changes(a, b)| :: Changes(a, b)[i].path != []
  {
    forall i | 0 <= i < |Changes(a, b)| ensures Changes(a, b)[i].path != [] {
      HeadsAmongKeys(a, b, KeysOf(a.fields, b.fields), i);
    }
  }

  // One key: its patches write exactly the filled value there.
  lemma {:induction false} WriteKey(o: Doc, a: Json, b: Json, k: string)
    requires a.Obj? && b.Obj? && ExtendsAt(o, a.fields, k)
    requires k in a.fields || k in b.fields
    ensures SetAll(o, ChangesAt(a, b, k)) == o[k := FillAt(o, b.fields, k)]
    decreases a, 0
  {
    if k in a.fields && k in b.fields {
      var va, vb := a.fields[k], b.fields[k];
      if va == vb {
        FillSettled(o[k], vb);
        assert o[k := o[k]] == o;
      } else if va.Obj? && vb.Obj? {
        ChangesNonempty(va, vb);
        SetAllUnder(o, k, Changes(va, vb));
        WriteAll(o[k], va, vb);
      } else {
        assert SetAll(o, [Patch([k], vb)]) == o[k := vb];
      }
    } else {
      var v := if k in b.fields then b.fields[k] else Null;
      assert SetAll(o, [Patch([k], v)]) == o[k := v];
    }
  }

  lemma {:induction false} WriteKeys(o: Doc, a: Json, b: Json, keys: seq<string>) returns (r: Doc)
    requires a.Obj? && b.Obj? && Text.NoDuplicates(keys)
    requires forall k | k in keys :: ExtendsAt(o, a.fields, k) && (k in a.fields || k in b.fields)
    ensures r == SetAll(o, ChangesIn(a, b, keys))
    ensures r.Keys == o.Keys + (set k | k in keys)
    ensures forall k | k in r :: r[k] == if k in keys then FillAt(o, b.fields, k) else o[k]
    decreases a, 1, |keys|
  {
    if keys == [] {
      r := o;
    } else {
      var k := keys[0];
      WriteKey(o, a, b, k);
      var o1 := o[k := FillAt(o, b.fields, k)];
      SetAllConcat(o, ChangesAt(a, b, k), ChangesIn(a, b, keys[1..]));
      forall l | l in keys[1..] ensures ExtendsAt(o1, a.fields, l) && (l in a.fields || l in b.fields) {
        assert l in keys && l != k && ExtendsAt(o, a.fields, l);
      }
      r := WriteKeys(o1, a, b, keys[1..]);
      assert k !in keys[1..];
      assert forall l :: l in keys <==> l == k || l in keys[1..];
    }
  }

  // Keys of neither snapshot hold Null before and after.
  lemma SettledElsewhere(o: Doc, a: Doc, b: Doc, keys: seq<string>, w: Doc)
    requires Extends(Obj(o), Obj(a)) && keys == KeysOf(a, b)
    requires w.Keys == o.Keys + (set k | k in keys)
    requires forall k | k in w :: w[k] == if k in keys then FillAt(o, b, k) else o[k]
    ensures w.Keys == o.Keys + b.Keys
    ensures forall k | k in w :: w[k] == FillAt(o, b, k)
  {
    forall k ensures k in w.Keys <==> k in o.Keys + b.Keys {
      if k in keys { assert k in a.Keys + b.Keys; }
      if k in b { assert k in keys; }
    }
    forall k | k in w ensures w[k] == FillAt(o, b, k) {
      if k !in keys {
        assert k !in a.Keys + b.Keys;
        assert Obj(o).fields[k] == Null;
      }
    }
  }

  /** Writing the changes from a to b into anything that extends a fills it with b. */
  lemma {:induction false} WriteAll(r: Json, a: Json, b: Json)
    requires a.Obj? && b.Obj? && Extends(r, a)
    ensures r.Obj? && Obj(SetAll(r.fields, Changes(a, b))) == Fill(r, b)
    decreases a, 2
  {
    var keys := KeysOf(a.fields, b.fields);
    forall k | k in keys ensures ExtendsAt(r.fields, a.fields, k) && (k in a.fields || k in b.fields) {
      assert k in a.fields.Keys + b.fields.Keys;
    }
    var w := WriteKeys(r.fields, a, b, keys);
    SettledElsewhere(r.fields, a.fields, b.fields, keys, w);
    assert w == Fill(r, b).fields;
  }

  // ---------------------------------------------------------------------
  // From the text map back to the emitted patches

  predicate Clear(path: seq<string>) { Rooted(path) && DotFree(path) }

  predicate AllClear(ps: seq<Patch>) { forall i | 0 <= i < |ps| :: Clear(ps[i].path) }

  function Shown(p: Patch): string { Render("", p.path) }

  lemma ClearTextsDiffer(ps: seq<Patch>)
    requires AllClear(ps) && Independent(ps)
    ensures forall i, j | 0 <= i < j < |ps| :: Shown(ps[i]) != Shown(ps[j])
  {
    forall i, j | 0 <= i < j < |ps| ensures Shown(ps[i]) != Shown(ps[j]) {
      JoinSplit(ps[i].path);
      JoinSplit(ps[j].path);
      assert !Comparable(ps[i].path, ps[j].path);
      assert ps[i].path <= ps[i].path;
    }
  }

  lemma {:induction false} RecordSnoc(out: Doc, ps: seq<Patch>, p: Patch)
    ensures Record(out, "", ps + [p]) == Record(out, "", ps)[Shown(p) := p.value]
    decreases |ps|
  {
    RecordConcat(out, "", ps, [p]);
    assert [p][1..] == [];
  }

  lemma {:induction false} RecordKeys(ps: seq<Patch>)
    ensures Record(map[], "", ps).Keys == set i | 0 <= i < |ps| :: Shown(ps[i])
    decreases |ps|
  {
    if ps != [] {
      var n := |ps| - 1;
      RecordKeys(ps[..n]);
      RecordSnoc(map[], ps[..n], ps[n]);
      assert ps == ps[..n] + [ps[n]];
      assert forall i | 0 <= i < n :: ps[..n][i] == ps[i];
    }
  }

  lemma ListedSplit(M0: Doc, t: string, v: Json, order: seq<string>, i: nat)
    requires i < |order| && order[i] == t && Text.NoDuplicates(order)
    requires t !in M0 && forall u :: u in order <==> u in M0 || u == t
    ensures forall u :: u in order[..i] + order[i + 1..] <==> u in M0
    ensures Listed(M0[t := v], order)
            == Listed(M0, order[..i] + order[i + 1..])[..i] + [Patch(Split(t), v)]
                + Listed(M0, order[..i] + order[i + 1..])[i..]
  {
    var rest := order[..i] + order[i + 1..];
    forall u ensures u in rest <==> u in M0 { RestListing(order, i, u); }
    ListedEntries(M0, t, v, order, rest, i);
  }

  lemma ListedEntries(M0: Doc, t: string, v: Json, order: seq<string>, rest: seq<string>, i: nat)
    requires i < |order| && order[i] == t && rest == order[..i] + order[i + 1..]
    requires (forall u | u in order :: u in M0 || u == t) && (forall u | u in rest :: u in M0 && u != t)
    ensures Listed(M0[t := v], order) == Listed(M0, rest)[..i] + [Patch(Split(t), v)] + Listed(M0, rest)[i..]
  {
    var L, L0 := Listed(M0[t := v], order), Listed(M0, rest);
    forall j | 0 <= j < |L| ensures L[j] == (L0[..i] + [Patch(Split(t), v)] + L0[i..])[j] {
      if j < i { assert rest[j] == order[j] && rest[j] in rest; }
      else if j > i { assert rest[j - 1] == order[j] && rest[j - 1] in rest; }
    }
  }

  // Whatever order the texts are listed in, splitting them gives back the patches.
  lemma {:induction false} ListedIsPermutation(ps: seq<Patch>, order: seq<string>)
    requires AllClear(ps) && Independent(ps) && Text.NoDuplicates(order)
    requires forall t :: t in order <==> t in Record(map[], "", ps)
    ensures multiset(Listed(Record(map[], "", ps), order)) == multiset(ps)
    decreases |ps|
  {
    if ps != [] {
      var n := |ps| - 1;
      var p, init := ps[n], ps[..n];
      var M0, t := Record(map[], "", init), Shown(p);
      assert ps == init + [p];
      RecordSnoc(map[], init, p);
      LastTextIsNew(ps);
      assert t in order;
      var i :| 0 <= i < |order| && order[i] == t;
      ListedSplit(M0, t, p.value, order, i);
      var rest := order[..i] + order[i + 1..];
      ListedIsPermutation(init, rest);
      JoinSplit(p.path);
      Insertion(Listed(M0, rest), i, p);
    }
  }

  lemma LastTextIsNew(ps: seq<Patch>)
    requires ps != [] && AllClear(ps) && Independent(ps)
    ensures Shown(ps[|ps| - 1]) !in Record(map[], "", ps[..|ps| - 1])
  {
    RecordKeys(ps[..|ps| - 1]);
    ClearTextsDiffer(ps);
  }

  lemma Insertion<T>(s: seq<T>, i: nat, x: T)
    requires i <= |s|
    ensures multiset(s[..i] + [x] + s[i..]) == multiset(s) + multiset{x}
  {
    assert s == s[..i] + s[i..];
  }

  lemma RestListing(order: seq<string>, i: nat, u: string)
    requires i < |order| && Text.NoDuplicates(order)
    ensures u in order[..i] + order[i + 1..] <==> u in order && u != order[i]
  {
    if u in order && u != order[i] {
      var j :| 0 <= j < |order| && order[j] == u;
      if j < i { assert order[..i][j] == u; } else { assert order[i + 1..][j - i - 1] == u; }
    }
  }

  // ---------------------------------------------------------------------
  // Main theorems

  lemma {:induction false} NoChangesIn(a: Json, b: Json, keys: seq<string>)
    requires a.Obj? && b.Obj?
    ensures ChangesIn(a, b, keys) == [] <==> forall k | k in keys :: ChangesAt(a, b, k) == []
    decreases |keys|
  {
    if keys != [] {
      NoChangesIn(a, b, keys[1..]);
      assert |ChangesIn(a, b, keys)| == |ChangesAt(a, b, keys[0])| + |ChangesIn(a, b, keys[1..])|;
      assert forall k :: k in keys <==> k == keys[0] || k in keys[1..];
    }
  }

  lemma {:induction false} NoChanges(a: Json, b: Json)
    requires a.Obj? && b.Obj?
    ensures Changes(a, b) == [] <==> a == b
    decreases a
  {
    var keys := KeysOf(a.fields, b.fields);
    NoChangesIn(a, b, keys);
    if Changes(a, b) == [] {
      forall k | k in keys ensures k in a.fields && k in b.fields && a.fields[k] == b.fields[k] {
        assert ChangesAt(a, b, k) == [];
        if k in a.fields && k in b.fields && a.fields[k].Obj? && b.fields[k].Obj? {
          NoChanges(a.fields[k], b.fields[k]);
        }
      }
      assert a.fields == b.fields;
    }
  }

  /** `diff` of two objects is None exactly when they are equal, whatever their keys. */
  lemma DiffNoneIffEqual(a: Json, b: Json)
    requires a.Obj? && b.Obj?
    ensures DiffOf(a, b) == None <==> a == b
  {
    NoChanges(a, b);
    RecordKeys(Changes(a, b));
    if Changes(a, b) != [] {
      assert Shown(Changes(a, b)[0]) in Record(map[], "", Changes(a, b)).Keys;
    }
  }

  // What a receiver holding r has after a diff: nothing travels when nothing changed.
  function Received(r: Json, d: Option<Doc>): Option<Json> {
    if d.None? then Some(r) else ApplyOf(r, d.value)
  }

  /** Applying the diff of a and b to any r that extends a gives exactly Fill(r, b). */
  lemma ApplyDiffFills(r: Json, a: Json, b: Json)
    requires a.Obj? && b.Obj? && Extends(r, a) && AllClear(Changes(a, b))
    ensures Received(r, DiffOf(a, b)) == Some(Fill(r, b))
  {
    DiffNoneIffEqual(a, b);
    if a == b {
      FillSettled(r, b);
    } else {
      var ps := Changes(a, b);
      var M := Record(map[], "", ps);
      var order := Text.Ascending(M.Keys);
      ChangesIndependent(a, b);
      ListedIsPermutation(ps, order);
      AnyOrder(r.fields, ps, Listed(M, order));
      WriteAll(r, a, b);
    }
  }

  /** Every order in which the receiver walks the patch map gives the same tree. */
  lemma ApplyOrderIrrelevant(r: Doc, a: Json, b: Json, order: seq<string>)
    requires a.Obj? && b.Obj? && AllClear(Changes(a, b))
    requires Text.NoDuplicates(order)
    requires forall t :: t in order <==> t in Record(map[], "", Changes(a, b))
    ensures SetAll(r, Listed(Record(map[], "", Changes(a, b)), order)) == SetAll(r, Changes(a, b))
  {
    ChangesIndependent(a, b);
    ListedIsPermutation(Changes(a, b), order);
    AnyOrder(r, Changes(a, b), Listed(Record(map[], "", Changes(a, b)), order));
  }
}
