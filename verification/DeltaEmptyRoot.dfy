/** What becomes of a diff that descends below an empty key of the root, whose name leaves no
    trace in the text of a path; and the main theorem on when a diff round-trips.

    All the texts that reach the root's empty key are "" and those that begin with a dot, and the
    latter come from keys with a dot on the chain of empty keys. Such keys are never written by
    their own patch; an object moved up the chain could carry one along, but only from inside
    a taller changed one or from deeper down the chain, which cannot go on for ever. */
module DeltaEmptyRoot {
  import opened Common
  import opened Delta
  import opened DeltaTheorems
  import opened DeltaRoundTrip
  import opened DeltaExact
  import Text

  // ---------------------------------------------------------------------
  // Height of a tree

  function Height(j: Json): nat
    decreases j, 1
  {
    if j.Obj? then Tallest(j, Text.Ascending(j.fields.Keys)) else 0
  }

  function Tallest(j: Json, keys: seq<string>): nat
    requires j.Obj? && forall k | k in keys :: k in j.fields
    decreases j, 0, |keys|
  {
    if keys == [] then 0
    else
      assert keys[0] in keys;
      var here, later := 1 + Height(j.fields[keys[0]]), Tallest(j, keys[1..]);
      if here < later then later else here
  }

  lemma {:induction false} TallestCovers(j: Json, keys: seq<string>, k: string)
    requires j.Obj? && (forall l | l in keys :: l in j.fields) && k in keys
    ensures Height(j.fields[k]) < Tallest(j, keys)
    decreases |keys|
  {
    if k != keys[0] { TallestCovers(j, keys[1..], k); }
  }

  lemma {:induction false} HeightBelow(j: Json, p: seq<string>)
    requires At(j, p).Some?
    ensures |p| + Height(At(j, p).value) <= Height(j)
    decreases |p|
  {
    if p != [] {
      TallestCovers(j, Text.Ascending(j.fields.Keys), p[0]);
      HeightBelow(j.fields[p[0]], p[1..]);
    }
  }

  lemma {:induction false} AtConcat(j: Json, p: seq<string>, q: seq<string>)
    requires At(j, p).Some?
    ensures At(j, p + q) == At(At(j, p).value, q)
    decreases |p|
  {
    if p == [] {
      assert p + q == q;
    } else {
      assert (p + q)[1..] == p[1..] + q;
      AtConcat(j.fields[p[0]], p[1..], q);
    }
  }

  // ---------------------------------------------------------------------
  // Where an entry of the patched tree comes from

  // The patch places c at q as part of its value.
  predicate Brings(g: Patch, q: seq<string>, c: Json) {
    g.path <= q && At(g.value, q[|g.path|..]) == Some(c)
  }

  lemma {:induction false} SetEntry(o: Doc, g: Patch, q: seq<string>, c: Json)
    requires DotFree(g.path) && g.path != [] && q != [] && '.' in q[|q| - 1]
    requires At(Obj(Set(o, g.path, g.value)), q) == Some(c)
    ensures At(Obj(o), q) == Some(c) || Brings(g, q, c)
    decreases |g.path|
  {
    var h := g.path[0];
    if q[0] == h && |g.path| > 1 {
      var entry := if h in o then o[h] else Obj(map[]);
      assert |q| > 1;
      if entry.Obj? {
        SetEntry(entry.fields, Patch(g.path[1..], g.value), q[1..], c);
        if Brings(Patch(g.path[1..], g.value), q[1..], c) {
          assert g.path == [h] + g.path[1..] && q == [h] + q[1..];
          assert q[1..][|g.path[1..]|..] == q[|g.path|..];
        }
      }
    }
  }

  /** Under a key with a dot the patched tree holds what was there, or what came inside the value
      of a patch written above. */
  lemma {:induction false} EntryOrigin(o: Doc, ps: seq<Patch>, q: seq<string>, c: Json)
    requires forall g | g in ps :: DotFree(g.path) && g.path != []
    requires q != [] && '.' in q[|q| - 1]
    requires At(Obj(SetAll(o, ps)), q) == Some(c)
    ensures At(Obj(o), q) == Some(c) || exists g | g in ps :: Brings(g, q, c)
    decreases |ps|
  {
    if ps != [] {
      EntryOrigin(Set(o, ps[0].path, ps[0].value), ps[1..], q, c);
      if At(Obj(Set(o, ps[0].path, ps[0].value)), q) == Some(c) { SetEntry(o, ps[0], q, c); }
    }
  }

  // ---------------------------------------------------------------------
  // Which change a text comes from

  function Empties(n: nat): (r: seq<string>)
    ensures |r| == n && forall i | 0 <= i < n :: r[i] == ""
  {
    seq(n, i => "")
  }

  // Leading empty keys leave nothing in the text.
  lemma {:induction false} StripEmpties(path: seq<string>) returns (n: nat)
    requires path != []
    ensures n <= |path| && path[..n] == Empties(n)
    ensures n == |path| ==> Render("", path) == ""
    ensures n < |path| ==> path[n] != "" && Split(Render("", path)) == Shatter(path[n..])
    decreases |path|
  {
    n := 0;
    if path[0] != "" {
      SplitOfRendered(path);
      assert path[0..] == path;
    } else if |path| == 1 {
      n := 1;
      assert path[1..] == [];
    } else {
      var m := StripEmpties(path[1..]);
      n := m + 1;
      assert path[..n] == [""] + path[1..][..m];
      assert path[1..][m..] == path[n..];
    }
  }

  lemma {:induction false} EmittedValues(a: Json, b: Json, keys: seq<string>)
    requires a.Obj? && b.Obj?
    ensures forall e | e in ChangesIn(a, b, keys) :: e.value == Null || At(b, e.path) == Some(e.value)
    decreases a, |keys|
  {
    if keys != [] {
      var k := keys[0];
      EmittedValues(a, b, keys[1..]);
      forall e | e in ChangesAt(a, b, k) ensures e.value == Null || At(b, e.path) == Some(e.value) {
        if k in a.fields && k in b.fields && a.fields[k].Obj? && b.fields[k].Obj? {
          var va, vb := a.fields[k], b.fields[k];
          EmittedValues(va, vb, KeysOf(va.fields, vb.fields));
          var i :| 0 <= i < |Changes(va, vb)| && e == Under(k, Changes(va, vb))[i];
          assert Changes(va, vb)[i] in Changes(va, vb) && e.path[1..] == Changes(va, vb)[i].path;
        } else {
          assert e.path[1..] == [];
        }
      }
    }
  }

  lemma {:induction false} RecordedValue(ps: seq<Patch>, t: string)
    requires t in Record(map[], "", ps)
    ensures exists e | e in ps :: Shown(e) == t && e.value == Record(map[], "", ps)[t]
    decreases |ps|
  {
    if ps != [] {
      var n := |ps| - 1;
      RecordSnoc(map[], ps[..n], ps[n]);
      assert ps == ps[..n] + [ps[n]];
      if t != Shown(ps[n]) {
        RecordedValue(ps[..n], t);
        var e :| e in ps[..n] && Shown(e) == t && e.value == Record(map[], "", ps)[t];
        assert e in ps;
      }
    }
  }

  // The change behind a text: all empty keys, or empty keys and then, if the text reaches the
  // root's empty key, one with a dot.
  ghost predicate Behind(a: Json, b: Json, t: string, v: Json, e: Patch, n: nat) {
    && a.Obj? && b.Obj? && e in Changes(a, b) && e.value == v && PointsAtChange(a, b, e.path)
    && (v == Null || At(b, e.path) == Some(v))
    && n <= |e.path| && e.path[..n] == Empties(n)
    && (n == |e.path| ==> t == "")
    && (n < |e.path| && Split(t)[0] == "" ==> '.' in e.path[n])
  }

  lemma ChangeBehind(a: Json, b: Json, t: string) returns (e: Patch, n: nat)
    requires a.Obj? && b.Obj? && t in Record(map[], "", Changes(a, b))
    ensures Behind(a, b, t, Record(map[], "", Changes(a, b))[t], e, n)
  {
    RecordedValue(Changes(a, b), t);
    e :| e in Changes(a, b) && Shown(e) == t && e.value == Record(map[], "", Changes(a, b))[t];
    PathsPointAtChanges(a, b);
    EmittedValues(a, b, KeysOf(a.fields, b.fields));
    n := StripEmpties(e.path);
    if n < |e.path| {
      assert e.path[n..][0] == e.path[n];
      assert Split(t)[0] == Split(e.path[n])[0];
      assert Split(t)[0] == "" ==> e.path[n][0] == '.';
    }
  }

  function Sent(a: Json, b: Json): seq<Patch>
    requires a.Obj? && b.Obj?
  {
    var M := Record(map[], "", Changes(a, b));
    Listed(M, Text.Ascending(M.Keys))
  }

  lemma SentBehind(a: Json, b: Json, g: Patch) returns (t: string, e: Patch, n: nat)
    requires a.Obj? && b.Obj? && g in Sent(a, b)
    ensures g.path == Split(t) && Behind(a, b, t, g.value, e, n)
  {
    var M := Record(map[], "", Changes(a, b));
    var order := Text.Ascending(M.Keys);
    var i :| 0 <= i < |Sent(a, b)| && Sent(a, b)[i] == g;
    t := order[i];
    assert t in order;
    e, n := ChangeBehind(a, b, t);
  }

  lemma SentDotFree(a: Json, b: Json)
    requires a.Obj? && b.Obj?
    ensures forall g | g in Sent(a, b) :: DotFree(g.path) && g.path != []
  {
  }

  // ---------------------------------------------------------------------
  // Keys with a dot on the chain of empty keys

  function OnChain(n: nat, k: string): seq<string> { Empties(n) + [k] }

  ghost predicate Moved(a: Json, b: Json, n: nat, k: string, c: Json) {
    '.' in k && At(b, OnChain(n, k)) == Some(c) && At(a, OnChain(n, k)) != Some(c)
  }

  // An object brought to the empty key from further down the chain.
  lemma MovedDeeper(a: Json, b: Json, n: nat, k: string, c: Json, m: nat, w: Json)
    requires EmptyRoot(a, b) && '.' in k && 0 < n && PointsAtChange(a, b, Empties(m))
    requires At(b, Empties(m)) == Some(w) && At(w, OnChain(n, k)[1..]) == Some(c)
    ensures m > 1 && Moved(a, b, m + n - 1, k, c)
  {
    if m == 1 {
      assert Empties(1)[1..] == [];
      assert BothObjects(a, b, Empties(1));
      assert false;
    }
    var deeper := OnChain(m + n - 1, k);
    assert deeper == Empties(m) + OnChain(n, k)[1..];
    AtConcat(b, Empties(m), OnChain(n, k)[1..]);
    if At(a, deeper).Some? {
      SomeAbove(a, Empties(m), OnChain(n, k)[1..]);
      assert BothObjects(a, b, Empties(m));
      assert false;
    }
  }

  lemma {:induction false} SomeAbove(j: Json, p: seq<string>, q: seq<string>)
    requires At(j, p + q).Some?
    ensures At(j, p).Some? && (q != [] ==> ObjectAt(j, p))
    decreases |p|
  {
    if p == [] {
      assert p + q == q;
    } else {
      assert (p + q)[1..] == p[1..] + q;
      SomeAbove(j.fields[p[0]], p[1..], q);
    }
  }

  // An object brought from inside a changed entry whose key has a dot.
  lemma MovedTaller(a: Json, b: Json, path: seq<string>, n: nat, w: Json, rest: seq<string>, c: Json)
    returns (d: Json)
    requires PointsAtChange(a, b, path) && n < |path| && path[..n] == Empties(n) && '.' in path[n]
    requires At(b, path) == Some(w) && rest != [] && At(w, rest) == Some(c)
    ensures Moved(a, b, n, path[n], d) && Height(c) < Height(d)
  {
    var q := OnChain(n, path[n]);
    var below := path[n + 1..];
    assert path == q + below;
    SomeAbove(b, q, below);
    d := At(b, q).value;
    AtConcat(b, q, below);
    HeightBelow(d, below);
    HeightBelow(w, rest);
    assert ChangedBelow(a, b, path[..n], path[n]);
    AtConcat(a, path[..n], [path[n]]);
    AtConcat(b, path[..n], [path[n]]);
    assert [path[n]][1..] == [];
  }

  lemma MovedBy(a: Json, b: Json, n: nat, k: string, c: Json, g: Patch, t: string, e: Patch, s: nat)
    returns (m: nat, l: string, d: Json)
    requires EmptyRoot(a, b) && Moved(a, b, n, k, c) && Brings(g, OnChain(n, k), c)
    requires 0 < |g.path| <= n && g.path == Split(t) && Behind(a, b, t, g.value, e, s)
    ensures Moved(a, b, m, l, d)
    ensures Height(c) < Height(d) || (Height(c) == Height(d) && n < m)
  {
    var rest := OnChain(n, k)[|g.path|..];
    assert g.path[0] == OnChain(n, k)[0] == "";
    if s == |e.path| {
      SplitPlain("");
      assert e.path == Empties(s);
      MovedDeeper(a, b, n, k, c, s, g.value);
      m, l, d := s + n - 1, k, c;
    } else {
      d := MovedTaller(a, b, e.path, s, g.value, rest, c);
      m, l := s, e.path[s];
    }
  }

  /** In a round trip a moved entry comes from a taller one, or the same further down. */
  lemma MovedFrom(a: Json, b: Json, n: nat, k: string, c: Json) returns (m: nat, l: string, d: Json)
    requires EmptyRoot(a, b) && Obj(SetAll(a.fields, Sent(a, b))) == b && Moved(a, b, n, k, c)
    ensures Moved(a, b, m, l, d)
    ensures Height(c) < Height(d) || (Height(c) == Height(d) && n < m)
  {
    var q := OnChain(n, k);
    SentDotFree(a, b);
    EntryOrigin(a.fields, Sent(a, b), q, c);
    var g :| g in Sent(a, b) && Brings(g, q, c);
    assert q[n] == k && |g.path| <= n;
    var t, e, s := SentBehind(a, b, g);
    m, l, d := MovedBy(a, b, n, k, c, g, t, e, s);
  }

  /** Hence a round trip moves no such entry at all. */
  lemma {:induction false} NothingMoved(a: Json, b: Json, n: nat, k: string, c: Json)
    requires EmptyRoot(a, b) && Obj(SetAll(a.fields, Sent(a, b))) == b
    ensures !Moved(a, b, n, k, c)
    decreases Height(b) - Height(c), Height(b) - n
  {
    if Moved(a, b, n, k, c) {
      var m, l, d := MovedFrom(a, b, n, k, c);
      HeightBelow(b, OnChain(n, k));
      HeightBelow(b, OnChain(m, l));
      NothingMoved(a, b, m, l, d);
    }
  }

  // Below the root's empty key a key with a dot is removed from an object of the empty chain.
  predicate DottedRemoval(a: Json, b: Json)
    decreases a
  {
    && EmptyRoot(a, b)
    && ((exists k | k in a.fields[""].fields :: '.' in k && k !in b.fields[""].fields)
        || DottedRemoval(a.fields[""], b.fields[""]))
  }

  lemma {:induction false} RemovalFound(a: Json, b: Json, n: nat, k: string)
    requires 0 < n && BothObjects(a, b, Empties(n)) && '.' in k
    requires k in At(a, Empties(n)).value.fields && k !in At(b, Empties(n)).value.fields
    ensures DottedRemoval(a, b)
    decreases n
  {
    assert Empties(n)[1..] == Empties(n - 1);
    if n == 1 {
      assert EmptyRoot(a, b);
    } else {
      RemovalFound(a.fields[""], b.fields[""], n - 1, k);
    }
  }

  lemma {:induction false} RemovalWitness(a: Json, b: Json)
    requires DottedRemoval(a, b)
    ensures !DotFreeChanges(a, b)
    decreases a
  {
    var va, vb := a.fields[""], b.fields[""];
    assert ChangedAt(a.fields, b.fields, "");
    if k :| k in va.fields && '.' in k && k !in vb.fields {
      assert ChangedAt(va.fields, vb.fields, k);
      assert !DotFreeChanges(va, vb);
    } else {
      RemovalWitness(va, vb);
    }
  }

  // ---------------------------------------------------------------------
  // A change below the empty root key is lost

  // A round trip sends no key with a dot of the empty chain.
  lemma NoDottedSent(a: Json, b: Json, e: Patch, n: nat)
    requires EmptyRoot(a, b) && !DottedRemoval(a, b) && Obj(SetAll(a.fields, Sent(a, b))) == b
    requires PointsAtChange(a, b, e.path) && n < |e.path| && e.path[..n] == Empties(n)
    ensures '.' !in e.path[n]
  {
    var k := e.path[n];
    assert ChangedBelow(a, b, Empties(n), k);
    if '.' in k {
      AtConcat(a, Empties(n), [k]);
      AtConcat(b, Empties(n), [k]);
      assert [k][1..] == [];
      if k in At(b, Empties(n)).value.fields {
        NothingMoved(a, b, n, k, At(b, OnChain(n, k)).value);
      } else if n > 0 {
        RemovalFound(a, b, n, k);
      } else {
        SentDotFree(a, b);
        SetAllKeeps(a.fields, Sent(a, b), [], k);
      }
    }
  }

  lemma EmptyPathValue(a: Json, b: Json, n: nat, v: Json)
    requires EmptyRoot(a, b) && PointsAtChange(a, b, Empties(n)) && At(b, Empties(n)) == Some(v)
    ensures v != b.fields[""]
  {
    assert Empties(1)[1..] == [] && n > 0;
    if n == 1 {
      assert BothObjects(a, b, Empties(1));
      assert false;
    }
    assert Empties(n)[1..] == Empties(n - 1);
    HeightBelow(b.fields[""], Empties(n - 1));
  }

  lemma {:induction false} RootKeyMisses(o: Doc, ps: seq<Patch>, v: Json)
    requires "" in o && o[""] != v
    requires forall p | p in ps :: p.path != [] && (p.path[0] != "" || (p.path == [""] && p.value != v))
    ensures "" in SetAll(o, ps) && SetAll(o, ps)[""] != v
    decreases |ps|
  {
    if ps != [] { RootKeyMisses(Set(o, ps[0].path, ps[0].value), ps[1..], v); }
  }

  /** The change below the root's empty key never arrives, unless a key with a dot is removed there. */
  lemma EmptyRootIsLost(a: Json, b: Json)
    requires EmptyRoot(a, b) && !DottedRemoval(a, b)
    ensures Received(a, DiffOf(a, b)) != Some(b)
  {
    DiffNoneIffEqual(a, b);
    var L, v := Sent(a, b), b.fields[""];
    if Obj(SetAll(a.fields, L)) == b {
      SentDotFree(a, b);
      forall g | g in L ensures g.path != [] && (g.path[0] != "" || (g.path == [""] && g.value != v)) {
        var t, e, n := SentBehind(a, b, g);
        if n < |e.path| {
          NoDottedSent(a, b, e, n);
        } else {
          SplitPlain("");
          assert e.path == Empties(n);
          if g.value != Null { EmptyPathValue(a, b, n, g.value); }
        }
      }
      RootKeyMisses(a.fields, L, v);
    }
  }

  // ---------------------------------------------------------------------
  // Main theorem

  /** The promised round trip holds exactly when no changed key holds a dot, the
      root's empty key is not descended into, and no key was removed. */
  lemma RoundTripIff(a: Json, b: Json)
    requires a.Obj? && b.Obj? && !DottedRemoval(a, b)
    ensures Received(a, DiffOf(a, b)) == Some(b)
            <==> DotFreeChanges(a, b) && !EmptyRoot(a, b) && Kept(a, b)
  {
    if EmptyRoot(a, b) {
      EmptyRootIsLost(a, b);
    } else if DotFreeChanges(a, b) {
      ClearWhenDotFree(a, b);
      ExtendsSelf(a);
      ApplyDiffFills(a, a, b);
      FillIsTargetIffKept(a, b);
    } else {
      DottedChangeIsLost(a, b);
    }
  }

  lemma EmptyRootChange(x: Json, y: Json)
    requires x != y && !x.Obj?
    ensures var a, b := Obj(map["" := Obj(map["k" := x])]), Obj(map["" := Obj(map["k" := y])]);
            Changes(a, b) == [Patch(["", "k"], y)]
  {
    var a, b := Obj(map["" := Obj(map["k" := x])]), Obj(map["" := Obj(map["k" := y])]);
    var va, vb := a.fields[""], b.fields[""];
    AscendingOne(va.fields.Keys + vb.fields.Keys, "k");
    AscendingOne(a.fields.Keys + b.fields.Keys, "");
    assert ChangesIn(va, vb, ["k"]) == ChangesAt(va, vb, "k") + ChangesIn(va, vb, []);
    assert Changes(va, vb) == [Patch(["k"], y)];
    assert Under("", [Patch(["k"], y)]) == [Patch(["", "k"], y)] by { assert [""] + ["k"] == ["", "k"]; }
    assert ChangesIn(a, b, [""]) == ChangesAt(a, b, "") + ChangesIn(a, b, []);
  }

  /** Below an empty root key the change lands on the wrong key. */
  lemma EmptyRootLosesChange(x: Json, y: Json)
    requires x != y && !x.Obj?
    ensures var a, b := Obj(map["" := Obj(map["k" := x])]), Obj(map["" := Obj(map["k" := y])]);
            EmptyRoot(a, b) && Received(a, DiffOf(a, b)) == Some(Obj(a.fields["k" := y]))
  {
    var a, b := Obj(map["" := Obj(map["k" := x])]), Obj(map["" := Obj(map["k" := y])]);
    EmptyRootChange(x, y);
    assert Render("", ["", "k"]) == Render("", ["k"]) == Render("k", []) by {
      assert ["", "k"][1..] == ["k"] && ["k"][1..] == [];
    }
    assert [Patch(["", "k"], y)][1..] == [];
    var M: Doc := map["k" := y];
    assert Record(map[], "", [Patch(["", "k"], y)]) == Record(M, "", []);
    assert "k" in M;
    assert DiffOf(a, b) == Some(M);
    AscendingOne(M.Keys, "k");
    SplitPlain("k");
    assert Listed(M, ["k"]) == [Patch(["k"], y)];
    assert [Patch(["k"], y)][1..] == [];
    assert SetAll(a.fields, [Patch(["k"], y)]) == a.fields["k" := y];
  }

  lemma {:induction false} AscendingIs(keys: set<string>, s: seq<string>)
    requires forall k :: k in s <==> k in keys
    requires forall i, j | 0 <= i < j < |s| :: s[i] != s[j] && Text.Leq(s[i], s[j])
    ensures Text.Ascending(keys) == s
    decreases |s|
  {
    if s == [] {
      assert keys == {} by { if k :| k in keys { assert k in s; } }
    } else {
      assert s[0] in keys;
      forall k | k in keys ensures Text.Leq(s[0], k) {
        Text.LeqTotal(k, k);
        assert k in s;
      }
      Text.LeastIsUnique(keys, s[0], Text.Least(keys));
      AscendingIs(keys - {s[0]}, s[1..]);
    }
  }

  // A pair with both defects: an empty key gains an object, a dotted key goes.
  function AccidentFrom(n: Json): Json { Obj(map["" := Obj(map["..x" := n, "x" := Null])]) }

  function AccidentInner(): Json { Obj(map["x" := Null]) }

  function AccidentTo(): Json { Obj(map["" := Obj(map["" := AccidentInner(), "x" := Null])]) }

  function AccidentPatches(): seq<Patch> { [Patch(["", ""], AccidentInner()), Patch(["", "..x"], Null)] }

  lemma AccidentDefects(n: Json)
    ensures DottedRemoval(AccidentFrom(n), AccidentTo())
  {
    var va, vb := AccidentFrom(n).fields[""], AccidentTo().fields[""];
    assert "..x" in va.fields && "..x" !in vb.fields;
    assert '.' in "..x" by { assert "..x"[0] == '.'; }
  }

  lemma ChangesOfThree(a: Json, b: Json, k: string, l: string, m: string)
    requires a.Obj? && b.Obj? && KeysOf(a.fields, b.fields) == [k, l, m]
    ensures Changes(a, b) == ChangesAt(a, b, k) + ChangesAt(a, b, l) + ChangesAt(a, b, m)
  {
    assert [k, l, m][1..] == [l, m] && [l, m][1..] == [m] && [m][1..] == [];
    assert ChangesIn(a, b, [m]) == ChangesAt(a, b, m);
    assert ChangesIn(a, b, [l, m]) == ChangesAt(a, b, l) + ChangesAt(a, b, m);
  }

  lemma AccidentBelow(va: Json, vb: Json)
    requires va.Obj? && va.fields.Keys == {"..x", "x"} && va.fields["x"] == Null
    requires vb.Obj? && vb.fields == map["" := AccidentInner(), "x" := Null]
    ensures Changes(va, vb) == [Patch([""], AccidentInner()), Patch(["..x"], Null)]
  {
    AscendingIs(va.fields.Keys + vb.fields.Keys, ["", "..x", "x"]);
    ChangesOfThree(va, vb, "", "..x", "x");
    assert ChangesAt(va, vb, "") == [Patch([""], AccidentInner())];
    assert ChangesAt(va, vb, "..x") == [Patch(["..x"], Null)];
    assert ChangesAt(va, vb, "x") == [];
  }

  lemma ChangesBelowRoot(a: Json, b: Json)
    requires EmptyRoot(a, b) && a.fields.Keys == b.fields.Keys == {""}
    ensures Changes(a, b) == Under("", Changes(a.fields[""], b.fields[""]))
  {
    AscendingOne(a.fields.Keys + b.fields.Keys, "");
    assert [] + [""] == [""];
    ChangesInSnoc(a, b, [], "");
  }

  lemma AccidentLifted(below: seq<Patch>)
    requires below == [Patch([""], AccidentInner()), Patch(["..x"], Null)]
    ensures Under("", below) == AccidentPatches()
  {
    assert [""] + [""] == ["", ""] && [""] + ["..x"] == ["", "..x"];
  }

  lemma AccidentChanges(a: Json, b: Json)
    requires EmptyRoot(a, b) && a.fields.Keys == b.fields.Keys == {""}
    requires Changes(a.fields[""], b.fields[""]) == [Patch([""], AccidentInner()), Patch(["..x"], Null)]
    ensures Changes(a, b) == AccidentPatches()
  {
    ChangesBelowRoot(a, b);
    AccidentLifted(Changes(a.fields[""], b.fields[""]));
  }

  lemma AccidentText()
    ensures Record(map[], "", AccidentPatches()) == map["" := AccidentInner(), "..x" := Null]
  {
    var v, ps := AccidentInner(), AccidentPatches();
    assert Render("", ["", ""]) == "" by {
      assert ["", ""][1..] == [""] && [""][1..] == [];
    }
    assert Render("", ["", "..x"]) == "..x" by {
      assert ["", "..x"][1..] == ["..x"] && ["..x"][1..] == [];
    }
    assert ps[1..] == [ps[1]] && [ps[1]][1..] == [];
    assert Record(map["" := v], "", [ps[1]]) == Record(map["" := v]["..x" := Null], "", []);
  }

  lemma AccidentListing(M: Doc)
    requires M == map["" := AccidentInner(), "..x" := Null]
    ensures Listed(M, Text.Ascending(M.Keys)) == [Patch([""], AccidentInner()), Patch(["", "", "x"], Null)]
  {
    AscendingIs(M.Keys, ["", "..x"]);
    SplitPlain("");
    SplitPlain("x");
    assert "..x"[1..] == ".x" && ".x"[1..] == "x";
    assert Split("..x") == ["", "", "x"];
  }

  lemma AccidentWrites(o: Doc)
    ensures SetAll(o, [Patch([""], AccidentInner()), Patch(["", "", "x"], Null)]) == o["" := AccidentTo().fields[""]]
  {
    var v, p := AccidentInner(), Patch(["", "", "x"], Null);
    var L := [Patch([""], v), p];
    var o1 := o["" := v];
    assert L[1..] == [p] && [p][1..] == [];
    assert SetAll(o, L) == SetAll(o1, [p]) == SetAll(Set(o1, p.path, Null), []);
    assert p.path[1..] == ["", "x"] && ["", "x"][1..] == ["x"];
    var none: Doc := map[];
    assert Set(none, ["x"], Null) == v.fields;
    assert Set(v.fields, ["", "x"], Null) == AccidentTo().fields[""].fields;
    assert Set(o1, p.path, Null) == o["" := AccidentTo().fields[""]];
  }

  lemma AccidentArrives(n: Json, M: Doc)
    requires M == map["" := AccidentInner(), "..x" := Null]
    ensures ApplyOf(AccidentFrom(n), M) == Some(AccidentTo())
  {
    var o := AccidentFrom(n).fields;
    AccidentListing(M);
    AccidentWrites(o);
    assert o["" := AccidentTo().fields[""]] == AccidentTo().fields;
  }

  lemma AccidentSent(a: Json, b: Json)
    requires a.Obj? && b.Obj? && Changes(a, b) == AccidentPatches()
    ensures DiffOf(a, b) == Some(map["" := AccidentInner(), "..x" := Null])
  {
    var M: Doc := map["" := AccidentInner(), "..x" := Null];
    AccidentText();
    assert "" in M;
  }

  /** With both defects at once a pair can round-trip by accident, removed key and all, so the
      main theorem is false without its requires. */
  lemma AccidentalRoundTrip(n: Json)
    ensures DottedRemoval(AccidentFrom(n), AccidentTo())
    ensures Received(AccidentFrom(n), DiffOf(AccidentFrom(n), AccidentTo())) == Some(AccidentTo())
  {
    var a, b := AccidentFrom(n), AccidentTo();
    AccidentDefects(n);
    AccidentBelow(a.fields[""], b.fields[""]);
    AccidentChanges(a, b);
    AccidentSent(a, b);
    AccidentArrives(n, map["" := AccidentInner(), "..x" := Null]);
  }

  lemma AscendingOne(keys: set<string>, k: string)
    requires keys == {k}
    ensures Text.Ascending(keys) == [k]
  {
    var s := Text.Ascending(keys);
    assert k in s;
  }
}
