/** Paths and their text, the order in which patches are written, and the independence of the
    patches the differ emits. */
module DeltaTheorems {
  import opened Delta
  import Text

  // ---------------------------------------------------------------------
  // Paths and their text

  predicate DotFree(path: seq<string>) { forall i | 0 <= i < |path| :: '.' !in path[i] }

  // The parts a path of arbitrary keys has after it travelled as text.
  function Shatter(path: seq<string>): (r: seq<string>)
    ensures |r| >= |path|
    ensures DotFree(r)
  {
    if path == [] then [] else Split(path[0]) + Shatter(path[1..])
  }

  lemma {:induction false} SplitPlain(t: string)
    requires '.' !in t
    ensures Split(t) == [t]
  {
    if t != "" {
      SplitPlain(t[1..]);
      assert t == [t[0]] + t[1..];
    }
  }

  lemma {:induction false} SplitAtDot(s: string, t: string)
    ensures Split(s + "." + t) == Split(s) + Split(t)
  {
    var whole := s + "." + t;
    if s == "" {
      assert whole[1..] == t;
    } else {
      assert whole[1..] == s[1..] + "." + t;
      SplitAtDot(s[1..], t);
    }
  }

  lemma {:induction false} SplitRender(prefix: string, path: seq<string>)
    requires prefix != ""
    ensures Split(Render(prefix, path)) == Split(prefix) + Shatter(path)
    decreases |path|
  {
    if path != [] {
      var longer := Extend(prefix, path[0]);
      SplitRender(longer, path[1..]);
      SplitAtDot(prefix, path[0]);
    }
  }

  // A leading empty key that is descended into is lost from the text.
  predicate Rooted(path: seq<string>) { |path| == 1 || (|path| > 1 && path[0] != "") }

  lemma SplitOfRendered(path: seq<string>)
    requires Rooted(path)
    ensures Split(Render("", path)) == Shatter(path)
  {
    if |path| == 1 {
      assert Render("", path) == Render(path[0], []);
      assert path[1..] == [];
      assert Shatter([]) == [];
      assert Shatter(path) == Split(path[0]) + Shatter(path[1..]);
    } else {
      SplitRender(path[0], path[1..]);
    }
  }

  lemma {:induction false} ShatterPlain(path: seq<string>)
    requires DotFree(path)
    ensures Shatter(path) == path
  {
    if path != [] {
      SplitPlain(path[0]);
      ShatterPlain(path[1..]);
      assert path == [path[0]] + path[1..];
    }
  }

  lemma {:induction false} SplitNoLonger(path: seq<string>)
    requires path != [] && DotFree(path)
    ensures |Split(Render("", path))| <= |path|
    decreases |path|
  {
    if |path| > 1 && path[0] == "" {
      SplitNoLonger(path[1..]);
    } else {
      SplitOfRendered(path);
      ShatterPlain(path);
    }
  }

  /** Splitting undoes joining exactly on paths whose keys hold no dot and whose first key, if
      another follows it, is not empty. */
  lemma JoinSplit(path: seq<string>)
    ensures Split(Render("", path)) == path <==> DotFree(path) && Rooted(path)
  {
    if Rooted(path) {
      SplitOfRendered(path);
      if DotFree(path) { ShatterPlain(path); }
    } else if path != [] && DotFree(path) {
      SplitNoLonger(path[1..]);
    }
  }

  // ---------------------------------------------------------------------
  // Order of the patches

  predicate Comparable(p: seq<string>, q: seq<string>) { p <= q || q <= p }

  predicate Independent(ps: seq<Patch>) {
    forall i, j | 0 <= i < j < |ps| :: !Comparable(ps[i].path, ps[j].path)
  }

  lemma SetsApart(o: Doc, p: Patch, q: Patch)
    requires p.path != [] && q.path != [] && p.path[0] != q.path[0]
    ensures Set(Set(o, p.path, p.value), q.path, q.value) == Set(Set(o, q.path, q.value), p.path, p.value)
  {
    var h, k := p.path[0], q.path[0];
    var op, oq := Set(o, p.path, p.value), Set(o, q.path, q.value);
    assert op == o[h := op[h]] && oq == o[k := oq[k]];
    assert Set(op, q.path, q.value) == op[k := oq[k]];
    assert Set(oq, p.path, p.value) == oq[h := op[h]];
  }

  lemma {:induction false} SetsCommute(o: Doc, p: Patch, q: Patch)
    requires !Comparable(p.path, q.path)
    ensures Set(Set(o, p.path, p.value), q.path, q.value) == Set(Set(o, q.path, q.value), p.path, p.value)
    decreases |p.path|
  {
    var h := p.path[0];
    if h != q.path[0] {
      SetsApart(o, p, q);
    } else {
      assert p.path == [h] + p.path[1..] && q.path == [h] + q.path[1..];
      assert |p.path| > 1 && |q.path| > 1;
      var entry := if h in o then o[h] else Obj(map[]);
      if entry.Obj? {
        SetsCommute(entry.fields, Patch(p.path[1..], p.value), Patch(q.path[1..], q.value));
      }
    }
  }

  lemma {:induction false} SetAllConcat(o: Doc, ps: seq<Patch>, qs: seq<Patch>)
    ensures SetAll(o, ps + qs) == SetAll(SetAll(o, ps), qs)
    decreases |ps|
  {
    if ps == [] {
      assert ps + qs == qs;
    } else {
      assert (ps + qs)[1..] == ps[1..] + qs;
      SetAllConcat(Set(o, ps[0].path, ps[0].value), ps[1..], qs);
    }
  }

  lemma {:induction false} PullForward(o: Doc, xs: seq<Patch>, p: Patch)
    requires forall i | 0 <= i < |xs| :: !Comparable(xs[i].path, p.path)
    ensures SetAll(o, xs + [p]) == SetAll(o, [p] + xs)
    decreases |xs|
  {
    if xs == [] {
      assert xs + [p] == [p] + xs;
    } else {
      var o1 := Set(o, xs[0].path, xs[0].value);
      assert (xs + [p])[1..] == xs[1..] + [p];
      PullForward(o1, xs[1..], p);
      SetsCommute(o, xs[0], p);
      assert ([p] + xs[1..])[1..] == xs[1..];
      assert ([p] + xs)[1..] == xs;
    }
  }

  lemma TakeOut<T>(s: seq<T>, t: seq<T>) returns (i: nat)
    requires s != [] && multiset(s) == multiset(t)
    ensures i < |t| && t[i] == s[0]
    ensures multiset(s[1..]) == multiset(t[..i] + t[i + 1..])
    ensures forall x | x in t[..i] :: x in s[1..]
  {
    assert s == [s[0]] + s[1..];
    assert s[0] in multiset(t);
    i :| 0 <= i < |t| && t[i] == s[0];
    assert t == t[..i] + [t[i]] + t[i + 1..];
    assert multiset(t) == multiset(t[..i] + t[i + 1..]) + multiset{s[0]};
    assert multiset(s) == multiset{s[0]} + multiset(s[1..]);
    assert multiset(s[1..]) == multiset(s) - multiset{s[0]} == multiset(t[..i] + t[i + 1..]);
    forall x | x in t[..i] ensures x in s[1..] {
      assert x in t[..i] + t[i + 1..];
      assert x in multiset(t[..i] + t[i + 1..]);
      assert x in multiset(s[1..]);
    }
  }

  /** Independent patches give the same tree in every order in which they are written. */
  lemma {:induction false} AnyOrder(o: Doc, ps: seq<Patch>, qs: seq<Patch>)
    requires Independent(ps)
    requires multiset(ps) == multiset(qs)
    ensures SetAll(o, ps) == SetAll(o, qs)
    decreases |ps|
  {
    if ps == [] {
      assert |multiset(qs)| == 0;
    } else {
      var p := ps[0];
      var i := TakeOut(ps, qs);
      var front, back := qs[..i], qs[i + 1..];
      forall j | 0 <= j < |front| ensures !Comparable(front[j].path, p.path) {
        assert front[j] in ps[1..];
      }
      PullForward(o, front, p);
      calc {
        SetAll(o, qs);
      == { assert qs == front + [p] + back; SetAllConcat(o, front + [p], back); }
        SetAll(SetAll(o, front + [p]), back);
      == { SetAllConcat(o, [p] + front, back); assert [p] + front + back == [p] + (front + back); }
        SetAll(o, [p] + (front + back));
      == { assert ([p] + (front + back))[1..] == front + back; }
        SetAll(Set(o, p.path, p.value), front + back);
      == { AnyOrder(Set(o, p.path, p.value), ps[1..], front + back); }
        SetAll(o, ps);
      }
    }
  }

  // ---------------------------------------------------------------------
  // The differ emits independent patches

  lemma {:induction false} HeadIsKey(a: Json, b: Json, k: string)
    requires a.Obj? && b.Obj?
    ensures forall e | e in ChangesAt(a, b, k) :: |e.path| > 0 && e.path[0] == k
  {
  }

  lemma {:induction false} HeadsAmongKeys(a: Json, b: Json, keys: seq<string>, i: nat)
    requires a.Obj? && b.Obj? && i < |ChangesIn(a, b, keys)|
    ensures |ChangesIn(a, b, keys)[i].path| > 0 && ChangesIn(a, b, keys)[i].path[0] in keys
    decreases |keys|
  {
    HeadIsKey(a, b, keys[0]);
    var here := ChangesAt(a, b, keys[0]);
    if i >= |here| {
      HeadsAmongKeys(a, b, keys[1..], i - |here|);
    }
  }

  /** No emitted path is another one or lies above it. */
  lemma {:induction false} ChangesIndependent(a: Json, b: Json)
    requires a.Obj? && b.Obj?
    ensures Independent(Changes(a, b))
    decreases a, 1
  {
    ChangesInIndependent(a, b, KeysOf(a.fields, b.fields));
  }

  lemma {:induction false} ChangesInIndependent(a: Json, b: Json, keys: seq<string>)
    requires a.Obj? && b.Obj? && Text.NoDuplicates(keys)
    ensures Independent(ChangesIn(a, b, keys))
    decreases a, 0, |keys|
  {
    if keys != [] {
      var k := keys[0];
      var here, later := ChangesAt(a, b, k), ChangesIn(a, b, keys[1..]);
      ChangesInIndependent(a, b, keys[1..]);
      HeadIsKey(a, b, k);
      if k in a.fields && k in b.fields && a.fields[k] != b.fields[k] && a.fields[k].Obj? && b.fields[k].Obj? {
        var sub := Changes(a.fields[k], b.fields[k]);
        ChangesIndependent(a.fields[k], b.fields[k]);
        forall i, j | 0 <= i < j < |here| ensures !Comparable(here[i].path, here[j].path) {
          assert here[i].path[1..] == sub[i].path && here[j].path[1..] == sub[j].path;
        }
      }
      forall i, j | 0 <= i < |here| && 0 <= j < |later| ensures !Comparable(here[i].path, later[j].path) {
        HeadsAmongKeys(a, b, keys[1..], j);
        assert later[j].path[0] != k;
      }
    }
  }
}
