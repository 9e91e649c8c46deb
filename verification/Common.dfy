/** Small shared vocabulary: optional values and the ordering of text. */
module Common {
  datatype Option<+T> = None | Some(value: T)

  function Max(x: int, y: int): int { if x < y then y else x }

  function Min(x: int, y: int): int { if x < y then x else y }

  lemma Regroup<T>(a: seq<T>, b: seq<T>, c: seq<T>)
    ensures a + (b + c) == (a + b) + c
  {
  }

  // Clock difference that stops at zero, as `u64::saturating_sub`.
  function Since(now: nat, then_: nat): nat { if now < then_ then 0 else now - then_ }
}

/** Lexicographic order of strings and the ascending listing of a key set,
    the order in which an ordered map or set is iterated. */
module Text {
  predicate Leq(s: string, t: string) {
    s == "" || (t != "" && (s[0] < t[0] || (s[0] == t[0] && Leq(s[1..], t[1..]))))
  }

  lemma {:induction false} LeqTotal(s: string, t: string)
    ensures Leq(s, t) || Leq(t, s)
  {
    if s != "" && t != "" && s[0] == t[0] { LeqTotal(s[1..], t[1..]); }
  }

  lemma {:induction false} LeqAntisymmetric(s: string, t: string)
    requires Leq(s, t) && Leq(t, s)
    ensures s == t
  {
    if s != "" && t != "" {
      LeqAntisymmetric(s[1..], t[1..]);
      assert s == [s[0]] + s[1..] && t == [t[0]] + t[1..];
    }
  }

  lemma {:induction false} LeqTransitive(s: string, t: string, u: string)
    requires Leq(s, t) && Leq(t, u)
    ensures Leq(s, u)
  {
    if s != "" && s[0] == t[0] && t[0] == u[0] { LeqTransitive(s[1..], t[1..], u[1..]); }
  }

  predicate IsLeast(keys: set<string>, k: string) {
    k in keys && forall y | y in keys :: Leq(k, y)
  }

  lemma {:induction false} LeastExists(keys: set<string>)
    requires keys != {}
    ensures exists k | k in keys :: IsLeast(keys, k)
    decreases |keys|
  {
    var k :| k in keys;
    LeqTotal(k, k);
    var rest := keys - {k};
    if rest == {} {
      assert keys == {k};
      assert IsLeast(keys, k);
    } else {
      LeastExists(rest);
      var m :| m in rest && IsLeast(rest, m);
      LeqTotal(k, m);
      if Leq(k, m) {
        forall y | y in rest ensures Leq(k, y) { LeqTransitive(k, m, y); }
        assert IsLeast(keys, k);
      } else {
        assert IsLeast(keys, m);
      }
    }
  }

  lemma LeastIsUnique(keys: set<string>, k: string, l: string)
    requires IsLeast(keys, k) && IsLeast(keys, l)
    ensures k == l
  {
    LeqAntisymmetric(k, l);
  }

  function Least(keys: set<string>): (k: string)
    requires keys != {}
    ensures IsLeast(keys, k)
  {
    LeastExists(keys);
    assert forall k, l | IsLeast(keys, k) && IsLeast(keys, l) :: k == l by {
      forall k, l | IsLeast(keys, k) && IsLeast(keys, l) ensures k == l { LeastIsUnique(keys, k, l); }
    }
    var k :| k in keys && IsLeast(keys, k);
    k
  }

  ghost predicate NoDuplicates<T>(s: seq<T>) {
    forall i, j | 0 <= i < j < |s| :: s[i] != s[j]
  }

  // The keys in ascending order: how an ordered set of strings is iterated.
  function Ascending(keys: set<string>): (s: seq<string>)
    ensures NoDuplicates(s)
    ensures forall k :: k in s <==> k in keys
    ensures forall i, j | 0 <= i < j < |s| :: Leq(s[i], s[j])
    decreases |keys|
  {
    if keys == {} then [] else
      var k := Least(keys);
      [k] + Ascending(keys - {k})
  }
}
