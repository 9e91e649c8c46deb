/** The stable descending sort the engine ranks with (`sort_by` on scores). */
module Sorting {
  // x goes before the first element that does not beat it.
  function Insert<T>(x: T, s: seq<T>, key: T -> real): seq<T> {
    if s == [] || key(s[0]) <= key(x) then [x] + s else [s[0]] + Insert(x, s[1..], key)
  }

  function SortDescending<T>(s: seq<T>, key: T -> real): seq<T> {
    if s == [] then [] else Insert(s[0], SortDescending(s[1..], key), key)
  }

  ghost predicate Descending<T>(s: seq<T>, key: T -> real) {
    forall i, j | 0 <= i < j < |s| :: key(s[i]) >= key(s[j])
  }

  // The elements of one score, in order.
  function Ties<T>(s: seq<T>, key: T -> real, v: real): seq<T> {
    if s == [] then [] else (if key(s[0]) == v then [s[0]] else []) + Ties(s[1..], key, v)
  }

  lemma {:induction false} InsertPermutes<T>(x: T, s: seq<T>, key: T -> real)
    ensures multiset(Insert(x, s, key)) == multiset(s) + multiset{x}
    decreases |s|
  {
    if s != [] && key(s[0]) > key(x) {
      InsertPermutes(x, s[1..], key);
      assert s == [s[0]] + s[1..];
    }
  }

  lemma {:induction false} InsertSorted<T>(x: T, s: seq<T>, key: T -> real)
    requires Descending(s, key)
    ensures Descending(Insert(x, s, key), key)
    decreases |s|
  {
    if s != [] && key(s[0]) > key(x) {
      InsertSorted(x, s[1..], key);
      InsertPermutes(x, s[1..], key);
      var rest := Insert(x, s[1..], key);
      forall j | 0 <= j < |rest| ensures key(s[0]) >= key(rest[j]) {
        assert rest[j] in multiset(rest);
        assert rest[j] == x || rest[j] in s[1..];
      }
    }
  }

  lemma {:induction false} NoTies<T>(s: seq<T>, key: T -> real, v: real)
    requires forall i | 0 <= i < |s| :: key(s[i]) != v
    ensures Ties(s, key, v) == []
  {
    if s != [] { NoTies(s[1..], key, v); }
  }

  lemma TiesCons<T>(x: T, s: seq<T>, key: T -> real, v: real)
    ensures Ties([x] + s, key, v) == (if key(x) == v then [x] else []) + Ties(s, key, v)
  {
    assert ([x] + s)[1..] == s;
  }

  lemma {:induction false} InsertTies<T>(x: T, s: seq<T>, key: T -> real, v: real)
    requires Descending(s, key)
    ensures Ties(Insert(x, s, key), key, v) == (if key(x) == v then [x] else []) + Ties(s, key, v)
    decreases |s|
  {
    if s == [] || key(s[0]) <= key(x) {
      TiesCons(x, s, key, v);
    } else {
      InsertTies(x, s[1..], key, v);
      TiesCons(s[0], Insert(x, s[1..], key), key, v);
      if key(s[0]) == v {
        assert key(x) != v;
        assert [] + Ties(s[1..], key, v) == Ties(s[1..], key, v);
      }
    }
  }

  /** The sort permutes its input, descends in the key and keeps the order of ties;
      these three facts determine its result. */
  lemma {:induction false} SortIsStable<T>(s: seq<T>, key: T -> real)
    ensures Descending(SortDescending(s, key), key)
    ensures multiset(SortDescending(s, key)) == multiset(s)
    ensures forall v :: Ties(SortDescending(s, key), key, v) == Ties(s, key, v)
    decreases |s|
  {
    if s != [] {
      SortIsStable(s[1..], key);
      InsertSorted(s[0], SortDescending(s[1..], key), key);
      InsertPermutes(s[0], SortDescending(s[1..], key), key);
      assert s == [s[0]] + s[1..];
      forall v ensures Ties(SortDescending(s, key), key, v) == Ties(s, key, v) {
        InsertTies(s[0], SortDescending(s[1..], key), key, v);
      }
    }
  }

  lemma {:induction false} TiesHead<T>(s: seq<T>, key: T -> real, v: real) returns (i: nat)
    requires Ties(s, key, v) != []
    ensures i < |s| && s[i] == Ties(s, key, v)[0] && key(s[i]) == v
    ensures forall j | 0 <= j < i :: key(s[j]) != v
    decreases |s|
  {
    if key(s[0]) == v {
      i := 0;
    } else {
      i := TiesHead(s[1..], key, v);
      i := i + 1;
    }
  }

  /** The head of the sort is the first element of the largest key. */
  lemma HeadIsFirstMaximum<T>(s: seq<T>, key: T -> real) returns (i: nat)
    requires s != []
    ensures SortDescending(s, key) != [] && i < |s| && SortDescending(s, key)[0] == s[i]
    ensures forall j | 0 <= j < |s| :: key(s[j]) <= key(s[i])
    ensures forall j | 0 <= j < i :: key(s[j]) < key(s[i])
  {
    SortIsStable(s, key);
    var r := SortDescending(s, key);
    assert |multiset(r)| == |r| && |multiset(s)| == |s|;
    var v := key(r[0]);
    assert Ties(r, key, v) == Ties(s, key, v);
    i := TiesHead(s, key, v);
    forall j | 0 <= j < |s| ensures key(s[j]) <= v {
      assert s[j] in multiset(s);
      assert s[j] in multiset(r);
    }
  }

  lemma SortLength<T>(s: seq<T>, key: T -> real)
    ensures |SortDescending(s, key)| == |s|
  {
    SortIsStable(s, key);
    assert |multiset(SortDescending(s, key))| == |SortDescending(s, key)| && |multiset(s)| == |s|;
  }
}
