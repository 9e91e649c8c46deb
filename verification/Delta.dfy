/** Path-based diffs of JSON snapshots (crates/radin-core/src/delta.rs).

    A snapshot is a JSON tree. `diff` lists the changed leaves as a map from a
    dotted text path to the new value; `apply` splits each path on its dots and
    writes the value back. The specification works on patches whose path is a
    list of keys; the text form is what travels. */
module Delta {
  import opened Common
  import Text

  // A number is an opaque token: the algorithm only compares values for equality.
  datatype Json =
    | Null
    | Boolean(flag: bool)
    | Number(token: string)
    | Str(text: string)
    | Arr(items: seq<Json>)
    | Obj(fields: map<string, Json>)

  type Doc = map<string, Json>

  datatype Patch = Patch(path: seq<string>, value: Json)

  // ---------------------------------------------------------------------
  // Specification of the differ

  function KeysOf(a: Doc, b: Doc): seq<string> { Text.Ascending(a.Keys + b.Keys) }

  // The patches for key k: values at k are added, nulled, left, descended into or replaced.
  function ChangesAt(a: Json, b: Json, k: string): seq<Patch>
    requires a.Obj? && b.Obj?
    decreases a, 0
  {
    if k !in a.fields then
      if k in b.fields then [Patch([k], b.fields[k])] else []
    else if k !in b.fields then [Patch([k], Null)]
    else if a.fields[k] == b.fields[k] then []
    else if a.fields[k].Obj? && b.fields[k].Obj? then Under(k, Changes(a.fields[k], b.fields[k]))
    else [Patch([k], b.fields[k])]
  }

  function ChangesIn(a: Json, b: Json, keys: seq<string>): seq<Patch>
    requires a.Obj? && b.Obj?
    decreases a, 1, |keys|
  {
    if keys == [] then [] else ChangesAt(a, b, keys[0]) + ChangesIn(a, b, keys[1..])
  }

  function Changes(a: Json, b: Json): seq<Patch>
    requires a.Obj? && b.Obj?
    decreases a, 2
  {
    ChangesIn(a, b, KeysOf(a.fields, b.fields))
  }

  function Under(k: string, ps: seq<Patch>): (r: seq<Patch>)
    ensures |r| == |ps|
    ensures forall i | 0 <= i < |ps| :: r[i] == Patch([k] + ps[i].path, ps[i].value)
  {
    seq(|ps|, i requires 0 <= i < |ps| => Patch([k] + ps[i].path, ps[i].value))
  }

  // Text of a path: keys joined by dots, except that an empty prefix adds no dot.
  function Extend(prefix: string, key: string): string {
    if prefix == "" then key else prefix + "." + key
  }

  function Render(prefix: string, path: seq<string>): string
    decreases |path|
  {
    if path == [] then prefix else Render(Extend(prefix, path[0]), path[1..])
  }

  // Insertion of the patches, in order, into the outgoing map.
  function Record(out: Doc, prefix: string, ps: seq<Patch>): Doc
    decreases |ps|
  {
    if ps == [] then out else Record(out[Render(prefix, ps[0].path) := ps[0].value], prefix, ps[1..])
  }

  function DiffOf(a: Json, b: Json): Option<Doc> {
    if a.Obj? && b.Obj? then
      var out := Record(map[], "", Changes(a, b));
      if out == map[] then None else Some(out)
    else None
  }

  // ---------------------------------------------------------------------
  // Specification of the patcher

  function Split(t: string): (parts: seq<string>)
    ensures |parts| >= 1
    ensures forall i | 0 <= i < |parts| :: '.' !in parts[i]
  {
    if t == "" then [""]
    else if t[0] == '.' then [""] + Split(t[1..])
    else
      var r := Split(t[1..]);
      [[t[0]] + r[0]] + r[1..]
  }

  function Set(o: Doc, path: seq<string>, v: Json): Doc
    decreases |path|
  {
    if path == [] then o
    else if |path| == 1 then o[path[0] := v]
    else
      var entry := if path[0] in o then o[path[0]] else Obj(map[]);
      o[path[0] := if entry.Obj? then Obj(Set(entry.fields, path[1..], v)) else entry]
  }

  function SetAll(o: Doc, ps: seq<Patch>): Doc
    decreases |ps|
  {
    if ps == [] then o else SetAll(Set(o, ps[0].path, ps[0].value), ps[1..])
  }

  // The patches of a map, in the given order of its text paths.
  function Listed(patches: Doc, order: seq<string>): (r: seq<Patch>)
    requires forall t | t in order :: t in patches
    ensures |r| == |order|
  {
    seq(|order|, i requires 0 <= i < |order| => assert order[i] in order; Patch(Split(order[i]), patches[order[i]]))
  }

  function ApplyOf(base: Json, patches: Doc): Option<Json> {
    if base.Obj? then Some(Obj(SetAll(base.fields, Listed(patches, Text.Ascending(patches.Keys))))) else None
  }

  // ---------------------------------------------------------------------
  // The code, step by step

  method CollectDiff(prefix: string, a: Doc, b: Doc, out: Doc) returns (r: Doc)
    ensures r == Record(out, prefix, Changes(Obj(a), Obj(b)))
    decreases Obj(a)
  {
    var keys := KeysOf(a, b);
    r := out;
    for i := 0 to |keys|
      invariant r == Record(out, prefix, ChangesIn(Obj(a), Obj(b), keys[..i]))
    {
      var key := keys[i];
      var path := Extend(prefix, key);
      ChangesInSnoc(Obj(a), Obj(b), keys[..i], key);
      assert keys[..i + 1] == keys[..i] + [key];
      RecordConcat(out, prefix, ChangesIn(Obj(a), Obj(b), keys[..i]), ChangesAt(Obj(a), Obj(b), key));
      assert Record(out, prefix, ChangesIn(Obj(a), Obj(b), keys[..i + 1]))
          == Record(r, prefix, ChangesAt(Obj(a), Obj(b), key));
      RecordKey(r, prefix, Obj(a), Obj(b), key);
      if key !in a {
        if key in b { r := r[path := b[key]]; }
      } else if key !in b {
        r := r[path := Null];
      } else if a[key] != b[key] {
        if a[key].Obj? && b[key].Obj? {
          r := CollectDiff(path, a[key].fields, b[key].fields, r);
        } else {
          r := r[path := b[key]];
        }
      }
    }
    assert keys[..|keys|] == keys;
  }

  method Diff(a: Json, b: Json) returns (d: Option<Doc>)
    ensures d == DiffOf(a, b)
  {
    if !a.Obj? || !b.Obj? { return None; }
    var out := CollectDiff("", a.fields, b.fields, map[]);
    d := if out == map[] then None else Some(out);
  }

  method Apply(base: Json, patches: Doc) returns (r: Option<Json>)
    ensures r == ApplyOf(base, patches)
  {
    if !base.Obj? { return None; }
    var obj := base.fields;
    var order := Text.Ascending(patches.Keys);
    var all := Listed(patches, order);
    for i := 0 to |order|
      invariant SetAll(base.fields, all) == SetAll(obj, all[i..])
    {
      obj := Set(obj, Split(order[i]), patches[order[i]]);
      assert all[i..][1..] == all[i + 1..];
    }
    r := Some(Obj(obj));
  }

  lemma {:induction false} ChangesInSnoc(a: Json, b: Json, keys: seq<string>, k: string)
    requires a.Obj? && b.Obj?
    ensures ChangesIn(a, b, keys + [k]) == ChangesIn(a, b, keys) + ChangesAt(a, b, k)
  {
    if keys == [] {
      assert [k][1..] == [];
    } else {
      ChangesInSnoc(a, b, keys[1..], k);
      assert (keys + [k])[1..] == keys[1..] + [k];
    }
  }

  lemma {:induction false} RecordConcat(out: Doc, prefix: string, ps: seq<Patch>, qs: seq<Patch>)
    ensures Record(out, prefix, ps + qs) == Record(Record(out, prefix, ps), prefix, qs)
    decreases |ps|
  {
    if ps == [] {
      assert ps + qs == qs;
    } else {
      assert (ps + qs)[1..] == ps[1..] + qs;
      RecordConcat(out[Render(prefix, ps[0].path) := ps[0].value], prefix, ps[1..], qs);
    }
  }

  lemma RecordOne(out: Doc, prefix: string, k: string, v: Json)
    ensures Record(out, prefix, [Patch([k], v)]) == out[Extend(prefix, k) := v]
  {
    assert Render(prefix, [k]) == Render(Extend(prefix, k), []);
    assert [Patch([k], v)][1..] == [];
  }

  // What one key adds to the outgoing map.
  lemma RecordKey(out: Doc, prefix: string, a: Json, b: Json, k: string)
    requires a.Obj? && b.Obj?
    ensures Record(out, prefix, ChangesAt(a, b, k)) ==
            if k in a.fields && k in b.fields && a.fields[k] != b.fields[k] && a.fields[k].Obj? && b.fields[k].Obj?
            then Record(out, Extend(prefix, k), Changes(a.fields[k], b.fields[k]))
            else if k in b.fields && !(k in a.fields && a.fields[k] == b.fields[k])
            then out[Extend(prefix, k) := b.fields[k]]
            else if k in a.fields && k !in b.fields then out[Extend(prefix, k) := Null]
            else out
  {
    if k in a.fields && k in b.fields && a.fields[k].Obj? && b.fields[k].Obj? {
      RecordUnder(out, prefix, k, Changes(a.fields[k], b.fields[k]));
    }
    RecordOne(out, prefix, k, if k in b.fields then b.fields[k] else Null);
  }

  lemma {:induction false} RecordUnder(out: Doc, prefix: string, k: string, ps: seq<Patch>)
    ensures Record(out, prefix, Under(k, ps)) == Record(out, Extend(prefix, k), ps)
    decreases |ps|
  {
    if ps != [] {
      assert ([k] + ps[0].path)[1..] == ps[0].path;
      assert Under(k, ps)[1..] == Under(k, ps[1..]);
      RecordUnder(out[Render(Extend(prefix, k), ps[0].path) := ps[0].value], prefix, k, ps[1..]);
    }
  }
}
