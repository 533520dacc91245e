/** The three-way merge behind every admin edit of the configuration file: diff the
    edited document against its baseline, apply the changed paths to what the file
    holds by now. */
module ConfigMerge {
  import opened SafeWrite
  import Ordering

  /** A YAML value: a mapping with string keys, or anything else. */
  datatype Value = Leaf(text: string) | Obj(m: map<string, Value>)

  type Path = seq<string>

  predicate IsPrefix(p: Path, q: Path) {
    p <= q
  }

  predicate Comparable(p: Path, q: Path) {
    IsPrefix(p, q) || IsPrefix(q, p)
  }

  // ---- the code ----------------------------------------------------------

  predicate IsLeast(keys: set<string>, k: string) {
    k in keys && forall j :: j in keys && j != k ==> Ordering.Less(k, j)
  }

  lemma {:induction false} LeastExists(keys: set<string>)
    requires keys != {}
    ensures exists k :: IsLeast(keys, k)
    decreases |keys|
  {
    var k :| k in keys;
    var rest := keys - {k};
    if rest == {} {
      assert keys == {k};
      assert IsLeast(keys, k);
    } else {
      LeastExists(rest);
      var l :| IsLeast(rest, l);
      if Ordering.Less(l, k) {
        assert IsLeast(keys, l);
      } else {
        Ordering.LessTotal(l, k);
        forall j | j in keys && j != k ensures Ordering.Less(k, j) {
          if j != l { Ordering.LessTransitive(k, l, j); }
        }
        assert IsLeast(keys, k);
      }
    }
  }

  lemma LeastUnique(keys: set<string>, a: string, b: string)
    requires IsLeast(keys, a) && IsLeast(keys, b)
    ensures a == b
  {
    if a != b {
      Ordering.LessTransitive(a, b, a);
      Ordering.LessIrreflexive(a);
    }
  }

  function SortedKeys(keys: set<string>): (r: seq<string>)
    ensures forall k :: k in r <==> k in keys
    decreases |keys|
  {
    if keys == {} then []
    else
      LeastExists(keys);
      assert forall a, b :: IsLeast(keys, a) && IsLeast(keys, b) ==> a == b by {
        forall a, b | IsLeast(keys, a) && IsLeast(keys, b) ensures a == b { LeastUnique(keys, a, b); }
      }
      var k :| IsLeast(keys, k);
      [k] + SortedKeys(keys - {k})
  }

  /** `_changed_paths`: descend while both sides are mappings. */
  function ChangedPaths(before: Value, after: Value, prefix: Path): seq<Path>
    decreases before, 1, 0
  {
    if before.Obj? && after.Obj? then ChangedUnder(before, after, prefix, SortedKeys(before.m.Keys + after.m.Keys))
    else if before != after then [prefix]
    else []
  }

  function ChangedUnder(before: Value, after: Value, prefix: Path, keys: seq<string>): seq<Path>
    requires before.Obj? && after.Obj?
    decreases before, 0, |keys|
  {
    if keys == [] then []
    else
      var k := keys[0];
      (if k in before.m && k in after.m then ChangedPaths(before.m[k], after.m[k], prefix + [k]) else [prefix + [k]])
      + ChangedUnder(before, after, prefix, keys[1..])
  }

  /** `_value_at`; None is the missing marker. */
  function ValueAt(v: Value, path: Path): Option<Value>
    decreases |path|
  {
    if path == [] then Some(v)
    else if v.Obj? && path[0] in v.m then ValueAt(v.m[path[0]], path[1..])
    else None
  }

  function MapOf(v: Value): map<string, Value> {
    if v.Obj? then v.m else map[]
  }

  /** `_apply_path` with the source's value already looked up: walk down, putting an
      empty mapping wherever there is none, and set or remove the last key. */
  function Assign(target: Value, path: Path, value: Option<Value>): Value
    decreases |path|
  {
    if path == [] then (if value.Some? then value.value else target)
    else if |path| == 1 && value.None? then Obj(MapOf(target) - {path[0]})
    else
      var child := if path[0] in MapOf(target) then MapOf(target)[path[0]] else Obj(map[]);
      Obj(MapOf(target)[path[0] := Assign(if child.Obj? then child else Obj(map[]), path[1..], value)])
  }

  /** One edit: a path with the value to put there, or None to remove it. */
  datatype Edit = Edit(path: Path, value: Option<Value>)

  function ApplyAll(target: Value, edits: seq<Edit>): Value
    decreases |edits|
  {
    if edits == [] then target
    else Assign(ApplyAll(target, edits[..|edits| - 1]), edits[|edits| - 1].path, edits[|edits| - 1].value)
  }

  function EditsOf(baseline: Value, updated: Value): seq<Edit> {
    var paths := ChangedPaths(baseline, updated, []);
    seq(|paths|, i requires 0 <= i < |paths| => Edit(paths[i], ValueAt(updated, paths[i])))
  }

  /** What `write_config_file` computes from the file's content. */
  function Merge(baseline: Value, updated: Value, current: Value): Value {
    ApplyAll(current, EditsOf(baseline, updated))
  }

  // ---- which paths change ------------------------------------------------

  /** Independent description of the changed paths, one key at a time. */
  predicate Changed(before: Value, after: Value, q: Path)
    decreases |q|
  {
    if before.Obj? && after.Obj? then
      && q != [] && q[0] in before.m.Keys + after.m.Keys
      && (if q[0] in before.m && q[0] in after.m then Changed(before.m[q[0]], after.m[q[0]], q[1..]) else |q| == 1)
    else q == [] && before != after
  }

  predicate ListedUnder(before: Value, after: Value, prefix: Path, keys: seq<string>, p: Path)
    requires before.Obj? && after.Obj?
  {
    |prefix| < |p| && prefix <= p && p[|prefix|] in keys && Changed(before, after, p[|prefix|..])
  }

  lemma {:induction false} ChangedPathsExact(before: Value, after: Value, prefix: Path)
    ensures forall p :: p in ChangedPaths(before, after, prefix) <==> prefix <= p && Changed(before, after, p[|prefix|..])
    decreases before, 1, 0
  {
    if before.Obj? && after.Obj? {
      ChangedUnderExact(before, after, prefix, SortedKeys(before.m.Keys + after.m.Keys));
    } else {
      forall p ensures p in ChangedPaths(before, after, prefix) <==> prefix <= p && Changed(before, after, p[|prefix|..]) {
        if prefix <= p && |p| == |prefix| { assert p == prefix; }
      }
    }
  }

  lemma {:induction false} ChangedUnderExact(before: Value, after: Value, prefix: Path, keys: seq<string>)
    requires before.Obj? && after.Obj? && forall k :: k in keys ==> k in before.m.Keys + after.m.Keys
    ensures forall p :: p in ChangedUnder(before, after, prefix, keys) <==> ListedUnder(before, after, prefix, keys, p)
    decreases before, 0, |keys|
  {
    if keys != [] {
      var k := keys[0];
      ChangedUnderExact(before, after, prefix, keys[1..]);
      if k in before.m && k in after.m { ChangedPathsExact(before.m[k], after.m[k], prefix + [k]); }
      var head := if k in before.m && k in after.m then ChangedPaths(before.m[k], after.m[k], prefix + [k]) else [prefix + [k]];
      forall p ensures p in head <==> ListedUnder(before, after, prefix, [k], p) {
        if |prefix| < |p| && prefix <= p && p[|prefix|] == k {
          assert prefix + [k] <= p;
          assert p[|prefix|..][1..] == p[|prefix + [k]|..];
          if |p| == |prefix| + 1 { assert p == prefix + [k]; }
        }
      }
    }
  }

  lemma {:induction false} ChangedPrefixFree(before: Value, after: Value, p: Path, q: Path)
    requires Changed(before, after, p) && Changed(before, after, q) && p <= q
    ensures p == q
    decreases |p|
  {
    if before.Obj? && after.Obj? {
      assert p[0] == q[0];
      if p[0] in before.m && p[0] in after.m {
        ChangedPrefixFree(before.m[p[0]], after.m[p[0]], p[1..], q[1..]);
        assert p == [p[0]] + p[1..] && q == [q[0]] + q[1..];
      }
    }
  }
}
