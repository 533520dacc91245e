/** What the merge guarantees: round trip, precise effect, order independence and
    agreement of disjoint editors. */
module ConfigMergeProofs {
  import opened SafeWrite
  import opened ConfigMerge

  /** What a tree shows at a path; the shapes at all paths determine the tree. */
  datatype Shape = Absent | Node | Atom(text: string)

  function Top(v: Option<Value>): Shape {
    match v
    case None => Absent
    case Some(Obj(_)) => Node
    case Some(Leaf(text)) => Atom(text)
  }

  function ShapeAt(v: Value, q: Path): Shape {
    Top(ValueAt(v, q))
  }

  function ShapeUnder(v: Option<Value>, q: Path): Shape {
    if v.None? then Absent else ShapeAt(v.value, q)
  }

  lemma {:induction false} ShapesDetermineTree(a: Value, b: Value)
    requires forall q :: ShapeAt(a, q) == ShapeAt(b, q)
    ensures a == b
    decreases a
  {
    assert ShapeAt(a, []) == ShapeAt(b, []);
    if a.Obj? {
      forall k ensures k in a.m <==> k in b.m {
        assert ShapeAt(a, [k]) == ShapeAt(b, [k]);
        assert b.Obj? && [k][1..] == [];
        ValueAtStep(a, [k]);
        ValueAtStep(b, [k]);
      }
      forall k | k in a.m ensures a.m[k] == b.m[k] {
        forall q ensures ShapeAt(a.m[k], q) == ShapeAt(b.m[k], q) {
          assert ShapeAt(a, [k] + q) == ShapeAt(b, [k] + q);
          assert ([k] + q)[1..] == q;
        }
        ShapesDetermineTree(a.m[k], b.m[k]);
      }
      assert a.m == b.m;
    }
  }

  // ---- effect of edits ---------------------------------------------------

  lemma ValueAtStep(v: Value, q: Path)
    requires q != []
    ensures ShapeAt(v, q) == if q[0] in MapOf(v) then ShapeAt(MapOf(v)[q[0]], q[1..]) else Absent
  {
  }

  /** One edit sets what lies at and below its path, turns the way there into
      mappings, and leaves everything else. */
  lemma {:induction false} AssignEffect(t: Value, p: Path, value: Option<Value>, q: Path)
    requires p == [] ==> value.Some?
    ensures ShapeAt(Assign(t, p, value), q) ==
      if p <= q then ShapeUnder(value, q[|p|..])
      else if q <= p then Node
      else ShapeAt(t, q)
    decreases |p|
  {
    if p == [] {
      assert q[0..] == q;
    } else if q != [] {
      var r := Assign(t, p, value);
      ValueAtStep(r, q);
      ValueAtStep(t, q);
      if q[0] == p[0] {
        assert (p <= q <==> p[1..] <= q[1..]) && (q <= p <==> q[1..] <= p[1..]) by {
          assert p == [p[0]] + p[1..] && q == [q[0]] + q[1..];
        }
        if |p| == 1 && value.None? {
          assert p <= q;
        } else {
          var child := if p[0] in MapOf(t) then MapOf(t)[p[0]] else Obj(map[]);
          var under := if child.Obj? then child else Obj(map[]);
          AssignEffect(under, p[1..], value, q[1..]);
          if p <= q { assert q[1..][|p[1..]|..] == q[|p|..]; }
          if !(p <= q) && !(q <= p) {
            assert q[1..] != [];
            ValueAtStep(under, q[1..]);
            if q[0] in MapOf(t) { ValueAtStep(MapOf(t)[q[0]], q[1..]); }
          }
        }
      } else {
        assert !(p <= q) && !(q <= p);
      }
    }
  }

  /** Edits at pairwise incomparable, non-empty paths. */
  ghost predicate Independent(edits: seq<Edit>) {
    && (forall e :: e in edits ==> e.path != [])
    && (forall e, f :: e in edits && f in edits && Comparable(e.path, f.path) ==> e == f)
  }

  /** The shape that a set of independent edits leaves at `q`. */
  ghost predicate Explains(t: Value, edits: seq<Edit>, q: Path, shape: Shape) {
    && (forall e :: e in edits && e.path <= q ==> shape == ShapeUnder(e.value, q[|e.path|..]))
    && (forall e :: e in edits && q <= e.path && q != e.path ==> shape == Node)
    && ((forall e :: e in edits ==> !Comparable(e.path, q)) ==> shape == ShapeAt(t, q))
  }

  lemma {:induction false} ApplyAllEffect(t: Value, edits: seq<Edit>, q: Path)
    requires Independent(edits)
    ensures Explains(t, edits, q, ShapeAt(ApplyAll(t, edits), q))
    decreases |edits|
  {
    if edits != [] {
      var front, last := edits[..|edits| - 1], edits[|edits| - 1];
      assert edits == front + [last];
      assert forall e :: e in edits <==> e in front || e == last;
      ApplyAllEffect(t, front, q);
      AssignEffect(ApplyAll(t, front), last.path, last.value, q);
      forall e | e in front && e.path <= q && last.path <= q ensures e == last {
        PrefixesCompare(e.path, last.path, q);
      }
    }
  }

  lemma PrefixesCompare(p: Path, r: Path, q: Path)
    requires p <= q && r <= q
    ensures Comparable(p, r)
  {
    if |p| <= |r| { assert p == q[..|p|] && r[..|p|] == q[..|p|]; } else { assert r == q[..|r|] && p[..|r|] == q[..|r|]; }
  }

  /** The explanation leaves no choice, so only the set of edits matters. */
  lemma ExplanationUnique(t: Value, edits: seq<Edit>, q: Path, a: Shape, b: Shape)
    requires Explains(t, edits, q, a) && Explains(t, edits, q, b)
    ensures a == b
  {
  }

  /** The order in which independent edits are applied does not matter. */
  lemma OrderIrrelevant(t: Value, edits: seq<Edit>, reordered: seq<Edit>)
    requires Independent(edits) && forall e :: e in edits <==> e in reordered
    ensures ApplyAll(t, edits) == ApplyAll(t, reordered)
  {
    forall q ensures ShapeAt(ApplyAll(t, edits), q) == ShapeAt(ApplyAll(t, reordered), q) {
      ApplyAllEffect(t, edits, q);
      ApplyAllEffect(t, reordered, q);
      ExplanationUnique(t, edits, q, ShapeAt(ApplyAll(t, edits), q), ShapeAt(ApplyAll(t, reordered), q));
    }
    ShapesDetermineTree(ApplyAll(t, edits), ApplyAll(t, reordered));
  }

  lemma {:induction false} ApplyAllAppend(t: Value, a: seq<Edit>, b: seq<Edit>)
    ensures ApplyAll(t, a + b) == ApplyAll(ApplyAll(t, a), b)
    decreases |b|
  {
    if b == [] {
      assert a + b == a;
    } else {
      assert (a + b)[..|a + b| - 1] == a + b[..|b| - 1];
      ApplyAllAppend(t, a, b[..|b| - 1]);
    }
  }

  // ---- the edits of a diff -----------------------------------------------

  /** The edits of a diff are exactly the changed paths with the editor's values. */
  lemma EditsExact(baseline: Value, updated: Value)
    ensures forall e :: e in EditsOf(baseline, updated) <==>
      Changed(baseline, updated, e.path) && e.value == ValueAt(updated, e.path)
  {
    var paths := ChangedPaths(baseline, updated, []);
    ChangedPathsExact(baseline, updated, []);
    assert forall p: Path :: p[0..] == p;
    var edits := EditsOf(baseline, updated);
    forall e: Edit | Changed(baseline, updated, e.path) && e.value == ValueAt(updated, e.path) ensures e in edits {
      assert e.path in paths;
      var i :| 0 <= i < |paths| && paths[i] == e.path;
      assert edits[i] == e;
    }
    forall e | e in edits ensures Changed(baseline, updated, e.path) && e.value == ValueAt(updated, e.path) {
      var i :| 0 <= i < |edits| && edits[i] == e;
      assert paths[i] in paths;
    }
  }

  /** The changed paths of two mappings are non-empty and no one lies on another. */
  lemma EditsIndependent(baseline: Value, updated: Value)
    requires baseline.Obj? && updated.Obj?
    ensures Independent(EditsOf(baseline, updated))
  {
    EditsExact(baseline, updated);
    var edits := EditsOf(baseline, updated);
    forall e, f | e in edits && f in edits && Comparable(e.path, f.path) ensures e == f {
      if e.path <= f.path {
        ChangedPrefixFree(baseline, updated, e.path, f.path);
      } else {
        ChangedPrefixFree(baseline, updated, f.path, e.path);
      }
    }
  }

  /** Above no changed path the two documents look alike; on the way to one, both
      are mappings. */
  lemma {:induction false} UnchangedAgree(before: Value, after: Value, q: Path)
    requires forall p :: Changed(before, after, p) ==> !(p <= q)
    ensures ShapeAt(before, q) == ShapeAt(after, q)
    ensures (exists p :: Changed(before, after, p) && q <= p) ==> ShapeAt(before, q) == Node
    decreases |q|
  {
    if before.Obj? && after.Obj? {
      if q != [] {
        ValueAtStep(before, q);
        ValueAtStep(after, q);
        var k := q[0];
        assert Changed(before, after, [k]) ==> [k] <= q;
        if k in before.m && k in after.m {
          assert q == [k] + q[1..];
          forall p | Changed(before.m[k], after.m[k], p) ensures !(p <= q[1..]) {
            assert ([k] + p)[1..] == p && Changed(before, after, [k] + p);
          }
          UnchangedAgree(before.m[k], after.m[k], q[1..]);
          forall p | Changed(before, after, p) && q <= p ensures Changed(before.m[k], after.m[k], p[1..]) && q[1..] <= p[1..] {
            assert p == [p[0]] + p[1..] && q == [q[0]] + q[1..];
          }
        } else {
          assert k !in before.m && k !in after.m;
          forall p ensures !(Changed(before, after, p) && q <= p) {
            if q <= p { assert p[0] == k; }
          }
        }
      }
    } else {
      assert Changed(before, after, []) ==> [] <= q;
    }
  }

  // ---- main results ------------------------------------------------------

  /** The precise effect of a merge on whatever the file holds by now: what lies at
      or below a changed path is the editor's, what lies beside all changed paths is
      the file's, and a path leading to a changed one is a mapping. */
  lemma MergeEffect(baseline: Value, updated: Value, current: Value, q: Path)
    requires baseline.Obj? && updated.Obj?
    ensures var merged := Merge(baseline, updated, current);
      && (forall p :: Changed(baseline, updated, p) && p <= q ==> ShapeAt(merged, q) == ShapeAt(updated, q))
      && (forall p :: Changed(baseline, updated, p) && q <= p && q != p ==> ShapeAt(merged, q) == Node)
      && ((forall p :: Changed(baseline, updated, p) ==> !Comparable(p, q)) ==> ShapeAt(merged, q) == ShapeAt(current, q))
  {
    var edits := EditsOf(baseline, updated);
    EditsExact(baseline, updated);
    EditsIndependent(baseline, updated);
    ApplyAllEffect(current, edits, q);
    var shape := ShapeAt(Merge(baseline, updated, current), q);
    forall p | Changed(baseline, updated, p) && p <= q ensures shape == ShapeAt(updated, q) {
      assert Edit(p, ValueAt(updated, p)) in edits;
      ValueBelow(updated, p, q);
    }
    forall p | Changed(baseline, updated, p) && q <= p && q != p ensures shape == Node {
      assert Edit(p, ValueAt(updated, p)) in edits;
    }
  }

  lemma {:induction false} ValueBelow(v: Value, p: Path, q: Path)
    requires p <= q
    ensures ShapeUnder(ValueAt(v, p), q[|p|..]) == ShapeAt(v, q)
    decreases |p|
  {
    if p == [] {
      assert q[0..] == q;
    } else if v.Obj? && p[0] in v.m {
      assert q[1..][|p[1..]|..] == q[|p|..];
      ValueBelow(v.m[p[0]], p[1..], q[1..]);
    }
  }

  /** Diff then apply is a round trip: on an unchanged file the result is exactly
      the edited document. */
  lemma RoundTrip(baseline: Value, updated: Value)
    requires baseline.Obj? && updated.Obj?
    ensures Merge(baseline, updated, baseline) == updated
  {
    forall q ensures ShapeAt(Merge(baseline, updated, baseline), q) == ShapeAt(updated, q) {
      MergeEffect(baseline, updated, baseline, q);
      if forall p :: Changed(baseline, updated, p) ==> !(p <= q) {
        UnchangedAgree(baseline, updated, q);
      }
    }
    ShapesDetermineTree(Merge(baseline, updated, baseline), updated);
  }

  /** A document has changed paths exactly when it was edited, and merging an
      unedited one leaves the file alone. */
  lemma UneditedChangesNothing(baseline: Value, updated: Value, current: Value)
    requires baseline.Obj? && updated.Obj?
    ensures ChangedPaths(baseline, updated, []) == [] <==> baseline == updated
    ensures baseline == updated ==> Merge(baseline, updated, current) == current
  {
    if ChangedPaths(baseline, updated, []) == [] {
      RoundTrip(baseline, updated);
      assert EditsOf(baseline, updated) == [];
    }
    if baseline == updated {
      SameHasNoPaths(baseline);
    }
  }

  lemma SameHasNoPaths(v: Value)
    ensures ChangedPaths(v, v, []) == []
  {
    ChangedPathsExact(v, v, []);
    var paths := ChangedPaths(v, v, []);
    assert 0 < |paths| ==> paths[0] in paths;
    forall p ensures p !in ChangedPaths(v, v, []) {
      SameUnchanged(v, p);
      assert p[0..] == p;
    }
  }

  lemma {:induction false} SameUnchanged(v: Value, p: Path)
    ensures !Changed(v, v, p)
    decreases |p|
  {
    if v.Obj? && p != [] && p[0] in v.m { SameUnchanged(v.m[p[0]], p[1..]); }
  }

  /** No changed path of one editor lies on a changed path of the other. */
  ghost predicate DisjointEdits(baseline: Value, a: Value, b: Value) {
    forall p, q :: Changed(baseline, a, p) && Changed(baseline, b, q) ==> !Comparable(p, q)
  }

  /** Two editors with disjoint edits reach the same file whoever writes first. */
  lemma DisjointEditorsAgree(baseline: Value, a: Value, b: Value, current: Value)
    requires baseline.Obj? && a.Obj? && b.Obj? && DisjointEdits(baseline, a, b)
    ensures Merge(baseline, b, Merge(baseline, a, current)) == Merge(baseline, a, Merge(baseline, b, current))
  {
    var ea, eb := EditsOf(baseline, a), EditsOf(baseline, b);
    JoinIndependent(baseline, a, b);
    ApplyAllAppend(current, ea, eb);
    ApplyAllAppend(current, eb, ea);
    OrderIrrelevant(current, ea + eb, eb + ea);
  }

  lemma JoinIndependent(baseline: Value, a: Value, b: Value)
    requires baseline.Obj? && a.Obj? && b.Obj? && DisjointEdits(baseline, a, b)
    ensures Independent(EditsOf(baseline, a) + EditsOf(baseline, b))
  {
    var ea, eb := EditsOf(baseline, a), EditsOf(baseline, b);
    EditsIndependent(baseline, a);
    EditsIndependent(baseline, b);
    forall e, f | e in ea && f in eb ensures !Comparable(e.path, f.path) && !Comparable(f.path, e.path) {
      EditsExact(baseline, a);
      EditsExact(baseline, b);
    }
    assert forall e :: e in ea + eb <==> e in ea || e in eb;
  }

  /** With overlapping edits the two orders agree only where the editors do: after
      both writes a path below a change of the later writer is the later writer's. */
  lemma LaterWriterWins(baseline: Value, a: Value, b: Value, current: Value, p: Path, q: Path)
    requires baseline.Obj? && a.Obj? && b.Obj?
    requires Changed(baseline, a, p) && Changed(baseline, b, p) && p <= q
    ensures ShapeAt(Merge(baseline, b, Merge(baseline, a, current)), q) == ShapeAt(b, q)
    ensures ShapeAt(Merge(baseline, a, Merge(baseline, b, current)), q) == ShapeAt(a, q)
  {
    MergeEffect(baseline, b, Merge(baseline, a, current), q);
    MergeEffect(baseline, a, Merge(baseline, b, current), q);
  }
}
