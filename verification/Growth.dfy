/** How the heap of settings changes while a tree grows: what is new, and what stays as it was. */
module Growth {
  import opened Options
  import opened ConfigTree
  import opened ConfigOps

  /** `ms` is `ns` with children showing as `xs` added at the end of aggregate `p`, built from fresh nodes. */
  ghost predicate Grown(ns: Nodes, ms: Nodes, p: nat, xs: seq<Setting>) {
    && Ordered(ns) && Ordered(ms) && p < |ns| <= |ms|
    && (forall j | 0 <= j < |ns| && j != p :: ms[j] == ns[j])
    && SameButKids(ns[p], ms[p])
    && ns[p].data.Kids() <= ms[p].data.Kids()
    && (forall j | |ns[p].data.Kids()| <= j < |ms[p].data.Kids()| :: |ns| <= ms[p].data.Kids()[j])
    && Trees(ms, ms[p].data.Kids()[|ns[p].data.Kids()|..]) == xs
  }

  predicate SameButKids(n: Node, m: Node) {
    n.name == m.name && n.parent == m.parent && n.data.DAgg? && m.data.DAgg? && n.data.kind == m.data.kind
  }

  /** `ms` is `ns` with node `i` given value `v`, built from fresh nodes. */
  ghost predicate Filled(ns: Nodes, ms: Nodes, i: nat, v: Value) {
    && Ordered(ns) && Ordered(ms) && i < |ns| <= |ms|
    && (forall j | 0 <= j < |ns| && j != i :: ms[j] == ns[j])
    && ms[i].name == ns[i].name && ms[i].parent == ns[i].parent
    && (forall j | 0 <= j < |ms[i].data.Kids()| :: |ns| <= ms[i].data.Kids()[j])
    && DataTree(ms, i) == v
  }

  /** The trees of the children of `p`. */
  ghost function Children(ns: Nodes, p: nat): seq<Setting>
    requires Ordered(ns) && p < |ns|
  {
    Trees(ns, ns[p].data.Kids())
  }

  lemma GrownNothing(ns: Nodes, p: nat)
    requires Ordered(ns) && p < |ns| && ns[p].data.DAgg?
    ensures Grown(ns, ns, p, [])
  {
    assert ns[p].data.Kids()[|ns[p].data.Kids()|..] == [];
  }

  lemma TreesConcat(ns: Nodes, a: seq<nat>, b: seq<nat>)
    requires Ordered(ns)
    requires (forall j | 0 <= j < |a| :: a[j] < |ns|) && (forall j | 0 <= j < |b| :: b[j] < |ns|)
    ensures forall j | 0 <= j < |a + b| :: (a + b)[j] < |ns|
    ensures Trees(ns, a + b) == Trees(ns, a) + Trees(ns, b)
  {
    assert Trees(ns, a + b) == Trees(ns, a) + Trees(ns, b);
  }

  /** Growth adds to what was there; the older children keep their trees. */
  lemma GrownChildren(ns: Nodes, ms: Nodes, p: nat, xs: seq<Setting>)
    requires Grown(ns, ms, p, xs)
    ensures Children(ms, p) == Children(ns, p) + xs
  {
    var a := ns[p].data.Kids();
    var b := ms[p].data.Kids()[|a|..];
    assert ms[p].data.Kids() == a + b;
    assert SameBlock(ns, ms, p + 1, |ns|);
    TreesFrame(ns, ms, a, p + 1, |ns|);
    TreesConcat(ms, a, b);
  }

  /** Every tree in the heap that was well formed still is after an aggregate has grown by items that
      fit, its own and those around it included. */
  lemma {:induction false} GrownWellFormed(ns: Nodes, ms: Nodes, p: nat, xs: seq<Setting>, r: nat)
    requires Grown(ns, ms, p, xs) && FitAll(ns[p].data.kind, Children(ns, p), xs)
    requires r < |ns| && WellFormed(DataTree(ns, r))
    ensures WellFormed(DataTree(ms, r)) && ScalarKind(DataTree(ms, r)) == ScalarKind(DataTree(ns, r))
    decreases |ns| - r
  {
    if r == p {
      AggregateTree(ns, p);
      AggregateTree(ms, p);
      GrownChildren(ns, ms, p, xs);
      FitsBehind(ns[p].data.kind, Children(ns, p), xs);
    } else if ns[r].data.DAgg? {
      AggregateTree(ns, r);
      AggregateTree(ms, r);
      var ks, kind := ns[r].data.Kids(), ns[r].data.kind;
      var before, after := Trees(ns, ks), Trees(ms, ks);
      assert Grown(ns, ms, p, xs);
      forall j | 0 <= j < |ks|
        ensures after[j].name == before[j].name && WellFormed(after[j].val)
        ensures ScalarKind(after[j].val) == ScalarKind(before[j].val)
      {
        ElementWellFormed(kind, before, j);
        hide Grown, WellFormed, DataTree, FitAll;
        GrownWellFormed(ns, ms, p, xs, ks[j]);
        SameName(ns, ms, p, xs, ks[j]);
      }
      SimilarWellFormed(kind, before, after);
    }
  }

  lemma SameName(ns: Nodes, ms: Nodes, p: nat, xs: seq<Setting>, k: nat)
    requires Grown(ns, ms, p, xs) && k < |ns|
    ensures ms[k].name == ns[k].name
  {}

  lemma FitsBehind(kind: Kind, older: seq<Setting>, xs: seq<Setting>)
    requires WellFormed(AggV(kind, older)) && FitAll(kind, older, xs)
    ensures WellFormed(AggV(kind, older + xs))
  {
    var all := older + xs;
    forall i | 0 <= i < |all| ensures Fits(kind, all[..i], all[i]) {
      if i < |older| {
        assert all[..i] == older[..i] && Fits(kind, older[..i], older[i]);
      } else {
        assert all[..i] == older + xs[..i - |older|] && Fits(kind, older + xs[..i - |older|], xs[i - |older|]);
      }
    }
  }

  lemma GrownTwice(ns: Nodes, ms: Nodes, os: Nodes, p: nat, xs: seq<Setting>, ys: seq<Setting>)
    requires Grown(ns, ms, p, xs) && Grown(ms, os, p, ys)
    ensures Grown(ns, os, p, xs + ys)
  {
    hide Ordered, Trees, Tree, DataTree;
    var a, m, o := ns[p].data.Kids(), ms[p].data.Kids(), os[p].data.Kids();
    ChainedPrefixes(a, m, o);
    GrownBlock(ns, ms, os, p, xs, ys);
    KidsInRange(ms, p);
    KidsInRange(os, p);
    TreesFrame(ms, os, m[|a|..], |ns|, |ms|);
    TreesConcat(os, m[|a|..], o[|m|..]);
  }

  lemma ChainedPrefixes<T>(a: seq<T>, m: seq<T>, o: seq<T>)
    requires a <= m <= o
    ensures a <= o && o[|a|..] == m[|a|..] + o[|m|..]
  {}

  /** What the first growth built is untouched by the second. */
  lemma GrownBlock(ns: Nodes, ms: Nodes, os: Nodes, p: nat, xs: seq<Setting>, ys: seq<Setting>)
    requires Grown(ns, ms, p, xs) && Grown(ms, os, p, ys)
    ensures SameBlock(ms, os, |ns|, |ms|)
  {}

  lemma KidsInRange(ns: Nodes, p: nat)
    requires Ordered(ns) && p < |ns|
    ensures forall j | 0 <= j < |ns[p].data.Kids()| :: p < ns[p].data.Kids()[j] < |ns|
  {}

  lemma SetDataOrdered(ns: Nodes, i: nat, data: Data)
    requires Ordered(ns) && i < |ns| && data.Kids() == [] && (data.DScalar? ==> ScalarKind(data.v) != 0)
    ensures Ordered(ns[i := ns[i].(data := data)])
  {
    var ms := ns[i := ns[i].(data := data)];
    forall k, j | 0 <= k < |ms| && 0 <= j < |ms[k].data.Kids()|
      ensures k < ms[k].data.Kids()[j] < |ms|
    {
      assert k != i;
    }
  }

  /** Storing a scalar in a fresh setting. */
  lemma FillScalar(ns: Nodes, i: nat, v: Value)
    requires Ordered(ns) && i < |ns| && ScalarKind(v) != 0
    ensures Filled(ns, ns[i := ns[i].(data := DScalar(v))], i, v)
  {
    SetDataOrdered(ns, i, DScalar(v));
  }

  /** Turning a fresh setting into an aggregate and then growing that. */
  lemma FillAggregate(ns: Nodes, i: nat, kind: Kind, ms: Nodes, xs: seq<Setting>)
    requires Ordered(ns) && i < |ns| && ns[i].data == DNone
    requires Grown(ns[i := ns[i].(data := DAgg(kind, []))], ms, i, xs)
    ensures Filled(ns, ms, i, AggV(kind, xs))
  {
    AggregateTree(ms, i);
    assert ms[i].data.Kids() == ms[i].data.Kids()[0..];
  }

  /** Adding a new child and then giving it its value. */
  lemma AppendFilled(ns: Nodes, p: nat, name: Option<string>, ms: Nodes, v: Value)
    requires Ordered(ns) && p < |ns| && ns[p].data.DAgg?
    requires Filled(AppendChild(ns, p, name, DNone), ms, |ns|, v)
    ensures Grown(ns, ms, p, [Setting(name, v)])
  {
    assert ms[p].data.Kids()[|ns[p].data.Kids()|..] == [|ns|];
    assert Trees(ms, [|ns|]) == [Tree(ms, |ns|)];
  }

  /** Adding a new scalar. */
  lemma AppendScalar(ns: Nodes, p: nat, name: Option<string>, v: Value)
    requires Ordered(ns) && p < |ns| && ns[p].data.DAgg? && ScalarKind(v) != 0
    ensures Grown(ns, AppendChild(ns, p, name, DScalar(v)), p, [Setting(name, v)])
  {
    AppendOrdered(ns, p, name, DScalar(v));
    var ms := AppendChild(ns, p, name, DScalar(v));
    assert ms[p].data.Kids()[|ns[p].data.Kids()|..] == [|ns|];
    assert Trees(ms, [|ns|]) == [Tree(ms, |ns|)];
  }

  /** A scalar is taken as a new element exactly when it fits, and then becomes the last one. */
  lemma AddElemGrows(ns: Nodes, p: nat, v: Value)
    requires Ordered(ns) && p < |ns| && ns[p].data.DAgg? && ns[p].data.kind != Group && ScalarKind(v) != 0
    ensures
      if Fits(ns[p].data.kind, Children(ns, p), Setting(None, v)) then
        && AddElem(ns, p, v) == Added(AppendChild(ns, p, None, DScalar(v)), |ns|)
        && Grown(ns, AppendChild(ns, p, None, DScalar(v)), p, [Setting(None, v)])
      else AddElem(ns, p, v) == NotAdded
  {
    hide WellFormed;
    ScalarsAreWellFormed(v);
    var ks := ns[p].data.Kids();
    if ks != [] { DataKind(ns, ks[0]); }
    AppendScalar(ns, p, None, v);
  }

  lemma DataKind(ns: Nodes, k: nat)
    requires Ordered(ns) && k < |ns|
    ensures ScalarKind(DataTree(ns, k)) == ns[k].data.ScalarType()
  {}

  /** Adding a new aggregate and then growing that. */
  lemma AppendAggregate(ns: Nodes, p: nat, name: Option<string>, kind: Kind, ms: Nodes, xs: seq<Setting>)
    requires Ordered(ns) && p < |ns| && ns[p].data.DAgg?
    requires Grown(AppendChild(ns, p, name, DAgg(kind, [])), ms, |ns|, xs)
    ensures Grown(ns, ms, p, [Setting(name, AggV(kind, xs))])
  {
    AggregateTree(ms, |ns|);
    assert ms[|ns|].data.Kids() == ms[|ns|].data.Kids()[0..];
    assert ms[p].data.Kids()[|ns[p].data.Kids()|..] == [|ns|];
    assert Trees(ms, [|ns|]) == [Tree(ms, |ns|)];
  }
}
