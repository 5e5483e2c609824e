/** Deep copies of settings, made by adding to the destination in place. */
module ConfigCopy {
  import opened Options
  import opened ConfigTree
  import opened ConfigOps
  import opened Growth

  // ----- a source tree that stays put

  /** The tree at `i` is stored in the very same nodes in both heaps. */
  ghost predicate Kept(ns: Nodes, ms: Nodes, i: nat)
    requires Ordered(ns) && i < |ns|
    decreases |ns| - i
  {
    i < |ms| && ns[i] == ms[i] && forall j | 0 <= j < |ns[i].data.Kids()| :: Kept(ns, ms, ns[i].data.Kids()[j])
  }

  /** Node `p` is not part of the tree at `i`. */
  ghost predicate Outside(ns: Nodes, p: nat, i: nat)
    requires Ordered(ns) && i < |ns|
    decreases |ns| - i
  {
    p != i && forall j | 0 <= j < |ns[i].data.Kids()| :: Outside(ns, p, ns[i].data.Kids()[j])
  }

  lemma {:induction false} KeptTree(ns: Nodes, ms: Nodes, i: nat)
    requires Ordered(ns) && Ordered(ms) && i < |ns| && Kept(ns, ms, i)
    ensures Tree(ns, i) == Tree(ms, i)
    decreases |ns| - i
  {
    if ns[i].data.DAgg? {
      AggregateTree(ns, i);
      AggregateTree(ms, i);
      var ks := ns[i].data.Kids();
      forall j | 0 <= j < |ks| ensures Tree(ns, ks[j]) == Tree(ms, ks[j]) { KeptTree(ns, ms, ks[j]); }
      assert Trees(ns, ks) == Trees(ms, ks);
    }
  }

  /** A tree is kept when only nodes outside it change. */
  lemma {:induction false} KeptOutside(base: Nodes, ns: Nodes, ms: Nodes, p: nat, i: nat)
    requires Ordered(base) && Ordered(ns) && i < |base| && Kept(base, ns, i) && Outside(ns, p, i)
    requires |ns| <= |ms| && forall j | 0 <= j < |ns| && j != p :: ms[j] == ns[j]
    ensures Kept(base, ms, i)
    decreases |base| - i
  {
    var ks := base[i].data.Kids();
    forall j | 0 <= j < |ks| ensures Kept(base, ms, ks[j]) { KeptOutside(base, ns, ms, p, ks[j]); }
  }

  /** A node younger than the source is outside it. */
  lemma {:induction false} YoungOutside(base: Nodes, ns: Nodes, p: nat, i: nat)
    requires Ordered(base) && Ordered(ns) && i < |base| <= p && Kept(base, ns, i)
    ensures Outside(ns, p, i)
    decreases |base| - i
  {
    var ks := base[i].data.Kids();
    forall j | 0 <= j < |ks| ensures Outside(ns, p, ks[j]) { YoungOutside(base, ns, p, ks[j]); }
  }

  lemma {:induction false} KeptSelf(ns: Nodes, i: nat)
    requires Ordered(ns) && i < |ns|
    ensures Kept(ns, ns, i)
    decreases |ns| - i
  {
    var ks := ns[i].data.Kids();
    forall j | 0 <= j < |ks| ensures Kept(ns, ns, ks[j]) { KeptSelf(ns, ks[j]); }
  }

  // ----- what a copy looks like

  function CopyName(kind: Kind, name: Option<string>): Option<string> {
    if kind == Group then name else None
  }

  /** The destination takes the copy: a vector always does, a group when the name, if any, is proper and free. */
  ghost predicate Takes(ns: Nodes, p: nat, name: Option<string>)
    requires Ordered(ns) && p < |ns| && ns[p].data.DAgg?
  {
    ns[p].data.kind == Group && name.Some? ==>
      ValidName(name.value) && forall i | 0 <= i < |Children(ns, p)| :: Children(ns, p)[i].name != name
  }

  /** A null name is not compared with any other. */
  predicate Comparable(ns: Nodes, p: nat, name: Option<string>)
    requires p < |ns| && ns[p].data.DAgg?
  {
    ns[p].data.kind == Group ==> name.Some? || ns[p].data.kids == []
  }

  /** The children of a group carry proper names. */
  ghost predicate NamedProperly(ns: Nodes, p: nat)
    requires Ordered(ns) && p < |ns| && ns[p].data.DAgg?
  {
    ns[p].data.kind == Group ==>
      forall i | 0 <= i < |Children(ns, p)| :: Children(ns, p)[i].name.Some? && ValidName(Children(ns, p)[i].name.value)
  }

  lemma AddOutcome(ns: Nodes, p: nat, name: Option<string>, data: Data)
    requires Ordered(ns) && p < |ns| && ns[p].data.DAgg? && NamedProperly(ns, p)
    requires Comparable(ns, p, name)
    ensures
      if Takes(ns, p, name) then
        SettingAdd(ns, p, name, data) == Added(AppendChild(ns, p, CopyName(ns[p].data.kind, name), data), |ns|)
      else SettingAdd(ns, p, name, data).NotAdded?
  {
    if ns[p].data.kind == Group && name.Some? && ValidName(name.value) {
      var ks := ns[p].data.Kids();
      assert forall j | 0 <= j < |ks| :: Children(ns, p)[j].name == ns[ks[j]].name;
      FindChildByName(ns, ks, name.value);
    }
  }

  class Config {
    var nodes: Nodes

    /** `config_setting_add`, growing the tree in place. */
    method Add(p: nat, name: Option<string>, data: Data) returns (r: Option<nat>)
      requires p < |nodes| && !SettingAdd(nodes, p, name, data).NullName?
      modifies this
      ensures
        match SettingAdd(old(nodes), p, name, data)
        case Added(ns, i) => nodes == ns && r == Some(i)
        case _ => nodes == old(nodes) && r == None
    {
      var isVector := nodes[p].data.DAgg? && nodes[p].data.kind != Group;
      var name' := if isVector then None else name;
      if name'.Some? && !ValidName(name'.value) { return None; }
      if name'.Some? {
        var member := FindMember(p, name'.value);
        if member.Some? { return None; }
      }
      if !nodes[p].data.DAgg? { return None; }
      r := Some(|nodes|);
      nodes := AppendChild(nodes, p, name', data);
    }

    /** `config_setting_get_member`: the children are searched in order. */
    method FindMember(p: nat, name: string) returns (r: Option<nat>)
      requires p < |nodes|
      ensures r == GetMember(nodes, p, name)
    {
      if !(nodes[p].data.DAgg? && nodes[p].data.kind == Group) { return None; }
      var ks := nodes[p].data.kids;
      var i := 0;
      while i < |ks|
        invariant 0 <= i <= |ks|
        invariant FindChild(nodes, ks, name) == FindChild(nodes, ks[i..], name)
      {
        assert ks[i..][1..] == ks[i + 1..];
        if ks[i] < |nodes| && nodes[ks[i]].name.Some? && Segment(nodes[ks[i]].name.value) == Segment(name) {
          return Some(ks[i]);
        }
        i := i + 1;
      }
      return None;
    }

    /** `config_setting_set_*_elem` at the end of an array or list. */
    method AddElement(p: nat, v: Value) returns (r: Option<nat>)
      requires p < |nodes|
      modifies this
      ensures
        match AddElem(old(nodes), p, v)
        case Added(ns, i) => nodes == ns && r == Some(i)
        case _ => nodes == old(nodes) && r == None
    {
      if !nodes[p].data.DAgg? || nodes[p].data.kind == Group { return None; }
      if !VectorAccepts(nodes, p, v) { return None; }
      r := Some(|nodes|);
      nodes := AppendChild(nodes, p, None, DScalar(v));
    }

    /** What every copying step keeps: the source stays where it was and `p` can be added to. */
    ghost predicate Ready(base: Nodes, p: nat, src: nat)
      reads this
    {
      && Ordered(base) && Ordered(nodes) && src < |base| && |base| <= |nodes| && p < |nodes|
      && nodes[p].data.DAgg? && NamedProperly(nodes, p)
      && Kept(base, nodes, src) && Outside(nodes, p, src)
    }

    /** The copy of `src` was added below `p`, or nothing at all when `p` does not take it. */
    twostate predicate Copied(base: Nodes, p: nat, src: nat)
      reads this
      requires old(Ready(base, p, src))
    {
      var kind := old(nodes)[p].data.kind;
      if Takes(old(nodes), p, base[src].name) then
        Grown(old(nodes), nodes, p, [Setting(CopyName(kind, base[src].name), DataTree(base, src))])
      else nodes == old(nodes)
    }

    /** `config_setting_copy_simple`. */
    method CopySimple(ghost base: Nodes, p: nat, src: nat)
      requires Ready(base, p, src) && WellFormed(DataTree(base, src))
      requires Comparable(nodes, p, base[src].name)
      modifies this
      ensures Copied(base, p, src)
      decreases |base| - src, 1
    {
      assert base[src] == nodes[src];
      if nodes[src].data.DAgg? {
        CopyAggregate(base, p, src);
      } else {
        AddOutcome(nodes, p, nodes[src].name, nodes[src].data);
        AppendScalar(nodes, p, CopyName(nodes[p].data.kind, nodes[src].name), nodes[src].data.v);
        var added := Add(p, nodes[src].name, nodes[src].data);
      }
    }

    /** `config_setting_copy_elem`. */
    method CopyElem(ghost base: Nodes, p: nat, src: nat)
      requires Ready(base, p, src) && nodes[p].data.kind != Group
      requires Fits(nodes[p].data.kind, Children(nodes, p), Setting(None, DataTree(base, src)))
      modifies this
      ensures Copied(base, p, src)
      decreases |base| - src, 1
    {
      assert base[src] == nodes[src];
      if nodes[src].data.DAgg? {
        CopyAggregate(base, p, src);
      } else {
        AddElemGrows(nodes, p, nodes[src].data.v);
        var added := AddElement(p, nodes[src].data.v);
      }
    }

    /** `config_setting_copy_aggregate`: an empty aggregate, then its children one by one. */
    method CopyAggregate(ghost base: Nodes, p: nat, src: nat)
      requires Ready(base, p, src) && base[src].data.DAgg? && WellFormed(DataTree(base, src))
      requires Comparable(nodes, p, base[src].name)
      modifies this
      ensures Copied(base, p, src)
      decreases |base| - src, 0, 1
    {
      assert base[src] == nodes[src];
      var kind, name := nodes[src].data.kind, nodes[src].name;
      AggregateTree(base, src);
      AddOutcome(nodes, p, name, DAgg(kind, []));
      var r := Add(p, name, DAgg(kind, []));
      if r.None? { return; }
      var agg := r.value;
      ghost var name' := CopyName(old(nodes)[p].data.kind, name);
      AppendOrdered(old(nodes), p, name', DAgg(kind, []));
      ghost var start := nodes;
      KeptOutside(base, old(nodes), nodes, p, src);
      GrownNothing(start, agg);
      assert Children(start, agg) == [] && Elements(base, src)[..0] == [];
      var n := |nodes[src].data.kids|;
      var i := 0;
      while i < n
        invariant 0 <= i <= n && Halfway(base, src, start, agg, i)
      {
        CopyChild(base, src, start, agg, i);
        i := i + 1;
      }
      assert Elements(base, src)[..n] == Elements(base, src);
      AppendAggregate(old(nodes), p, name', kind, nodes, Elements(base, src));
    }

    /** The first `i` children of the source have been copied into the fresh aggregate. */
    ghost predicate Halfway(base: Nodes, src: nat, start: Nodes, agg: nat, i: nat)
      reads this
    {
      && Ordered(base) && Ordered(start) && src < |base| <= agg < |start| && base[src].data.DAgg?
      && i <= |base[src].data.Kids()| && start[agg].data == DAgg(base[src].data.kind, [])
      && Grown(start, nodes, agg, Elements(base, src)[..i]) && Kept(base, nodes, src)
    }

    method CopyChild(ghost base: Nodes, src: nat, ghost start: Nodes, agg: nat, i: nat)
      requires Halfway(base, src, start, agg, i) && i < |base[src].data.Kids()| && src < |nodes| && agg < |nodes|
      requires WellFormed(DataTree(base, src))
      modifies this
      ensures Halfway(base, src, start, agg, i + 1)
      decreases |base| - src, 0, 0
    {
      hide WellFormed, DataTree, Tree, Trees;
      ghost var before := nodes;
      SourceStays(base, src);
      BeforeChild(base, src, start, agg, i);
      var kind, k := nodes[src].data.kind, nodes[src].data.kids[i];
      if kind == Group {
        CopySimple(base, agg, k);
      } else {
        CopyElem(base, agg, k);
      }
      AfterChild(base, src, start, before, nodes, agg, i);
    }

    lemma SourceStays(base: Nodes, src: nat)
      requires Ordered(base) && src < |base| && Kept(base, nodes, src)
      ensures src < |nodes| && base[src] == nodes[src]
    {}

    /** Before child `i` is copied it is ready, and its place will take it. */
    lemma BeforeChild(base: Nodes, src: nat, start: Nodes, agg: nat, i: nat)
      requires Halfway(base, src, start, agg, i) && i < |base[src].data.Kids()|
      requires WellFormed(DataTree(base, src))
      ensures
        var k, kind, x := base[src].data.Kids()[i], base[src].data.kind, Elements(base, src)[i];
        && src < k && Ready(base, agg, k) && nodes[agg].data.kind == kind && x == Tree(base, k)
        && Fits(kind, Children(nodes, agg), x) && Takes(nodes, agg, x.name) && x.name == base[k].name
        && (kind == Group ==> WellFormed(DataTree(base, k)) && base[k].name.Some?)
        && x == Setting(CopyName(kind, base[k].name), DataTree(base, k))
    {
      ChildFits(base, src, i);
      assert Children(start, agg) == [];
      GrownChildren(start, nodes, agg, Elements(base, src)[..i]);
      assert Children(nodes, agg) == Elements(base, src)[..i];
      YoungOutside(base, nodes, agg, src);
      ReadyChild(base, src, agg, i);
    }

    lemma ReadyChild(base: Nodes, src: nat, agg: nat, i: nat)
      requires Ordered(base) && Ordered(nodes) && src < |base| <= agg < |nodes| && base[src].data.DAgg?
      requires Kept(base, nodes, src) && Outside(nodes, agg, src) && i < |base[src].data.Kids()|
      requires nodes[agg].data.DAgg? && nodes[agg].data.kind == base[src].data.kind
      requires WellFormed(DataTree(base, src)) && Children(nodes, agg) == Elements(base, src)[..i]
      ensures Ready(base, agg, base[src].data.Kids()[i])
    {
      forall j | 0 <= j < i ensures Fits(base[src].data.kind, Elements(base, src)[..j], Elements(base, src)[j]) {
        ChildFits(base, src, j);
      }
    }

    /** `config_setting_copy`: the answer only tells a group or list from anything else, so a name
        the destination refuses goes unreported. */
    method Copy(p: nat, src: nat) returns (ok: bool)
      requires Ordered(nodes) && p < |nodes| && src < |nodes|
      requires Outside(nodes, p, src) && WellFormed(DataTree(nodes, src))
      requires nodes[p].data.DAgg? ==> NamedProperly(nodes, p)
      requires nodes[p].data.DAgg? ==> Comparable(nodes, p, nodes[src].name)
      modifies this
      ensures ok <==> old(nodes)[p].data.DAgg? && old(nodes)[p].data.kind != Array
      ensures Ordered(nodes) && src < |nodes| && Tree(nodes, src) == Tree(old(nodes), src)
      ensures
        if ok && Takes(old(nodes), p, old(nodes)[src].name) then
          && Grown(old(nodes), nodes, p, [Setting(CopyName(old(nodes)[p].data.kind, old(nodes)[src].name), DataTree(old(nodes), src))])
          && Children(nodes, p)
             == Children(old(nodes), p) + [Setting(CopyName(old(nodes)[p].data.kind, old(nodes)[src].name), DataTree(old(nodes), src))]
        else nodes == old(nodes)
      ensures old(nodes[p].data.DAgg? && nodes[p].data.kind == Group ==> nodes[src].name.Some?) ==>
                forall r: nat | r < |old(nodes)| && WellFormed(DataTree(old(nodes), r)) :: WellFormed(DataTree(nodes, r))
      ensures old(nodes[p].data.DAgg? && nodes[p].data.kind == Group) && old(nodes)[src].name.None? ==>
                !WellFormed(DataTree(nodes, p))
    {
      if !nodes[p].data.DAgg? || nodes[p].data.kind == Array { return false; }
      ghost var base := nodes;
      KeptSelf(nodes, src);
      if nodes[src].data.DAgg? {
        CopyAggregate(base, p, src);
      } else {
        CopySimple(base, p, src);
      }
      if Takes(base, p, base[src].name) {
        GrownChildren(base, nodes, p, [Setting(CopyName(base[p].data.kind, base[src].name), DataTree(base, src))]);
        KeptOutside(base, base, nodes, p, src);
        KeptTree(base, nodes, src);
        StillWellFormed(base, nodes, p, base[src].name, DataTree(base, src));
      }
      ok := true;
    }
  }

  /** Trees stay well formed when the copy has a name wherever one is due, and only then. */
  lemma StillWellFormed(ns: Nodes, ms: Nodes, p: nat, name: Option<string>, v: Value)
    requires Ordered(ns) && p < |ns| && ns[p].data.DAgg? && ns[p].data.kind != Array
    requires Takes(ns, p, name) && WellFormed(v)
    requires Grown(ns, ms, p, [Setting(CopyName(ns[p].data.kind, name), v)])
    ensures (ns[p].data.kind == Group ==> name.Some?) ==>
              forall r: nat | r < |ns| && WellFormed(DataTree(ns, r)) :: WellFormed(DataTree(ms, r))
    ensures ns[p].data.kind == Group && name.None? ==> !WellFormed(DataTree(ms, p))
  {
    var kind := ns[p].data.kind;
    var x := Setting(CopyName(kind, name), v);
    if kind == Group && name.None? {
      AggregateTree(ms, p);
      GrownChildren(ns, ms, p, [x]);
      WellFormedGroup(Children(ms, p));
      assert Children(ms, p)[|Children(ns, p)|] == x;
    } else {
      FitOne(kind, Children(ns, p), x);
      assert FitAll(kind, Children(ns, p), [x]);
      forall r: nat | r < |ns| && WellFormed(DataTree(ns, r)) ensures WellFormed(DataTree(ms, r)) {
        hide Grown, WellFormed, FitAll, Ordered;
        GrownWellFormed(ns, ms, p, [x], r);
      }
    }
  }

  lemma AfterChild(base: Nodes, src: nat, start: Nodes, before: Nodes, after: Nodes, agg: nat, i: nat)
    requires Ordered(base) && src < |base| <= agg && i < |Elements(base, src)|
    requires Grown(start, before, agg, Elements(base, src)[..i]) && Kept(base, before, src)
    requires Grown(before, after, agg, [Elements(base, src)[i]])
    ensures Grown(start, after, agg, Elements(base, src)[..i + 1]) && Kept(base, after, src)
  {
    var elems := Elements(base, src);
    hide Elements;
    assert Ordered(before);
    hide Grown;
    GrownTwice(start, before, after, agg, elems[..i], [elems[i]]);
    assert elems[..i] + [elems[i]] == elems[..i + 1];
    YoungOutside(base, before, agg, src);
    KeptOutside(base, before, after, agg, src);
  }

  /** The children of the source, as they show. */
  ghost function Elements(base: Nodes, src: nat): seq<Setting>
    requires Ordered(base) && src < |base|
  {
    Children(base, src)
  }

  lemma ChildFits(base: Nodes, src: nat, i: nat)
    requires Ordered(base) && src < |base| && base[src].data.DAgg? && i < |base[src].data.Kids()|
    requires WellFormed(DataTree(base, src))
    ensures Fits(base[src].data.kind, Elements(base, src)[..i], Elements(base, src)[i])
  {
    AggregateTree(base, src);
  }
}
