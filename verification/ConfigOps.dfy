/** The libconfig calls that grow a tree: adding a setting and adding an element.

    Each is a function on the heap of nodes; class `Config` runs the same code in place. */
module ConfigOps {
  import opened Options
  import opened ConfigTree

  /** `config_setting_create` below an aggregate: a new last child. */
  function AppendChild(ns: Nodes, p: nat, name: Option<string>, data: Data): Nodes
    requires p < |ns| && ns[p].data.DAgg?
  {
    ns[p := ns[p].(data := ns[p].data.(kids := ns[p].data.kids + [|ns|]))] + [Node(name, Some(p), data)]
  }

  /** The first child of group data whose name compares equal to `name`. */
  function FindChild(ns: Nodes, ks: seq<nat>, name: string): Option<nat> {
    if ks == [] then None
    else if ks[0] < |ns| && ns[ks[0]].name.Some? && Segment(ns[ks[0]].name.value) == Segment(name) then Some(ks[0])
    else FindChild(ns, ks[1..], name)
  }

  function GetMember(ns: Nodes, p: nat, name: string): Option<nat>
    requires p < |ns|
  {
    if ns[p].data.DAgg? && ns[p].data.kind == Group then FindChild(ns, ns[p].data.kids, name) else None
  }

  predicate HasNamedChild(ns: Nodes, p: nat)
    requires p < |ns|
  {
    exists j | 0 <= j < |ns[p].data.Kids()| :: ns[p].data.Kids()[j] < |ns| && ns[ns[p].data.Kids()[j]].name.Some?
  }

  /** `NullName` stands for the null name being compared with the names of a group's children. */
  datatype AddResult = Added(nodes: Nodes, index: nat) | NotAdded | NullName

  /** `config_setting_add`. */
  function SettingAdd(ns: Nodes, p: nat, name: Option<string>, data: Data): AddResult
    requires p < |ns|
  {
    var inVector := ns[p].data.DAgg? && ns[p].data.kind != Group;
    var name' := if inVector then None else name;
    if name'.Some? && !ValidName(name'.value) then NotAdded
    else if name'.Some? && GetMember(ns, p, name'.value).Some? then NotAdded
    else if name'.None? && !inVector && ns[p].data.DAgg? && HasNamedChild(ns, p) then NullName
    else if !ns[p].data.DAgg? then NotAdded
    else Added(AppendChild(ns, p, name', data), |ns|)
  }

  /** `__config_vector_checktype`: the first element fixes the type of an array. */
  predicate VectorAccepts(ns: Nodes, p: nat, v: Value)
    requires p < |ns| && ns[p].data.DAgg?
  {
    var ks := ns[p].data.kids;
    ks == [] || ns[p].data.kind == List || (ks[0] < |ns| && ns[ks[0]].data.ScalarType() == ScalarKind(v))
  }

  /** `config_setting_set_*_elem` with index -1. */
  function AddElem(ns: Nodes, p: nat, v: Value): AddResult
    requires p < |ns|
  {
    if !ns[p].data.DAgg? || ns[p].data.kind == Group then NotAdded
    else if !VectorAccepts(ns, p, v) then NotAdded
    else Added(AppendChild(ns, p, None, DScalar(v)), |ns|)
  }

  // ----- what appending does to the tree

  lemma AppendOrdered(ns: Nodes, p: nat, name: Option<string>, data: Data)
    requires Ordered(ns) && p < |ns| && ns[p].data.DAgg?
    requires data.Kids() == [] && (data.DScalar? ==> ScalarKind(data.v) != 0)
    ensures Ordered(AppendChild(ns, p, name, data))
  {
    var ms := AppendChild(ns, p, name, data);
    forall i, j | 0 <= i < |ms| && 0 <= j < |ms[i].data.Kids()|
      ensures i < ms[i].data.Kids()[j] < |ms|
    {
      if i < |ns| && j < |ns[i].data.Kids()| {
        assert ms[i].data.Kids()[j] == ns[i].data.Kids()[j];
      }
    }
  }

  /** Among children with proper names, lookup finds a name exactly when some child bears it. */
  lemma {:induction false} FindChildByName(ns: Nodes, ks: seq<nat>, name: string)
    requires ValidName(name)
    requires forall j | 0 <= j < |ks| :: ks[j] < |ns| && ns[ks[j]].name.Some? && ValidName(ns[ks[j]].name.value)
    ensures FindChild(ns, ks, name).None? <==> forall j | 0 <= j < |ks| :: ns[ks[j]].name != Some(name)
    ensures var r := FindChild(ns, ks, name); r.Some? ==> r.value in ks && ns[r.value].name == Some(name)
  {
    if ks != [] {
      ValidNameSegment(name);
      ValidNameSegment(ns[ks[0]].name.value);
      FindChildByName(ns, ks[1..], name);
      assert forall j | 0 < j < |ks| :: ks[j] == ks[1..][j - 1];
    }
  }
}
