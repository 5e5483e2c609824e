/** libconfig settings: the tree a caller sees, and the linked nodes that store it.

    The C nodes live on the heap and point at each other.  Here the heap is a sequence of nodes and
    a pointer is an index into it; allocation appends.  A union member and its type tag form one
    `Data` value. */
module ConfigTree {
  import opened Options

  const FORMAT_DEFAULT := 0
  const FORMAT_HEX := 1

  // ----- the tree a caller sees

  datatype Setting = Setting(name: Option<string>, val: Value)

  datatype Value =
    | NoneV
    | BoolV(b: int)
    | IntV(n: int, format: int)
    | Int64V(n: int, format: int)
    | FloatV(text: string)
    | StringV(s: string)
    | AggV(kind: Kind, elems: seq<Setting>)

  /** An array holds scalars of one type, a list anything, a group named settings. */
  datatype Kind = Array | List | Group

  /** Scalars of one type share a `ScalarKind`; the type of an array is that of its first element. */
  function ScalarKind(v: Value): int {
    match v
    case BoolV(_) => 6
    case IntV(_, _) => 2
    case Int64V(_, _) => 3
    case FloatV(_) => 4
    case StringV(_) => 5
    case _ => 0
  }

  /** Two values are scalars of one type when they are both booleans, both 32-bit numbers, both 64-bit
      numbers, both floats or both strings. */
  lemma SameScalarKind(v: Value, w: Value)
    ensures ScalarKind(v) != 0 && ScalarKind(v) == ScalarKind(w) <==>
            || (v.BoolV? && w.BoolV?) || (v.IntV? && w.IntV?) || (v.Int64V? && w.Int64V?)
            || (v.FloatV? && w.FloatV?) || (v.StringV? && w.StringV?)
  {}

  predicate Homogeneous(elems: seq<Setting>) {
    forall i | 0 <= i < |elems| :: ScalarKind(elems[i].val) != 0 && ScalarKind(elems[i].val) == ScalarKind(elems[0].val)
  }

  predicate DistinctNames(elems: seq<Setting>) {
    forall i, j | 0 <= i < j < |elems| :: elems[i].name != elems[j].name
  }

  predicate Unnamed(elems: seq<Setting>) {
    forall i | 0 <= i < |elems| :: elems[i].name.None?
  }

  // ----- names

  predicate IsAlpha(c: char) { 'a' <= c <= 'z' || 'A' <= c <= 'Z' }

  predicate IsDigit(c: char) { '0' <= c <= '9' }

  predicate NameStart(c: char) { IsAlpha(c) || c == '*' }

  predicate NameChar(c: char) { IsAlpha(c) || IsDigit(c) || c == '*' || c == '_' || c == '-' }

  predicate ValidName(s: string) {
    |s| > 0 && NameStart(s[0]) && forall i | 0 < i < |s| :: NameChar(s[i])
  }

  predicate PathToken(c: char) { c == ':' || c == '.' || c == '/' }

  /** The character classes by their codes: names begin with a letter or *, go on with letters, digits
      and * _ -, and are separated in paths by . / and :. */
  lemma CharacterCodes(c: char)
    ensures NameStart(c) <==> 65 <= c as int <= 90 || 97 <= c as int <= 122 || c as int == 42
    ensures NameChar(c) <==> NameStart(c) || 48 <= c as int <= 57 || c as int in {45, 95}
    ensures PathToken(c) <==> 46 <= c as int <= 47 || c as int == 58
  {}

  /** The part of `s` that name comparison looks at: everything before the first path separator. */
  function Segment(s: string): string {
    if s == "" || PathToken(s[0]) then "" else [s[0]] + Segment(s[1..])
  }

  lemma {:induction false} NoSeparatorSegment(s: string)
    requires forall i | 0 <= i < |s| :: !PathToken(s[i])
    ensures Segment(s) == s
  {
    if s != "" { NoSeparatorSegment(s[1..]); }
  }

  lemma ValidNameSegment(s: string)
    requires ValidName(s)
    ensures Segment(s) == s
  {
    NoSeparatorSegment(s);
  }

  // ----- which trees are accepted

  /** `x` may be added to an aggregate of this kind that already holds `older`. */
  predicate Fits(kind: Kind, older: seq<Setting>, x: Setting)
    decreases x
  {
    match kind
    case Group =>
      && x.name.Some? && ValidName(x.name.value)
      && (forall i | 0 <= i < |older| :: older[i].name != x.name)
      && WellFormed(x.val)
    case List => x.name.None? && WellFormed(x.val)
    case Array =>
      && x.name.None? && ScalarKind(x.val) != 0
      && (older == [] || ScalarKind(older[0].val) == ScalarKind(x.val))
  }

  predicate FitAll(kind: Kind, older: seq<Setting>, xs: seq<Setting>) {
    forall i | 0 <= i < |xs| :: Fits(kind, older + xs[..i], xs[i])
  }

  /** Group names are proper and distinct, arrays hold scalars of one type, at every depth. */
  predicate WellFormed(v: Value)
    decreases v
  {
    match v
    case NoneV => false
    case AggV(kind, elems) => forall i | 0 <= i < |elems| :: Fits(kind, elems[..i], elems[i])
    case _ => true
  }

  lemma ScalarsAreWellFormed(v: Value)
    requires ScalarKind(v) != 0
    ensures WellFormed(v)
  {}

  lemma FitSnoc(kind: Kind, older: seq<Setting>, xs: seq<Setting>, x: Setting)
    ensures FitAll(kind, older, xs + [x]) <==> FitAll(kind, older, xs) && Fits(kind, older + xs, x)
  {
    hide Fits;
    var ys := xs + [x];
    assert forall i | 0 <= i < |xs| :: ys[..i] == xs[..i] && ys[i] == xs[i];
    assert ys[..|xs|] == xs && ys[|xs|] == x;
  }

  lemma FitOne(kind: Kind, older: seq<Setting>, x: Setting)
    ensures FitAll(kind, older, [x]) <==> Fits(kind, older, x)
  {
    FitSnoc(kind, older, [], x);
    assert [] + [x] == [x] && older + [] == older;
  }

  lemma AggregateIsWellFormed(kind: Kind, xs: seq<Setting>)
    ensures WellFormed(AggV(kind, xs)) <==> FitAll(kind, [], xs)
  {
    assert forall i | 0 <= i < |xs| :: [] + xs[..i] == xs[..i];
  }

  /** In an accepted group all names are proper and distinct. */
  lemma WellFormedGroup(elems: seq<Setting>)
    ensures WellFormed(AggV(Group, elems)) <==>
            DistinctNames(elems) && forall i | 0 <= i < |elems| ::
              elems[i].name.Some? && ValidName(elems[i].name.value) && WellFormed(elems[i].val)
  {
    if WellFormed(AggV(Group, elems)) {
      forall i, j | 0 <= i < j < |elems| ensures elems[i].name != elems[j].name {
        assert Fits(Group, elems[..j], elems[j]) && elems[..j][i] == elems[i];
      }
      assert forall i | 0 <= i < |elems| :: Fits(Group, elems[..i], elems[i]);
    }
  }

  /** In an accepted array all elements are scalars of one type. */
  lemma WellFormedArray(elems: seq<Setting>)
    ensures WellFormed(AggV(Array, elems)) <==> Homogeneous(elems) && Unnamed(elems)
  {
    if WellFormed(AggV(Array, elems)) {
      assert forall i | 0 <= i < |elems| :: Fits(Array, elems[..i], elems[i]);
      assert forall i | 0 < i < |elems| :: elems[..i][0] == elems[0];
    }
  }

  lemma ElementWellFormed(kind: Kind, elems: seq<Setting>, i: nat)
    requires WellFormed(AggV(kind, elems)) && i < |elems|
    ensures WellFormed(elems[i].val)
  {
    assert Fits(kind, elems[..i], elems[i]);
    if kind == Array { ScalarsAreWellFormed(elems[i].val); }
  }

  /** Replacing elements by accepted ones of the same names and types is accepted. */
  lemma SimilarWellFormed(kind: Kind, xs: seq<Setting>, ys: seq<Setting>)
    requires WellFormed(AggV(kind, xs)) && |xs| == |ys|
    requires forall i | 0 <= i < |xs| ::
      ys[i].name == xs[i].name && ScalarKind(ys[i].val) == ScalarKind(xs[i].val) && WellFormed(ys[i].val)
    ensures WellFormed(AggV(kind, ys))
  {
    forall i | 0 <= i < |ys| ensures Fits(kind, ys[..i], ys[i]) {
      assert Fits(kind, xs[..i], xs[i]);
      assert forall j | 0 <= j < i :: ys[..i][j] == ys[j] && xs[..i][j] == xs[j];
    }
  }

  // ----- the stored nodes

  datatype Node = Node(name: Option<string>, parent: Option<nat>, data: Data)

  datatype Data = DNone | DScalar(v: Value) | DAgg(kind: Kind, kids: seq<nat>)
  {
    function Kids(): seq<nat> {
      if DAgg? then kids else []
    }

    function ScalarType(): int {
      if DScalar? then ScalarKind(v) else 0
    }
  }

  type Nodes = seq<Node>

  /** Pointers stay in the heap, a child is younger than its parent, and only scalars are stored as scalars. */
  ghost predicate Ordered(ns: Nodes) {
    forall i | 0 <= i < |ns| ::
      && (forall j | 0 <= j < |ns[i].data.Kids()| :: i < ns[i].data.Kids()[j] < |ns|)
      && (ns[i].data.DScalar? ==> ScalarKind(ns[i].data.v) != 0)
  }

  /** The tree hanging from node `i`. */
  ghost function Tree(ns: Nodes, i: nat): Setting
    requires Ordered(ns) && i < |ns|
    decreases |ns| - i, 1
  {
    Setting(ns[i].name, DataTree(ns, i))
  }

  ghost function DataTree(ns: Nodes, i: nat): Value
    requires Ordered(ns) && i < |ns|
    decreases |ns| - i, 0
  {
    match ns[i].data
    case DNone => NoneV
    case DScalar(v) => v
    case DAgg(kind, _) =>
      var ks := ns[i].data.Kids();
      AggV(kind, seq(|ks|, j requires 0 <= j < |ks| => Tree(ns, ks[j])))
  }

  ghost function Trees(ns: Nodes, ks: seq<nat>): (r: seq<Setting>)
    requires Ordered(ns)
    requires forall j | 0 <= j < |ks| :: ks[j] < |ns|
    ensures |r| == |ks| && forall j | 0 <= j < |ks| :: r[j] == Tree(ns, ks[j])
  {
    seq(|ks|, j requires 0 <= j < |ks| => Tree(ns, ks[j]))
  }

  /** An aggregate node shows as its kind over the trees of its children. */
  lemma AggregateTree(ns: Nodes, i: nat)
    requires Ordered(ns) && i < |ns| && ns[i].data.DAgg?
    ensures forall j | 0 <= j < |ns[i].data.Kids()| :: i < ns[i].data.Kids()[j] < |ns|
    ensures DataTree(ns, i) == AggV(ns[i].data.kind, Trees(ns, ns[i].data.Kids()))
  {
    assert DataTree(ns, i).elems == Trees(ns, ns[i].data.Kids());
  }

  // ----- what later changes leave alone

  /** Nodes `lo..hi` are the same in both heaps and point only among themselves. */
  ghost predicate SameBlock(ns: Nodes, ms: Nodes, lo: nat, hi: nat) {
    && hi <= |ns| && hi <= |ms|
    && forall i | lo <= i < hi :: ns[i] == ms[i] && forall j | 0 <= j < |ns[i].data.Kids()| :: i < ns[i].data.Kids()[j] < hi
  }

  /** A tree stored in an untouched block is unchanged. */
  lemma {:induction false} TreeFrame(ns: Nodes, ms: Nodes, i: nat, hi: nat)
    requires Ordered(ns) && Ordered(ms)
    requires i < hi && SameBlock(ns, ms, i, hi)
    ensures Tree(ns, i) == Tree(ms, i)
    decreases hi - i
  {
    if ns[i].data.DAgg? {
      AggregateTree(ns, i);
      AggregateTree(ms, i);
      var ks := ns[i].data.Kids();
      forall j | 0 <= j < |ks|
        ensures Tree(ns, ks[j]) == Tree(ms, ks[j])
      {
        TreeFrame(ns, ms, ks[j], hi);
      }
      assert Trees(ns, ks) == Trees(ms, ks);
    }
  }

  lemma TreesFrame(ns: Nodes, ms: Nodes, ks: seq<nat>, lo: nat, hi: nat)
    requires Ordered(ns) && Ordered(ms)
    requires SameBlock(ns, ms, lo, hi)
    requires forall j | 0 <= j < |ks| :: lo <= ks[j] < hi
    ensures Trees(ns, ks) == Trees(ms, ks)
  {
    forall j | 0 <= j < |ks|
      ensures Tree(ns, ks[j]) == Tree(ms, ks[j])
    {
      TreeFrame(ns, ms, ks[j], hi);
    }
  }
}
