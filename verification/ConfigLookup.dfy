/** Finding a setting by its path. */
module ConfigLookup {
  import opened Options
  import opened ConfigTree
  import opened ConfigOps
  import opened Growth
  import opened Writer
  import opened Scanner
  import opened RoundTrip

  // ----- comparing names

  /** A plain `char` is signed: those above 127 are negative and come before all others. */
  predicate Precedes(c: char, d: char) {
    if (c as int < 128) == (d as int < 128) then c < d else d as int < 128
  }

  lemma PrecedesMeans(c: char, d: char)
    requires c as int < 256 && d as int < 256
    ensures
      var m, n := if c as int < 128 then c as int else c as int - 256, if d as int < 128 then d as int else d as int - 256;
      Precedes(c, d) <==> m < n
  {}

  /** Three-way comparison of texts, character by character. */
  function Compare(a: string, b: string): int {
    if a == "" then if b == "" then 0 else -1
    else if b == "" then 1
    else if Precedes(a[0], b[0]) then -1
    else if Precedes(b[0], a[0]) then 1
    else Compare(a[1..], b[1..])
  }

  lemma {:induction false} CompareEqual(a: string, b: string)
    ensures Compare(a, b) == 0 <==> a == b
  {
    if a != "" && b != "" && a[0] == b[0] {
      CompareEqual(a[1..], b[1..]);
      assert a == [a[0]] + a[1..] && b == [b[0]] + b[1..];
    }
  }

  /** `__config_name_compare`: both texts end at their first path separator. */
  method NameCompare(a: string, b: string) returns (r: int)
    ensures r == Compare(Segment(a), Segment(b))
    ensures r == 0 <==> Segment(a) == Segment(b)
  {
    CompareEqual(Segment(a), Segment(b));
    var i := 0;
    while true
      invariant 0 <= i <= |a| && i <= |b|
      invariant Compare(Segment(a), Segment(b)) == Compare(Segment(a[i..]), Segment(b[i..]))
      decreases |a| - i
    {
      var pd := i == |a| || PathToken(a[i]);
      var qd := i == |b| || PathToken(b[i]);
      if pd && qd { return 0; }
      if pd { return -1; }
      if qd { return 1; }
      if Precedes(a[i], b[i]) { return -1; }
      if Precedes(b[i], a[i]) { return 1; }
      assert a[i..][1..] == a[i + 1..] && b[i..][1..] == b[i + 1..];
      i := i + 1;
    }
  }

  // ----- walking a path

  function SkipSeparators(s: string): string {
    if s != "" && PathToken(s[0]) then SkipSeparators(s[1..]) else s
  }

  function SkipSegment(s: string): string {
    if s != "" && !PathToken(s[0]) then SkipSegment(s[1..]) else s
  }

  lemma {:induction false} SkipsShorten(s: string)
    ensures |SkipSeparators(s)| <= |s| && |SkipSegment(s)| <= |s|
    ensures SkipSeparators(s) != "" ==> !PathToken(SkipSeparators(s)[0])
    ensures s != "" && !PathToken(s[0]) ==> |SkipSegment(s)| < |s|
  {
    if s != "" { SkipsShorten(s[1..]); }
  }

  /** The digits at the beginning of `s`. */
  function LeadingDigits(s: string): string {
    if s != "" && IsDigit(s[0]) then [s[0]] + LeadingDigits(s[1..]) else ""
  }

  lemma {:induction false} LeadingDigitsHex(s: string)
    ensures AllHex(LeadingDigits(s))
  {
    if s != "" { LeadingDigitsHex(s[1..]); }
  }

  /** `atoi` handed on as an unsigned index: leading white space, a sign, then digits. */
  function IndexOf(s: string): nat {
    var t := SkipSpace(s);
    var u := SkipSign(t);
    LeadingDigitsHex(u);
    var n: int := Number(LeadingDigits(u), 10);
    var m := Clamp(if t != "" && t[0] == '-' then -n else n, INT64_MIN, INT64_MAX);
    m % TWO32
  }

  function SkipSpace(s: string): string {
    if s != "" && (s[0] == ' ' || 9 <= s[0] as int <= 13) then SkipSpace(s[1..]) else s
  }

  /** `config_setting_get_elem`. */
  function GetElem(ns: Nodes, i: nat, k: nat): Option<nat>
    requires i < |ns|
  {
    if k < |ns[i].data.Kids()| then Some(ns[i].data.Kids()[k]) else None
  }

  /** `config_lookup_from`. */
  ghost function Lookup(ns: Nodes, i: nat, path: string): Option<nat>
    requires Ordered(ns) && i < |ns|
    decreases |path|
  {
    SkipsShorten(path);
    var p := SkipSeparators(path);
    if p == "" then Some(i)
    else
      var q := if p[0] == '[' then p[1..] else p;
      var found := if p[0] == '[' then GetElem(ns, i, IndexOf(q)) else GetMember(ns, i, p);
      SkipsShorten(q);
      match found
      case None => if q == "" then Some(i) else None
      case Some(j) => if j < |ns| then Lookup(ns, j, SkipSegment(q)) else None
  }

  lemma FoundInHeap(ns: Nodes, i: nat, name: string, k: nat)
    requires Ordered(ns) && i < |ns|
    ensures GetMember(ns, i, name).Some? ==> GetMember(ns, i, name).value < |ns|
    ensures GetElem(ns, i, k).Some? ==> GetElem(ns, i, k).value < |ns|
  {
    FindChildInHeap(ns, ns[i].data.Kids(), name);
  }

  lemma {:induction false} FindChildInHeap(ns: Nodes, ks: seq<nat>, name: string)
    ensures FindChild(ns, ks, name).Some? ==> FindChild(ns, ks, name).value < |ns|
  {
    if ks != [] { FindChildInHeap(ns, ks[1..], name); }
  }

  method LookupFrom(ns: Nodes, start: nat, path: string) returns (r: Option<nat>)
    requires Ordered(ns) && start < |ns|
    ensures r == Lookup(ns, start, path)
  {
    var setting: nat := start;
    var p: string := path;
    while true
      invariant setting < |ns| && Lookup(ns, setting, p) == Lookup(ns, start, path)
      decreases |p|
    {
      SkipsShorten(p);
      p := SkipSeparators(p);
      SkipsShorten(p);
      if p == "" { return Some(setting); }
      var found: Option<nat>;
      if p[0] == '[' {
        p := p[1..];
        found := GetElem(ns, setting, IndexOf(p));
      } else {
        found := GetMember(ns, setting, p);
      }
      SkipsShorten(p);
      if found.None? { return if p == "" then Some(setting) else None; }
      FoundInHeap(ns, setting, p, IndexOf(p));
      setting := found.value;
      p := SkipSegment(p);
    }
  }

  // ----- paths as text

  /** One step of a path: a name, or an index written in brackets. */
  datatype Step = Name(name: string) | Index(k: nat)

  function StepText(s: Step): string {
    match s
    case Name(name) => name
    case Index(k) => "[" + Digits(k, 10) + "]"
  }

  /** A path: each step preceded by its separators. */
  function PathText(steps: seq<Step>, seps: seq<string>): string
    requires |seps| == |steps|
  {
    if steps == [] then "" else seps[0] + StepText(steps[0]) + PathText(steps[1..], seps[1..])
  }

  predicate AllSeparators(s: string) { forall i | 0 <= i < |s| :: PathToken(s[i]) }

  /** Steps are separated by one or more separators; the first may stand at the very beginning. */
  predicate WellSeparated(seps: seq<string>) {
    && (forall i | 0 <= i < |seps| :: AllSeparators(seps[i]))
    && (forall i | 0 < i < |seps| :: seps[i] != "")
  }

  predicate ProperSteps(steps: seq<Step>) {
    forall i | 0 <= i < |steps| :: match steps[i] case Name(s) => ValidName(s) case Index(k) => k < 0x8000_0000
  }

  /** What the steps mean: a name selects a child of a group, an index a child of any aggregate. */
  ghost function Resolve(ns: Nodes, i: nat, steps: seq<Step>): Option<nat>
    requires Ordered(ns) && i < |ns|
    decreases |steps|
  {
    if steps == [] then Some(i)
    else
      FoundInHeap(ns, i, StepText(steps[0]), match steps[0] case Index(k) => k case Name(_) => 0);
      match (match steps[0] case Name(name) => GetMember(ns, i, name) case Index(k) => GetElem(ns, i, k))
      case None => None
      case Some(j) => if j < |ns| then Resolve(ns, j, steps[1..]) else None
  }

  lemma {:induction false} SeparatorsSkipped(a: string, b: string)
    requires AllSeparators(a) && (b == "" || !PathToken(b[0]))
    ensures SkipSeparators(a + b) == b
  {
    if a == "" {
      assert a + b == b;
    } else {
      SeparatorsSkipped(a[1..], b);
      assert (a + b)[1..] == a[1..] + b;
    }
  }

  lemma {:induction false} SegmentSkipped(a: string, b: string)
    requires (forall i | 0 <= i < |a| :: !PathToken(a[i])) && (b == "" || PathToken(b[0]))
    ensures SkipSegment(a + b) == b && Segment(a + b) == a
  {
    if a == "" {
      assert a + b == b;
    } else {
      SegmentSkipped(a[1..], b);
      assert (a + b)[1..] == a[1..] + b;
    }
  }

  lemma {:induction false} DigitsThenOther(d: string, rest: string)
    requires AllDigits(d) && (rest == "" || !IsDigit(rest[0]))
    ensures LeadingDigits(d + rest) == d
  {
    if d == "" {
      assert d + rest == rest;
    } else {
      DigitsThenOther(d[1..], rest);
      assert (d + rest)[1..] == d[1..] + rest;
    }
  }

  /** The written index is read back. */
  lemma IndexBack(k: nat, rest: string)
    requires k < 0x8000_0000 && (rest == "" || !IsDigit(rest[0]))
    ensures IndexOf(Digits(k, 10) + rest) == k
  {
    DigitsBack(k, 10);
    var d := Digits(k, 10);
    assert IsDigit(d[0]);
    DigitsThenOther(d, rest);
    PlainIndex(d + rest, k);
  }

  /** White space, a sign and digits, whatever follows: a negative index wraps around at 2^32. */
  lemma IndexMeans(w: string, sign: string, a: string, rest: string)
    requires forall i | 0 <= i < |w| :: w[i] == ' ' || 9 <= w[i] as int <= 13
    requires sign == "" || sign == "+" || sign == "-"
    requires a != "" && AllDigits(a) && (rest == "" || !IsDigit(rest[0]))
    ensures AllHex(a)
    ensures Number(a, 10) <= 0x7FFF_FFFF_FFFF_FFFF ==>
              IndexOf(w + (sign + (a + rest))) == (if sign == "-" then -(Number(a, 10) as int) else Number(a, 10)) % 0x1_0000_0000
  {
    DigitsAreHex(a);
    assert (a + rest)[0] == a[0];
    hide AllHex, Number, SkipSpace, SkipSign, LeadingDigits, IndexOf;
    SignSkipped(sign, a + rest);
    NoSpace(sign, a + rest);
    SpaceSkipped(w, sign + (a + rest));
    hide AllDigits, IsDigit;
    DigitsThenOther(a, rest);
    IndexFrom(w + (sign + (a + rest)), sign + (a + rest), a + rest, a);
  }

  lemma IndexFrom(s: string, t: string, u: string, a: string)
    requires SkipSpace(s) == t && t != "" && SkipSign(t) == u && LeadingDigits(u) == a && AllHex(a)
    ensures Number(a, 10) <= INT64_MAX ==> IndexOf(s) == (if t[0] == '-' then -(Number(a, 10) as int) else Number(a, 10)) % TWO32
  {
    hide SkipSpace, SkipSign, LeadingDigits, AllHex, Number;
  }

  lemma NoSpace(sign: string, t: string)
    requires (sign == "" || sign == "+" || sign == "-") && t != "" && IsDigit(t[0])
    ensures (sign + t)[0] != ' ' && !(9 <= (sign + t)[0] as int <= 13)
  {
    if sign == "" { assert sign + t == t; } else { assert (sign + t)[0] == sign[0]; }
  }

  lemma SignSkipped(sign: string, t: string)
    requires (sign == "" || sign == "+" || sign == "-") && t != "" && IsDigit(t[0])
    ensures SkipSign(sign + t) == t && sign + t != "" && ((sign + t)[0] == '-' <==> sign == "-")
  {
    if sign == "" { assert sign + t == t; } else { assert (sign + t)[1..] == t; }
  }

  lemma {:induction false} SpaceSkipped(w: string, t: string)
    requires forall i | 0 <= i < |w| :: w[i] == ' ' || 9 <= w[i] as int <= 13
    requires t == "" || (t[0] != ' ' && !(9 <= t[0] as int <= 13))
    ensures SkipSpace(w + t) == t
  {
    if w == "" {
      assert w + t == t;
    } else {
      SpaceSkipped(w[1..], t);
      assert (w + t)[1..] == w[1..] + t;
    }
  }

  lemma PlainIndex(s: string, k: nat)
    requires s != "" && IsDigit(s[0]) && k < 0x8000_0000
    requires AllHex(LeadingDigits(s)) && Number(LeadingDigits(s), 10) == k
    ensures IndexOf(s) == k
  {
    hide Number, LeadingDigits;
    assert SkipSpace(s) == s && SkipSign(s) == s;
  }

  /** A member is found by the first segment of a path alone. */
  lemma {:induction false} SegmentDecides(ns: Nodes, ks: seq<nat>, a: string, b: string)
    requires Segment(a) == Segment(b)
    ensures FindChild(ns, ks, a) == FindChild(ns, ks, b)
  {
    if ks != [] { SegmentDecides(ns, ks[1..], a, b); }
  }

  lemma {:induction false} DigitsNoSeparator(k: nat)
    ensures forall i | 0 <= i < |Digits(k, 10) + "]"| :: !PathToken((Digits(k, 10) + "]")[i])
  {
    DigitsBack(k, 10);
  }

  /** Looking a path up does exactly what its steps mean, in every heap. */
  lemma {:induction false} LookupResolves(ns: Nodes, i: nat, steps: seq<Step>, seps: seq<string>)
    requires Ordered(ns) && i < |ns| && |seps| == |steps| && WellSeparated(seps) && ProperSteps(steps)
    ensures Lookup(ns, i, PathText(steps, seps)) == Resolve(ns, i, steps)
    decreases |steps|
  {
    if steps == [] {
    } else {
      var rest := PathText(steps[1..], seps[1..]);
      RestStartsSeparated(steps, seps);
      match steps[0]
      case Name(name) =>
        LookupName(ns, i, seps[0], name, rest);
        var found := GetMember(ns, i, name);
        if found.Some? && found.value < |ns| { LookupResolves(ns, found.value, steps[1..], seps[1..]); }
      case Index(k) =>
        LookupIndex(ns, i, seps[0], k, rest);
        var found := GetElem(ns, i, k);
        if found.Some? && found.value < |ns| { LookupResolves(ns, found.value, steps[1..], seps[1..]); }
    }
  }

  lemma LookupName(ns: Nodes, i: nat, sep: string, name: string, rest: string)
    requires Ordered(ns) && i < |ns| && AllSeparators(sep) && ValidName(name) && (rest == "" || PathToken(rest[0]))
    ensures
      Lookup(ns, i, sep + name + rest) ==
        match GetMember(ns, i, name)
        case None => None
        case Some(j) => if j < |ns| then Lookup(ns, j, rest) else None
  {
    hide Ordered;
    var text := name + rest;
    assert sep + name + rest == sep + text && text[0] == name[0];
    SeparatorsSkipped(sep, text);
    SegmentSkipped(name, rest);
    ValidNameSegment(name);
    SegmentDecides(ns, ns[i].data.Kids(), text, name);
  }

  lemma LookupIndex(ns: Nodes, i: nat, sep: string, k: nat, rest: string)
    requires Ordered(ns) && i < |ns| && AllSeparators(sep) && k < 0x8000_0000 && (rest == "" || PathToken(rest[0]))
    ensures
      Lookup(ns, i, sep + StepText(Index(k)) + rest) ==
        match GetElem(ns, i, k)
        case None => None
        case Some(j) => if j < |ns| then Lookup(ns, j, rest) else None
  {
    hide Ordered, Digits;
    var inner := Digits(k, 10) + "]";
    var text := "[" + (inner + rest);
    assert sep + StepText(Index(k)) + rest == sep + text && text[1..] == inner + rest;
    SeparatorsSkipped(sep, text);
    assert inner + rest == Digits(k, 10) + ("]" + rest);
    IndexBack(k, "]" + rest);
    DigitsNoSeparator(k);
    SegmentSkipped(inner, rest);
  }

  lemma RestStartsSeparated(steps: seq<Step>, seps: seq<string>)
    requires |seps| == |steps| > 0 && WellSeparated(seps)
    ensures var rest := PathText(steps[1..], seps[1..]); rest == "" || PathToken(rest[0])
  {
    if |steps| > 1 {
      assert seps[1..][0] == seps[1];
      assert PathText(steps[1..], seps[1..])[0] == seps[1][0];
    }
  }

  // ----- every setting is found by its own path

  /** The node reached from `i` by following child positions. */
  ghost function NodeAt(ns: Nodes, i: nat, positions: seq<nat>): Option<nat>
    requires Ordered(ns) && i < |ns|
    decreases |positions|
  {
    if positions == [] then Some(i)
    else if positions[0] < |ns[i].data.Kids()| then NodeAt(ns, ns[i].data.Kids()[positions[0]], positions[1..])
    else None
  }

  /** The path written for a node: the name of each group member, the index of each element. */
  ghost function StepsTo(ns: Nodes, i: nat, positions: seq<nat>): seq<Step>
    requires Ordered(ns) && i < |ns|
    decreases |positions|
  {
    if positions == [] || positions[0] >= |ns[i].data.Kids()| then []
    else
      var j := ns[i].data.Kids()[positions[0]];
      [if ns[i].data.kind == Group && ns[j].name.Some? then Name(ns[j].name.value) else Index(positions[0])]
      + StepsTo(ns, j, positions[1..])
  }

  lemma {:induction false} FindDistinct(ns: Nodes, ks: seq<nat>, k: nat)
    requires k < |ks| && forall j | 0 <= j < |ks| :: ks[j] < |ns| && ns[ks[j]].name.Some? && ValidName(ns[ks[j]].name.value)
    requires forall j | 0 <= j < k :: ns[ks[j]].name != ns[ks[k]].name
    ensures FindChild(ns, ks, ns[ks[k]].name.value) == Some(ks[k])
  {
    ValidNameSegment(ns[ks[0]].name.value);
    ValidNameSegment(ns[ks[k]].name.value);
    if k > 0 { FindDistinct(ns, ks[1..], k - 1); }
  }

  lemma ChildStep(ns: Nodes, i: nat, k: nat)
    requires Ordered(ns) && i < |ns| && WellFormed(DataTree(ns, i)) && k < |ns[i].data.Kids()|
    ensures var j := ns[i].data.Kids()[k];
      && j < |ns| && WellFormed(DataTree(ns, j))
      && (ns[i].data.kind == Group ==>
            ns[j].name.Some? && ValidName(ns[j].name.value) && GetMember(ns, i, ns[j].name.value) == Some(j))
  {
    AggregateTree(ns, i);
    var ks, elems := ns[i].data.Kids(), Children(ns, i);
    forall n | 0 <= n <= k || (0 <= n < |ks|)
      ensures n < |ks| && Fits(ns[i].data.kind, elems[..n], elems[n]) && elems[n].name == ns[ks[n]].name
    {
      assert elems[n] == Tree(ns, ks[n]);
    }
    if ns[i].data.kind == Group {
      assert forall n | 0 <= n < k :: elems[..k][n] == elems[n];
      FindDistinct(ns, ks, k);
    } else if ScalarKind(elems[k].val) != 0 {
      ScalarsAreWellFormed(elems[k].val);
    }
  }

  lemma {:induction false} StepsResolve(ns: Nodes, i: nat, positions: seq<nat>)
    requires Ordered(ns) && i < |ns| && WellFormed(DataTree(ns, i)) && NodeAt(ns, i, positions).Some?
    requires forall j | 0 <= j < |positions| :: positions[j] < 0x8000_0000
    ensures |StepsTo(ns, i, positions)| == |positions| && ProperSteps(StepsTo(ns, i, positions))
    ensures Resolve(ns, i, StepsTo(ns, i, positions)) == NodeAt(ns, i, positions)
    decreases |positions|
  {
    if positions != [] {
      var k := positions[0];
      ChildStep(ns, i, k);
      var j := ns[i].data.Kids()[k];
      StepsResolve(ns, j, positions[1..]);
      assert StepsTo(ns, i, positions)[1..] == StepsTo(ns, j, positions[1..]);
    }
  }

  /** In a well-formed tree the path written for any node leads back to that very node. */
  lemma PathFindsNode(ns: Nodes, i: nat, positions: seq<nat>, seps: seq<string>)
    requires Ordered(ns) && i < |ns| && WellFormed(DataTree(ns, i)) && NodeAt(ns, i, positions).Some?
    requires forall j | 0 <= j < |positions| :: positions[j] < 0x8000_0000
    requires |seps| == |positions| && WellSeparated(seps)
    ensures |StepsTo(ns, i, positions)| == |positions|
    ensures Lookup(ns, i, PathText(StepsTo(ns, i, positions), seps)) == NodeAt(ns, i, positions)
  {
    StepsResolve(ns, i, positions);
    LookupResolves(ns, i, StepsTo(ns, i, positions), seps);
  }

  /** A step that finds nothing makes the lookup fail, except a bare bracket at the very end of the
      path: then the lookup answers with the setting it stands on. */
  lemma MissingStep(ns: Nodes, i: nat, path: string)
    requires Ordered(ns) && i < |ns|
    requires var p := SkipSeparators(path);
      p != "" && (if p[0] == '[' then GetElem(ns, i, IndexOf(p[1..])) else GetMember(ns, i, p)).None?
    ensures Lookup(ns, i, path) == if SkipSeparators(path) == "[" then Some(i) else None
  {}
}
