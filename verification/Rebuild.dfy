/** Every well-formed tree has a derivation: the one of the text the writer produces for it. */
module Rebuild {
  import opened Options
  import opened ConfigTree
  import opened LalrTables
  import opened Parser
  import opened Grammar
  import opened Completeness
  import opened TreeBuilding
  import opened RoundTrip

  function ScalarDeriv(v: Value): Deriv
    requires ScalarKind(v) != 0
  {
    var leaf := Leaf(ScalarToken(v));
    match v
    case BoolV(_) => Rule(23, [leaf])
    case IntV(_, f) => Rule(if f == FORMAT_HEX then 26 else 24, [leaf])
    case Int64V(_, f) => Rule(if f == FORMAT_HEX then 27 else 25, [leaf])
    case FloatV(_) => Rule(28, [leaf])
    case StringV(_) => Rule(29, [Rule(21, [leaf])])
  }

  const CommaLeaf := Leaf(Token(T_COMMA, NoVal))

  function OpenRule(kind: Kind): nat { if kind == Array then 13 else if kind == List then 15 else 38 }
  function AggregateRule(kind: Kind): nat { if kind == Array then 14 else if kind == List then 16 else 39 }
  function ValueRule(kind: Kind): nat { if kind == Array then 18 else if kind == List then 19 else 20 }
  function NoneRule(kind: Kind): nat { if kind == Array then 36 else if kind == List then 32 else 6 }
  function SomeRule(kind: Kind): nat { if kind == Array then 37 else if kind == List then 33 else 7 }
  function FirstRule(kind: Kind): nat { if kind == Array then 34 else if kind == List then 30 else 4 }
  function MoreRule(kind: Kind): nat { if kind == Array then 35 else if kind == List then 31 else 5 }

  function ValueDeriv(v: Value): Deriv
    requires WellFormed(v)
    decreases v, 0
  {
    if v.AggV? then
      AggregateIsWellFormed(v.kind, v.elems);
      Rule(ValueRule(v.kind), [Rule(AggregateRule(v.kind),
        [Leaf(Opening(v.kind)), Rule(OpenRule(v.kind), []), OptionalDeriv(v.kind, v.elems), Leaf(Closing(v.kind))])])
    else Rule(17, [ScalarDeriv(v)])
  }

  function OptionalDeriv(kind: Kind, elems: seq<Setting>): Deriv
    requires FitAll(kind, [], elems)
    decreases elems, 3
  {
    if elems == [] then Rule(NoneRule(kind), []) else Rule(SomeRule(kind), [ListDeriv(kind, elems)])
  }

  function ListDeriv(kind: Kind, elems: seq<Setting>): Deriv
    requires elems != [] && FitAll(kind, [], elems)
    decreases elems, 2
  {
    LastFits(kind, elems);
    var last := |elems| - 1;
    if last == 0 then Rule(FirstRule(kind), [ItemDeriv(kind, elems[0])])
    else if kind == Group then Rule(5, [ListDeriv(kind, elems[..last]), ItemDeriv(kind, elems[last])])
    else Rule(MoreRule(kind), [ListDeriv(kind, elems[..last]), CommaLeaf, ItemDeriv(kind, elems[last])])
  }

  lemma LastFits(kind: Kind, elems: seq<Setting>)
    requires elems != [] && FitAll(kind, [], elems)
    ensures FitAll(kind, [], elems[..|elems| - 1]) && ItemFits(kind, elems[|elems| - 1])
  {
    var last := |elems| - 1;
    assert elems == elems[..last] + [elems[last]];
    FitSnoc(kind, [], elems[..last], elems[last]);
  }

  predicate ItemFits(kind: Kind, s: Setting) {
    match kind
    case Group => s.name.Some? && ValidName(s.name.value) && WellFormed(s.val)
    case List => s.name.None? && WellFormed(s.val)
    case Array => s.name.None? && ScalarKind(s.val) != 0
  }

  function ItemDeriv(kind: Kind, s: Setting): Deriv
    requires ItemFits(kind, s)
    decreases s, 1
  {
    match kind
    case Group =>
      Rule(12, [Leaf(Token(T_NAME, SVal(s.name.value))), Rule(11, []), Leaf(Token(T_EQUALS, NoVal)),
                ValueDeriv(s.val), Rule(9, [Leaf(Token(T_SEMICOLON, NoVal))])])
    case List => ValueDeriv(s.val)
    case Array => ScalarDeriv(s.val)
  }

  function ConfigDeriv(elems: seq<Setting>): Deriv
    requires FitAll(Group, [], elems)
  {
    if elems == [] then Rule(2, []) else Rule(3, [ListDeriv(Group, elems)])
  }

  // ----- these derivations derive the written tokens and denote the tree they came from

  predicate Formats(v: Value)
    decreases v
  {
    match v
    case IntV(_, f) => IsFormat(f)
    case Int64V(_, f) => IsFormat(f)
    case AggV(_, elems) => forall i | 0 <= i < |elems| :: Formats(elems[i].val)
    case _ => true
  }

  function ItemTokens(kind: Kind, s: Setting): seq<Token> {
    if kind == Group then SettingTokens(s) else ElemTokens(s)
  }

  function ItemsTokens(kind: Kind, elems: seq<Setting>): seq<Token> {
    if kind == Group then SettingsTokens(elems) else ElemsTokens(elems)
  }

  /** The comma before the next of some items, where there is one. */
  function Comma(kind: Kind, before: seq<Setting>): seq<Token> {
    if kind != Group && before != [] then [Token(T_COMMA, NoVal)] else []
  }

  lemma {:induction false} ItemsTokensSnoc(kind: Kind, elems: seq<Setting>, x: Setting)
    ensures ItemsTokens(kind, elems + [x]) == ItemsTokens(kind, elems) + (Comma(kind, elems) + ItemTokens(kind, x))
  {
    if elems == [] {
      ItemsTokensOne(kind, x);
      hide ItemTokens, ItemsTokens;
      assert elems + [x] == [x];
      assert ItemsTokens(kind, elems) + (Comma(kind, elems) + ItemTokens(kind, x)) == ItemTokens(kind, x);
    } else {
      var e, es := elems[0], elems[1..];
      assert elems == [e] + es && elems + [x] == [e] + (es + [x]);
      ItemsTokensSnoc(kind, es, x);
      ItemsTokensCons(kind, e, es + [x]);
      ItemsTokensCons(kind, e, es);
      hide ItemTokens, ItemsTokens;
      Associate(ItemTokens(kind, e) + Comma(kind, es), ItemsTokens(kind, es), Comma(kind, es) + ItemTokens(kind, x));
    }
  }

  lemma ItemsTokensOne(kind: Kind, x: Setting)
    ensures ItemsTokens(kind, []) == [] && ItemsTokens(kind, [x]) == ItemTokens(kind, x)
  {
    hide SettingTokens, ElemTokens;
    assert [x][1..] == [];
  }

  lemma ItemsTokensCons(kind: Kind, e: Setting, es: seq<Setting>)
    ensures ItemsTokens(kind, [e] + es) == ItemTokens(kind, e) + Comma(kind, es) + ItemsTokens(kind, es)
  {
    hide SettingTokens, ElemTokens;
    assert ([e] + es)[1..] == es;
  }

  lemma ScalarDerivation(v: Value)
    requires ScalarKind(v) != 0 && Formats(v)
    ensures Valid(ScalarDeriv(v)) && Sym(ScalarDeriv(v)) == N_SIMPLE_VALUE
    ensures Yield(ScalarDeriv(v)) == [ScalarToken(v)] && ValueOf(ScalarDeriv(v)) == v
  {
    var leaf := Leaf(ScalarToken(v));
    assert Yield(leaf) == [ScalarToken(v)] && YieldAll([leaf]) == Yield(leaf) + YieldAll([]);
    assert Valid(leaf);
    if v.StringV? {
      var d := Rule(21, [leaf]);
      assert Valid(d) && Yield(d) == [ScalarToken(v)] && StringOf(d) == v.s;
      assert YieldAll([d]) == Yield(d) + YieldAll([]);
    }
  }

  /** `d` derives exactly `tokens` from nonterminal `sym`. */
  ghost predicate DerivesFrom(d: Deriv, sym: int, tokens: seq<Token>) {
    Valid(d) && d.Rule? && Sym(d) == sym && Yield(d) == tokens
  }

  /** A rule over derivations of its right-hand side. */
  lemma RuleDerives(r: nat, kids: seq<Deriv>, tokens: seq<Token>)
    requires 2 <= r <= 39 && |kids| == |Rhs(r)| && YieldAll(kids) == tokens
    requires forall i | 0 <= i < |kids| :: Valid(kids[i]) && Sym(kids[i]) == Rhs(r)[i]
    ensures DerivesFrom(Rule(r, kids), YyR1(r), tokens)
  {
    hide YieldAll, Rhs, Sym, YyR1;
    assert Sym(Rule(r, kids)) == YyR1(r) by { SymIs(r, kids); }
  }

  lemma SymIs(r: nat, kids: seq<Deriv>)
    ensures Sym(Rule(r, kids)) == YyR1(r)
  {}

  lemma LeafDerives(tok: Token)
    requires WellTyped(tok)
    ensures Valid(Leaf(tok)) && Sym(Leaf(tok)) == tok.kind && Yield(Leaf(tok)) == [tok]
  {}

  lemma PairYield(a: Deriv, b: Deriv)
    ensures YieldAll([a, b]) == Yield(a) + Yield(b)
  {
    UnaryYield(b);
    assert [a, b][1..] == [b];
  }

  lemma TripleYield(a: Deriv, b: Deriv, c: Deriv)
    ensures YieldAll([a, b, c]) == Yield(a) + Yield(b) + Yield(c)
  {
    PairYield(b, c);
    assert [a, b, c][1..] == [b, c];
    assert YieldAll([a, b, c]) == Yield(a) + (Yield(b) + Yield(c));
  }

  lemma QuadYield(a: Deriv, b: Deriv, c: Deriv, d: Deriv)
    ensures YieldAll([a, b, c, d]) == Yield(a) + Yield(b) + Yield(c) + Yield(d)
  {
    TripleYield(b, c, d);
    assert [a, b, c, d][1..] == [b, c, d];
    assert YieldAll([a, b, c, d]) == Yield(a) + (Yield(b) + Yield(c) + Yield(d));
  }

  lemma QuintYield(a: Deriv, b: Deriv, c: Deriv, d: Deriv, e: Deriv)
    ensures YieldAll([a, b, c, d, e]) == Yield(a) + Yield(b) + Yield(c) + Yield(d) + Yield(e)
  {
    QuadYield(b, c, d, e);
    hide Yield;
    assert [a, b, c, d, e][1..] == [b, c, d, e];
    assert YieldAll([a, b, c, d, e]) == Yield(a) + (Yield(b) + Yield(c) + Yield(d) + Yield(e));
  }

  lemma {:induction false} ValueDerivation(v: Value)
    requires WellFormed(v) && Formats(v)
    ensures DerivesFrom(ValueDeriv(v), N_VALUE, ValueTokens(v)) && ValueOf(ValueDeriv(v)) == v
    decreases v, 0
  {
    if v.AggV? {
      AggregateIsWellFormed(v.kind, v.elems);
      OptionalDerivation(v.kind, v.elems);
      AggregateDerivation(v.kind, v.elems, OptionalDeriv(v.kind, v.elems));
    } else {
      ScalarDerivation(v);
      UnaryYield(ScalarDeriv(v));
    }
  }

  function OptionalSym(kind: Kind): int {
    if kind == Array then N_SIMPLE_LIST_OPT else if kind == List then N_VALUE_LIST_OPT else N_SETTING_LIST_OPT
  }

  function ListSym(kind: Kind): int {
    if kind == Array then N_SIMPLE_LIST else if kind == List then N_VALUE_LIST else N_SETTING_LIST
  }

  lemma AggregateDerivation(kind: Kind, elems: seq<Setting>, o: Deriv)
    requires DerivesFrom(o, OptionalSym(kind), ItemsTokens(kind, elems)) && Items(o) == elems
    ensures
      var d := Rule(ValueRule(kind), [Rule(AggregateRule(kind),
        [Leaf(Opening(kind)), Rule(OpenRule(kind), []), o, Leaf(Closing(kind))])]);
      && DerivesFrom(d, N_VALUE, [Opening(kind)] + ItemsTokens(kind, elems) + [Closing(kind)])
      && ValueOf(d) == AggV(kind, elems)
  {
    var a, b, c := Leaf(Opening(kind)), Rule(OpenRule(kind), []), Leaf(Closing(kind));
    var e := Rule(AggregateRule(kind), [a, b, o, c]);
    AggregateValue(kind, a, b, o, c);
    AggregateRhs(kind);
    LeafDerives(Opening(kind));
    LeafDerives(Closing(kind));
    RuleDerives(OpenRule(kind), [], []);
    QuadYield(a, b, o, c);
    UnaryYield(e);
    hide Items, ItemsTokens, Valid, Yield, YieldAll, ValueOf, Rhs, YyR1, Sym, OptionalSym, Opening, Closing;
    assert Yield(a) + Yield(b) == [Opening(kind)];
    RuleDerives(AggregateRule(kind), [a, b, o, c], [Opening(kind)] + ItemsTokens(kind, elems) + [Closing(kind)]);
    RuleDerives(ValueRule(kind), [e], Yield(e));
  }

  lemma AggregateValue(kind: Kind, a: Deriv, b: Deriv, o: Deriv, c: Deriv)
    ensures ValueOf(Rule(ValueRule(kind), [Rule(AggregateRule(kind), [a, b, o, c])])) == AggV(kind, Items(o))
  {}

  lemma AggregateRhs(kind: Kind)
    ensures Rhs(OpenRule(kind)) == []
    ensures Rhs(AggregateRule(kind)) == [Opening(kind).kind, YyR1(OpenRule(kind)), OptionalSym(kind), Closing(kind).kind]
    ensures Rhs(ValueRule(kind)) == [YyR1(AggregateRule(kind))] && YyR1(ValueRule(kind)) == N_VALUE
    ensures WellTyped(Opening(kind)) && WellTyped(Closing(kind))
  {}

  lemma {:induction false} OptionalDerivation(kind: Kind, elems: seq<Setting>)
    requires FitAll(kind, [], elems) && FormatsAll(elems)
    ensures DerivesFrom(OptionalDeriv(kind, elems), OptionalSym(kind), ItemsTokens(kind, elems))
    ensures Items(OptionalDeriv(kind, elems)) == elems
    decreases elems, 3
  {
    hide ListDeriv, Items, FitAll;
    if elems == [] {
      NoItems(kind);
    } else {
      ListDerivation(kind, elems);
      SomeDerivation(kind, ListDeriv(kind, elems), ItemsTokens(kind, elems));
    }
  }

  lemma NoItems(kind: Kind)
    ensures DerivesFrom(Rule(NoneRule(kind), []), OptionalSym(kind), []) && Items(Rule(NoneRule(kind), [])) == []
    ensures ItemsTokens(kind, []) == []
  {
    assert Yield(Rule(NoneRule(kind), [])) == YieldAll([]);
  }

  lemma SomeDerivation(kind: Kind, d: Deriv, tokens: seq<Token>)
    requires DerivesFrom(d, ListSym(kind), tokens)
    ensures DerivesFrom(Rule(SomeRule(kind), [d]), OptionalSym(kind), tokens)
    ensures Items(Rule(SomeRule(kind), [d])) == Items(d)
  {
    hide Items;
    UnaryYield(d);
    SomeItems(kind, d);
  }

  lemma SomeItems(kind: Kind, d: Deriv)
    ensures Items(Rule(SomeRule(kind), [d])) == Items(d)
  {}

  predicate FormatsAll(elems: seq<Setting>) {
    forall i | 0 <= i < |elems| :: Formats(elems[i].val)
  }

  lemma FormatsSnoc(xs: seq<Setting>, x: Setting)
    ensures FormatsAll(xs + [x]) <==> FormatsAll(xs) && Formats(x.val)
  {
    hide Formats;
    assert forall i | 0 <= i < |xs| :: (xs + [x])[i] == xs[i];
    assert (xs + [x])[|xs|] == x;
  }

  lemma {:induction false} ListDerivation(kind: Kind, elems: seq<Setting>)
    requires elems != [] && FitAll(kind, [], elems) && FormatsAll(elems)
    ensures DerivesFrom(ListDeriv(kind, elems), ListSym(kind), ItemsTokens(kind, elems))
    ensures Items(ListDeriv(kind, elems)) == elems
    decreases elems, 2
  {
    LastFits(kind, elems);
    var last := |elems| - 1;
    var init, x := elems[..last], elems[last];
    assert elems == init + [x];
    FormatsSnoc(init, x);
    hide Items, Item, Formats, FormatsAll, FitAll, ItemFits, ItemTokens, ItemsTokens, ListDeriv, ItemDeriv, DerivesFrom;
    ListDerivLast(kind, elems, init, x);
    ItemDerivation(kind, x);
    if last == 0 {
      assert elems == [x];
      FirstDerivation(kind, x, ItemDeriv(kind, x));
    } else {
      ItemsTokensSnoc(kind, init, x);
      ListDerivation(kind, init);
      MoreDerivation(kind, init, x, ListDeriv(kind, init), ItemDeriv(kind, x));
    }
  }

  /** The derivation of a list ends in that of its last item. */
  lemma ListDerivLast(kind: Kind, elems: seq<Setting>, init: seq<Setting>, x: Setting)
    requires elems == init + [x] && FitAll(kind, [], elems) && FitAll(kind, [], init) && ItemFits(kind, x)
    ensures ListDeriv(kind, elems) ==
      if init == [] then Rule(FirstRule(kind), [ItemDeriv(kind, x)])
      else if kind == Group then Rule(5, [ListDeriv(kind, init), ItemDeriv(kind, x)])
      else Rule(MoreRule(kind), [ListDeriv(kind, init), CommaLeaf, ItemDeriv(kind, x)])
  {
    hide FitAll, ItemFits;
    assert elems[..|elems| - 1] == init && elems[|elems| - 1] == x;
  }

  lemma FirstDerivation(kind: Kind, x: Setting, i: Deriv)
    requires DerivesFrom(i, ItemSym(kind), ItemTokens(kind, x)) && Item(i) == x
    ensures DerivesFrom(Rule(FirstRule(kind), [i]), ListSym(kind), ItemsTokens(kind, [x]))
    ensures Items(Rule(FirstRule(kind), [i])) == [x]
  {
    ItemsTokensOne(kind, x);
    hide Item, ItemTokens, ItemsTokens;
    UnaryYield(i);
  }

  lemma MoreDerivation(kind: Kind, init: seq<Setting>, x: Setting, l: Deriv, i: Deriv)
    requires DerivesFrom(l, ListSym(kind), ItemsTokens(kind, init)) && Items(l) == init
    requires DerivesFrom(i, ItemSym(kind), ItemTokens(kind, x)) && Item(i) == x && init != []
    ensures
      var d := if kind == Group then Rule(5, [l, i]) else Rule(MoreRule(kind), [l, CommaLeaf, i]);
      && DerivesFrom(d, ListSym(kind), ItemsTokens(kind, init) + (Comma(kind, init) + ItemTokens(kind, x)))
      && Items(d) == init + [x]
  {
    PairYield(l, i);
    TripleYield(l, CommaLeaf, i);
    LeafDerives(CommaLeaf.tok);
    MoreItems(kind, l, i);
    MoreRhs(kind);
    hide Item, Items, ItemTokens, ItemsTokens, Yield, YieldAll, Valid, Sym, Rhs, YyR1, ListSym, ItemSym;
    var tokens := ItemsTokens(kind, init) + (Comma(kind, init) + ItemTokens(kind, x));
    if kind == Group {
      assert Comma(kind, init) + ItemTokens(kind, x) == ItemTokens(kind, x);
      RuleDerives(5, [l, i], tokens);
    } else {
      Associate(ItemsTokens(kind, init), Comma(kind, init), ItemTokens(kind, x));
      RuleDerives(MoreRule(kind), [l, CommaLeaf, i], tokens);
    }
  }

  lemma MoreRhs(kind: Kind)
    ensures Rhs(5) == [ListSym(Group), ItemSym(Group)] && YyR1(5) == ListSym(Group)
    ensures kind != Group ==>
      Rhs(MoreRule(kind)) == [ListSym(kind), T_COMMA, ItemSym(kind)] && YyR1(MoreRule(kind)) == ListSym(kind)
  {}

  lemma MoreItems(kind: Kind, l: Deriv, i: Deriv)
    ensures Items(Rule(5, [l, i])) == Items(l) + [Item(i)]
    ensures kind != Group ==> Items(Rule(MoreRule(kind), [l, CommaLeaf, i])) == Items(l) + [Item(i)]
  {}

  lemma {:induction false} ItemDerivation(kind: Kind, s: Setting)
    requires ItemFits(kind, s) && Formats(s.val)
    ensures DerivesFrom(ItemDeriv(kind, s), ItemSym(kind), ItemTokens(kind, s)) && Item(ItemDeriv(kind, s)) == s
    decreases s, 1
  {
    match kind
    case Group =>
      ValueDerivation(s.val);
      SettingDerivation(s.name.value, s.val, ValueDeriv(s.val));
    case List =>
      ValueDerivation(s.val);
      SimpleValueItem(ItemDeriv(kind, s));
    case Array =>
      ScalarDerivation(s.val);
      assert ElemTokens(s) == [ScalarToken(s.val)];
      SimpleValueItem(ItemDeriv(kind, s));
  }

  lemma SettingDerivation(name: string, v: Value, value: Deriv)
    requires DerivesFrom(value, N_VALUE, ValueTokens(v)) && ValueOf(value) == v
    ensures
      var d := Rule(12, [Leaf(Token(T_NAME, SVal(name))), Rule(11, []), Leaf(Token(T_EQUALS, NoVal)),
                         value, Rule(9, [Leaf(Token(T_SEMICOLON, NoVal))])]);
      DerivesFrom(d, N_SETTING, SettingTokens(Setting(Some(name), v))) && Item(d) == Setting(Some(name), v)
  {
    var name', equals, end := Token(T_NAME, SVal(name)), Token(T_EQUALS, NoVal), Token(T_SEMICOLON, NoVal);
    LeafDerives(name');
    LeafDerives(equals);
    LeafDerives(end);
    var a, b, c, f := Leaf(name'), Rule(11, []), Leaf(equals), Rule(9, [Leaf(end)]);
    RuleDerives(11, [], []);
    UnaryYield(Leaf(end));
    RuleDerives(9, [Leaf(end)], [end]);
    SettingItem(a, b, c, value, f);
    QuintYield(a, b, c, value, f);
    hide ValueOf, ValueTokens, Item, Valid, Yield, YieldAll;
    assert Yield(a) + Yield(b) + Yield(c) == [name', equals];
    RuleDerives(12, [a, b, c, value, f], SettingTokens(Setting(Some(name), v)));
  }

  lemma SettingItem(a: Deriv, b: Deriv, c: Deriv, value: Deriv, f: Deriv)
    requires a.Leaf? && a.tok.val.SVal?
    ensures Item(Rule(12, [a, b, c, value, f])) == Setting(Some(a.tok.val.s), ValueOf(value))
  {}

  /** The tokens of a well-formed group are derivable, and their derivation denotes that group. */
  lemma ConfigDerivation(elems: seq<Setting>)
    requires FitAll(Group, [], elems) && FormatsAll(elems)
    ensures Derives(ConfigDeriv(elems), SettingsTokens(elems)) && Items(ConfigDeriv(elems)) == elems
  {
    if elems == [] {
      assert Yield(Rule(2, [])) == YieldAll([]);
    } else {
      hide ListDeriv, Items, FitAll, FormatsAll, Valid, Yield, YieldAll, SettingsTokens;
      ListDerivation(Group, elems);
      UnaryYield(ListDeriv(Group, elems));
      RuleDerives(3, [ListDeriv(Group, elems)], SettingsTokens(elems));
      WholeItems(ListDeriv(Group, elems));
    }
  }

  lemma WholeItems(d: Deriv)
    ensures Items(Rule(3, [d])) == Items(d)
  {}
}
