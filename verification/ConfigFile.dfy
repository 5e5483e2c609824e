/** Reading and writing whole configurations: the round trip. */
module ConfigFile {
  import opened Options
  import opened ConfigTree
  import opened LalrTables
  import opened Parser
  import opened Grammar
  import opened Completeness
  import opened TreeBuilding
  import opened Scanner
  import opened Writer
  import opened RoundTrip
  import opened Rebuild

  // ----- what the scanner hands to the parser

  /** A token as the scanner produces it: values fit their C types, names are names. */
  predicate Produced(t: Token) {
    && WellTyped(t)
    && (t.kind == T_BOOLEAN ==> t.val.i == 0 || t.val.i == 1)
    && (t.kind == T_INTEGER || t.kind == T_HEX ==> Fits32(t.val.i))
    && (t.kind == T_INTEGER64 || t.kind == T_HEX64 ==> Fits64(t.val.l))
    && (t.kind == T_STRING ==> NoNul(t.val.s))
    && (t.kind == T_NAME ==> ValidName(t.val.s) && !BooleanWord(t.val.s))
  }

  predicate AllProduced(ts: seq<Token>) { forall i | 0 <= i < |ts| :: Produced(ts[i]) }

  lemma RuleFacts(s: string, bol: bool)
    ensures RuleOf(s, bol) == 29 ==> ValidName(s) && !BooleanWord(s)
    ensures RuleOf(s, bol) == 40 ==> |s| > 1
  {
    hide FloatWord, IncludeOpen, SkipBlanks, SameLetters, ValidName, IntegerWord, Integer64Word, HexWord, Hex64Word;
  }

  lemma WordProduced(rule: nat, s: string)
    requires rule == 29 ==> ValidName(s) && !BooleanWord(s)
    ensures AllProduced(TokenOf(rule, s))
  {
    hide IntegerWord, Integer64Word, HexWord, Hex64Word, ValidName, BooleanWord, Wrap32, Wrap64, Decimal, Hexadecimal;
    if rule == 31 && IntegerWord(s) { WrapRange(Decimal(s)); }
    if rule == 32 && Integer64Word(s) { DecimalRange(s); }
    if rule == 33 && HexWord(s) { WrapRange(Hexadecimal(s)); }
    if rule == 34 && Hex64Word(s) { Hex64Range(s); }
  }

  lemma DecimalRange(s: string)
    requires Integer64Word(s)
    ensures IntegerWord(StripL(s)) && Fits64(Decimal(StripL(s)))
  {}

  lemma Hex64Range(s: string)
    requires Hex64Word(s)
    ensures HexWord(StripL(s)) && Fits64(Wrap64(Hexadecimal(StripL(s))))
  {
    WrapRange(Hexadecimal(StripL(s)));
  }

  lemma WrapRange(n: int)
    ensures Fits32(Wrap32(n)) && Fits64(Wrap64(n))
  {}

  lemma PieceNoNul(s: string)
    requires s != "" && s[0] != '"' && NoNul(s)
    ensures NoNul(StringPiece(s).1)
  {}

  lemma {:induction false} ScannedNoNul(s: string, sofar: string)
    requires NoNul(s) && NoNul(sofar)
    ensures var r := ScanString(s, sofar); r.Closed? ==> NoNul(r.text) && NoNul(r.rest)
    decreases |s|
  {
    hide StringPiece;
    if s != "" && s[0] != '"' {
      PieceNoNul(s);
      var p := StringPiece(s);
      ScannedNoNul(s[p.0..], sofar + p.1);
    }
  }

  lemma {:induction false} SkippedNoNul(s: string)
    requires NoNul(s)
    ensures NoNul(SkipComment(s))
  {
    if s != "" { SkippedNoNul(s[1..]); }
  }

  lemma TailNoNul(s: string, n: nat)
    requires NoNul(s) && n <= |s|
    ensures NoNul(s[n..])
  {}

  lemma ProducedConcat(a: seq<Token>, b: seq<Token>)
    requires AllProduced(a) && AllProduced(b)
    ensures AllProduced(a + b)
  {
    hide Produced;
  }

  lemma FewProduced(text: string)
    ensures AllProduced([]) && AllProduced([Token(T_ERROR, NoVal)]) && NoNul("")
    ensures NoNul(text) ==> AllProduced([Token(T_STRING, SVal(text))])
  {
    hide NoNul;
    assert NoNul("") by { EmptyNoNul(); }
  }

  lemma EmptyNoNul()
    ensures NoNul("")
  {}

  lemma {:induction false} LexProduced(s: string, bol: bool)
    requires NoNul(s)
    ensures AllProduced(Lex(s, bol))
    decreases |s|
  {
    hide RuleOf, TokenOf, Longest, SkipComment, ScanString, NoNul, AllProduced, ValidName, BooleanWord;
    FewProduced("");
    if s != "" {
      var n := Longest(s, |s|, bol);
      var rule := RuleOf(s[..n], bol);
      RuleFacts(s[..n], bol);
      TailNoNul(s, n);
      if rule == 1 {
        SkippedNoNul(s[n..]);
        LexProduced(SkipComment(s[n..]), false);
      } else if rule == 5 {
        StringProduced(s, n);
      } else if rule == 16 {
      } else if rule == 40 {
        TailNoNul(s, n - 1);
        LexProduced(s[n - 1..], false);
      } else {
        WordProduced(rule, s[..n]);
        LexProduced(s[n..], s[n - 1] == '\n');
        ProducedConcat(TokenOf(rule, s[..n]), Lex(s[n..], s[n - 1] == '\n'));
      }
    }
  }

  lemma {:induction false} StringProduced(s: string, n: nat)
    requires NoNul(s) && 0 < n <= |s|
    ensures
      match ScanString(s[n..], "")
      case Unclosed => true
      case Closed(text, rest) => AllProduced([Token(T_STRING, SVal(text))] + Lex(rest, false))
    decreases |s| - n, 0
  {
    hide ScanString, Lex, NoNul, AllProduced;
    TailNoNul(s, n);
    EmptyNoNul();
    ScannedNoNul(s[n..], "");
    match ScanString(s[n..], "")
    case Unclosed =>
    case Closed(text, rest) =>
      FewProduced(text);
      LexProduced(rest, false);
      ProducedConcat([Token(T_STRING, SVal(text))], Lex(rest, false));
  }

  // ----- what such tokens build

  /** Values fit their C types and names are names, at every depth. */
  predicate Clean(v: Value)
    decreases v
  {
    match v
    case BoolV(b) => b == 0 || b == 1
    case IntV(n, f) => Fits32(n) && IsFormat(f)
    case Int64V(n, f) => Fits64(n) && IsFormat(f)
    case StringV(t) => NoNul(t)
    case AggV(_, elems) => forall i | 0 <= i < |elems| :: Clean(elems[i].val) && CleanName(elems[i].name)
    case _ => true
  }

  predicate CleanName(name: Option<string>) { name.Some? ==> ValidName(name.value) && !BooleanWord(name.value) }

  predicate CleanItems(xs: seq<Setting>) {
    forall i | 0 <= i < |xs| :: Clean(xs[i].val) && CleanName(xs[i].name)
  }

  lemma {:induction false} CleanIsWritable(v: Value)
    requires Clean(v) && WellFormed(v) && NoFloats(v)
    ensures Writable(v) && Formats(v)
    decreases v
  {
    if v.AggV? {
      forall i | 0 <= i < |v.elems| ensures Writable(v.elems[i].val) && Formats(v.elems[i].val) {
        SmallerElement(v, i);
        var x := v.elems[i].val;
        assert Fits(v.kind, v.elems[..i], v.elems[i]);
        if ScalarKind(x) != 0 { ScalarsAreWellFormed(x); }
        CleanIsWritable(x);
      }
    }
  }

  ghost predicate GoodInput(d: Deriv) { Valid(d) && AllProduced(Yield(d)) }

  lemma {:induction false} ChildGood(ds: seq<Deriv>, i: nat)
    requires i < |ds| && AllProduced(YieldAll(ds))
    ensures AllProduced(Yield(ds[i]))
  {
    var a, b := Yield(ds[0]), YieldAll(ds[1..]);
    assert forall j | 0 <= j < |a| :: YieldAll(ds)[j] == a[j];
    assert forall j | 0 <= j < |b| :: YieldAll(ds)[|a| + j] == b[j];
    if i > 0 { ChildGood(ds[1..], i - 1); }
  }

  lemma KidGood(d: Deriv, i: nat)
    requires GoodInput(d) && d.Rule? && i < |d.kids|
    ensures GoodInput(d.kids[i])
    ensures d.kids[i].Leaf? ==> Produced(d.kids[i].tok)
  {
    ChildGood(d.kids, i);
    if d.kids[i].Leaf? { assert Yield(d.kids[i])[0] == d.kids[i].tok; }
  }

  lemma {:induction false} StringClean(d: Deriv)
    requires GoodInput(d) && Sym(d) == N_STRING
    ensures NoNul(StringOf(d))
    decreases d
  {
    SymbolOfRule(d);
    KidGood(d, 0);
    if d.rule == 21 {
      LeafChild(d, 0);
    } else {
      KidGood(d, 1);
      LeafChild(d, 1);
      StringClean(d.kids[0]);
    }
  }

  lemma ScalarClean(d: Deriv)
    requires GoodInput(d) && Sym(d) == N_SIMPLE_VALUE
    ensures Clean(ValueOf(d))
  {
    SymbolOfRule(d);
    KidGood(d, 0);
    if d.rule == 29 { StringClean(d.kids[0]); } else { LeafChild(d, 0); }
  }

  lemma {:induction false} ValueClean(d: Deriv)
    requires GoodInput(d) && Sym(d) == N_VALUE
    ensures Clean(ValueOf(d))
    decreases d, 0
  {
    ValueShapes(d);
    KidGood(d, 0);
    var k := d.kids[0];
    if d.rule == 17 {
      ScalarClean(k);
    } else {
      KidGood(k, 2);
      ItemsClean(k.kids[2], BracketKind(k.rule));
    }
  }

  lemma {:induction false} ItemClean(d: Deriv, kind: Kind)
    requires GoodInput(d) && Sym(d) == ItemSym(kind)
    ensures Clean(Item(d).val) && CleanName(Item(d).name)
    decreases d, 1
  {
    match kind
    case Group =>
      SettingShape(d);
      KidGood(d, 0);
      LeafChild(d, 0);
      KidGood(d, 3);
      ValueClean(d.kids[3]);
    case List =>
      SimpleValueItem(d);
      ValueClean(d);
    case Array =>
      SimpleValueItem(d);
      ScalarClean(d);
  }

  lemma {:induction false} ItemsClean(d: Deriv, kind: Kind)
    requires GoodInput(d) && Lists(Sym(d), kind)
    ensures CleanItems(Items(d))
    decreases d, 2
  {
    hide Items, Item, Lists, Clean, CleanName, GoodInput, Sym, ItemSym;
    var older, one := ListParts(d, kind);
    if older { ItemsClean(d.kids[0], kind); }
    if one { ItemClean(d.kids[|d.kids| - 1], kind); }
  }

  /** A list is an older list, or nothing, and one more item, or none. */
  lemma ListParts(d: Deriv, kind: Kind) returns (older: bool, one: bool)
    requires GoodInput(d) && Lists(Sym(d), kind)
    ensures d.Rule? && (older || one ==> d.kids != [])
    ensures older ==> GoodInput(d.kids[0]) && Lists(Sym(d.kids[0]), kind)
    ensures one ==> GoodInput(d.kids[|d.kids| - 1]) && Sym(d.kids[|d.kids| - 1]) == ItemSym(kind)
    ensures Items(d) == (if older then Items(d.kids[0]) else []) + (if one then [Item(d.kids[|d.kids| - 1])] else [])
  {
    SymbolOfRule(d);
    ListRuleShapes(d.rule, kind);
    ItemsUnfold(d);
    hide Items, Item, Lists, Rhs, YyR1, ItemSym;
    older, one := !EmptyList(d.rule) && !OneItem(d.rule), !EmptyList(d.rule) && !WholeList(d.rule);
    if older || one {
      KidGood(d, 0);
      KidGood(d, |d.kids| - 1);
    }
  }

  // ----- the written text needs no more of the parser's stack than the text that was read

  lemma NeedPositive(d: Deriv)
    ensures Need(d) >= 1
  {}

  lemma NeedCons(d: Deriv, ds: seq<Deriv>)
    ensures NeedAll([d] + ds) == Max(Need(d), 1 + NeedAll(ds))
  {
    assert ([d] + ds)[1..] == ds;
  }

  lemma NeedUnary(r: nat, d: Deriv)
    ensures Need(Rule(r, [d])) == Need(d)
  {
    NeedPositive(d);
    NeedCons(d, []);
    assert [d] + [] == [d];
  }

  /** The room for a bracketed rule whose tokens and empty rule take one place each. */
  lemma NeedBracket(r: nat, a: Deriv, b: Deriv, o: Deriv, c: Deriv)
    requires Need(a) == 1 && Need(b) == 1 && Need(c) == 1
    ensures Need(Rule(r, [a, b, o, c])) == Max(4, 2 + Need(o))
  {
    hide Need;
    NeedCons(c, []);
    NeedCons(o, [c]);
    NeedCons(b, [o, c]);
    NeedCons(a, [b, o, c]);
    assert [c] + [] == [c] && [o] + [c] == [o, c] && [b] + [o, c] == [b, o, c] && [a] + [b, o, c] == [a, b, o, c];
    NeedRule(r, [a, b, o, c]);
  }

  lemma NeedRule(r: nat, ds: seq<Deriv>)
    ensures Need(Rule(r, ds)) == Max(1, NeedAll(ds))
  {}

  /** The room for a setting. */
  lemma NeedSetting(a: Deriv, b: Deriv, c: Deriv, v: Deriv, t: Deriv)
    requires Need(a) == 1 && Need(b) == 1 && Need(c) == 1 && Need(t) == 1
    ensures Need(Rule(12, [a, b, c, v, t])) == Max(5, 3 + Need(v))
  {
    hide Need;
    NeedCons(t, []);
    NeedCons(v, [t]);
    NeedCons(c, [v, t]);
    NeedCons(b, [c, v, t]);
    NeedCons(a, [b, c, v, t]);
    assert [t] + [] == [t] && [v] + [t] == [v, t] && [c] + [v, t] == [c, v, t] && [b] + [c, v, t] == [b, c, v, t];
    assert [a] + [b, c, v, t] == [a, b, c, v, t];
    NeedRule(12, [a, b, c, v, t]);
  }

  /** The room for a list and one more item, with or without a comma between them. */
  lemma NeedMore(r: nat, l: Deriv, m: Deriv, i: Deriv)
    requires Need(m) == 1
    ensures Need(Rule(r, [l, i])) == Max(Need(l), 1 + Need(i))
    ensures Need(Rule(r, [l, m, i])) == Max(Need(l), 2 + Need(i))
  {
    NeedPositive(l);
    NeedPositive(i);
    hide Need;
    NeedCons(i, []);
    NeedCons(l, [i]);
    NeedCons(m, [i]);
    NeedCons(l, [m, i]);
    assert [i] + [] == [i] && [l] + [i] == [l, i] && [m] + [i] == [m, i] && [l] + [m, i] == [l, m, i];
    NeedRule(r, [l, i]);
    NeedRule(r, [l, m, i]);
  }

  lemma ScalarNeed(v: Value)
    requires ScalarKind(v) != 0
    ensures Need(ScalarDeriv(v)) == 1
  {
    var leaf := Leaf(ScalarToken(v));
    var r := ScalarDeriv(v).rule;
    NeedUnary(21, leaf);
    NeedUnary(r, leaf);
    NeedUnary(r, Rule(21, [leaf]));
  }

  lemma {:induction false} ValueNeed(d: Deriv)
    requires Valid(d) && Sym(d) == N_VALUE && WellFormed(ValueOf(d))
    ensures Need(ValueDeriv(ValueOf(d))) <= Need(d)
    decreases d, 4
  {
    ValueShapes(d);
    var k := d.kids[0];
    assert d == Rule(d.rule, [k]);
    NeedUnary(d.rule, k);
    if d.rule == 17 {
      ScalarShape(k);
      ScalarValueNeed(ValueOf(k));
      NeedPositive(d);
    } else {
      var kind, o := BracketKind(k.rule), k.kids[2];
      BracketSize(k);
      AggregateIsWellFormed(kind, Items(o));
      assert ValueOf(d) == AggV(kind, Items(o)) && Valid(o) && Lists(Sym(o), kind);
      hide Need, ValueOf, WellFormed, Valid, Items, BracketKind, Lists, FitAll, ValueDeriv;
      OptionalNeed(o, kind);
      WrittenNeed(kind, Items(o));
    }
  }

  lemma ScalarValueNeed(v: Value)
    requires ScalarKind(v) != 0
    ensures WellFormed(v) && Need(ValueDeriv(v)) == 1
  {
    ScalarNeed(v);
    NeedUnary(17, ScalarDeriv(v));
    hide Need, ScalarDeriv;
  }

  lemma BracketSize(k: Deriv)
    requires Valid(k) && k.Rule? && k.rule in {14, 16, 39}
    ensures |k.kids| == 4 && Need(k) == Max(4, 2 + Need(k.kids[2]))
  {
    hide Need;
    BracketNeed(k);
    NeedBracket(k.rule, k.kids[0], k.kids[1], k.kids[2], k.kids[3]);
    assert k.kids == [k.kids[0], k.kids[1], k.kids[2], k.kids[3]];
  }

  lemma WrittenNeed(kind: Kind, elems: seq<Setting>)
    requires FitAll(kind, [], elems) && WellFormed(AggV(kind, elems))
    ensures Need(ValueDeriv(AggV(kind, elems))) == Max(4, 2 + Need(OptionalDeriv(kind, elems)))
  {
    var a, b, p, c := Leaf(Opening(kind)), Rule(OpenRule(kind), []), OptionalDeriv(kind, elems), Leaf(Closing(kind));
    NeedRule(OpenRule(kind), []);
    NeedBracket(AggregateRule(kind), a, b, p, c);
    NeedUnary(ValueRule(kind), Rule(AggregateRule(kind), [a, b, p, c]));
  }

  lemma ScalarShape(d: Deriv)
    requires Valid(d) && Sym(d) == N_SIMPLE_VALUE
    ensures ScalarKind(ValueOf(d)) != 0
  {
    ExecScalar(d, NoVal, InitialContext);
  }

  lemma BracketNeed(k: Deriv)
    requires Valid(k) && k.Rule? && k.rule in {14, 16, 39}
    ensures |k.kids| == 4 && Need(k.kids[0]) == 1 && Need(k.kids[1]) == 1 && Need(k.kids[3]) == 1
  {
    LeafChild(k, 0);
    RuleChild(k, 1);
    EmptyRule(k.kids[1]);
    LeafChild(k, 3);
  }

  lemma {:induction false} OptionalNeed(d: Deriv, kind: Kind)
    requires Valid(d) && Lists(Sym(d), kind) && FitAll(kind, [], Items(d))
    ensures Need(OptionalDeriv(kind, Items(d))) <= Need(d)
    decreases d, 3
  {
    NeedPositive(d);
    if Items(d) != [] {
      ListNeed(d, kind);
      NeedUnary(SomeRule(kind), ListDeriv(kind, Items(d)));
    }
  }

  lemma {:induction false} ListNeed(d: Deriv, kind: Kind)
    requires Valid(d) && Lists(Sym(d), kind) && Items(d) != [] && FitAll(kind, [], Items(d))
    ensures Need(ListDeriv(kind, Items(d))) <= Need(d)
    decreases d, 2
  {
    SymbolOfRule(d);
    assert d.Rule?;
    var r, ks := d.rule, d.kids;
    ListRuleShapes(r, kind);
    ItemsUnfold(d);
    if WholeList(r) {
      assert d == Rule(r, [ks[0]]);
      NeedUnary(r, ks[0]);
      ListNeed(ks[0], kind);
    } else if OneItem(r) {
      assert d == Rule(r, [ks[0]]);
      NeedUnary(r, ks[0]);
      LastFits(kind, Items(d));
      ItemNeed(ks[0], kind);
      NeedUnary(FirstRule(kind), ItemDeriv(kind, Item(ks[0])));
    } else {
      SnocNeed(d, kind);
    }
  }

  lemma ListDerivSnoc(kind: Kind, xs: seq<Setting>, x: Setting)
    requires xs != [] && FitAll(kind, [], xs + [x])
    ensures FitAll(kind, [], xs) && ItemFits(kind, x)
    ensures ListDeriv(kind, xs + [x]) ==
      if kind == Group then Rule(5, [ListDeriv(kind, xs), ItemDeriv(kind, x)])
      else Rule(MoreRule(kind), [ListDeriv(kind, xs), CommaLeaf, ItemDeriv(kind, x)])
  {
    hide FitAll, ItemFits;
    var es := xs + [x];
    LastFits(kind, es);
    assert es[..|es| - 1] == xs && es[|es| - 1] == x;
  }

  /** The parts of a rule that adds one more item. */
  lemma SnocParts(d: Deriv, kind: Kind)
    requires Valid(d) && d.Rule? && Lists(Sym(d), kind) && (d.rule == 5 || CommaItem(d.rule))
    ensures |d.kids| == (if d.rule == 5 then 2 else 3) && (d.rule == 5 <==> kind == Group)
    ensures var l, i := d.kids[0], d.kids[|d.kids| - 1];
      && Valid(l) && Valid(i) && Lists(Sym(l), kind) && Sym(i) == ItemSym(kind)
      && Items(l) != [] && Items(d) == Items(l) + [Item(i)]
    ensures d.rule != 5 ==> d.kids[1].Leaf?
  {
    ListRuleShapes(d.rule, kind);
    ItemsUnfold(d);
    ListNotEmpty(d.kids[0], kind);
    GroupRule(d.rule, kind);
    if d.rule != 5 { CommaIsLeaf(d); }
  }

  lemma {:induction false} SnocNeed(d: Deriv, kind: Kind)
    requires Valid(d) && d.Rule? && Lists(Sym(d), kind) && (d.rule == 5 || CommaItem(d.rule)) && FitAll(kind, [], Items(d))
    ensures Items(d) != [] && Need(ListDeriv(kind, Items(d))) <= Need(d)
    decreases d, 1
  {
    hide Need, Items, Item, FitAll, ItemFits, Lists, Valid, CommaItem, ListDeriv, ItemDeriv;
    SnocParts(d, kind);
    var l, i := d.kids[0], d.kids[|d.kids| - 1];
    var xs, x := Items(l), Item(i);
    ListDerivSnoc(kind, xs, x);
    NeedComma();
    ListNeed(l, kind);
    ItemNeed(i, kind);
    if kind == Group {
      assert d == Rule(5, [l, i]);
      NeedMore(5, l, CommaLeaf, i);
      NeedMore(5, ListDeriv(kind, xs), CommaLeaf, ItemDeriv(kind, x));
    } else {
      assert d == Rule(d.rule, [l, d.kids[1], i]);
      NeedLeaf(d.kids[1]);
      NeedMore(d.rule, l, d.kids[1], i);
      NeedMore(MoreRule(kind), ListDeriv(kind, xs), CommaLeaf, ItemDeriv(kind, x));
    }
  }

  lemma NeedLeaf(d: Deriv)
    requires d.Leaf?
    ensures Need(d) == 1
  {}

  lemma NeedComma()
    ensures Need(CommaLeaf) == 1
  {}

  lemma GroupRule(r: int, kind: Kind)
    requires Lists(YyR1(r), kind) && (r == 5 || CommaItem(r))
    ensures r == 5 <==> kind == Group
  {}

  lemma {:induction false} ListNotEmpty(d: Deriv, kind: Kind)
    requires Valid(d) && Sym(d) in {N_SETTING_LIST, N_VALUE_LIST, N_SIMPLE_LIST}
    ensures Items(d) != []
    decreases d
  {
    SymbolOfRule(d);
  }

  lemma {:induction false} ItemNeed(d: Deriv, kind: Kind)
    requires Valid(d) && Sym(d) == ItemSym(kind) && ItemFits(kind, Item(d))
    ensures Need(ItemDeriv(kind, Item(d))) <= Need(d)
    decreases d, 5
  {
    match kind
    case Group =>
      SettingShape(d);
      ValueNeed(d.kids[3]);
      SettingNeed(d);
    case List =>
      SimpleValueItem(d);
      ValueNeed(d);
    case Array =>
      SimpleValueItem(d);
      ScalarNeed(ValueOf(d));
      NeedPositive(d);
  }

  lemma SettingNeed(d: Deriv)
    requires Valid(d) && Sym(d) == N_SETTING && d.Rule? && d.rule == 12 && |d.kids| == 5 && ItemFits(Group, Item(d))
    requires Item(d).val == ValueOf(d.kids[3]) && WellFormed(Item(d).val)
    requires Need(ValueDeriv(Item(d).val)) <= Need(d.kids[3])
    ensures Need(ItemDeriv(Group, Item(d))) <= Need(d)
  {
    hide Item, ItemFits, WellFormed, Valid, Need, ValueDeriv, ValueOf, Sym, ItemDeriv, ItemRoom, Room;
    SettingRuleNeed(d);
    SettingDerivNeed(Item(d));
  }

  lemma SettingRuleNeed(d: Deriv)
    requires Valid(d) && Sym(d) == N_SETTING && d.Rule? && d.rule == 12 && |d.kids| == 5
    ensures Need(d) == Max(5, 3 + Need(d.kids[3]))
  {
    SettingParts(d);
    hide Valid, Need, Sym;
    var ks := d.kids;
    NeedSetting(ks[0], ks[1], ks[2], ks[3], ks[4]);
    assert d == Rule(12, [ks[0], ks[1], ks[2], ks[3], ks[4]]);
  }

  lemma SettingDerivNeed(x: Setting)
    requires ItemFits(Group, x)
    ensures WellFormed(x.val) && Need(ItemDeriv(Group, x)) == Max(5, 3 + Need(ValueDeriv(x.val)))
  {
    hide WellFormed, Need, ValueDeriv, ValidName;
    WrittenSettingNeed(x.name.value, ValueDeriv(x.val));
  }

  lemma SettingParts(d: Deriv)
    requires Valid(d) && Sym(d) == N_SETTING
    ensures d.Rule? && |d.kids| == 5
    ensures Need(d.kids[0]) == 1 && Need(d.kids[1]) == 1 && Need(d.kids[2]) == 1 && Need(d.kids[4]) == 1
  {
    SettingShape(d);
    TerminatorNeed(d.kids[4]);
  }

  lemma WrittenSettingNeed(name: string, v: Deriv)
    ensures Need(Rule(12, [Leaf(Token(T_NAME, SVal(name))), Rule(11, []), Leaf(Token(T_EQUALS, NoVal)),
                v, Rule(9, [Leaf(Token(T_SEMICOLON, NoVal))])])) == Max(5, 3 + Need(v))
  {
    var a, b, c, e := Leaf(Token(T_NAME, SVal(name))), Rule(11, []), Leaf(Token(T_EQUALS, NoVal)), Leaf(Token(T_SEMICOLON, NoVal));
    NeedUnary(9, e);
    NeedSetting(a, b, c, v, Rule(9, [e]));
  }

  lemma TerminatorNeed(d: Deriv)
    requires Valid(d) && Sym(d) == N_TERMINATOR
    ensures Need(d) == 1
  {
    SymbolOfRule(d);
    if d.rule != 8 {
      LeafChild(d, 0);
      assert d == Rule(d.rule, [d.kids[0]]);
      NeedUnary(d.rule, d.kids[0]);
    } else {
      EmptyRule(d);
    }
  }

  lemma ConfigNeed(d: Deriv)
    requires Valid(d) && Sym(d) == N_CONFIGURATION && FitAll(Group, [], Items(d))
    ensures Need(ConfigDeriv(Items(d))) <= Need(d)
  {
    SymbolOfRule(d);
    NeedPositive(d);
    if Items(d) != [] {
      ListNeed(d, Group);
      NeedUnary(3, ListDeriv(Group, Items(d)));
    } else {
      NeedRule(2, []);
    }
  }

  // ----- how much of the parser's stack a tree takes

  /** The room for a value: brackets, with what stands in front of the last item and that item. */
  function Room(v: Value): (r: nat)
    ensures r >= 1
    decreases v, 0
  {
    if v.AggV? then Max(4, 2 + ItemsRoom(v.kind, v.elems)) else 1
  }

  function ItemsRoom(kind: Kind, elems: seq<Setting>): (r: nat)
    ensures r >= 1
    decreases elems, 2
  {
    if elems == [] then 1
    else
      var last := |elems| - 1;
      if last == 0 then ItemRoom(kind, elems[0])
      else Max(ItemsRoom(kind, elems[..last]), (if kind == Group then 1 else 2) + ItemRoom(kind, elems[last]))
  }

  function ItemRoom(kind: Kind, x: Setting): (r: nat)
    ensures r >= 1
    decreases x, 1
  {
    if kind == Group then Max(5, 3 + Room(x.val)) else Room(x.val)
  }

  lemma {:induction false} ValueRoom(v: Value)
    requires WellFormed(v)
    ensures Need(ValueDeriv(v)) == Room(v)
    decreases v, 0
  {
    if v.AggV? {
      AggregateIsWellFormed(v.kind, v.elems);
      WrittenNeed(v.kind, v.elems);
      hide Need, ValueDeriv, WellFormed, FitAll, ListDeriv;
      if v.elems == [] {
        NeedRule(NoneRule(v.kind), []);
        NoNeed();
      } else {
        NeedUnary(SomeRule(v.kind), ListDeriv(v.kind, v.elems));
        ListRoom(v.kind, v.elems);
      }
    } else {
      ScalarValueNeed(v);
    }
  }

  lemma NoNeed()
    ensures NeedAll([]) == 0
  {}

  lemma {:induction false} ListRoom(kind: Kind, elems: seq<Setting>)
    requires elems != [] && FitAll(kind, [], elems)
    ensures Need(ListDeriv(kind, elems)) == ItemsRoom(kind, elems)
    decreases elems, 2
  {
    hide Need, ListDeriv, ItemDeriv, FitAll, ItemFits, ItemRoom, ItemsRoom;
    LastFits(kind, elems);
    var last := |elems| - 1;
    var init, x := elems[..last], elems[last];
    assert elems == init + [x];
    ListDerivLast(kind, elems, init, x);
    ItemsRoomLast(kind, elems, init, x);
    SingleRoom(kind, x);
    if last == 0 {
      NeedUnary(FirstRule(kind), ItemDeriv(kind, x));
    } else {
      ListRoom(kind, init);
      NeedLast(kind, ListDeriv(kind, init), ItemDeriv(kind, x));
    }
  }

  lemma ItemsRoomLast(kind: Kind, elems: seq<Setting>, init: seq<Setting>, x: Setting)
    requires elems == init + [x]
    ensures ItemsRoom(kind, elems) ==
      if init == [] then ItemRoom(kind, x)
      else Max(ItemsRoom(kind, init), (if kind == Group then 1 else 2) + ItemRoom(kind, x))
  {
    assert elems[..|elems| - 1] == init && elems[|elems| - 1] == x;
  }

  lemma NeedLast(kind: Kind, l: Deriv, i: Deriv)
    ensures Need(if kind == Group then Rule(5, [l, i]) else Rule(MoreRule(kind), [l, CommaLeaf, i])) ==
      Max(Need(l), (if kind == Group then 1 else 2) + Need(i))
  {
    NeedComma();
    hide Need;
    NeedMore(MoreRule(kind), l, CommaLeaf, i);
    NeedMore(5, l, CommaLeaf, i);
  }

  lemma {:induction false} SingleRoom(kind: Kind, x: Setting)
    requires ItemFits(kind, x)
    ensures Need(ItemDeriv(kind, x)) == ItemRoom(kind, x)
    decreases x, 1
  {
    match kind
    case Group =>
      ValueRoom(x.val);
      SettingDerivNeed(x);
    case List =>
      ValueRoom(x.val);
    case Array =>
      ScalarNeed(x.val);
  }

  lemma ConfigRoom(elems: seq<Setting>)
    requires FitAll(Group, [], elems)
    ensures Need(ConfigDeriv(elems)) == ItemsRoom(Group, elems)
  {
    hide Need, ListDeriv, FitAll;
    if elems == [] {
      NeedRule(2, []);
      NoNeed();
    } else {
      NeedUnary(3, ListDeriv(Group, elems));
      ListRoom(Group, elems);
    }
  }

  // ----- the round trip

  /** `config_read_string`. */
  function Read(text: string): Outcome
    requires NoNul(text)
  {
    LexProduced(text, true);
    Parse(Lex(text, true))
  }

  /** The configuration a successful reading stores below the root. */
  ghost predicate Reads(text: string, root: Setting)
    requires NoNul(text)
  {
    && Read(text).Accepted? && Ordered(Read(text).ctx.nodes) && |Read(text).ctx.nodes| > 0
    && Tree(Read(text).ctx.nodes, ROOT) == root
  }

  /** Writing the tree and reading the text gives the tree again. */
  ghost predicate Survives(root: Setting, tabWidth: nat)
    requires NoFloats(root.val)
  {
    NoNul(ConfigText(root, tabWidth)) && Reads(ConfigText(root, tabWidth), root)
  }

  /** The parser's stack has room for the text of the group. */
  predicate Shallow(elems: seq<Setting>) {
    ItemsRoom(Group, elems) + 1 < YYMAXDEPTH
  }

  /** Every well-formed configuration without floats that the stack can hold is read back from its
      own text exactly: names, types, values, formats and order, at every depth.  The text of a
      deeper one is rejected. */
  lemma WriteThenRead(root: Setting, tabWidth: nat)
    requires root.name.None? && root.val.AggV? && root.val.kind == Group
    requires WellFormed(root.val) && Writable(root.val) && Formats(root.val) && NoFloats(root.val)
    ensures
      && NoNul(ConfigText(root, tabWidth))
      && if Shallow(root.val.elems) then Reads(ConfigText(root, tabWidth), root)
         else !Read(ConfigText(root, tabWidth)).Accepted?
  {
    hide Lex, ConfigText, Valid, WellFormed, Writable, NoFloats, FitAll, ItemsRoom;
    var elems, text := root.val.elems, ConfigText(root, tabWidth);
    AggregateIsWellFormed(Group, elems);
    ConfigTextNoNul(root, tabWidth);
    LexProduced(text, true);
    LexConfig(root, tabWidth);
    ElementFormats(root.val);
    ConfigDerivation(elems);
    ConfigRoom(elems);
    if Shallow(elems) {
      ParseBuildsTree(ConfigDeriv(elems), SettingsTokens(elems));
    } else {
      ParseFollowsDerivation(ConfigDeriv(elems), SettingsTokens(elems));
    }
  }

  lemma ElementFormats(v: Value)
    requires v.AggV? && Formats(v)
    ensures FormatsAll(v.elems)
  {}

  /** Whatever text the parser accepts, writing the configuration it built and reading that gives
      the same configuration again, unless it holds a float. */
  lemma ReadWriteRead(text: string, root: Setting, tabWidth: nat)
    requires NoNul(text) && Reads(text, root) && NoFloats(root.val)
    ensures Survives(root, tabWidth)
  {
    hide Lex, ConfigText, Need, Items, Valid, WellFormed, Writable, Clean, Formats, NoFloats, FitAll, Tree, ItemsRoom;
    var tokens := Lex(text, true);
    LexProduced(text, true);
    AcceptedExactly(tokens);
    var d: Deriv :| Derives(d, tokens) && Need(d) + 1 < YYMAXDEPTH && Exec(d, NoVal, InitialContext).Ok?;
    ParseBuildsTree(d, tokens);
    var elems := Items(d);
    assert root == Setting(None, AggV(Group, elems));
    ItemsClean(d, Group);
    AggregateClean(elems);
    CleanIsWritable(root.val);
    AggregateIsWellFormed(Group, elems);
    ConfigNeed(d);
    ConfigRoom(elems);
    WriteThenRead(root, tabWidth);
  }

  lemma AggregateClean(elems: seq<Setting>)
    requires CleanItems(elems)
    ensures Clean(AggV(Group, elems))
  {}

  // ----- trees built by hand

  /** What is read from any text is an unnamed group, well formed and clean. */
  lemma ReadIsClean(text: string, root: Setting)
    requires NoNul(text) && Reads(text, root)
    ensures root.name.None? && root.val.AggV? && root.val.kind == Group && WellFormed(root.val) && Clean(root.val)
  {
    hide Lex, Need, Items, Valid, WellFormed, Clean, FitAll, Tree;
    var tokens := Lex(text, true);
    LexProduced(text, true);
    AcceptedExactly(tokens);
    var d: Deriv :| Derives(d, tokens) && Need(d) + 1 < YYMAXDEPTH && Exec(d, NoVal, InitialContext).Ok?;
    ParseBuildsTree(d, tokens);
    ItemsClean(d, Group);
    AggregateClean(Items(d));
  }

  /** Any tree without floats comes back from its own text if and only if it is an unnamed group, well
      formed (proper distinct names, arrays of one type), clean (bools 0 or 1, numbers and strings that C
      holds, no name that reads as a boolean), and not too deep for the parser's stack. */
  lemma WriteThenReadExactly(root: Setting, tabWidth: nat)
    requires NoFloats(root.val)
    ensures Survives(root, tabWidth) <==>
            && root.name.None? && root.val.AggV? && root.val.kind == Group
            && WellFormed(root.val) && Clean(root.val) && Shallow(root.val.elems)
  {
    hide ConfigText, WellFormed, NoFloats, Clean, Tree, Ordered, Read, Shallow;
    if Survives(root, tabWidth) { ReadIsClean(ConfigText(root, tabWidth), root); }
    if root.name.None? && root.val.AggV? && root.val.kind == Group && WellFormed(root.val) && Clean(root.val) {
      CleanIsWritable(root.val);
      WriteThenRead(root, tabWidth);
    }
  }

  /** A group with one setting of this name and value. */
  function Single(name: string, v: Value): Setting {
    Setting(None, AggV(Group, [Setting(Some(name), v)]))
  }

  /** Such a group survives exactly if its name and value would. */
  lemma SingleSetting(name: string, v: Value, tabWidth: nat)
    requires NoFloats(v)
    ensures NoFloats(Single(name, v).val)
    ensures Survives(Single(name, v), tabWidth) <==>
            && ValidName(name) && !BooleanWord(name) && WellFormed(v) && Clean(v) && Max(5, 3 + Room(v)) + 1 < YYMAXDEPTH
  {
    hide Survives, BooleanWord, ValidName, Clean, WellFormed, NoFloats, Room, Shallow, Single;
    SingleShape(name, v);
    WriteThenReadExactly(Single(name, v), tabWidth);
  }

  lemma SingleShape(name: string, v: Value)
    ensures
      var val := Single(name, v).val;
      && Single(name, v).name.None? && val.AggV? && val.kind == Group && (NoFloats(val) <==> NoFloats(v))
      && (WellFormed(val) <==> ValidName(name) && WellFormed(v))
      && (ValidName(name) ==> (Clean(val) <==> !BooleanWord(name) && Clean(v)))
      && (Shallow(val.elems) <==> Max(5, 3 + Room(v)) + 1 < YYMAXDEPTH)
  {
    hide BooleanWord, ValidName, ItemRoom;
    var val := Single(name, v).val;
    assert val.elems[0] == Setting(Some(name), v);
    assert WellFormed(val) <==> Fits(Group, val.elems[..0], val.elems[0]);
    assert Clean(val) <==> Clean(val.elems[0].val) && CleanName(val.elems[0].name);
    SingleRoomed(name, v);
  }

  lemma SingleRoomed(name: string, v: Value)
    ensures Shallow(Single(name, v).val.elems) <==> Max(5, 3 + Room(v)) + 1 < YYMAXDEPTH
  {
    var x := Setting(Some(name), v);
    assert [x][0] == x && ItemsRoom(Group, [x]) == ItemRoom(Group, x);
  }

  /** A setting called true can be built and written, but is not read back. */
  lemma TrueIsNotReadBack(n: int, tabWidth: nat)
    ensures NoFloats(Single("true", IntV(n, FORMAT_DEFAULT)).val)
    ensures !Survives(Single("true", IntV(n, FORMAT_DEFAULT)), tabWidth)
  {
    SingleSetting("true", IntV(n, FORMAT_DEFAULT), tabWidth);
  }

  lemma NameA()
    ensures ValidName("a") && !BooleanWord("a")
  {}

  /** Setting a bool stores any number: 2 is written as true, and what is read back is 1. */
  lemma TwoIsReadBackAsOne(tabWidth: nat)
    ensures NoFloats(Single("a", BoolV(2)).val) && !Survives(Single("a", BoolV(2)), tabWidth)
    ensures
      var text := ConfigText(Single("a", BoolV(2)), tabWidth);
      NoNul(text) && Reads(text, Single("a", BoolV(1)))
  {
    hide ConfigText, Reads, Clean, WellFormed, NoFloats, Single, Room, BooleanWord, ValidName;
    BoolSurvives(2, tabWidth);
    BoolSurvives(1, tabWidth);
    SameBoolText(tabWidth);
  }

  lemma BoolSurvives(b: int, tabWidth: nat)
    ensures NoFloats(Single("a", BoolV(b)).val) && (Survives(Single("a", BoolV(b)), tabWidth) <==> b == 0 || b == 1)
  {
    hide Survives, Single, BooleanWord, ValidName;
    NameA();
    SingleSetting("a", BoolV(b), tabWidth);
  }

  lemma SameBoolText(tabWidth: nat)
    requires NoFloats(Single("a", BoolV(2)).val) && NoFloats(Single("a", BoolV(1)).val)
    ensures ConfigText(Single("a", BoolV(2)), tabWidth) == ConfigText(Single("a", BoolV(1)), tabWidth)
  {
    var two, one := Setting(Some("a"), BoolV(2)), Setting(Some("a"), BoolV(1));
    assert SettingText(two, 1, tabWidth) == SettingText(one, 1, tabWidth);
    assert [two][1..] == [] && [one][1..] == [];
    assert SettingsText([two], 1, tabWidth) == SettingsText([one], 1, tabWidth);
  }

  /** An array whose elements were added without a look at their types can be built and written, but is
      not read back. */
  lemma MixedArrayIsNotReadBack(n: int, t: string, tabWidth: nat)
    ensures
      var root := Single("a", AggV(Array, [Setting(None, IntV(n, FORMAT_DEFAULT)), Setting(None, StringV(t))]));
      NoFloats(root.val) && !Survives(root, tabWidth)
  {
    hide Survives, ConfigText, BooleanWord, ValidName, Clean, Room;
    var xs := [Setting(None, IntV(n, FORMAT_DEFAULT)), Setting(None, StringV(t))];
    WellFormedArray(xs);
    assert xs[0].val.IntV? && xs[1].val.StringV?;
    SingleSetting("a", AggV(Array, xs), tabWidth);
  }

  /** A number inside that many lists. */
  function Nested(depth: nat): Value {
    if depth == 0 then IntV(0, FORMAT_DEFAULT) else AggV(List, [Setting(None, Nested(depth - 1))])
  }

  lemma {:induction false} NestedRoom(depth: nat)
    ensures WellFormed(Nested(depth)) && Clean(Nested(depth)) && NoFloats(Nested(depth))
    ensures Room(Nested(depth)) == if depth == 0 then 1 else 2 * depth + 2
  {
    if depth > 0 {
      NestedRoom(depth - 1);
      assert ItemsRoom(List, [Setting(None, Nested(depth - 1))]) == Room(Nested(depth - 1));
    }
  }

  /** A number inside nested lists can be built and written at any depth, and is read back up to depth 4996. */
  lemma DeepListIsNotReadBack(depth: nat, tabWidth: nat)
    ensures WellFormed(Nested(depth)) && Clean(Nested(depth)) && NoFloats(Single("a", Nested(depth)).val)
    ensures Survives(Single("a", Nested(depth)), tabWidth) <==> depth <= 4996
  {
    hide ConfigText, Reads, Nested, Single, Room, WellFormed, Clean, NoFloats, BooleanWord, ValidName, Survives;
    NameA();
    NestedRoom(depth);
    SingleSetting("a", Nested(depth), tabWidth);
  }

  // ----- the written text contains no NUL

  lemma NumberNoNul(s: string)
    requires IntegerWord(s) || AllHex(s)
    ensures NoNul(s)
  {
    if IntegerWord(s) {
      forall i | 0 <= i < |s| ensures s[i] != 0 as char {
        if |SkipSign(s)| < |s| && i > 0 { assert s[i] == SkipSign(s)[i - 1]; }
      }
    }
  }

  lemma {:induction false} EscapedNoNul(s: string)
    ensures NoNul(EscapedText(s))
  {
    if s != "" {
      EscapedNoNul(s[1..]);
      CharNoNul(s[0]);
    }
  }

  lemma CharNoNul(c: char)
    ensures NoNul(Escaped(c))
  {}

  lemma IndentNoNul(depth: nat, tabWidth: nat)
    ensures NoNul(IndentBelow(depth, tabWidth))
  {}

  lemma ScalarNoNul(v: Value, depth: nat, tabWidth: nat)
    requires Writable(v) && NoFloats(v) && !v.AggV?
    ensures NoNul(ValueText(v, depth, tabWidth))
  {
    hide NoNul, SignedText, HexText, EscapedText, Writable;
    ScalarWritable(v);
    match v
    case BoolV(b) => WordNoNul();
    case NoneV => WordNoNul();
    case IntV(n, f) =>
      if f == FORMAT_HEX { HexNoNul(n, TWO32, ""); } else { SignedNoNul(n, ""); }
    case Int64V(n, f) =>
      if f == FORMAT_HEX { HexNoNul(n, TWO64, "L"); } else { SignedNoNul(n, "L"); }
    case StringV(s) =>
      EscapedNoNul(s);
      Quoted(EscapedText(s));
  }

  lemma ScalarWritable(v: Value)
    requires Writable(v)
    ensures v.IntV? ==> Fits64(v.n)
    ensures v.Int64V? ==> Fits64(v.n)
    ensures v.StringV? ==> NoNul(v.s)
  {}

  lemma WordNoNul()
    ensures NoNul("true") && NoNul("false") && NoNul("???")
  {}

  lemma Quoted(s: string)
    requires NoNul(s)
    ensures NoNul("\"" + s + "\"")
  {}

  lemma SignedNoNul(n: int, suffix: string)
    requires Fits64(n) && (suffix == "" || suffix == "L")
    ensures NoNul(SignedText(n) + suffix) && NoNul(SignedText(n))
  {
    hide Digits, SignedText;
    SignedBack(n);
    NumberNoNul(SignedText(n));
  }

  lemma HexNoNul(n: int, modulus: int, suffix: string)
    requires modulus > 0 && (suffix == "" || suffix == "L")
    ensures NoNul("0x" + HexText(n, modulus) + suffix) && NoNul("0x" + HexText(n, modulus))
  {
    hide Digits;
    DigitsBack(n % modulus, 16);
    NumberNoNul(HexText(n, modulus));
  }

  lemma {:induction false} ValueNoNul(v: Value, depth: nat, tabWidth: nat)
    requires Writable(v) && NoFloats(v)
    ensures NoNul(ValueText(v, depth, tabWidth))
    decreases v, 0
  {
    if v.AggV? {
      IndentNoNul(depth, tabWidth);
      if v.kind == Group { SettingsNoNul(v.elems, depth + 1, tabWidth); } else { ElemsNoNul(v.elems, v.kind, depth, tabWidth); }
    } else {
      ScalarNoNul(v, depth, tabWidth);
    }
  }

  lemma {:induction false} ElemsNoNul(elems: seq<Setting>, kind: Kind, depth: nat, tabWidth: nat)
    requires WritableElems(elems, kind)
    ensures NoNul(ElemsText(elems, depth, tabWidth))
    decreases elems, 2
  {
    if elems != [] {
      ElemNoNul(elems[0], depth + 1, tabWidth);
      ElemsNoNul(elems[1..], kind, depth, tabWidth);
    }
  }

  lemma {:induction false} ElemNoNul(s: Setting, depth: nat, tabWidth: nat)
    requires Writable(s.val) && NoFloats(s.val)
    ensures NoNul(ElementText(s, depth, tabWidth))
    decreases s, 1
  {
    ValueNoNul(s.val, depth, tabWidth);
  }

  lemma {:induction false} SettingNoNul(s: Setting, depth: nat, tabWidth: nat)
    requires Writable(s.val) && NoFloats(s.val) && (s.name.Some? ==> ValidName(s.name.value))
    ensures NoNul(SettingText(s, depth, tabWidth))
    decreases s, 1
  {
    IndentNoNul(depth, tabWidth);
    ValueNoNul(s.val, depth, tabWidth);
  }

  lemma {:induction false} SettingsNoNul(elems: seq<Setting>, depth: nat, tabWidth: nat)
    requires WritableElems(elems, Group)
    ensures NoNul(SettingsText(elems, depth, tabWidth))
    decreases elems, 2
  {
    if elems != [] {
      SettingNoNul(elems[0], depth, tabWidth);
      SettingsNoNul(elems[1..], depth, tabWidth);
    }
  }

  lemma ConfigTextNoNul(root: Setting, tabWidth: nat)
    requires NoFloats(root.val) && Writable(root.val) && root.name.None?
    ensures NoNul(ConfigText(root, tabWidth))
  {
    SettingNoNul(root, 0, tabWidth);
  }
}
