/** What the semantic actions build: a parsed text denotes a tree, and the actions store exactly that
    tree, or give up exactly when it has a repeated name or an array of mixed types. */
module TreeBuilding {
  import opened Options
  import opened LalrTables
  import opened Parser
  import opened Grammar
  import opened Completeness
  import opened ConfigTree
  import opened ConfigOps
  import opened Growth

  // ----- the tree a derivation denotes

  /** The settings or elements listed by a derivation of one of the list nonterminals. */
  function Items(d: Deriv): seq<Setting>
    decreases d, 2
  {
    if d.Leaf? then []
    else if d.rule in {3, 7, 33, 37} && |d.kids| == 1 then Items(d.kids[0])
    else if d.rule in {4, 30, 34} && |d.kids| == 1 then [Item(d.kids[0])]
    else if d.rule == 5 && |d.kids| == 2 then Items(d.kids[0]) + [Item(d.kids[1])]
    else if d.rule in {31, 35} && |d.kids| == 3 then Items(d.kids[0]) + [Item(d.kids[2])]
    else []
  }

  /** A named setting, or a value standing as an unnamed element. */
  function Item(d: Deriv): Setting
    decreases d, 1
  {
    if d.Rule? && d.rule == 12 && |d.kids| == 5 && d.kids[0].Leaf? && d.kids[0].tok.val.SVal? then
      Setting(Some(d.kids[0].tok.val.s), ValueOf(d.kids[3]))
    else Setting(None, ValueOf(d))
  }

  function ValueOf(d: Deriv): Value
    decreases d, 0
  {
    if d.Leaf? then ScalarOf(d)
    else if d.rule in {17, 18, 19, 20} && |d.kids| == 1 then ValueOf(d.kids[0])
    else if d.rule == 14 && |d.kids| == 4 then AggV(Array, Items(d.kids[2]))
    else if d.rule == 16 && |d.kids| == 4 then AggV(List, Items(d.kids[2]))
    else if d.rule == 39 && |d.kids| == 4 then AggV(Group, Items(d.kids[2]))
    else if 23 <= d.rule <= 28 && |d.kids| == 1 then ScalarOf(d.kids[0])
    else if d.rule == 29 && |d.kids| == 1 then StringV(StringOf(d.kids[0]))
    else NoneV
  }

  function ScalarOf(d: Deriv): Value {
    if d.Rule? then NoneV
    else
      match d.tok
      case Token(3, IVal(i)) => BoolV(i)
      case Token(4, IVal(i)) => IntV(i, FORMAT_DEFAULT)
      case Token(5, IVal(i)) => IntV(i, FORMAT_HEX)
      case Token(6, LVal(l)) => Int64V(l, FORMAT_DEFAULT)
      case Token(7, LVal(l)) => Int64V(l, FORMAT_HEX)
      case Token(8, FVal(f)) => FloatV(f)
      case _ => NoneV
  }

  /** Adjacent string literals are concatenated. */
  function StringOf(d: Deriv): string {
    if d.Leaf? then if d.tok.val.SVal? then d.tok.val.s else ""
    else if d.rule == 21 && |d.kids| == 1 then StringOf(d.kids[0])
    else if d.rule == 22 && |d.kids| == 2 then StringOf(d.kids[0]) + StringOf(d.kids[1])
    else ""
  }

  // ----- unfolding the evaluation of a rule

  lemma LeafChild(d: Deriv, i: nat)
    requires Valid(d) && d.Rule? && i < |d.kids| && Rhs(d.rule)[i] < YYNTOKENS
    ensures d.kids[i].Leaf? && d.kids[i].tok.kind == Rhs(d.rule)[i] && WellTyped(d.kids[i].tok)
  {
    SymbolOfRule(d.kids[i]);
  }

  lemma RuleChild(d: Deriv, i: nat)
    requires Valid(d) && d.Rule? && i < |d.kids| && Rhs(d.rule)[i] >= YYNTOKENS
    ensures d.kids[i].Rule? && YyR1(d.kids[i].rule) == Rhs(d.rule)[i] && Valid(d.kids[i])
  {
    SymbolOfRule(d.kids[i]);
  }

  lemma EmptyRule(d: Deriv)
    requires Valid(d) && d.Rule? && Rhs(d.rule) == []
    ensures d == Rule(d.rule, [])
  {}

  lemma ExecCons(ds: seq<Deriv>, below: SemVal, c: Context)
    requires ds != []
    ensures
      var e := Exec(ds[0], below, c);
      ExecAll(ds, below, c) ==
        if e.Fail? then Fails(e.outcome)
        else
          var f := ExecAll(ds[1..], e.val, e.ctx);
          if f.Fails? then f else Oks([e.val] + f.vals, f.ctx)
  {}

  lemma ExecOne(ds: seq<Deriv>, below: SemVal, c: Context)
    requires |ds| == 1
    ensures
      var e := Exec(ds[0], below, c);
      ExecAll(ds, below, c) == if e.Fail? then Fails(e.outcome) else Oks([e.val], e.ctx)
  {
    ExecCons(ds, below, c);
    assert ds[1..] == [];
  }

  predicate PassesOn(r: int) { r in {3, 4, 7, 9, 10, 17, 18, 19, 20, 30, 33, 34, 37} }

  lemma PassingRules(r: nat, vals: seq<SemVal>, below: SemVal, c: Context)
    requires PassesOn(r)
    ensures |Rhs(r)| == 1 && Perform(r, vals, below, c) == Ok(DefaultValue(vals), c)
  {}

  /** A rule with one child whose action does nothing passes the child's outcome on. */
  lemma ExecUnary(d: Deriv, below: SemVal, c: Context)
    requires Valid(d) && d.Rule? && PassesOn(d.rule)
    ensures |d.kids| == 1 && Exec(d, below, c) == Exec(d.kids[0], below, c)
  {
    hide Exec, ExecAll, Perform, PassesOn, Rhs;
    ExecRule(d, below, c);
    PassingRules(d.rule, [], below, c);
    ExecOne(d.kids, below, c);
    var e := Exec(d.kids[0], below, c);
    if e.Ok? { PassingRules(d.rule, [e.val], below, e.ctx); }
  }

  lemma ExecEmpty(d: Deriv, below: SemVal, c: Context)
    requires Valid(d) && d.Rule? && Rhs(d.rule) == []
    ensures Exec(d, below, c) == Perform(d.rule, [], below, c)
  {}

  function BracketKind(r: nat): Kind {
    if r == 14 then Array else if r == 16 then List else Group
  }

  /** The actions around the contents of a bracket. */
  lemma BracketActs(r: nat, vals: seq<SemVal>, below: SemVal, c: Context)
    requires r in {14, 16, 39}
    ensures Perform(r, vals, below, c) ==
            (if CloseAggregate(c).Done? then Ok(DefaultValue(vals), CloseAggregate(c).ctx) else Fail(Crash))
    ensures Perform(r - 1, [], below, c) ==
            (if OpenAggregate(c, BracketKind(r)).Done? then Ok(NoVal, OpenAggregate(c, BracketKind(r)).ctx) else Fail(Crash))
  {
    OpenNeverRejects(c, BracketKind(r));
    CloseNeverRejects(c);
    hide OpenAggregate, CloseAggregate;
  }

  lemma BracketShape(d: Deriv)
    requires Valid(d) && d.Rule? && d.rule in {14, 16, 39}
    ensures |d.kids| == 4 && d.kids[0].Leaf? && d.kids[3].Leaf?
    ensures Valid(d.kids[1]) && d.kids[1].Rule? && d.kids[1].rule == d.rule - 1 && Rhs(d.rule - 1) == []
  {
    LeafChild(d, 0);
    RuleChild(d, 1);
    LeafChild(d, 3);
  }

  /** A bracketed aggregate: open, evaluate the contents, close. */
  lemma ExecBracket(d: Deriv, below: SemVal, c: Context)
    requires Valid(d) && d.Rule? && d.rule in {14, 16, 39}
    ensures |d.kids| == 4
    ensures
      var o := OpenAggregate(c, BracketKind(d.rule));
      if !o.Done? then Exec(d, below, c) == Fail(Crash)
      else
        var e := Exec(d.kids[2], NoVal, o.ctx);
        if e.Fail? then Exec(d, below, c) == e
        else
          match CloseAggregate(e.ctx)
          case Done(c') => Exec(d, below, c).Ok? && Exec(d, below, c).ctx == c'
          case _ => Exec(d, below, c) == Fail(Crash)
  {
    BracketShape(d);
    hide Exec, ExecAll, OpenAggregate, CloseAggregate, Perform, Valid, Rhs, BracketKind;
    var ks := d.kids;
    assert ks[1..][1..] == ks[2..] && ks[2..][1..] == ks[3..];
    ExecRule(d, below, c);
    ExecCons(ks, below, c);
    ExecLeaf(ks[0], below, c);
    ExecCons(ks[1..], ks[0].tok.val, c);
    ExecEmpty(ks[1], ks[0].tok.val, c);
    BracketActs(d.rule, [], ks[0].tok.val, c);
    var o := OpenAggregate(c, BracketKind(d.rule));
    if o.Done? {
      ExecCons(ks[2..], NoVal, o.ctx);
      var e := Exec(ks[2], NoVal, o.ctx);
      if e.Ok? {
        ExecOne(ks[3..], e.val, e.ctx);
        ExecLeaf(ks[3], e.val, e.ctx);
        BracketActs(d.rule, ExecAll(ks, below, c).vals, below, e.ctx);
      }
    }
  }

  lemma ExecLeaf(d: Deriv, below: SemVal, c: Context)
    requires d.Leaf?
    ensures Exec(d, below, c) == Ok(d.tok.val, c)
  {}

  lemma ExecRule(d: Deriv, below: SemVal, c: Context)
    requires d.Rule?
    ensures
      var f := ExecAll(d.kids, below, c);
      Exec(d, below, c) == if f.Fails? then Fail(f.outcome) else Perform(d.rule, f.vals, below, f.ctx)
  {}

  lemma OpenNeverRejects(c: Context, kind: Kind)
    ensures !OpenAggregate(c, kind).Rejected?
  {}

  lemma CloseNeverRejects(c: Context)
    ensures !CloseAggregate(c).Rejected?
  {}

  // ----- strings and scalars

  /** A run of string literals adds its text to the string being collected. */
  lemma {:induction false} ExecString(d: Deriv, below: SemVal, c: Context)
    requires Valid(d) && Sym(d) == N_STRING
    ensures Exec(d, below, c).Ok? && Exec(d, below, c).ctx == c.(text := c.text + StringOf(d))
    decreases d
  {
    StringShape(d);
    hide Exec, ExecAll, Perform, Valid, Sym, StringOf, Act;
    ExecRule(d, below, c);
    var ks := d.kids;
    if d.rule == 21 {
      ExecOne(ks, below, c);
      ExecLeaf(ks[0], below, c);
      StringActs(21, [ks[0].tok.val], below, c);
    } else {
      ExecString(ks[0], below, c);
      ExecCons(ks, below, c);
      var e := Exec(ks[0], below, c);
      ExecOne(ks[1..], e.val, e.ctx);
      ExecLeaf(ks[1], e.val, e.ctx);
      StringActs(22, [e.val] + [ks[1].tok.val], below, e.ctx);
      Associate(c.text, StringOf(ks[0]), ks[1].tok.val.s);
    }
  }

  /** The texts of string tokens one behind the other. */
  function Texts(tokens: seq<Token>): string {
    if tokens == [] then "" else (if tokens[0].val.SVal? then tokens[0].val.s else "") + Texts(tokens[1..])
  }

  lemma {:induction false} TextsSnoc(tokens: seq<Token>, t: Token)
    requires t.val.SVal?
    ensures Texts(tokens + [t]) == Texts(tokens) + t.val.s
  {
    if tokens == [] {
      assert [] + [t] == [t] && [t][1..] == [];
    } else {
      TextsSnoc(tokens[1..], t);
      assert (tokens + [t])[1..] == tokens[1..] + [t];
    }
  }

  /** Adjacent strings mean the text of all of them, in order. */
  lemma {:induction false} StringsJoin(d: Deriv)
    requires Valid(d) && Sym(d) == N_STRING
    ensures StringOf(d) == Texts(Yield(d))
    decreases d
  {
    StringShape(d);
    var n := |d.kids| - 1;
    var t := d.kids[n].tok;
    LeafYield(d, n);
    assert d.kids == d.kids[..n] + [d.kids[n]];
    YieldSnoc(d.kids[..n], d.kids[n]);
    assert Yield(d) == YieldAll(d.kids);
    hide StringOf, Yield, Valid;
    if d.rule == 22 {
      StringsJoin(d.kids[0]);
      UnaryYield(d.kids[0]);
      assert d.kids[..n] == [d.kids[0]];
    } else {
      assert d.kids[..n] == [] && YieldAll([]) == [] && Texts([]) == "";
    }
    TextsSnoc(YieldAll(d.kids[..n]), t);
  }

  lemma UnaryYield(d: Deriv)
    ensures YieldAll([d]) == Yield(d)
  {
    assert YieldAll([d]) == Yield(d) + YieldAll([]);
  }

  lemma LeafYield(d: Deriv, i: nat)
    requires Valid(d) && d.Rule? && i < |d.kids| && d.kids[i].Leaf? && d.kids[i].tok.val.SVal?
    ensures Yield(d.kids[i]) == [d.kids[i].tok]
  {}

  lemma StringShape(d: Deriv)
    requires Valid(d) && Sym(d) == N_STRING
    ensures d.Rule? && (d.rule == 21 || d.rule == 22) && |d.kids| == d.rule - 20
    ensures d.kids[|d.kids| - 1].Leaf? && d.kids[|d.kids| - 1].tok.val.SVal?
    ensures d.rule == 22 ==> Valid(d.kids[0]) && Sym(d.kids[0]) == N_STRING
    ensures StringOf(d) ==
            (if d.rule == 22 then StringOf(d.kids[0]) else "") + d.kids[|d.kids| - 1].tok.val.s
  {
    SymbolOfRule(d);
    if d.rule == 21 {
      LeafChild(d, 0);
    } else {
      RuleChild(d, 0);
      LeafChild(d, 1);
    }
  }

  lemma StringActs(r: nat, vals: seq<SemVal>, below: SemVal, c: Context)
    requires (r == 21 && |vals| == 1) || (r == 22 && |vals| == 2)
    requires vals[|vals| - 1].SVal?
    ensures Perform(r, vals, below, c) == Ok(DefaultValue(vals), c.(text := c.text + vals[|vals| - 1].s))
  {}

  /** A scalar is put where the context says, and nothing else happens. */
  lemma ExecScalar(d: Deriv, below: SemVal, c: Context)
    requires Valid(d) && Sym(d) == N_SIMPLE_VALUE && c.text == ""
    ensures ScalarKind(ValueOf(d)) != 0
    ensures
      match PutScalar(c, ValueOf(d))
      case Done(c') => Exec(d, below, c).Ok? && Exec(d, below, c).ctx == c'
      case Rejected(c', msg) => Exec(d, below, c) == Fail(ActionFailure(c', msg))
      case Fault => Exec(d, below, c) == Fail(Crash)
  {
    hide PutScalar;
    SymbolOfRule(d);
    ExecRule(d, below, c);
    ExecOne(d.kids, below, c);
    if d.rule == 29 {
      RuleChild(d, 0);
      ExecString(d.kids[0], below, c);
      var e := Exec(d.kids[0], below, c);
      assert e.ctx.(text := "") == c;
      assert e.ctx.text == StringOf(d.kids[0]);
    } else {
      LeafChild(d, 0);
      ExecLeaf(d.kids[0], below, c);
    }
  }

  // ----- evaluation at a place in the tree

  /** The context is adding to aggregate `p`. */
  ghost predicate At(c: Context, p: nat, kind: Kind) {
    && c.parent == Some(p) && Ordered(c.nodes) && p < |c.nodes|
    && c.nodes[p].data.DAgg? && c.nodes[p].data.kind == kind && c.text == ""
    && (kind == Group ==> ProperNames(Children(c.nodes, p)))
  }

  /** The context has just created setting `i` and will give it a value. */
  ghost predicate AtSetting(c: Context, i: nat) {
    && c.setting == Some(i) && Ordered(c.nodes) && i < |c.nodes|
    && c.nodes[i].data == DNone && c.nodes[i].parent == c.parent && c.text == ""
    && !InKind(c, Array) && !InKind(c, List)
  }

  predicate ProperNames(xs: seq<Setting>) {
    forall i | 0 <= i < |xs| :: xs[i].name.Some? && ValidName(xs[i].name.value)
  }

  /** Evaluation added exactly `xs` below `p`. */
  ghost predicate Adds(e: Eval, c: Context, p: nat, xs: seq<Setting>) {
    e.Ok? && e.ctx.parent == c.parent && e.ctx.text == "" && Grown(c.nodes, e.ctx.nodes, p, xs)
  }

  /** Evaluation gave setting `i` exactly the value `v`. */
  ghost predicate Fills(e: Eval, c: Context, i: nat, v: Value) {
    e.Ok? && e.ctx.parent == c.parent && e.ctx.text == "" && Filled(c.nodes, e.ctx.nodes, i, v)
  }

  predicate GivesUp(e: Eval) { e.Fail? && e.outcome.ActionFailure? }

  /** A scalar in an array or list. */
  lemma PutElement(c: Context, p: nat, kind: Kind, v: Value)
    requires At(c, p, kind) && kind != Group && ScalarKind(v) != 0
    ensures
      if Fits(kind, Children(c.nodes, p), Setting(None, v)) then
        PutScalar(c, v).Done? && Adds(Ok(NoVal, PutScalar(c, v).ctx), c, p, [Setting(None, v)])
      else PutScalar(c, v).Rejected?
  {
    hide Fits, Grown, Ordered;
    AddElemGrows(c.nodes, p, v);
  }

  /** A scalar as the value of a setting. */
  lemma PutValue(c: Context, i: nat, v: Value)
    requires AtSetting(c, i) && ScalarKind(v) != 0
    ensures PutScalar(c, v).Done? && Fills(Ok(NoVal, PutScalar(c, v).ctx), c, i, v)
  {
    FillScalar(c.nodes, i, v);
  }

  /** Below a place that has grown, evaluation may go on. */
  lemma StillAt(c: Context, e: Eval, p: nat, kind: Kind, xs: seq<Setting>)
    requires At(c, p, kind) && Adds(e, c, p, xs) && FitAll(kind, Children(c.nodes, p), xs)
    ensures At(e.ctx, p, kind) && Children(e.ctx.nodes, p) == Children(c.nodes, p) + xs
  {
    hide Ordered, WellFormed;
    GrownChildren(c.nodes, e.ctx.nodes, p, xs);
    assert Ordered(e.ctx.nodes);
  }

  // ----- the main induction

  /** Which aggregates the list nonterminals fill. */
  predicate Lists(sym: int, kind: Kind) {
    match kind
    case Group => sym == N_SETTING_LIST || sym == N_SETTING_LIST_OPT || sym == N_CONFIGURATION
    case List => sym == N_VALUE_LIST || sym == N_VALUE_LIST_OPT
    case Array => sym == N_SIMPLE_LIST || sym == N_SIMPLE_LIST_OPT
  }

  function ItemSym(kind: Kind): int {
    match kind
    case Group => N_SETTING
    case List => N_VALUE
    case Array => N_SIMPLE_VALUE
  }

  predicate EmptyList(r: int) { r in {2, 6, 32, 36} }
  predicate WholeList(r: int) { r in {3, 7, 33, 37} }
  predicate OneItem(r: int) { r in {4, 30, 34} }
  predicate CommaItem(r: int) { r in {31, 35} }

  lemma ListRuleShapes(r: int, kind: Kind)
    requires 2 <= r <= 39 && Lists(YyR1(r), kind)
    ensures EmptyList(r) || WholeList(r) || OneItem(r) || r == 5 || CommaItem(r)
    ensures EmptyList(r) ==> Rhs(r) == []
    ensures WholeList(r) ==> |Rhs(r)| == 1 && Lists(Rhs(r)[0], kind) && PassesOn(r)
    ensures OneItem(r) ==> |Rhs(r)| == 1 && Rhs(r)[0] == ItemSym(kind) && PassesOn(r)
    ensures r == 5 ==> |Rhs(r)| == 2 && Lists(Rhs(r)[0], kind) && Rhs(r)[1] == ItemSym(kind)
    ensures CommaItem(r) ==>
      |Rhs(r)| == 3 && Lists(Rhs(r)[0], kind) && Rhs(r)[1] == T_COMMA && Rhs(r)[2] == ItemSym(kind)
  {}

  lemma ListActsDoNothing(r: nat, vals: seq<SemVal>, below: SemVal, c: Context)
    requires EmptyList(r) || r == 5 || CommaItem(r)
    ensures Perform(r, vals, below, c) == Ok(DefaultValue(vals), c)
  {}

  lemma ItemsUnfold(d: Deriv)
    requires d.Rule?
    ensures EmptyList(d.rule) ==> Items(d) == []
    ensures WholeList(d.rule) && |d.kids| == 1 ==> Items(d) == Items(d.kids[0])
    ensures OneItem(d.rule) && |d.kids| == 1 ==> Items(d) == [Item(d.kids[0])]
    ensures d.rule == 5 && |d.kids| == 2 ==> Items(d) == Items(d.kids[0]) + [Item(d.kids[1])]
    ensures CommaItem(d.rule) && |d.kids| == 3 ==> Items(d) == Items(d.kids[0]) + [Item(d.kids[2])]
  {}

  /** Evaluating a rule whose last child is an item and whose other tokens are silent. */
  lemma ExecListThenItem(d: Deriv, below: SemVal, c: Context)
    requires Valid(d) && d.Rule? && (d.rule == 5 || CommaItem(d.rule))
    requires |d.kids| == |Rhs(d.rule)| == (if d.rule == 5 then 2 else 3)
    requires d.rule != 5 ==> d.kids[1].Leaf?
    ensures
      var e := Exec(d.kids[0], below, c);
      if e.Fail? then Exec(d, below, c) == e
      else
        var last := d.kids[|d.kids| - 1];
        var f := Exec(last, if d.rule == 5 then e.val else d.kids[1].tok.val, e.ctx);
        if f.Fail? then Exec(d, below, c) == f else Exec(d, below, c).Ok? && Exec(d, below, c).ctx == f.ctx
  {
    hide Exec, ExecAll, Perform, Rhs, Valid;
    var ks := d.kids;
    ExecRule(d, below, c);
    ExecCons(ks, below, c);
    var e := Exec(ks[0], below, c);
    if e.Ok? {
      if d.rule == 5 {
        ExecOne(ks[1..], e.val, e.ctx);
        var f := Exec(ks[1], e.val, e.ctx);
        if f.Ok? { ListActsDoNothing(5, [e.val] + [f.val], below, f.ctx); }
      } else {
        ExecCons(ks[1..], e.val, e.ctx);
        ExecLeaf(ks[1], e.val, e.ctx);
        assert ks[1..][1..] == ks[2..];
        var v := ks[1].tok.val;
        ExecOne(ks[2..], v, e.ctx);
        var f := Exec(ks[2], v, e.ctx);
        if f.Ok? { ListActsDoNothing(d.rule, [e.val] + ([v] + [f.val]), below, f.ctx); }
      }
    }
  }

  /** Older items and then one more. */
  lemma AddsOneMore(c: Context, p: nat, kind: Kind, e: Eval, f: Eval, xs: seq<Setting>, x: Setting)
    requires At(c, p, kind) && Adds(e, c, p, xs) && Adds(f, e.ctx, p, [x])
    ensures Adds(f, c, p, xs + [x])
  {
    GrownTwice(c.nodes, e.ctx.nodes, f.ctx.nodes, p, xs, [x]);
  }

  /** A list of settings or elements is added in order, or evaluation gives up. */
  lemma {:induction false} ExecItems(d: Deriv, below: SemVal, c: Context, p: nat, kind: Kind)
    requires Valid(d) && Lists(Sym(d), kind) && At(c, p, kind)
    ensures
      if FitAll(kind, Children(c.nodes, p), Items(d)) then Adds(Exec(d, below, c), c, p, Items(d))
      else GivesUp(Exec(d, below, c))
    decreases d, 3
  {
    SymbolOfRule(d);
    assert d.Rule?;
    hide Exec, ExecAll, Perform, Rhs, YyR1, Lists, Items, Item, Adds, At, FitAll, Fits, EmptyList, WholeList, OneItem, CommaItem, PassesOn, Ordered;
    var r, ks := d.rule, d.kids;
    ListRuleShapes(r, kind);
    ItemsUnfold(d);
    AtOrdered(c, p, kind);
    var older := Children(c.nodes, p);
    if EmptyList(r) {
      ExecEmpty(d, below, c);
      ListActsDoNothing(r, [], below, c);
      AddsNothing(Exec(d, below, c), c, p, kind);
    } else if WholeList(r) {
      ExecUnary(d, below, c);
      ExecItems(ks[0], below, c, p, kind);
    } else if OneItem(r) {
      ExecUnary(d, below, c);
      FitOne(kind, older, Item(ks[0]));
      ExecItem(ks[0], below, c, p, kind);
    } else {
      if CommaItem(r) { CommaIsLeaf(d); }
      ExecSnoc(d, below, c, p, kind);
    }
  }

  /** The two rules that add one more item to a list. */
  lemma {:induction false} ExecSnoc(d: Deriv, below: SemVal, c: Context, p: nat, kind: Kind)
    requires Valid(d) && d.Rule? && At(c, p, kind)
    requires (d.rule == 5 || CommaItem(d.rule)) && |Rhs(d.rule)| == (if d.rule == 5 then 2 else 3)
    requires CommaItem(d.rule) ==> d.kids[1].Leaf?
    requires Lists(Sym(d.kids[0]), kind) && Sym(d.kids[|d.kids| - 1]) == ItemSym(kind)
    ensures
      if FitAll(kind, Children(c.nodes, p), Items(d)) then Adds(Exec(d, below, c), c, p, Items(d))
      else GivesUp(Exec(d, below, c))
    decreases d, 2
  {
    var r, ks := d.rule, d.kids;
    var last := ks[|ks| - 1];
    ItemsUnfold(d);
    ExecListThenItem(d, below, c);
    assert Valid(ks[0]) && Valid(last);
    hide Exec, ExecAll, Perform, Rhs, YyR1, Lists, Items, Item, Adds, At, FitAll, Fits, EmptyList, WholeList, OneItem, CommaItem, PassesOn, Ordered, Valid, Sym;
    AtOrdered(c, p, kind);
    var older := Children(c.nodes, p);
    ExecItems(ks[0], below, c, p, kind);
    FitSnoc(kind, older, Items(ks[0]), Item(last));
    if FitAll(kind, older, Items(ks[0])) {
      var e := Exec(ks[0], below, c);
      AddsOk(e, c, p, Items(ks[0]));
      StillAt(c, e, p, kind, Items(ks[0]));
      var v := if r == 5 then e.val else ks[1].tok.val;
      ExecItem(last, v, e.ctx, p, kind);
      if Fits(kind, older + Items(ks[0]), Item(last)) {
        AddsOneMore(c, p, kind, e, Exec(last, v, e.ctx), Items(ks[0]), Item(last));
        AddsOk(Exec(last, v, e.ctx), e.ctx, p, [Item(last)]);
        AddsSameContext(Exec(last, v, e.ctx), Exec(d, below, c), c, p, Items(d));
      }
    }
  }

  lemma AtOrdered(c: Context, p: nat, kind: Kind)
    requires At(c, p, kind)
    ensures Ordered(c.nodes) && p < |c.nodes|
  {}

  lemma AddsOk(e: Eval, c: Context, p: nat, xs: seq<Setting>)
    requires Adds(e, c, p, xs)
    ensures e.Ok?
  {}

  lemma AddsNothing(e: Eval, c: Context, p: nat, kind: Kind)
    requires At(c, p, kind) && e.Ok? && e.ctx == c
    ensures FitAll(kind, Children(c.nodes, p), []) && Adds(e, c, p, [])
  {
    GrownNothing(c.nodes, p);
  }

  lemma AddsSameContext(e: Eval, f: Eval, c: Context, p: nat, xs: seq<Setting>)
    requires Adds(e, c, p, xs) && f.Ok? && f.ctx == e.ctx
    ensures Adds(f, c, p, xs)
  {}

  lemma CommaIsLeaf(d: Deriv)
    requires Valid(d) && d.Rule? && |d.kids| == 3 && |Rhs(d.rule)| == 3 && Rhs(d.rule)[1] == T_COMMA
    ensures d.kids[1].Leaf?
  {
    SymbolOfRule(d.kids[1]);
  }

  /** One setting or element. */
  lemma {:induction false} ExecItem(d: Deriv, below: SemVal, c: Context, p: nat, kind: Kind)
    requires Valid(d) && Sym(d) == ItemSym(kind) && At(c, p, kind)
    ensures
      if Fits(kind, Children(c.nodes, p), Item(d)) then Adds(Exec(d, below, c), c, p, [Item(d)])
      else GivesUp(Exec(d, below, c))
    decreases d, 2
  {
    match kind
    case Group => ExecSetting(d, below, c, p);
    case List => ExecElement(d, below, c, p);
    case Array =>
      SymbolOfRule(d);
      ExecScalar(d, below, c);
      SimpleValueItem(d);
      PutElement(c, p, Array, ValueOf(d));
  }

  lemma SimpleValueItem(d: Deriv)
    requires Valid(d) && (Sym(d) == N_SIMPLE_VALUE || Sym(d) == N_VALUE)
    ensures Item(d) == Setting(None, ValueOf(d))
  {
    SymbolOfRule(d);
  }

  /** A value inside a list becomes its next element. */
  lemma {:induction false} ExecElement(d: Deriv, below: SemVal, c: Context, p: nat)
    requires Valid(d) && Sym(d) == N_VALUE && At(c, p, List)
    ensures
      if WellFormed(ValueOf(d)) then Adds(Exec(d, below, c), c, p, [Setting(None, ValueOf(d))])
      else GivesUp(Exec(d, below, c))
    decreases d, 1
  {
    ValueShapes(d);
    ExecUnary(d, below, c);
    var k := d.kids[0];
    if d.rule == 17 {
      ExecScalar(k, below, c);
      PutElement(c, p, List, ValueOf(k));
    } else {
      var kind, xs := BracketKind(k.rule), Items(k.kids[2]);
      AggregateIsWellFormed(kind, xs);
      ExecBracket(k, below, c);
      OpenInList(c, p, kind);
      var o := OpenAggregate(c, kind).ctx;
      ExecItems(k.kids[2], NoVal, o, |c.nodes|, kind);
      if FitAll(kind, [], xs) {
        AppendAggregate(c.nodes, p, None, kind, Exec(k.kids[2], NoVal, o).ctx.nodes, xs);
      }
    }
  }

  /** A value after a name becomes the value of that setting. */
  lemma {:induction false} ExecValue(d: Deriv, below: SemVal, c: Context, i: nat)
    requires Valid(d) && Sym(d) == N_VALUE && AtSetting(c, i)
    ensures
      if WellFormed(ValueOf(d)) then Fills(Exec(d, below, c), c, i, ValueOf(d))
      else GivesUp(Exec(d, below, c))
    decreases d, 1
  {
    ValueShapes(d);
    ExecUnary(d, below, c);
    var k := d.kids[0];
    if d.rule == 17 {
      ExecScalar(k, below, c);
      PutValue(c, i, ValueOf(k));
      ScalarsAreWellFormed(ValueOf(k));
    } else {
      var kind, xs := BracketKind(k.rule), Items(k.kids[2]);
      AggregateIsWellFormed(kind, xs);
      ExecBracket(k, below, c);
      OpenAtSetting(c, i, kind);
      var o := OpenAggregate(c, kind).ctx;
      ExecItems(k.kids[2], NoVal, o, i, kind);
      if FitAll(kind, [], xs) {
        FillAggregate(c.nodes, i, kind, Exec(k.kids[2], NoVal, o).ctx.nodes, xs);
      }
    }
  }

  lemma ValueShapes(d: Deriv)
    requires Valid(d) && Sym(d) == N_VALUE
    ensures d.Rule? && PassesOn(d.rule) && |d.kids| == 1 && d.kids[0].Rule? && Valid(d.kids[0])
    ensures ValueOf(d) == ValueOf(d.kids[0])
    ensures d.rule == 17 ==> Sym(d.kids[0]) == N_SIMPLE_VALUE
    ensures d.rule != 17 ==>
      && d.kids[0].rule in {14, 16, 39} && |d.kids[0].kids| == 4
      && ValueOf(d.kids[0]) == AggV(BracketKind(d.kids[0].rule), Items(d.kids[0].kids[2]))
      && Valid(d.kids[0].kids[2]) && Lists(Sym(d.kids[0].kids[2]), BracketKind(d.kids[0].rule))
  {
    SymbolOfRule(d);
    RuleChild(d, 0);
  }

  /** Opening a bracket inside a list adds an empty aggregate and moves there. */
  lemma OpenInList(c: Context, p: nat, kind: Kind)
    requires At(c, p, List)
    ensures
      var ns := AppendChild(c.nodes, p, None, DAgg(kind, []));
      && OpenAggregate(c, kind) == Done(c.(nodes := ns, parent := Some(|c.nodes|)))
      && At(c.(nodes := ns, parent := Some(|c.nodes|)), |c.nodes|, kind)
      && Children(ns, |c.nodes|) == []
  {
    AppendOrdered(c.nodes, p, None, DAgg(kind, []));
  }

  /** Opening a bracket after a name turns the setting into an empty aggregate and moves there. */
  lemma OpenAtSetting(c: Context, i: nat, kind: Kind)
    requires AtSetting(c, i)
    ensures
      var ns := c.nodes[i := c.nodes[i].(data := DAgg(kind, []))];
      var o := c.(nodes := ns, parent := Some(i), setting := None);
      && OpenAggregate(c, kind) == Done(o) && At(o, i, kind) && Children(ns, i) == []
  {
    SetDataOrdered(c.nodes, i, DAgg(kind, []));
  }

  /** Reading a name creates the setting, unless the name is bad or taken. */
  lemma BeginEffect(c: Context, p: nat, name: string)
    requires At(c, p, Group)
    ensures
      var fresh' := ValidName(name) && forall i | 0 <= i < |Children(c.nodes, p)| :: Children(c.nodes, p)[i].name != Some(name);
      if fresh' then
        var o := c.(nodes := AppendChild(c.nodes, p, Some(name), DNone), setting := Some(|c.nodes|));
        BeginSetting(c, name) == Done(o) && AtSetting(o, |c.nodes|)
      else BeginSetting(c, name).Rejected?
  {
    var ks, older := c.nodes[p].data.Kids(), Children(c.nodes, p);
    assert forall j | 0 <= j < |ks| :: older[j].name == c.nodes[ks[j]].name;
    if ValidName(name) {
      FindChildByName(c.nodes, ks, name);
      AppendOrdered(c.nodes, p, Some(name), DNone);
    }
  }

  lemma ExecTerminator(d: Deriv, below: SemVal, c: Context)
    requires Valid(d) && Sym(d) == N_TERMINATOR
    ensures Exec(d, below, c).Ok? && Exec(d, below, c).ctx == c
  {
    SymbolOfRule(d);
    if d.rule == 8 {
      ExecEmpty(d, below, c);
    } else {
      ExecUnary(d, below, c);
      LeafChild(d, 0);
    }
  }

  lemma SettingShape(d: Deriv)
    requires Valid(d) && Sym(d) == N_SETTING
    ensures d.Rule? && d.rule == 12 && |d.kids| == 5
    ensures d.kids[0].Leaf? && d.kids[0].tok.val.SVal? && d.kids[1] == Rule(11, []) && d.kids[2].Leaf?
    ensures Valid(d.kids[1]) && Valid(d.kids[3]) && Sym(d.kids[3]) == N_VALUE
    ensures Valid(d.kids[4]) && Sym(d.kids[4]) == N_TERMINATOR
    ensures Item(d) == Setting(Some(d.kids[0].tok.val.s), ValueOf(d.kids[3]))
  {
    SymbolOfRule(d);
    LeafChild(d, 0);
    RuleChild(d, 1);
    EmptyRule(d.kids[1]);
    LeafChild(d, 2);
  }

  /** A setting: begin with the name, evaluate the value, ignore the terminator. */
  lemma ExecSettingUnfold(d: Deriv, below: SemVal, c: Context)
    requires Valid(d) && Sym(d) == N_SETTING
    requires d.Rule? && |d.kids| == 5 && d.kids[0].Leaf? && d.kids[0].tok.val.SVal? && d.kids[2].Leaf?
    ensures
      match BeginSetting(c, d.kids[0].tok.val.s)
      case Rejected(c', msg) => Exec(d, below, c) == Fail(ActionFailure(c', msg))
      case Fault => Exec(d, below, c) == Fail(Crash)
      case Done(o) =>
        var e := Exec(d.kids[3], d.kids[2].tok.val, o);
        if e.Fail? then Exec(d, below, c) == e else Exec(d, below, c).Ok? && Exec(d, below, c).ctx == e.ctx
  {
    SettingShape(d);
    hide Exec, ExecAll, BeginSetting, Valid, Perform, Rhs, Sym, Item;
    var ks, name := d.kids, d.kids[0].tok.val.s;
    assert ks[1..][1..] == ks[2..] && ks[2..][1..] == ks[3..] && ks[3..][1..] == ks[4..];
    ExecRule(d, below, c);
    ExecCons(ks, below, c);
    ExecLeaf(ks[0], below, c);
    ExecCons(ks[1..], SVal(name), c);
    ExecEmpty(ks[1], SVal(name), c);
    BeginActs(name, c);
    var b := BeginSetting(c, name);
    if b.Done? {
      ExecCons(ks[2..], NoVal, b.ctx);
      ExecLeaf(ks[2], NoVal, b.ctx);
      ExecValueEnd(d, below, b.ctx);
      SettingActs(below);
    }
  }

  /** The last two children of a setting, and its own action. */
  lemma ExecValueEnd(d: Deriv, below: SemVal, o: Context)
    requires Valid(d) && Sym(d) == N_SETTING && d.Rule? && |d.kids| == 5 && d.kids[2].Leaf? && d.rule == 12
    ensures
      var v := d.kids[2].tok.val;
      var e, f := Exec(d.kids[3], v, o), ExecAll(d.kids[3..], v, o);
      if e.Fail? then f == Fails(e.outcome) else f.Oks? && f.ctx == e.ctx
  {
    SettingShape(d);
    hide Exec, ExecAll, Valid, Perform, Rhs, Sym, Item;
    var ks, v := d.kids, d.kids[2].tok.val;
    assert ks[3..][1..] == ks[4..];
    ExecCons(ks[3..], v, o);
    var e := Exec(ks[3], v, o);
    if e.Ok? {
      ExecOne(ks[4..], e.val, e.ctx);
      ExecTerminator(ks[4], e.val, e.ctx);
    }
  }

  lemma BeginActs(name: string, c: Context)
    ensures
      var b := BeginSetting(c, name);
      Perform(11, [], SVal(name), c) ==
      if b.Done? then Ok(NoVal, b.ctx) else if b.Rejected? then Fail(ActionFailure(b.ctx, b.message)) else Fail(Crash)
  {
    hide BeginSetting;
  }

  lemma SettingActs(below: SemVal)
    ensures forall vals, c :: Perform(12, vals, below, c) == Ok(DefaultValue(vals), c)
  {}

  lemma {:induction false} ExecSetting(d: Deriv, below: SemVal, c: Context, p: nat)
    requires Valid(d) && Sym(d) == N_SETTING && At(c, p, Group)
    ensures
      if Fits(Group, Children(c.nodes, p), Item(d)) then Adds(Exec(d, below, c), c, p, [Item(d)])
      else GivesUp(Exec(d, below, c))
    decreases d, 1
  {
    SettingShape(d);
    ExecSettingUnfold(d, below, c);
    hide Exec, BeginSetting, Valid, ValueOf, WellFormed, Ordered, AtSetting;
    var name, value := d.kids[0].tok.val.s, d.kids[3];
    AtOrdered(c, p, Group);
    BeginEffect(c, p, name);
    var b := BeginSetting(c, name);
    if b.Done? {
      ExecValue(value, d.kids[2].tok.val, b.ctx, |c.nodes|);
      if WellFormed(ValueOf(value)) {
        var e := Exec(value, d.kids[2].tok.val, b.ctx);
        AppendFilled(c.nodes, p, Some(name), e.ctx.nodes, ValueOf(value));
      }
    }
  }

  // ----- whole files

  /** Parsing a derivable file whose derivation fits the stack: the tree it denotes is stored below
      the root exactly when that tree is well formed, and otherwise the parser reports an error.  It
      never follows a null or dangling pointer. */
  lemma ParseBuildsTree(d: Deriv, tokens: seq<Token>)
    requires TokenList(tokens) && Derives(d, tokens) && Need(d) + 1 < YYMAXDEPTH
    ensures
      if WellFormed(AggV(Group, Items(d))) then
        && Parse(tokens).Accepted? && Ordered(Parse(tokens).ctx.nodes) && |Parse(tokens).ctx.nodes| > 0
        && Tree(Parse(tokens).ctx.nodes, ROOT) == Setting(None, AggV(Group, Items(d)))
      else Parse(tokens).ActionFailure?
  {
    var c := InitialContext;
    InitialAt();
    ParseFollowsDerivation(d, tokens);
    AggregateIsWellFormed(Group, Items(d));
    ExecItems(d, NoVal, c, ROOT, Group);
    hide Exec, Items, FitAll, WellFormed, Parse, Valid, Yield, Need, Derives, Ordered, At, Children;
    if FitAll(Group, [], Items(d)) {
      BuiltRoot(Exec(d, NoVal, c), Items(d));
    }
  }

  /** The language of configuration files: a text is accepted exactly when some derivation of it fits the
      stack and denotes a tree without repeated names and mixed arrays. */
  lemma AcceptedWhenWellFormed(tokens: seq<Token>)
    requires TokenList(tokens)
    ensures Parse(tokens).Accepted? <==>
      exists d: Deriv :: Derives(d, tokens) && Need(d) + 1 < YYMAXDEPTH && WellFormed(AggV(Group, Items(d)))
  {
    hide Parse, Derives, Need, Exec, WellFormed, Items, Tree, Ordered;
    AcceptedExactly(tokens);
    forall d: Deriv | Derives(d, tokens) && Need(d) + 1 < YYMAXDEPTH
      ensures Parse(tokens).Accepted? <==> WellFormed(AggV(Group, Items(d)))
    {
      ParseBuildsTree(d, tokens);
    }
  }

  lemma InitialAt()
    ensures At(InitialContext, ROOT, Group) && Children(InitialContext.nodes, ROOT) == []
  {}

  lemma BuiltRoot(e: Eval, xs: seq<Setting>)
    requires Adds(e, InitialContext, ROOT, xs)
    ensures e.Ok? && Ordered(e.ctx.nodes) && |e.ctx.nodes| > 0
    ensures Tree(e.ctx.nodes, ROOT) == Setting(None, AggV(Group, xs))
  {
    InitialAt();
    GrownChildren(InitialContext.nodes, e.ctx.nodes, ROOT, xs);
    AggregateTree(e.ctx.nodes, ROOT);
    assert [] + xs == xs;
  }
}
