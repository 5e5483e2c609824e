/** However malformed its input, the parser never follows a null or dangling pointer. */
module ParserSafety {
  import opened LalrTables
  import opened LalrItems
  import opened Parser
  import opened Grammar
  import opened Completeness
  import opened TreeBuilding
  import opened Growth
  import opened ConfigTree
  import opened ConfigOps

  // ----- where the context stands in each state of the automaton

  ghost predicate InAggregate(c: Context, kind: Kind) {
    c.parent.Some? && At(c, c.parent.value, kind)
  }

  ghost predicate OnSetting(c: Context) {
    c.setting.Some? && AtSetting(c, c.setting.value)
  }

  ghost predicate CanPut(c: Context) {
    InAggregate(c, Array) || InAggregate(c, List) || OnSetting(c)
  }

  ghost predicate CanOpen(c: Context) {
    InAggregate(c, List) || OnSetting(c)
  }

  ghost predicate Place(s: int, c: Context) {
    if s in {0, 1, 3, 27, 38, 39, 44} then InAggregate(c, Group)
    else if s in {25, 33, 34, 40, 41} then InAggregate(c, Array)
    else if s in {26, 36, 37, 42, 43} then InAggregate(c, List)
    else if s in {5, 8} then OnSetting(c)
    else if s in {16, 17, 18} then CanOpen(c)
    else if 9 <= s <= 14 then CanPut(c)
    else if s in {15, 22, 31} then CanPut(c.(text := ""))
    else true
  }

  /** The kind of aggregate a state before a value or list stands in. */
  predicate ShiftsScalars(s: int) { s in {8, 25, 26, 40, 42} }

  lemma ScalarPlace(q: int, c: Context)
    requires ShiftsScalars(q) && Place(q, c)
    ensures CanPut(c) && c.text == ""
  {}

  /** A token on the stack leaves the context alone. */
  lemma LeafPlace(q: int, s: int, c: Context)
    requires q in Preds(s) && IsState(s) && 0 < YyStos(s) < YYNTOKENS && Place(q, c)
    ensures Place(s, c)
  {
    if ShiftsScalars(q) { ScalarPlace(q, c); }
    if s in {15} { assert c.(text := "") == c; }
  }

  /** A list completed in a state where it may start leaves the context in the same aggregate. */
  lemma ListPlace(d: Deriv, below: SemVal, c: Context, kind: Kind)
    requires Valid(d) && Lists(Sym(d), kind) && InAggregate(c, kind) && Exec(d, below, c).Ok?
    ensures InAggregate(Exec(d, below, c).ctx, kind)
  {
    hide Exec, Lists, Items;
    var p := c.parent.value;
    ExecItems(d, below, c, p, kind);
    assert FitAll(kind, Children(c.nodes, p), Items(d));
    StillAt(c, Exec(d, below, c), p, kind, Items(d));
  }

  lemma OpenPlace(r: nat, below: SemVal, c: Context, kind: Kind)
    requires CanOpen(c) && ((r == 13 && kind == Array) || (r == 15 && kind == List) || (r == 38 && kind == Group))
    ensures Perform(r, [], below, c).Ok? && InAggregate(Perform(r, [], below, c).ctx, kind)
  {
    if InAggregate(c, List) { OpenInList(c, c.parent.value, kind); } else { OpenAtSetting(c, c.setting.value, kind); }
  }

  lemma NamePlace(name: string, c: Context)
    requires InAggregate(c, Group) && BeginSetting(c, name).Done?
    ensures OnSetting(BeginSetting(c, name).ctx)
  {
    BeginEffect(c, c.parent.value, name);
  }

  lemma StringPlace(d: Deriv, below: SemVal, c: Context)
    requires Valid(d) && Sym(d) == N_STRING && CanPut(c) && c.text == ""
    ensures Exec(d, below, c).Ok? && CanPut(Exec(d, below, c).ctx.(text := ""))
  {
    hide CanPut;
    ExecString(d, below, c);
    assert Exec(d, below, c).ctx.(text := "") == c;
  }

  /** The nonterminals after which the context still matters, and the states before them. */
  lemma NonterminalEdges(q: int, s: int)
    requires q in Preds(s) && IsState(s) && YyStos(s) >= YYNTOKENS
    ensures s == 5 ==> q == 1 && YyStos(s) == 29
    ensures s == 25 ==> q == 16 && YyStos(s) == 31
    ensures s == 26 ==> q == 17 && YyStos(s) == 33
    ensures s == 27 ==> q == 18 && YyStos(s) == 42
    ensures s in {33, 34} ==> q == 25 && Lists(YyStos(s), Array)
    ensures s in {36, 37} ==> q == 26 && Lists(YyStos(s), List)
    ensures s in {3, 38, 39} ==> q in {0, 27} && Lists(YyStos(s), Group)
    ensures s == 22 ==> ShiftsScalars(q) && YyStos(s) == N_STRING
    ensures s !in {0, 1, 8, 40, 41, 42, 43, 44, 15, 31} && !(9 <= s <= 18)
  {}

  lemma EmptyRuleOf(d: Deriv)
    requires Valid(d) && Sym(d) in {29, 31, 33, 42}
    ensures
      var r := if Sym(d) == 29 then 11 else if Sym(d) == 31 then 13 else if Sym(d) == 33 then 15 else 38;
      d == Rule(r, [])
  {
    SymbolOfRule(d);
    EmptyRule(d);
  }

  /** Each transition carries the context from its place to the next one. */
  lemma NextPlace(q: int, s: int, d: Deriv, below: SemVal, c: Context)
    requires q in Preds(s) && IsState(s) && IsState(q) && Sym(d) == YyStos(s) && Place(q, c)
    requires Valid(d) && Exec(d, below, c).Ok?
    ensures Place(s, Exec(d, below, c).ctx)
  {
    SymbolOfRule(d);
    hide Exec, Act, Preds, YyStos, YyR1, CanPut, OnSetting, InAggregate, Lists;
    var c' := Exec(d, below, c).ctx;
    if d.Leaf? {
      ExecLeaf(d, below, c);
      LeafPlace(q, s, c);
    } else {
      NonterminalEdges(q, s);
      if s == 5 {
        EmptyRuleOf(d);
        ExecEmpty(d, below, c);
        PerformName(below, c);
      } else if s == 25 { OpenedPlace(d, below, c, 13, Array);
      } else if s == 26 { OpenedPlace(d, below, c, 15, List);
      } else if s == 27 { OpenedPlace(d, below, c, 38, Group);
      } else if s in {33, 34} { ListPlace(d, below, c, Array);
      } else if s in {36, 37} { ListPlace(d, below, c, List);
      } else if s in {3, 38, 39} { ListPlace(d, below, c, Group);
      } else if s == 22 {
        ScalarPlace(q, c);
        StringPlace(d, below, c);
      }
    }
  }

  lemma PerformName(below: SemVal, c: Context)
    requires InAggregate(c, Group) && Perform(11, [], below, c).Ok?
    ensures OnSetting(Perform(11, [], below, c).ctx)
  {
    hide InAggregate, OnSetting, BeginSetting;
    NamePlace(below.s, c);
  }

  lemma OpenedPlace(d: Deriv, below: SemVal, c: Context, r: nat, kind: Kind)
    requires Valid(d) && Sym(d) == (if r == 13 then 31 else if r == 15 then 33 else 42) && CanOpen(c)
    requires (r == 13 && kind == Array) || (r == 15 && kind == List) || (r == 38 && kind == Group)
    ensures Exec(d, below, c).Ok? && InAggregate(Exec(d, below, c).ctx, kind)
  {
    hide CanOpen, InAggregate, Perform, Exec;
    EmptyRuleOf(d);
    ExecEmpty(d, below, c);
    OpenPlace(r, below, c, kind);
  }

  // ----- the whole stack

  /** The values and the context are what the derivations on the stack evaluate to. */
  ghost predicate Evaluated(m: Machine, forest: seq<Deriv>) {
    Explains(m, forest) && ExecAll(forest, NoVal, InitialContext) == Oks(m.vals, m.ctx)
  }

  lemma ExecNone(below: SemVal, c: Context)
    ensures ExecAll([], below, c) == Oks([], c)
  {}

  lemma {:induction false} ExecSnoc(ds: seq<Deriv>, d: Deriv, below: SemVal, c: Context)
    ensures
      var e := ExecAll(ds, below, c);
      ExecAll(ds + [d], below, c) ==
        if e.Fails? then e
        else
          var f := Exec(d, if e.vals == [] then below else e.vals[|e.vals| - 1], e.ctx);
          if f.Fail? then Fails(f.outcome) else Oks(e.vals + [f.val], f.ctx)
  {
    hide Exec, ExecAll;
    if ds == [] {
      assert [] + [d] == [d];
      ExecNone(below, c);
      ExecOne([d], below, c);
    } else {
      assert (ds + [d])[1..] == ds[1..] + [d] && (ds + [d])[0] == ds[0];
      ExecCons(ds, below, c);
      ExecCons(ds + [d], below, c);
      var e := Exec(ds[0], below, c);
      if e.Ok? {
        ExecSnoc(ds[1..], d, e.val, e.ctx);
        var f := ExecAll(ds[1..], e.val, e.ctx);
        if f.Oks? { assert ([e.val] + f.vals)[|f.vals|] == (if f.vals == [] then e.val else f.vals[|f.vals| - 1]); }
      }
    }
  }

  /** Every state on an evaluated stack has its place. */
  lemma {:induction false} StackPlace(states: seq<nat>, forest: seq<Deriv>)
    requires Linked(states) && (forall i | 0 <= i < |states| :: IsState(states[i])) && |forest| == |states| - 1
    requires forall i | 0 <= i < |forest| :: Sym(forest[i]) == YyStos(states[i + 1]) && Valid(forest[i])
    requires ExecAll(forest, NoVal, InitialContext).Oks?
    ensures Place(states[|states| - 1], ExecAll(forest, NoVal, InitialContext).ctx)
    decreases |states|
  {
    var k := |forest|;
    if k == 0 {
      assert Children(InitialContext.nodes, ROOT) == [];
    } else {
      hide Place, Preds, YyStos, Valid, Exec, ExecAll;
      assert forest == forest[..k - 1] + [forest[k - 1]];
      ExecSnoc(forest[..k - 1], forest[k - 1], NoVal, InitialContext);
      StackPlace(states[..k], forest[..k - 1]);
      var e := ExecAll(forest[..k - 1], NoVal, InitialContext);
      NextPlace(states[k - 1], states[k], forest[k - 1], if e.vals == [] then NoVal else e.vals[|e.vals| - 1], e.ctx);
    }
  }

  /** A token on the stack carries its own value. */
  lemma {:induction false} LeafValue(ds: seq<Deriv>, i: nat, below: SemVal, c: Context)
    requires i < |ds| && ds[i].Leaf? && ExecAll(ds, below, c).Oks?
    ensures |ExecAll(ds, below, c).vals| == |ds| && ExecAll(ds, below, c).vals[i] == ds[i].tok.val
  {
    hide Exec;
    ExecCons(ds, below, c);
    var e := Exec(ds[0], below, c);
    if i == 0 {
      ExecLeaf(ds[0], below, c);
      ValueCount(ds[1..], e.val, e.ctx);
    } else {
      LeafValue(ds[1..], i - 1, e.val, e.ctx);
    }
  }

  lemma {:induction false} ValueCount(ds: seq<Deriv>, below: SemVal, c: Context)
    requires ExecAll(ds, below, c).Oks?
    ensures |ExecAll(ds, below, c).vals| == |ds|
  {
    hide Exec;
    if ds != [] {
      var e := Exec(ds[0], below, c);
      ValueCount(ds[1..], e.val, e.ctx);
    }
  }

  lemma PutNoFault(c: Context, v: Value)
    requires CanPut(c) && ScalarKind(v) != 0
    ensures !PutScalar(c, v).Fault?
  {
    if InAggregate(c, Array) { PutElement(c, c.parent.value, Array, v); }
    else if InAggregate(c, List) { PutElement(c, c.parent.value, List, v); }
    else { PutValue(c, c.setting.value, v); }
  }

  lemma OpenNoFault(c: Context, kind: Kind)
    requires CanOpen(c)
    ensures !OpenAggregate(c, kind).Fault?
  {
    if InAggregate(c, List) { OpenInList(c, c.parent.value, kind); } else { OpenAtSetting(c, c.setting.value, kind); }
  }

  lemma CloseNoFault(c: Context, kind: Kind)
    requires InAggregate(c, kind)
    ensures !CloseAggregate(c).Fault?
  {}

  lemma BeginNoFault(c: Context, name: string)
    requires InAggregate(c, Group)
    ensures !BeginSetting(c, name).Fault?
  {
    BeginEffect(c, c.parent.value, name);
  }

  /** The values the token rules read have the types they expect. */
  predicate TypedArgs(s: int, args: seq<SemVal>, below: SemVal) {
    && (s == 1 ==> below.SVal?)
    && (s == 15 ==> |args| == 1 && args[0].SVal?)
    && (s == 31 ==> |args| == 2 && args[1].SVal?)
    && (s in {9, 10, 11} ==> |args| == 1 && args[0].IVal?)
    && (s in {12, 13} ==> |args| == 1 && args[0].LVal?)
    && (s == 14 ==> |args| == 1 && args[0].FVal?)
  }

  /** In its place, the action of a reduction never faults. */
  lemma ActionInPlace(s: int, args: seq<SemVal>, below: SemVal, c: Context)
    requires IsState(s) && s != YYFINAL && YyDefact(s) != 0 && Place(s, c) && TypedArgs(s, args, below)
    ensures !Act(YyDefact(s), args, below, c).Fault?
  {
    hide PutScalar, OpenAggregate, CloseAggregate, BeginSetting, CanPut, CanOpen, InAggregate, OnSetting;
    if s == 1 { BeginNoFault(c, below.s); }
    else if s == 16 { OpenNoFault(c, Array); }
    else if s == 17 { OpenNoFault(c, List); }
    else if s == 18 { OpenNoFault(c, Group); }
    else if s == 41 { CloseNoFault(c, Array); }
    else if s == 43 { CloseNoFault(c, List); }
    else if s == 44 { CloseNoFault(c, Group); }
    else if s == 22 { PutNoFault(c.(text := ""), StringV(c.text)); }
    else if 9 <= s <= 11 {
      PutNoFault(c, BoolV(args[0].i));
      PutNoFault(c, IntV(args[0].i, FORMAT_DEFAULT));
      PutNoFault(c, IntV(args[0].i, FORMAT_HEX));
    } else if 12 <= s <= 13 {
      PutNoFault(c, Int64V(args[0].l, FORMAT_DEFAULT));
      PutNoFault(c, Int64V(args[0].l, FORMAT_HEX));
    } else if s == 14 { PutNoFault(c, FloatV(args[0].f)); }
  }

  lemma {:induction false} ExecSplit(ds: seq<Deriv>, es: seq<Deriv>, below: SemVal, c: Context)
    ensures
      var e := ExecAll(ds, below, c);
      ExecAll(ds + es, below, c) ==
        if e.Fails? then e
        else
          var f := ExecAll(es, if e.vals == [] then below else e.vals[|e.vals| - 1], e.ctx);
          if f.Fails? then f else Oks(e.vals + f.vals, f.ctx)
    decreases |es|
  {
    hide Exec;
    var e := ExecAll(ds, below, c);
    if es == [] {
      assert ds + es == ds;
      if e.Oks? { assert e.vals + [] == e.vals; }
    } else {
      assert ds + es == (ds + [es[0]]) + es[1..];
      ExecSplit(ds + [es[0]], es[1..], below, c);
      ExecSnoc(ds, es[0], below, c);
      if e.Oks? {
        var v := if e.vals == [] then below else e.vals[|e.vals| - 1];
        ExecCons(es, v, e.ctx);
        var f := Exec(es[0], v, e.ctx);
        if f.Ok? {
          var g := ExecAll(es[1..], f.val, f.ctx);
          if g.Oks? { assert (e.vals + [f.val]) + g.vals == e.vals + ([f.val] + g.vals); }
        }
      }
    }
  }

  /** Below the final state, only proper derivations are on the stack. */
  lemma NoEndBelow(m: Machine, forest: seq<Deriv>)
    requires Explains(m, forest) && m.Top() != YYFINAL
    ensures forall i | 0 <= i < |forest| :: Valid(forest[i])
  {
    forall i | 0 <= i < |forest| ensures Valid(forest[i]) {
      if forest[i] == Leaf(END_TOKEN) {
        EndState(m.states, i + 1);
      }
    }
  }

  lemma EndState(states: seq<nat>, k: nat)
    requires Linked(states) && 0 < k < |states| && IsState(states[k]) && YyStos(states[k]) == T_END
    ensures k == |states| - 1 && states[k] == YYFINAL
  {
    assert states[k - 1] in Preds(states[k]);
    assert states[k] == YYFINAL;
    if k + 1 < |states| { NotFromFinal(states[k + 1]); }
  }

  lemma NotFromFinal(s: int)
    ensures YYFINAL !in Preds(s)
  {}

  predicate TokenState(s: int) { s == 1 || 9 <= s <= 15 || s == 31 }

  lemma TokenStates(s: int)
    requires TokenState(s)
    ensures 0 < YyStos(s) < YYNTOKENS && YyDefact(s) != 0
    ensures YyR2(YyDefact(s)) == (if s == 1 then 0 else if s == 31 then 2 else 1)
    ensures YyStos(s) == (if s == 1 then T_NAME else if s == 31 then T_STRING else s - 6)
  {}

  /** The token below or at the top of the stack is typed as the next action expects. */
  lemma StackTyped(m: Machine, forest: seq<Deriv>)
    requires Evaluated(m, forest) && m.Top() != YYFINAL && YyDefact(m.Top()) != 0
    requires 0 <= YyR2(YyDefact(m.Top())) < |m.states|
    ensures TypedArgs(m.Top(), Args(m, YyDefact(m.Top())), m.Below())
  {
    var s := m.Top();
    NoEndBelow(m, forest);
    hide Valid, ExecAll, Linked, YyStos, YyDefact, YyR2;
    if TokenState(s) {
      TokenStates(s);
      StartIsSilent();
      var k := |forest| - 1;
      LeafOf(forest[k]);
      LeafValue(forest, k, NoVal, InitialContext);
    }
  }

  lemma StartIsSilent()
    ensures YyStos(0) == 0
  {}

  lemma LeafOf(d: Deriv)
    requires Valid(d) && Sym(d) < YYNTOKENS
    ensures d.Leaf? && WellTyped(d.tok) && d.tok.kind == Sym(d)
  {
    SymbolOfRule(d);
  }

  lemma ReduceEvaluates(m: Machine, forest: seq<Deriv>, r: nat, c: Context)
    requires Evaluated(m, forest) && m.Top() != YYFINAL && r == YyDefact(m.Top()) && r != 0
    requires 0 <= YyR2(r) < |m.states| && Act(r, Args(m, r), m.Below(), m.ctx) == Done(c)
    requires Goto(Uncovered(m, r), YyR1(r)) >= 0 && Explains(Reduced(m, r, c), Joined(m, forest, r))
    ensures Evaluated(Reduced(m, r, c), Joined(m, forest, r))
  {
    hide Explains, ExecAll, Exec, Act, YyDefact, YyR1, YyR2, Goto, Uncovered, Valid;
    ExplainsValid(m, forest);
    var base := |m.vals| - YyR2(r);
    var a, b := forest[..base], forest[base..];
    assert forest == a + b;
    ExecSplit(a, b, NoVal, InitialContext);
    var e := ExecAll(a, NoVal, InitialContext);
    ValueCount(a, NoVal, InitialContext);
    var v := if e.vals == [] then NoVal else e.vals[|e.vals| - 1];
    ValueCount(b, v, e.ctx);
    assert ExecAll(b, v, e.ctx).vals == m.vals[base..] && e.vals == m.vals[..base];
    ExecRule(Rule(r, b), v, e.ctx);
    ExecSnoc(a, Rule(r, b), NoVal, InitialContext);
  }

  /** One turn of the driver neither crashes nor loses track. */
  lemma StepSafe(m: Machine, forest: seq<Deriv>) returns (forest': seq<Deriv>)
    requires Evaluated(m, forest)
    ensures Step(m) != Stop(Crash)
    ensures Step(m).Go? ==> Evaluated(Step(m).next, forest')
  {
    hide Preds, YyStos, YyR1, YyR2, YyDefact, Goto, Act, Action, Rank, Reduced, Joined, Args, Uncovered, Explains, Place, TypedArgs, ExecAll, Exec, Valid;
    forest' := forest;
    ExplainsValid(m, forest);
    HeadIsToken(m.rest);
    var top, tok := m.Top(), Head(m.rest);
    if |m.states| < YYMAXDEPTH && top != YYFINAL {
      match Action(top, tok.kind)
      case SyntaxError =>
      case Shift(s) =>
        ShiftEnters(top, tok.kind);
        ShiftExplains(m, forest, s);
        ExecSnoc(forest, Leaf(tok), NoVal, InitialContext);
        ExecLeaf(Leaf(tok), if m.vals == [] then NoVal else m.vals[|m.vals| - 1], m.ctx);
        forest' := forest + [Leaf(tok)];
      case Reduce(r) =>
        ActionReduces(top, tok.kind);
        ReducedValid(m, tok.kind, m.ctx);
        ReduceExplains(m, forest, r, m.ctx);
        StackTyped(m, forest);
        EvaluatedPlace(m, forest);
        ActionInPlace(top, Args(m, r), m.Below(), m.ctx);
        var a := Act(r, Args(m, r), m.Below(), m.ctx);
        if a.Done? {
          ReducedValid(m, tok.kind, a.ctx);
          ReduceExplains(m, forest, r, a.ctx);
          ReduceEvaluates(m, forest, r, a.ctx);
          forest' := Joined(m, forest, r);
        }
    }
  }

  lemma EvaluatedPlace(m: Machine, forest: seq<Deriv>)
    requires Evaluated(m, forest) && m.Top() != YYFINAL
    ensures Place(m.Top(), m.ctx)
  {
    NoEndBelow(m, forest);
    StackPlace(m.states, forest);
  }

  lemma {:induction false} RunSafe(m: Machine, forest: seq<Deriv>)
    requires Evaluated(m, forest)
    ensures !Run(m).Crash?
    decreases |m.rest|, Rank(m.Top())
  {
    hide Step, Explains, ExecAll;
    ExplainsValid(m, forest);
    var forest' := StepSafe(m, forest);
    if Step(m).Go? {
      StepProgress(m);
      RunSafe(Step(m).next, forest');
    }
  }

  /** No run of the driver ends by following a null or dangling pointer, whatever the tokens. */
  lemma ParseNeverCrashes(tokens: seq<Token>)
    requires TokenList(tokens)
    ensures !Parse(tokens).Crash?
  {
    RunSafe(InitialMachine(tokens), []);
  }
}
