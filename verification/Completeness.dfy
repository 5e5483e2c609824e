/** Running the driver over the yield of a derivation performs the actions of its rules, left to
    right and bottom up: the automaton accepts every derivable list that fits its stack. */
module Completeness {
  import opened LalrTables
  import opened LalrItems
  import opened Parser
  import opened Grammar
  import opened ConfigTree

  // ----- the actions of a derivation, without any stack

  datatype Eval = Ok(val: SemVal, ctx: Context) | Fail(outcome: Outcome)
  datatype EvalAll = Oks(vals: seq<SemVal>, ctx: Context) | Fails(outcome: Outcome)

  /** Post-order evaluation; `below` is the value just left of the derivation. */
  function Exec(d: Deriv, below: SemVal, c: Context): Eval {
    match d
    case Leaf(tok) => Ok(tok.val, c)
    case Rule(r, kids) =>
      match ExecAll(kids, below, c)
      case Fails(o) => Fail(o)
      case Oks(vals, c') => Perform(r, vals, below, c')
  }

  function ExecAll(ds: seq<Deriv>, below: SemVal, c: Context): EvalAll {
    if ds == [] then Oks([], c)
    else
      match Exec(ds[0], below, c)
      case Fail(o) => Fails(o)
      case Ok(v, c') =>
        match ExecAll(ds[1..], v, c')
        case Fails(o) => Fails(o)
        case Oks(vs, c'') => Oks([v] + vs, c'')
  }

  function Perform(r: nat, vals: seq<SemVal>, below: SemVal, c: Context): Eval {
    match Act(r, vals, if vals == [] then below else vals[|vals| - 1], c)
    case Done(c') => Ok(DefaultValue(vals), c')
    case Rejected(c', msg) => Fail(ActionFailure(c', msg))
    case Fault => Fail(Crash)
  }

  /** How much room on the stack the derivation takes while it is being parsed. */
  function Need(d: Deriv): nat {
    match d
    case Leaf(_) => 1
    case Rule(_, kids) => Max(1, NeedAll(kids))
  }

  function NeedAll(ds: seq<Deriv>): nat {
    if ds == [] then 0 else Max(Need(ds[0]), 1 + NeedAll(ds[1..]))
  }

  function Max(a: nat, b: nat): nat { if a < b then b else a }

  // ----- first tokens

  lemma {:induction false} FirstToken(d: Deriv)
    requires Valid(d)
    ensures Sym(d) < YYNTOKENS ==> Yield(d) != [] && Yield(d)[0].kind == Sym(d)
    ensures Sym(d) == N_SETTING ==> Yield(d) != [] && Yield(d)[0].kind == T_NAME
    ensures Sym(d) == N_TERMINATOR ==> Yield(d) == [] || Yield(d)[0].kind == T_COMMA || Yield(d)[0].kind == T_SEMICOLON
  {
    match d
    case Leaf(_) =>
    case Rule(r, kids) =>
      if r == 12 || r == 9 || r == 10 {
        assert Rhs(12)[0] == T_NAME && Rhs(9)[0] == T_SEMICOLON && Rhs(10)[0] == T_COMMA;
        FirstToken(kids[0]);
      } else if r == 8 {
        assert kids == [];
      }
  }

  lemma {:induction false} YieldTokens(d: Deriv)
    requires Valid(d)
    ensures TokenList(Yield(d))
  {
    match d
    case Leaf(_) =>
    case Rule(_, kids) => YieldAllTokens(kids);
  }

  lemma {:induction false} YieldAllTokens(ds: seq<Deriv>)
    requires forall i | 0 <= i < |ds| :: Valid(ds[i])
    ensures TokenList(YieldAll(ds))
  {
    if ds != [] {
      YieldTokens(ds[0]);
      YieldAllTokens(ds[1..]);
    }
  }

  // ----- the driver follows the derivation

  /** The stack after the symbol of `d` has been pushed. */
  function After(m: Machine, d: Deriv, v: SemVal, rest: seq<Token>, c: Context): Machine
    requires |m.states| > 0 && Next(m.Top(), Sym(d)) >= 0
  {
    Machine(m.states + [Next(m.Top(), Sym(d))], m.vals + [v], rest, c)
  }

  /** `n` is `m` with a stretch of a rule pushed. */
  predicate Extends(m: Machine, n: Machine, vals: seq<SemVal>) {
    && |n.states| == |m.states| + |vals| && |m.states| == |m.vals| + 1
    && n.states[..|m.states|] == m.states
    && n.vals == m.vals + vals
  }

  /** No child of a rule is followed by a lookahead that clashes with it. */
  lemma ChildLookahead(d: Deriv, i: nat, rest: seq<Token>)
    requires Valid(d) && d.Rule? && i < |d.kids| && TokenList(rest)
    requires !Clashes(Sym(d), Head(rest).kind)
    ensures !Clashes(Sym(d.kids[i]), Head(YieldAll(d.kids[i + 1..]) + rest).kind)
  {
    hide Clashes, Rhs, YyR1;
    var r, kids := d.rule, d.kids;
    if i == |kids| - 1 {
      assert YieldAll(kids[i + 1..]) + rest == rest;
      LastLookahead(r, Head(rest).kind);
    } else {
      var next := kids[i + 1];
      FirstToken(next);
      YieldTokens(next);
      assert kids[i + 1..][1..] == kids[i + 2..];
      assert YieldAll(kids[i + 1..]) == Yield(next) + YieldAll(kids[i + 2..]);
      if Sym(next) == N_TERMINATOR {
        TerminatorIsLast(r, i + 1);
        assert kids[i + 2..] == [];
      }
      InnerLookahead(r, i, Head(YieldAll(kids[i + 1..]) + rest).kind);
    }
  }

  /** Parsing the yield of a derivation that may start in the top state. */
  lemma {:induction false} RunDerivation(d: Deriv, m: Machine, rest: seq<Token>)
    requires m.Valid() && Valid(d) && m.rest == Yield(d) + rest && TokenList(rest)
    requires |m.states| + Need(d) < YYMAXDEPTH
    requires d.Rule? && Item(m.Top(), d.rule, 0) && !Clashes(Sym(d), Head(rest).kind)
    ensures IsState(Next(m.Top(), Sym(d)))
    ensures
      match Exec(d, m.Below(), m.ctx)
      case Ok(v, c) => After(m, d, v, rest, c).Valid() && Run(m) == Run(After(m, d, v, rest, c))
      case Fail(o) => Run(m) == o
    decreases d, 1, 0
  {
    hide Clashes, Rhs, YyR1, YyR2, Act, Action, Entries, Kernel, Preds, YyStos, Goto, Run;
    var r, kids := d.rule, d.kids;
    assert kids[0..] == kids;
    var n := RunKids(d, 0, m, rest);
    RuleLengths(r);
    GotoEntered(m.Top(), YyR1(r));
    match ExecAll(kids, m.Below(), m.ctx)
    case Fails(_) =>
    case Oks(vals, c) =>
      HeadIsToken(rest);
      EndOfRuleReduces(n.Top(), r, Head(rest).kind);
      FinalHasNoItem(r, |kids|);
      NeedsOnePerChild(kids);
      RunReduce(n, r);
      assert Args(n, r) == vals;
      assert Uncovered(n, r) == m.Top();
      forall c' ensures Reduced(n, r, c') == After(m, d, DefaultValue(vals), rest, c') {}
  }

  /** One child: a token is shifted, a nonterminal is parsed. */
  lemma {:induction false} RunChild(d: Deriv, i: nat, m: Machine, rest: seq<Token>)
    requires m.Valid() && Valid(d) && d.Rule? && i < |d.kids|
    requires m.rest == Yield(d.kids[i]) + rest && TokenList(rest)
    requires |m.states| + Need(d.kids[i]) < YYMAXDEPTH
    requires Item(m.Top(), d.rule, i) && !Clashes(Sym(d.kids[i]), Head(rest).kind)
    ensures IsState(Next(m.Top(), Sym(d.kids[i]))) && Item(Next(m.Top(), Sym(d.kids[i])), d.rule, i + 1)
    ensures
      match Exec(d.kids[i], m.Below(), m.ctx)
      case Ok(v, c) => After(m, d.kids[i], v, rest, c).Valid() && Run(m) == Run(After(m, d.kids[i], v, rest, c))
      case Fail(o) => Run(m) == o
    decreases d, 0, 0
  {
    hide Clashes, Rhs, YyR1, YyR2, Act, Action, Entries, Kernel, Preds, YyStos, Goto, Run;
    var kid := d.kids[i];
    ItemForward(m.Top(), d.rule, i);
    FinalHasNoItem(d.rule, i);
    match kid
    case Leaf(tok) =>
      assert Head(m.rest) == tok && Tail(m.rest) == rest;
      RunShift(m, Next(m.Top(), Sym(kid)));
    case Rule(r, _) =>
      RuleLengths(r);
      LeftSides(r);
      GotoEdgeEnters(m.Top(), Sym(kid));
      RunDerivation(kid, m, rest);
  }

  /** Parsing the children of `d` from number `i` on. */
  lemma {:induction false} RunKids(d: Deriv, i: nat, m: Machine, rest: seq<Token>) returns (n: Machine)
    requires m.Valid() && Valid(d) && d.Rule? && i <= |d.kids|
    requires m.rest == YieldAll(d.kids[i..]) + rest && TokenList(rest)
    requires |m.states| + NeedAll(d.kids[i..]) < YYMAXDEPTH
    requires Item(m.Top(), d.rule, i) && !Clashes(Sym(d), Head(rest).kind)
    ensures
      match ExecAll(d.kids[i..], m.Below(), m.ctx)
      case Oks(vals, c) =>
        && |vals| == |d.kids| - i && Extends(m, n, vals) && n.rest == rest && n.ctx == c
        && n.Valid() && Item(n.Top(), d.rule, |d.kids|) && Run(m) == Run(n)
      case Fails(o) => Run(m) == o
    decreases d, 0, |d.kids| - i + 1
  {
    hide Clashes, Rhs, YyR1, YyR2, Act, Item, Next, Run, Need, YieldAll;
    n := m;
    if i == |d.kids| {
      assert d.kids[i..] == [];
      YieldNothing();
    } else {
      var kid, ds := d.kids[i], d.kids[i..];
      assert ds[1..] == d.kids[i + 1..];
      var rest' := YieldAll(ds[1..]) + rest;
      YieldAllTokens(ds[1..]);
      assert m.rest == Yield(kid) + rest' by { YieldFirst(ds); Associate(Yield(kid), YieldAll(ds[1..]), rest); }
      ChildLookahead(d, i, rest);
      RunChild(d, i, m, rest');
      match Exec(kid, m.Below(), m.ctx)
      case Fail(_) =>
      case Ok(v, c) =>
        var m' := After(m, kid, v, rest', c);
        n := RunKids(d, i + 1, m', rest);
    }
  }

  lemma {:induction false} NeedsOnePerChild(ds: seq<Deriv>)
    ensures |ds| <= NeedAll(ds)
  {
    if ds != [] { NeedsOnePerChild(ds[1..]); }
  }

  lemma YieldNothing()
    ensures YieldAll([]) == []
  {}

  lemma YieldFirst(ds: seq<Deriv>)
    requires ds != []
    ensures YieldAll(ds) == Yield(ds[0]) + YieldAll(ds[1..])
  {}

  // ----- a derivation too deep for the stack is not accepted

  lemma FullStackStops(m: Machine)
    requires m.Valid() && |m.states| >= YYMAXDEPTH
    ensures !Run(m).Accepted?
  {}

  lemma {:induction false} DeepDerivation(d: Deriv, m: Machine, rest: seq<Token>)
    requires m.Valid() && Valid(d) && m.rest == Yield(d) + rest && TokenList(rest)
    requires |m.states| + Need(d) >= YYMAXDEPTH
    requires d.Rule? && Item(m.Top(), d.rule, 0) && !Clashes(Sym(d), Head(rest).kind)
    ensures !Run(m).Accepted?
    decreases d, 1, 0
  {
    hide Clashes, Rhs, YyR1, YyR2, Act, Action, Entries, Kernel, Preds, YyStos, Goto, Run;
    var r, kids := d.rule, d.kids;
    assert kids[0..] == kids;
    if |m.states| >= YYMAXDEPTH {
      FullStackStops(m);
    } else if |m.states| + NeedAll(kids) >= YYMAXDEPTH {
      DeepKids(d, 0, m, rest);
    } else {
      // the rule is empty: its symbol does not fit
      NeedsOnePerChild(kids);
      RuleLengths(r);
      HeadIsToken(rest);
      assert m.rest == rest;
      EndOfRuleReduces(m.Top(), r, Head(rest).kind);
      FinalHasNoItem(r, 0);
      RunReduce(m, r);
      var a := Act(r, Args(m, r), m.Below(), m.ctx);
      if a.Done? { FullStackStops(Reduced(m, r, a.ctx)); }
    }
  }

  lemma {:induction false} DeepChild(d: Deriv, i: nat, m: Machine, rest: seq<Token>)
    requires m.Valid() && Valid(d) && d.Rule? && i < |d.kids|
    requires m.rest == Yield(d.kids[i]) + rest && TokenList(rest)
    requires |m.states| < YYMAXDEPTH <= |m.states| + Need(d.kids[i])
    requires Item(m.Top(), d.rule, i) && !Clashes(Sym(d.kids[i]), Head(rest).kind)
    ensures !Run(m).Accepted?
    decreases d, 0, 0
  {
    hide Clashes, Rhs, YyR1, YyR2, Act, Action, Entries, Kernel, Preds, YyStos, Goto, Run;
    var kid := d.kids[i];
    ItemForward(m.Top(), d.rule, i);
    FinalHasNoItem(d.rule, i);
    match kid
    case Leaf(tok) =>
      assert Head(m.rest) == tok && Tail(m.rest) == rest;
      RunShift(m, Next(m.Top(), Sym(kid)));
      FullStackStops(Shifted(m, Next(m.Top(), Sym(kid))));
    case Rule(r, _) =>
      RuleLengths(r);
      LeftSides(r);
      GotoEdgeEnters(m.Top(), Sym(kid));
      DeepDerivation(kid, m, rest);
  }

  lemma {:induction false} DeepKids(d: Deriv, i: nat, m: Machine, rest: seq<Token>)
    requires m.Valid() && Valid(d) && d.Rule? && i <= |d.kids|
    requires m.rest == YieldAll(d.kids[i..]) + rest && TokenList(rest)
    requires |m.states| + NeedAll(d.kids[i..]) >= YYMAXDEPTH
    requires Item(m.Top(), d.rule, i) && !Clashes(Sym(d), Head(rest).kind)
    ensures !Run(m).Accepted?
    decreases d, 0, |d.kids| - i + 1
  {
    hide Clashes, Rhs, YyR1, YyR2, Act, Item, Next, Run, Need, YieldAll;
    if |m.states| >= YYMAXDEPTH {
      FullStackStops(m);
    } else {
      var kid, ds := d.kids[i], d.kids[i..];
      assert ds[1..] == d.kids[i + 1..];
      var rest' := YieldAll(ds[1..]) + rest;
      YieldAllTokens(ds[1..]);
      assert m.rest == Yield(kid) + rest' by { YieldFirst(ds); Associate(Yield(kid), YieldAll(ds[1..]), rest); }
      ChildLookahead(d, i, rest);
      if |m.states| + Need(kid) >= YYMAXDEPTH {
        DeepChild(d, i, m, rest');
      } else {
        RunChild(d, i, m, rest');
        match Exec(kid, m.Below(), m.ctx)
        case Fail(o) => NoAcceptance(kid, m.Below(), m.ctx);
        case Ok(v, c) => DeepKids(d, i + 1, After(m, kid, v, rest', c), rest);
      }
    }
  }

  /** Evaluation fails only by an action giving up. */
  lemma {:induction false} NoAcceptance(d: Deriv, below: SemVal, c: Context)
    ensures Exec(d, below, c).Fail? ==> Exec(d, below, c).outcome.ActionFailure? || Exec(d, below, c).outcome.Crash?
  {
    hide Act;
    if d.Rule? { NoAcceptanceAll(d.kids, below, c); }
  }

  lemma {:induction false} NoAcceptanceAll(ds: seq<Deriv>, below: SemVal, c: Context)
    ensures ExecAll(ds, below, c).Fails? ==> ExecAll(ds, below, c).outcome.ActionFailure? || ExecAll(ds, below, c).outcome.Crash?
  {
    if ds != [] {
      NoAcceptance(ds[0], below, c);
      match Exec(ds[0], below, c)
      case Fail(_) =>
      case Ok(v, c') => NoAcceptanceAll(ds[1..], v, c');
    }
  }

  // ----- whole inputs

  /** The driver computes what the actions of any derivation of its input compute. */
  lemma ParseFollowsDerivation(d: Deriv, tokens: seq<Token>)
    requires TokenList(tokens) && Derives(d, tokens)
    ensures
      if Need(d) + 1 < YYMAXDEPTH then
        match Exec(d, NoVal, InitialContext)
        case Ok(_, c) => Parse(tokens) == Accepted(c)
        case Fail(o) => Parse(tokens) == o
      else !Parse(tokens).Accepted?
  {
    hide Run;
    var m := InitialMachine(tokens);
    assert tokens == Yield(d) + [];
    SymbolOfRule(d);
    if Need(d) + 1 < YYMAXDEPTH {
      RunDerivation(d, m, []);
      match Exec(d, NoVal, InitialContext)
      case Fail(_) =>
      case Ok(v, c) =>
        var n := After(m, d, v, [], c);
        assert n.states == [0, 2];
        TablesDecode(2, T_END);
        RunShift(n, YYFINAL);
        RunFinal(Shifted(n, YYFINAL));
    } else {
      DeepDerivation(d, m, []);
    }
  }

  lemma RunFinal(m: Machine)
    requires m.Valid() && |m.states| < YYMAXDEPTH && m.Top() == YYFINAL
    ensures Run(m) == Accepted(m.ctx)
  {}

  /** The language of the parser: it accepts a list of tokens exactly when some derivation of it fits
      the stack and has actions that all succeed. */
  lemma AcceptedExactly(tokens: seq<Token>)
    requires TokenList(tokens)
    ensures Parse(tokens).Accepted? <==>
      exists d: Deriv :: Derives(d, tokens) && Need(d) + 1 < YYMAXDEPTH && Exec(d, NoVal, InitialContext).Ok?
  {
    hide Run, Derives, Need, Exec;
    if Parse(tokens).Accepted? {
      AcceptedIsDerivable(tokens);
      var d: Deriv :| Derives(d, tokens);
      ParseFollowsDerivation(d, tokens);
      NoAcceptance(d, NoVal, InitialContext);
    }
    forall d: Deriv | Derives(d, tokens) && Need(d) + 1 < YYMAXDEPTH && Exec(d, NoVal, InitialContext).Ok?
      ensures Parse(tokens).Accepted?
    {
      ParseFollowsDerivation(d, tokens);
    }
  }
}
