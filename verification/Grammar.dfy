/** The language of the configuration grammar, and the proof that the driver accepts exactly it. */
module Grammar {
  import opened LalrTables
  import opened LalrItems
  import opened Parser
  import opened ConfigTree

  /** A derivation tree over the numbered rules. */
  datatype Deriv = Leaf(tok: Token) | Rule(rule: nat, kids: seq<Deriv>)

  function Sym(d: Deriv): int {
    match d
    case Leaf(tok) => tok.kind
    case Rule(r, _) => YyR1(r)
  }

  /** Every node applies its rule: the symbols of the children spell the right-hand side. */
  ghost predicate Valid(d: Deriv) {
    match d
    case Leaf(tok) => WellTyped(tok)
    case Rule(r, kids) =>
      && 2 <= r <= 39
      && |kids| == |Rhs(r)|
      && (forall i | 0 <= i < |kids| :: Sym(kids[i]) == Rhs(r)[i])
      && (forall i | 0 <= i < |kids| :: Valid(kids[i]))
  }

  function Yield(d: Deriv): seq<Token> {
    match d
    case Leaf(tok) => if tok == END_TOKEN then [] else [tok]
    case Rule(_, kids) => YieldAll(kids)
  }

  function YieldAll(ds: seq<Deriv>): seq<Token> {
    if ds == [] then [] else Yield(ds[0]) + YieldAll(ds[1..])
  }

  /** The token list belongs to the language of nonterminal `configuration`. */
  ghost predicate Derivable(tokens: seq<Token>) {
    exists d: Deriv :: Derives(d, tokens)
  }

  ghost predicate Derives(d: Deriv, tokens: seq<Token>) {
    Valid(d) && Sym(d) == N_CONFIGURATION && Yield(d) == tokens
  }

  lemma {:induction false} YieldAppend(ds: seq<Deriv>, es: seq<Deriv>)
    ensures YieldAll(ds + es) == YieldAll(ds) + YieldAll(es)
  {
    if ds == [] {
      assert ds + es == es;
    } else {
      YieldAppend(ds[1..], es);
      assert (ds + es)[1..] == ds[1..] + es;
      Associate(Yield(ds[0]), YieldAll(ds[1..]), YieldAll(es));
    }
  }

  lemma Associate<T>(a: seq<T>, b: seq<T>, c: seq<T>)
    ensures a + (b + c) == (a + b) + c
  {}

  lemma YieldSnoc(ds: seq<Deriv>, d: Deriv)
    ensures YieldAll(ds + [d]) == YieldAll(ds) + Yield(d)
  {
    YieldAppend(ds, [d]);
    assert YieldAll([d]) == Yield(d) + YieldAll([]);
  }

  // ----- soundness

  /** Consecutive states of the stack are joined by transitions of the automaton. */
  predicate Linked(states: seq<nat>) {
    && |states| > 0 && states[0] == 0
    && forall i | 0 < i < |states| :: states[i - 1] in Preds(states[i])
  }

  /** `forest` is a derivation of what lies on the stack. */
  ghost predicate Explains(m: Machine, forest: seq<Deriv>) {
    && m.Valid() && Linked(m.states) && |forest| == |m.vals|
    && (forall i | 0 <= i < |forest| :: Sym(forest[i]) == YyStos(m.states[i + 1]))
    && (forall i | 0 <= i < |forest| :: Valid(forest[i]) || (forest[i] == Leaf(END_TOKEN) && m.rest == []))
  }

  /** With the top state `dot` symbols into a rule, those symbols lie on the stack, above a state in
      which the rule starts. */
  lemma {:induction false} StackSpells(states: seq<nat>, rule: int, dot: nat)
    requires Linked(states) && (forall i | 0 <= i < |states| :: IsState(states[i]))
    requires Item(states[|states| - 1], rule, dot)
    ensures dot < |states| && dot <= |Rhs(rule)|
    ensures forall j | 0 <= j < dot :: YyStos(states[|states| - dot + j]) == Rhs(rule)[j]
    ensures Item(states[|states| - 1 - dot], rule, 0)
    decreases dot
  {
    hide Preds, Kernel, Rhs, YyStos, Entries;
    var k := |states| - 1;
    if dot > 0 {
      StartHasNoKernel(rule, dot);
      ItemBack(states[k - 1], states[k], rule, dot);
      StackSpells(states[..k], rule, dot - 1);
    }
  }

  lemma FinalStack(states: seq<nat>)
    requires Linked(states) && states[|states| - 1] == YYFINAL
    ensures |states| == 3 && YyStos(states[1]) == N_CONFIGURATION && YyStos(states[2]) == T_END
  {
    var k := |states| - 1;
    assert states[k - 1] in Preds(6);
    assert states[k - 2] in Preds(2);
    assert k > 2 ==> states[k - 3] in Preds(0);
  }

  lemma ShiftExplains(m: Machine, forest: seq<Deriv>, s: nat)
    requires Explains(m, forest)
    requires IsState(s) && m.Top() in Preds(s) && YyStos(s) == Head(m.rest).kind
    ensures Explains(Shifted(m, s), forest + [Leaf(Head(m.rest))])
  {
    hide Preds, YyStos;
    HeadIsToken(m.rest);
  }

  /** The forest after a reduction. */
  function Joined(m: Machine, forest: seq<Deriv>, r: nat): seq<Deriv>
    requires |forest| == |m.vals| && 0 <= YyR2(r) <= |m.vals|
  {
    var base := |m.vals| - YyR2(r);
    forest[..base] + [Rule(r, forest[base..])]
  }

  lemma JoinedYield(m: Machine, forest: seq<Deriv>, r: nat)
    requires |forest| == |m.vals| && 0 <= YyR2(r) <= |m.vals|
    ensures YieldAll(Joined(m, forest, r)) == YieldAll(forest)
  {
    hide YyR2;
    var base := |m.vals| - YyR2(r);
    YieldSnoc(forest[..base], Rule(r, forest[base..]));
    YieldAppend(forest[..base], forest[base..]);
    assert forest == forest[..base] + forest[base..];
  }

  lemma ReduceExplains(m: Machine, forest: seq<Deriv>, r: nat, c: Context)
    requires Explains(m, forest) && m.Top() != YYFINAL && r == YyDefact(m.Top()) && r != 0
    ensures 0 <= YyR2(r) < |m.states|
    ensures Goto(Uncovered(m, r), YyR1(r)) >= 0
    ensures Explains(Reduced(m, r, c), Joined(m, forest, r))
  {
    hide Preds, YyStos, Kernel, Rhs, Entries, YyR1, YyR2, YyDefact, Goto;
    var n := YyR2(r);
    ReducedItem(m.Top());
    StackSpells(m.states, r, n);
    var base := |m.vals| - n;
    var kids := forest[base..];
    GotoEntered(Uncovered(m, r), YyR1(r));
    RuleLengths(r);
    forall i | 0 <= i < n
      ensures Sym(kids[i]) == Rhs(r)[i] && Valid(kids[i])
    {
      assert kids[i] == forest[base + i];
      assert YyStos(m.states[base + 1 + i]) == Rhs(r)[i];
    }
    assert Valid(Rule(r, kids));
  }

  lemma SymbolOfRule(d: Deriv)
    ensures Valid(d) ==> (d.Rule? <==> Sym(d) >= YYNTOKENS)
    ensures Valid(d) ==> Sym(d) != T_END
  {}

  /** Every turn of the driver keeps the forest in step with the stack. */
  lemma StepExplains(m: Machine, forest: seq<Deriv>) returns (forest': seq<Deriv>)
    requires Explains(m, forest) && Step(m).Go?
    ensures Explains(Step(m).next, forest')
    ensures YieldAll(forest') + Step(m).next.rest == YieldAll(forest) + m.rest
  {
    hide Preds, YyStos, YyR1, YyR2, YyDefact, Goto, Act, Action, Rank, Reduced, Joined, Args, Explains, Uncovered;
    ExplainsValid(m, forest);
    HeadIsToken(m.rest);
    var tok := Head(m.rest);
    match Action(m.Top(), tok.kind)
    case Shift(s) =>
      ShiftEnters(m.Top(), tok.kind);
      ShiftExplains(m, forest, s);
      YieldSnoc(forest, Leaf(tok));
      forest' := forest + [Leaf(tok)];
    case Reduce(r) =>
      ActionReduces(m.Top(), tok.kind);
      ReducedValid(m, tok.kind, m.ctx);
      var c := Act(r, Args(m, r), m.Below(), m.ctx).ctx;
      ReducedValid(m, tok.kind, c);
      ReduceExplains(m, forest, r, c);
      JoinedYield(m, forest, r);
      forest' := Joined(m, forest, r);
  }

  lemma ExplainsValid(m: Machine, forest: seq<Deriv>)
    requires Explains(m, forest)
    ensures m.Valid() && |forest| == |m.vals|
  {}

  lemma FinalForest(m: Machine, forest: seq<Deriv>)
    requires Explains(m, forest) && m.Top() == YYFINAL
    ensures |forest| > 0 && Derives(forest[0], YieldAll(forest) + m.rest)
  {
    FinalStack(m.states);
    assert forest == [forest[0]] + [forest[1]];
    YieldSnoc([forest[0]], forest[1]);
    assert YieldAll([forest[0]]) == Yield(forest[0]) + YieldAll([]);
    SymbolOfRule(forest[0]);
    SymbolOfRule(forest[1]);
  }

  /** An accepting run from an explained machine derives what is on the stack followed by what is read. */
  lemma {:induction false} RunSound(m: Machine, forest: seq<Deriv>) returns (d: Deriv)
    requires Explains(m, forest) && Run(m).Accepted?
    ensures Derives(d, YieldAll(forest) + m.rest)
    decreases |m.rest|, Rank(m.Top())
  {
    hide Step, Explains, Derives;
    ExplainsValid(m, forest);
    match Step(m)
    case Stop(o) =>
      AcceptsInFinalState(m);
      FinalForest(m, forest);
      d := forest[0];
    case Go(n) =>
      StepProgress(m);
      var forest' := StepExplains(m, forest);
      d := RunSound(n, forest');
  }

  lemma AcceptsInFinalState(m: Machine)
    requires m.Valid() && Step(m).Stop? && Step(m).outcome.Accepted?
    ensures m.Top() == YYFINAL
    ensures Step(m).outcome.ctx == m.ctx
  {}

  /** Soundness: the parser accepts only lists of tokens derivable from the grammar. */
  lemma AcceptedIsDerivable(tokens: seq<Token>)
    requires TokenList(tokens) && Parse(tokens).Accepted?
    ensures Derivable(tokens)
  {
    var d := RunSound(InitialMachine(tokens), []);
    assert Derives(d, tokens);
  }
}
