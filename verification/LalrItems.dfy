/** The items of the parser states: how far through which rule the driver is in each state. */
module LalrItems {
  import opened LalrTables

  /** In state `s` the driver may be `dot` symbols into rule `rule`. */
  predicate Item(s: int, rule: int, dot: int) {
    if dot == 0 then 2 <= rule <= 39 && Enters(s, YyR1(rule)) else Kernel(s, rule, dot)
  }

  /** A derivation of `nonterminal` may start in state `s`. */
  predicate Enters(s: int, nonterminal: int) {
    s in Entries(nonterminal)
  }

  function Entries(nonterminal: int): set<int> {
    match nonterminal
    case 24 => {0} case 25 => {0, 27} case 26 => {27} case 27 => {21} case 28 => {0, 3, 27, 38} case 29 => {1}
    case 30 => {8, 26, 42} case 31 => {16} case 32 => {8, 26, 42} case 33 => {17} case 34 => {8, 26, 42}
    case 35 => {8, 25, 26, 40, 42} case 36 => {8, 25, 26, 40, 42} case 37 => {26} case 38 => {26} case 39 => {25}
    case 40 => {25} case 41 => {8, 26, 42} case 42 => {18}
    case _ => {}
  }

  /** The goto table agrees: from an entry it leads to a successor accessed by the nonterminal. */
  lemma GotoEntered(p: int, nonterminal: int)
    requires Enters(p, nonterminal)
    ensures IsState(p) && N_CONFIGURATION <= nonterminal <= 42
    ensures IsState(Goto(p, nonterminal)) && p in Preds(Goto(p, nonterminal))
    ensures YyStos(Goto(p, nonterminal)) == nonterminal
  {}

  predicate Kernel(s: int, rule: int, dot: int) {
    match s
    case 1 => (rule == 12 && dot == 1)
    case 3 => (rule == 3 && dot == 1) || (rule == 5 && dot == 1)
    case 4 => (rule == 4 && dot == 1)
    case 5 => (rule == 12 && dot == 2)
    case 7 => (rule == 5 && dot == 2)
    case 8 => (rule == 12 && dot == 3)
    case 9 => (rule == 23 && dot == 1)
    case 10 => (rule == 24 && dot == 1)
    case 11 => (rule == 26 && dot == 1)
    case 12 => (rule == 25 && dot == 1)
    case 13 => (rule == 27 && dot == 1)
    case 14 => (rule == 28 && dot == 1)
    case 15 => (rule == 21 && dot == 1)
    case 16 => (rule == 14 && dot == 1)
    case 17 => (rule == 16 && dot == 1)
    case 18 => (rule == 39 && dot == 1)
    case 19 => (rule == 18 && dot == 1)
    case 20 => (rule == 19 && dot == 1)
    case 21 => (rule == 12 && dot == 4)
    case 22 => (rule == 22 && dot == 1) || (rule == 29 && dot == 1)
    case 23 => (rule == 17 && dot == 1)
    case 24 => (rule == 20 && dot == 1)
    case 25 => (rule == 14 && dot == 2)
    case 26 => (rule == 16 && dot == 2)
    case 27 => (rule == 39 && dot == 2)
    case 28 => (rule == 10 && dot == 1)
    case 29 => (rule == 9 && dot == 1)
    case 30 => (rule == 12 && dot == 5)
    case 31 => (rule == 22 && dot == 2)
    case 32 => (rule == 34 && dot == 1)
    case 33 => (rule == 35 && dot == 1) || (rule == 37 && dot == 1)
    case 34 => (rule == 14 && dot == 3)
    case 35 => (rule == 30 && dot == 1)
    case 36 => (rule == 31 && dot == 1) || (rule == 33 && dot == 1)
    case 37 => (rule == 16 && dot == 3)
    case 38 => (rule == 5 && dot == 1) || (rule == 7 && dot == 1)
    case 39 => (rule == 39 && dot == 3)
    case 40 => (rule == 35 && dot == 2)
    case 41 => (rule == 14 && dot == 4)
    case 42 => (rule == 31 && dot == 2)
    case 43 => (rule == 16 && dot == 4)
    case 44 => (rule == 39 && dot == 4)
    case 45 => (rule == 35 && dot == 3)
    case 46 => (rule == 31 && dot == 3)
    case _ => false
  }

  /** The state reached from `p` over a symbol. */
  function Next(p: int, sym: int): int {
    if sym >= YYNTOKENS then Goto(p, sym)
    else if Action(p, sym).Shift? then Action(p, sym).state
    else -1
  }

  lemma BackToStart(p: int, s: int, rule: int)
    requires IsState(s) && Kernel(s, rule, 1)
    requires p in Preds(s)
    ensures 2 <= rule <= 39 && 1 <= |Rhs(rule)| && YyStos(s) == Rhs(rule)[0]
    ensures Enters(p, YyR1(rule))
  {}

  lemma BackInside(p: int, s: int, rule: int, dot: int)
    requires IsState(s) && dot > 1 && Kernel(s, rule, dot)
    requires p in Preds(s)
    ensures 2 <= rule <= 39 && dot <= |Rhs(rule)| && YyStos(s) == Rhs(rule)[dot - 1]
    ensures Kernel(p, rule, dot - 1)
  {}

  /** Backwards: a state inside a rule was entered over the symbol before the dot, from a state one
      symbol earlier in the same rule. */
  lemma ItemBack(p: int, s: int, rule: int, dot: int)
    requires IsState(s) && dot > 0 && Item(s, rule, dot)
    requires p in Preds(s)
    ensures 2 <= rule <= 39 && dot <= |Rhs(rule)|
    ensures YyStos(s) == Rhs(rule)[dot - 1]
    ensures Item(p, rule, dot - 1)
  {
    if dot == 1 { BackToStart(p, s, rule); } else { BackInside(p, s, rule, dot); }
  }

  lemma LeftSides(r: int)
    requires 2 <= r <= 39
    ensures N_CONFIGURATION <= YyR1(r) <= 42
  {}

  lemma StartHasNoKernel(rule: int, dot: int)
    ensures !Kernel(0, rule, dot)
  {}

  lemma FinalHasNoItem(rule: int, dot: int)
    requires 2 <= rule <= 39
    ensures !Item(YYFINAL, rule, dot)
  {}

  lemma TerminatorIsLast(r: int, i: int)
    requires 2 <= r <= 39 && 0 <= i < |Rhs(r)| && Rhs(r)[i] == N_TERMINATOR
    ensures i == |Rhs(r)| - 1
  {}

  /** `s` is entered from `p` over symbol `sym`, one step further into the rule. */
  predicate StepInto(p: int, s: int, sym: int, rule: int, dot: int) {
    IsState(s) && p in Preds(s) && YyStos(s) == sym && Kernel(s, rule, dot)
  }

  lemma ForwardScalar(p: int, rule: int)
    requires IsState(p) && 21 <= rule <= 28 && |Rhs(rule)| > 0 && Rhs(rule)[0] < YYNTOKENS
    requires Enters(p, YyR1(rule))
    ensures Decoded(p, Rhs(rule)[0]).Shift? && StepInto(p, Decoded(p, Rhs(rule)[0]).state, Rhs(rule)[0], rule, 1)
  {}

  lemma ForwardToken(p: int, rule: int)
    requires IsState(p) && 2 <= rule <= 39 && !(21 <= rule <= 28) && |Rhs(rule)| > 0 && Rhs(rule)[0] < YYNTOKENS
    requires Enters(p, YyR1(rule))
    ensures Decoded(p, Rhs(rule)[0]).Shift? && StepInto(p, Decoded(p, Rhs(rule)[0]).state, Rhs(rule)[0], rule, 1)
  {}

  lemma ForwardValue(p: int, rule: int)
    requires IsState(p) && 17 <= rule <= 20
    requires Enters(p, YyR1(rule))
    ensures StepInto(p, Goto(p, Rhs(rule)[0]), Rhs(rule)[0], rule, 1)
  {}

  lemma ForwardSettings(p: int, rule: int)
    requires IsState(p) && 2 <= rule < 17 && |Rhs(rule)| > 0 && Rhs(rule)[0] >= YYNTOKENS
    requires Enters(p, YyR1(rule))
    ensures StepInto(p, Goto(p, Rhs(rule)[0]), Rhs(rule)[0], rule, 1)
  {}

  lemma ForwardListed(p: int, rule: int)
    requires IsState(p) && 21 <= rule <= 39 && |Rhs(rule)| > 0 && Rhs(rule)[0] >= YYNTOKENS
    requires Enters(p, YyR1(rule))
    ensures StepInto(p, Goto(p, Rhs(rule)[0]), Rhs(rule)[0], rule, 1)
  {}

  lemma ForwardSetting(p: int, dot: int)
    requires IsState(p) && 0 < dot < 5 && Kernel(p, 12, dot)
    ensures HasForward(p, 12, dot)
  {}

  predicate HasForward(p: int, rule: int, dot: int)
    requires 0 <= dot < |Rhs(rule)|
  {
    var sym := Rhs(rule)[dot];
    if sym < YYNTOKENS then Decoded(p, sym).Shift? && StepInto(p, Decoded(p, sym).state, sym, rule, dot + 1)
    else StepInto(p, Goto(p, sym), sym, rule, dot + 1)
  }

  lemma ForwardBracket(p: int, rule: int, dot: int)
    requires IsState(p) && rule in {14, 16, 39} && 0 < dot < 4 && Kernel(p, rule, dot)
    ensures HasForward(p, rule, dot)
  {}

  lemma ForwardInside(p: int, rule: int, dot: int)
    requires IsState(p) && 2 <= rule <= 39 && rule !in {12, 14, 16, 39} && 0 < dot < |Rhs(rule)| && Kernel(p, rule, dot)
    ensures HasForward(p, rule, dot)
  {}

  /** Forwards: a state inside a rule has a transition over the symbol after the dot. */
  lemma ItemForward(p: int, rule: int, dot: int)
    requires IsState(p) && 2 <= rule <= 39 && 0 <= dot < |Rhs(rule)| && Item(p, rule, dot)
    ensures StepInto(p, Next(p, Rhs(rule)[dot]), Rhs(rule)[dot], rule, dot + 1)
  {
    var sym := Rhs(rule)[dot];
    if sym < YYNTOKENS { TablesDecode(p, sym); }
    if dot > 0 {
      if rule == 12 { ForwardSetting(p, dot); } else if rule in {14, 16, 39} { ForwardBracket(p, rule, dot); } else { ForwardInside(p, rule, dot); }
    } else if sym < YYNTOKENS {
      if 21 <= rule <= 28 { ForwardScalar(p, rule); } else { ForwardToken(p, rule); }
    } else {
      if rule < 17 { ForwardSettings(p, rule); } else if rule <= 20 { ForwardValue(p, rule); } else { ForwardListed(p, rule); }
    }
  }

  /** A state reduces only a rule it has seen completely. */
  lemma ReducedItem(s: int)
    requires IsState(s) && s != YYFINAL && YyDefact(s) != 0
    ensures var r := YyDefact(s); 2 <= r <= 39 && |Rhs(r)| == YyR2(r) && Item(s, r, YyR2(r))
  {}

  lemma RuleLengths(r: int)
    requires 1 <= r <= 39
    ensures |Rhs(r)| == YyR2(r) && YyR1(r) >= YYNTOKENS
    ensures forall i | 0 <= i < |Rhs(r)| && r != 1 :: Rhs(r)[i] != T_END
  {}

  lemma ShiftScalar(s: int, t: int)
    requires IsState(s) && Scalar(t) && Decoded(s, t).Shift?
    ensures var g := Decoded(s, t).state; IsState(g) && s in Preds(g) && YyStos(g) == t
  {}

  lemma ShiftOther(s: int, t: int)
    requires IsState(s) && IsToken(t) && !Scalar(t) && Decoded(s, t).Shift?
    ensures var g := Decoded(s, t).state; IsState(g) && s in Preds(g) && YyStos(g) == t
  {}

  /** A shift enters the next state over the token. */
  lemma ShiftEnters(s: int, t: int)
    requires IsState(s) && IsToken(t) && Action(s, t).Shift?
    ensures var g := Action(s, t).state; IsState(g) && s in Preds(g) && YyStos(g) == t
  {
    hide Preds, YyStos, Decoded;
    TablesDecode(s, t);
    if Scalar(t) { ShiftScalar(s, t); } else { ShiftOther(s, t); }
  }

  /** A goto edge out of `p` means that the nonterminal may start there. */
  lemma GotoEdgeEnters(p: int, nonterminal: int)
    requires IsState(p) && N_CONFIGURATION <= nonterminal <= 42
    requires p in Preds(Goto(p, nonterminal)) && YyStos(Goto(p, nonterminal)) == nonterminal
    ensures Enters(p, nonterminal)
  {
    GotoTargets(p, nonterminal);
  }

  /** Lookaheads that would draw the automaton past the end of a derivation of `nonterminal`. */
  predicate Clashes(nonterminal: int, t: int) {
    match nonterminal
    case 24 => t == T_NAME || t == T_COMMA || t == T_SEMICOLON || t == T_STRING
    case 25 => t == T_COMMA || t == T_SEMICOLON || t == T_STRING
    case 26 => t == T_NAME || t == T_COMMA || t == T_SEMICOLON || t == T_STRING
    case 27 => t == T_COMMA || t == T_SEMICOLON
    case 28 => t == T_COMMA || t == T_SEMICOLON || t == T_STRING
    case 34 => t == T_STRING
    case 36 => t == T_STRING
    case 37 => t == T_STRING
    case 38 => t == T_COMMA || Scalar(t) || Opener(t)
    case 39 => t == T_STRING
    case 40 => t == T_COMMA || Scalar(t)
    case _ => false
  }

  lemma EmptyRuleReduces(s: int, r: int, t: int)
    requires IsState(s) && IsToken(t) && 2 <= r <= 39 && Rhs(r) == [] && Enters(s, YyR1(r))
    requires !Clashes(YyR1(r), t)
    ensures Decoded(s, t) == Reduce(r)
  {}

  lemma FullRuleReduces(s: int, r: int, t: int)
    requires IsState(s) && IsToken(t) && 2 <= r <= 39 && Rhs(r) != [] && Kernel(s, r, |Rhs(r)|)
    requires !Clashes(YyR1(r), t)
    ensures Decoded(s, t) == Reduce(r)
  {}

  /** At the end of a rule, before any lookahead that may follow it, the driver reduces by that rule. */
  lemma EndOfRuleReduces(s: int, r: int, t: int)
    requires IsState(s) && IsToken(t) && 2 <= r <= 39 && Item(s, r, |Rhs(r)|)
    requires !Clashes(YyR1(r), t)
    ensures Action(s, t) == Reduce(r)
  {
    TablesDecode(s, t);
    if Rhs(r) == [] { EmptyRuleReduces(s, r, t); } else { FullRuleReduces(s, r, t); }
  }

  /** What follows symbol `i` of a rule: the token after it, when the rest of the rule starts with one. */
  lemma InnerLookahead(r: int, i: int, t: int)
    requires 2 <= r <= 39 && 0 <= i < |Rhs(r)| - 1
    requires Rhs(r)[i + 1] < YYNTOKENS ==> t == Rhs(r)[i + 1]
    requires Rhs(r)[i + 1] == N_SETTING ==> t == T_NAME
    requires Rhs(r)[i + 1] == N_TERMINATOR ==> t == T_COMMA || t == T_SEMICOLON || !Clashes(YyR1(r), t)
    ensures !Clashes(Rhs(r)[i], t)
  {}

  lemma LastLookahead(r: int, t: int)
    requires 2 <= r <= 39 && |Rhs(r)| > 0 && !Clashes(YyR1(r), t)
    ensures !Clashes(Rhs(r)[|Rhs(r)| - 1], t)
  {}
}
