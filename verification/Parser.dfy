/** The table-driven parser: its driver loop and the semantic actions of its rules. */
module Parser {
  import opened Options
  import opened LalrTables
  import opened ConfigTree
  import opened ConfigOps

  // ----- tokens and semantic values

  datatype SemVal = NoVal | IVal(i: int) | LVal(l: int) | FVal(f: string) | SVal(s: string)

  datatype Token = Token(kind: nat, val: SemVal)

  /** The scanner attaches to each kind of token the union member the actions read. */
  predicate WellTyped(t: Token) {
    match t.kind
    case 3 => t.val.IVal?
    case 4 => t.val.IVal?
    case 5 => t.val.IVal?
    case 6 => t.val.LVal?
    case 7 => t.val.LVal?
    case 8 => t.val.FVal?
    case 9 => t.val.SVal?
    case 10 => t.val.SVal?
    case k => 11 <= k < YYNTOKENS && t.val.NoVal?
  }

  predicate TokenList(ts: seq<Token>) {
    forall i | 0 <= i < |ts| :: WellTyped(ts[i])
  }

  const END_TOKEN := Token(T_END, NoVal)

  /** The scanner answers end-of-input for ever once the text is used up. */
  function Head(rest: seq<Token>): Token {
    if rest == [] then END_TOKEN else rest[0]
  }

  function Tail(rest: seq<Token>): seq<Token> {
    if rest == [] then [] else rest[1..]
  }

  // ----- semantic actions

  /** `ctx->parent`, `ctx->setting` and the string being collected, over the heap of settings. */
  datatype Context = Context(nodes: Nodes, parent: Option<nat>, setting: Option<nat>, text: string)

  const ROOT: nat := 0

  /** `config_init` and `parsectx_init`: an empty root group, to which both pointers go. */
  const InitialContext := Context([Node(None, None, DAgg(Group, []))], Some(ROOT), Some(ROOT), "")

  /** `Rejected` is YYABORT with its message; `Fault` is a null or dangling pointer being followed. */
  datatype ActionResult = Done(ctx: Context) | Rejected(ctx: Context, message: string) | Fault

  const ERR_ARRAY_ELEM_TYPE := "mismatched element type in array"
  const ERR_DUPLICATE_SETTING := "duplicate setting name"

  predicate InKind(c: Context, kind: Kind) {
    && c.parent.Some? && c.parent.value < |c.nodes|
    && c.nodes[c.parent.value].data.DAgg? && c.nodes[c.parent.value].data.kind == kind
  }

  /** Rule 11, on reading a name. */
  function BeginSetting(c: Context, name: string): ActionResult {
    if c.parent.None? || c.parent.value >= |c.nodes| then Fault
    else
      match SettingAdd(c.nodes, c.parent.value, Some(name), DNone)
      case Added(ns, i) => Done(c.(nodes := ns, setting := Some(i)))
      case NotAdded => Rejected(c.(setting := None), ERR_DUPLICATE_SETTING)
      case NullName => Fault
  }

  /** Rules 13, 15 and 38, on an opening bracket. */
  function OpenAggregate(c: Context, kind: Kind): ActionResult {
    if InKind(c, List) then
      match SettingAdd(c.nodes, c.parent.value, None, DAgg(kind, []))
      case Added(ns, i) => Done(c.(nodes := ns, parent := Some(i)))
      case _ => Fault
    else if c.setting.None? || c.setting.value >= |c.nodes| || c.nodes[c.setting.value].data != DNone then Fault
    else
      var i := c.setting.value;
      Done(c.(nodes := c.nodes[i := c.nodes[i].(data := DAgg(kind, []))], parent := Some(i), setting := None))
  }

  /** Rules 14, 16 and 39, on a closing bracket. */
  function CloseAggregate(c: Context): ActionResult {
    if c.parent.None? then Done(c)
    else if c.parent.value >= |c.nodes| then Fault
    else Done(c.(parent := c.nodes[c.parent.value].parent))
  }

  /** Rules 23 to 29: the scalar becomes an element of the open array or list, else the value of
      the setting just named. */
  function PutScalar(c: Context, v: Value): ActionResult {
    if InKind(c, Array) || InKind(c, List) then
      match AddElem(c.nodes, c.parent.value, v)
      case Added(ns, _) => Done(c.(nodes := ns))
      case NotAdded => Rejected(c, ERR_ARRAY_ELEM_TYPE)
      case NullName => Fault
    else if c.setting.None? || c.setting.value >= |c.nodes| || c.nodes[c.setting.value].data != DNone then Fault
    else
      var i := c.setting.value;
      Done(c.(nodes := c.nodes[i := c.nodes[i].(data := DScalar(v))]))
  }

  /** The action of a rule, given the values of its right-hand side and the value below them. */
  function Act(rule: int, args: seq<SemVal>, below: SemVal, c: Context): ActionResult {
    match rule
    case 11 => if below.SVal? then BeginSetting(c, below.s) else Fault
    case 13 => OpenAggregate(c, Array)
    case 15 => OpenAggregate(c, List)
    case 38 => OpenAggregate(c, Group)
    case 14 => CloseAggregate(c)
    case 16 => CloseAggregate(c)
    case 39 => CloseAggregate(c)
    case 21 => if |args| == 1 && args[0].SVal? then Done(c.(text := c.text + args[0].s)) else Fault
    case 22 => if |args| == 2 && args[1].SVal? then Done(c.(text := c.text + args[1].s)) else Fault
    case 23 => if |args| == 1 && args[0].IVal? then PutScalar(c, BoolV(args[0].i)) else Fault
    case 24 => if |args| == 1 && args[0].IVal? then PutScalar(c, IntV(args[0].i, FORMAT_DEFAULT)) else Fault
    case 25 => if |args| == 1 && args[0].LVal? then PutScalar(c, Int64V(args[0].l, FORMAT_DEFAULT)) else Fault
    case 26 => if |args| == 1 && args[0].IVal? then PutScalar(c, IntV(args[0].i, FORMAT_HEX)) else Fault
    case 27 => if |args| == 1 && args[0].LVal? then PutScalar(c, Int64V(args[0].l, FORMAT_HEX)) else Fault
    case 28 => if |args| == 1 && args[0].FVal? then PutScalar(c, FloatV(args[0].f)) else Fault
    case 29 => PutScalar(c.(text := ""), StringV(c.text))
    case _ => Done(c)
  }

  /** The default value of a reduction, `$$ = $1`; for an empty rule it is garbage. */
  function DefaultValue(args: seq<SemVal>): SemVal {
    if args == [] then NoVal else args[0]
  }

  // ----- the driver

  /** The state and value stacks (the bottom state has no value), the tokens still to come, and the context. */
  datatype Machine = Machine(states: seq<nat>, vals: seq<SemVal>, rest: seq<Token>, ctx: Context)
  {
    predicate Valid() {
      && |states| == |vals| + 1
      && (forall i | 0 <= i < |states| :: IsState(states[i]))
      && TokenList(rest)
    }

    function Top(): nat
      requires |states| > 0
    {
      states[|states| - 1]
    }

    function Below(): SemVal {
      if vals == [] then NoVal else vals[|vals| - 1]
    }
  }

  datatype Outcome =
    | Accepted(ctx: Context)
    | SyntaxFailure(ctx: Context)
    | ActionFailure(ctx: Context, message: string)
    | MemoryExhausted
    | Crash

  /** How far a state is from the next shift: every reduction strictly lowers the rank of the top state. */
  function Rank(s: int): nat {
    match s
    case 2 => 1 case 3 => 2 case 4 => 3 case 7 => 3 case 30 => 4 case 28 => 5 case 29 => 5
    case 21 => 5 case 39 => 0 case 38 => 1 case 27 => 1 case 0 => 3 case 6 => 0
    case 37 => 0 case 36 => 1 case 35 => 2 case 46 => 2 case 26 => 1
    case 34 => 0 case 33 => 1 case 32 => 2 case 45 => 2 case 25 => 1
    case 23 => 6 case 19 => 6 case 20 => 6 case 24 => 6 case 41 => 7 case 43 => 7 case 44 => 7
    case 22 => 7 case 15 => 8 case 31 => 8
    case 9 => 7 case 10 => 7 case 11 => 7 case 12 => 7 case 13 => 7 case 14 => 7
    case 16 => 2 case 17 => 2 case 18 => 2 case 1 => 1
    case _ => 0
  }

  lemma LowStatesDescend(s: int)
    requires 0 <= s < 20 && s != YYFINAL && YyDefact(s) != 0
    ensures forall g | g in Targets(YyR1(YyDefact(s))) :: IsState(g) && Rank(g) < Rank(s)
    ensures N_CONFIGURATION <= YyR1(YyDefact(s)) <= 42 && YyR2(YyDefact(s)) >= 0
  {}

  lemma HighStatesDescend(s: int)
    requires 20 <= s && IsState(s) && YyDefact(s) != 0
    ensures forall g | g in Targets(YyR1(YyDefact(s))) :: IsState(g) && Rank(g) < Rank(s)
    ensures N_CONFIGURATION <= YyR1(YyDefact(s)) <= 42 && YyR2(YyDefact(s)) >= 0
  {}

  lemma ReduceLowersRank(s: int, t: int, p: int)
    requires IsState(s) && IsState(p) && s != YYFINAL
    requires Action(s, t).Reduce?
    ensures IsState(Goto(p, YyR1(Action(s, t).rule)))
    ensures Rank(Goto(p, YyR1(Action(s, t).rule))) < Rank(s)
    ensures YyR2(Action(s, t).rule) >= 0
  {
    if s < 20 { LowStatesDescend(s); } else { HighStatesDescend(s); }
    GotoTargets(p, YyR1(YyDefact(s)));
  }

  lemma FinalRank()
    ensures Rank(YYFINAL) < Rank(2)
  {}

  lemma ShiftLands(s: int, t: int)
    requires IsState(s) && IsToken(t)
    requires Action(s, t).Shift?
    ensures IsState(Action(s, t).state)
    ensures t == T_END ==> s == 2 && Action(s, t).state == YYFINAL
  {
    TablesDecode(s, t);
  }

  lemma HeadIsToken(rest: seq<Token>)
    requires TokenList(rest)
    ensures IsToken(Head(rest).kind)
    ensures Head(rest).kind == T_END <==> rest == []
    ensures TokenList(Tail(rest))
  {}

  /** The machine after shifting the lookahead into state `s`. */
  function Shifted(m: Machine, s: nat): Machine {
    Machine(m.states + [s], m.vals + [Head(m.rest).val], Tail(m.rest), m.ctx)
  }

  /** The state below the right-hand side of rule `r`, and the values of that right-hand side. */
  function Uncovered(m: Machine, r: nat): nat
    requires m.Valid() && 0 <= YyR2(r) < |m.states|
  {
    m.states[|m.vals| - YyR2(r)]
  }

  function Args(m: Machine, r: nat): seq<SemVal>
    requires m.Valid() && 0 <= YyR2(r) < |m.states|
  {
    m.vals[|m.vals| - YyR2(r)..]
  }

  /** The machine after reducing by rule `r`, whose action left context `c`. */
  function Reduced(m: Machine, r: nat, c: Context): Machine
    requires m.Valid() && 0 <= YyR2(r) < |m.states|
    requires Goto(Uncovered(m, r), YyR1(r)) >= 0
  {
    var base := |m.vals| - YyR2(r);
    Machine(m.states[..base + 1] + [Goto(Uncovered(m, r), YyR1(r))], m.vals[..base] + [DefaultValue(Args(m, r))], m.rest, c)
  }

  lemma ReducedValid(m: Machine, t: int, c: Context)
    requires m.Valid() && m.Top() != YYFINAL && Action(m.Top(), t).Reduce?
    ensures var r := Action(m.Top(), t).rule;
      && r >= 0 && YyR2(r) >= 0
      && (YyR2(r) < |m.states| ==>
            && Goto(Uncovered(m, r), YyR1(r)) >= 0
            && Reduced(m, r, c).Valid() && Reduced(m, r, c).rest == m.rest && Rank(Reduced(m, r, c).Top()) < Rank(m.Top()))
  {
    hide YyR1, YyR2, Goto, Rank;
    var r := Action(m.Top(), t).rule;
    ReduceLowersRank(m.Top(), t, m.Top());
    if YyR2(r) < |m.states| {
      ReduceLowersRank(m.Top(), t, Uncovered(m, r));
    }
  }

  datatype StepResult = Stop(outcome: Outcome) | Go(next: Machine)

  /** One turn of the driver.  It stops on a full stack, in the final state, on a syntax error (no
      rule mentions the error token), or when an action gives up. */
  function Step(m: Machine): StepResult
    requires m.Valid()
  {
    if |m.states| >= YYMAXDEPTH then Stop(MemoryExhausted)
    else if m.Top() == YYFINAL then Stop(Accepted(m.ctx))
    else
      match Action(m.Top(), Head(m.rest).kind)
      case SyntaxError => Stop(SyntaxFailure(m.ctx))
      case Shift(s) =>
        HeadIsToken(m.rest);
        ShiftLands(m.Top(), Head(m.rest).kind);
        Go(Shifted(m, s))
      case Reduce(r) =>
        ReducedValid(m, Head(m.rest).kind, m.ctx);
        if YyR2(r) >= |m.states| then Stop(Crash)
        else
          match Act(r, Args(m, r), m.Below(), m.ctx)
          case Done(c) => Go(Reduced(m, r, c))
          case Rejected(c, msg) => Stop(ActionFailure(c, msg))
          case Fault => Stop(Crash)
  }

  /** Each turn consumes a token or lowers the rank of the top state, so only finitely many
      reductions separate two shifts. */
  lemma StepProgress(m: Machine)
    requires m.Valid() && Step(m).Go?
    ensures var n := Step(m).next;
      && n.Valid()
      && (|n.rest| < |m.rest| || (n.rest == m.rest && Rank(n.Top()) < Rank(m.Top())))
  {
    hide YyR1, YyR2, Goto, Rank, Act, Action, Reduced, Args, Uncovered;
    HeadIsToken(m.rest);
    match Action(m.Top(), Head(m.rest).kind)
    case SyntaxError =>
    case Shift(s) =>
      ShiftLands(m.Top(), Head(m.rest).kind);
      FinalRank();
    case Reduce(r) =>
      ReducedValid(m, Head(m.rest).kind, m.ctx);
      ReducedValid(m, Head(m.rest).kind, Act(r, Args(m, r), m.Below(), m.ctx).ctx);
  }

  /** The driver from machine `m` on. */
  function Run(m: Machine): Outcome
    requires m.Valid()
    decreases |m.rest|, Rank(m.Top())
  {
    match Step(m)
    case Stop(o) => o
    case Go(n) => StepProgress(m); Run(n)
  }

  lemma RunShift(m: Machine, s: int)
    requires m.Valid() && |m.states| < YYMAXDEPTH && m.Top() != YYFINAL
    requires IsState(s) && Action(m.Top(), Head(m.rest).kind) == Shift(s)
    ensures Shifted(m, s).Valid() && Run(m) == Run(Shifted(m, s))
  {
    hide Action, Act, YyR1, YyR2, Goto, Rank, Reduced;
    HeadIsToken(m.rest);
    assert Step(m) == Go(Shifted(m, s));
  }

  lemma RunReduce(m: Machine, r: nat)
    requires m.Valid() && |m.states| < YYMAXDEPTH && m.Top() != YYFINAL
    requires Action(m.Top(), Head(m.rest).kind) == Reduce(r) && 0 <= YyR2(r) < |m.states|
    ensures Goto(Uncovered(m, r), YyR1(r)) >= 0
    ensures
      var a := Act(r, Args(m, r), m.Below(), m.ctx);
      && (a.Done? ==> Reduced(m, r, a.ctx).Valid() && Run(m) == Run(Reduced(m, r, a.ctx)))
      && (a.Rejected? ==> Run(m) == ActionFailure(a.ctx, a.message))
      && (a.Fault? ==> Run(m) == Crash)
  {
    hide Action, Act, YyR1, YyR2, Goto, Rank, Reduced, Args;
    HeadIsToken(m.rest);
    ReducedValid(m, Head(m.rest).kind, m.ctx);
    var a := Act(r, Args(m, r), m.Below(), m.ctx);
    if a.Done? {
      ReducedValid(m, Head(m.rest).kind, a.ctx);
      assert Step(m) == Go(Reduced(m, r, a.ctx));
    }
  }

  function InitialMachine(tokens: seq<Token>): Machine {
    Machine([0], [], tokens, InitialContext)
  }

  /** `libconfig_yyparse` on a list of tokens. */
  function Parse(tokens: seq<Token>): Outcome
    requires TokenList(tokens)
  {
    Run(InitialMachine(tokens))
  }
}
