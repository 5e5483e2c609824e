/** The imperative shells: the parser's driver loop over its stacks, the scanner's loop over the
    text, and the writer's calls on an output stream. */
module ConfigIO {
  import opened Options
  import opened LalrTables
  import opened Parser
  import opened ParserSafety
  import opened ConfigTree
  import opened ConfigOps
  import opened Scanner
  import opened RoundTrip
  import opened TextStreams
  import opened ConfigFile

  // ----- the parser

  datatype Status = Fine | Abort(message: string) | BadPointer

  class ParseContext {
    var nodes: Nodes
    var parent: Option<nat>
    var setting: Option<nat>
    var text: string

    function View(): Context
      reads this
    {
      Context(nodes, parent, setting, text)
    }

    constructor ()
      ensures View() == InitialContext
    {
      nodes := [Node(None, None, DAgg(Group, []))];
      parent, setting, text := Some(ROOT), Some(ROOT), "";
    }

    method Begin(name: string) returns (s: Status)
      modifies this
      ensures Follows(s, BeginSetting(old(View()), name))
    {
      if parent.None? || parent.value >= |nodes| { return BadPointer; }
      match SettingAdd(nodes, parent.value, Some(name), DNone)
      case Added(ns, i) => nodes, setting, s := ns, Some(i), Fine;
      case NotAdded => setting, s := None, Abort(ERR_DUPLICATE_SETTING);
      case NullName => s := BadPointer;
    }

    method Open(kind: Kind) returns (s: Status)
      modifies this
      ensures Follows(s, OpenAggregate(old(View()), kind))
    {
      if InKind(View(), List) {
        match SettingAdd(nodes, parent.value, None, DAgg(kind, []))
        case Added(ns, i) => nodes, parent, s := ns, Some(i), Fine;
        case _ => s := BadPointer;
      } else if setting.None? || setting.value >= |nodes| || nodes[setting.value].data != DNone {
        s := BadPointer;
      } else {
        nodes := nodes[setting.value := nodes[setting.value].(data := DAgg(kind, []))];
        parent, setting, s := setting, None, Fine;
      }
    }

    method Close() returns (s: Status)
      modifies this
      ensures Follows(s, CloseAggregate(old(View())))
    {
      if parent.None? { return Fine; }
      if parent.value >= |nodes| { return BadPointer; }
      parent, s := nodes[parent.value].parent, Fine;
    }

    method Put(v: Value) returns (s: Status)
      modifies this
      ensures Follows(s, PutScalar(old(View()), v))
    {
      if InKind(View(), Array) || InKind(View(), List) {
        match AddElem(nodes, parent.value, v)
        case Added(ns, _) => nodes, s := ns, Fine;
        case NotAdded => s := Abort(ERR_ARRAY_ELEM_TYPE);
        case NullName => s := BadPointer;
      } else if setting.None? || setting.value >= |nodes| || nodes[setting.value].data != DNone {
        s := BadPointer;
      } else {
        nodes, s := nodes[setting.value := nodes[setting.value].(data := DScalar(v))], Fine;
      }
    }

    /** The context is where the action leads; after a bad pointer nothing is claimed of it. */
    predicate Follows(s: Status, r: ActionResult)
      reads this
    {
      match r
      case Done(c) => s == Fine && View() == c
      case Rejected(c, message) => s == Abort(message) && View() == c
      case Fault => s == BadPointer
    }

    /** The action of a rule. */
    method Apply(rule: int, args: seq<SemVal>, below: SemVal) returns (s: Status)
      modifies this
      ensures Follows(s, Act(rule, args, below, old(View())))
    {
      s := Fine;
      if rule == 11 {
        if below.SVal? { s := Begin(below.s); } else { s := BadPointer; }
      } else if rule in {13, 15, 38} {
        s := Open(if rule == 13 then Array else if rule == 15 then List else Group);
      } else if rule in {14, 16, 39} {
        s := Close();
      } else if rule == 21 {
        if |args| == 1 && args[0].SVal? { text := text + args[0].s; } else { s := BadPointer; }
      } else if rule == 22 {
        if |args| == 2 && args[1].SVal? { text := text + args[1].s; } else { s := BadPointer; }
      } else if 23 <= rule <= 28 {
        var v := ScalarArg(rule, args);
        if v.NoneV? { s := BadPointer; } else { s := Put(v); }
      } else if rule == 29 {
        var taken := text;
        text := "";
        s := Put(StringV(taken));
      }
    }

    /** `yyreduce`: the action of the rule, then its right-hand side on both stacks gives way to its left. */
    method ReduceBy(yyss: seq<nat>, yyvs: seq<SemVal>, rule: int, ghost m: Machine)
      returns (status: Status, ss: seq<nat>, vs: seq<SemVal>)
      requires m == Machine(yyss, yyvs, m.rest, View()) && m.Valid() && |yyss| < YYMAXDEPTH && m.Top() != YYFINAL
      requires Action(m.Top(), Head(m.rest).kind) == Reduce(rule) && Run(m) != Crash
      modifies this
      ensures status.Fine? ==>
                var n := Machine(ss, vs, m.rest, View());
                n.Valid() && Run(n) == Run(m) && Closer(n, m) && |ss| <= |yyss| + 1
      ensures status.Abort? ==> Run(m).ActionFailure?
      ensures !status.BadPointer?
    {
      hide Action, Act, Rank, Goto, YyR1, YyR2, Run, Step;
      ReduceTurn(m, rule);
      var base := |yyvs| - YyR2(rule);
      var args := yyvs[base..];
      status := Apply(rule, args, if yyvs == [] then NoVal else yyvs[|yyvs| - 1]);
      ss, vs := yyss[..base + 1] + [Goto(yyss[base], YyR1(rule))], yyvs[..base] + [DefaultValue(args)];
      assert status.Fine? ==> Machine(ss, vs, m.rest, View()) == Reduced(m, rule, View());
    }

    /** `libconfig_yyparse`: the stacks, the lookahead and the growing stack size of the generated driver. */
    method YyParse(input: seq<Token>) returns (result: Result)
      requires TokenList(input) && View() == InitialContext
      modifies this
      ensures result == ResultOf(Parse(input)) && result != Crashed
      ensures Parse(input).Accepted? ==> View() == Parse(input).ctx
    {
      hide Action, Act, Rank, Goto, YyR1, YyR2, YyDefact, YyPact, YyCheck, YyTable, Run, Step, Parse;
      FirstTurn(input);
      var yyss: seq<nat> := [0];
      var yyvs: seq<SemVal> := [];
      var yystacksize := YYINITDEPTH;
      var yychar: Option<Token> := None;
      var cursor: nat := 0;
      while true
        invariant cursor <= |input| && Lookahead(input, cursor, yychar)
        invariant YYINITDEPTH <= yystacksize <= YYMAXDEPTH && |yyss| <= yystacksize
        invariant Machine(yyss, yyvs, Rest(input, cursor, yychar), View()).Valid()
        invariant Run(Machine(yyss, yyvs, Rest(input, cursor, yychar), View())) == Parse(input) != Crash
        decreases |Rest(input, cursor, yychar)|, Rank(yyss[|yyss| - 1])
      {
        ghost var m := Machine(yyss, yyvs, Rest(input, cursor, yychar), View());
        StoppingTurn(m);
        if |yyss| >= yystacksize {
          if YYMAXDEPTH <= yystacksize { return Exhausted; }
          yystacksize := 2 * yystacksize;
          if YYMAXDEPTH < yystacksize { yystacksize := YYMAXDEPTH; }
        }
        var top := yyss[|yyss| - 1];
        if top == YYFINAL { return Success; }
        if YyPact(top) != YYPACT_NINF && yychar.None? {
          cursor, yychar := Fetch(input, cursor);
        }
        var move := if yychar.Some? then Action(top, yychar.value.kind) else DefaultMove(top);
        LookaheadIsHead(input, cursor, yychar);
        DefaultIgnoresLookahead(top, Head(m.rest).kind);
        if move.SyntaxError? {
          var resumed := Recover(yyss);
          return Aborted;
        } else if move.Shift? {
          ShiftTurn(m, move.state);
          yyss, yyvs, yychar := yyss + [move.state], yyvs + [yychar.value.val], None;
          assert Machine(yyss, yyvs, Rest(input, cursor, yychar), View()) == Shifted(m, move.state);
        } else {
          var status;
          status, yyss, yyvs := ReduceBy(yyss, yyvs, move.rule, m);
          if status.BadPointer? { return Crashed; }
          if status.Abort? { return Aborted; }
        }
      }
    }
  }

  /** `config_read`: scan, then parse into a fresh configuration. */
  method ReadConfig(text: string) returns (ctx: ParseContext, result: Result)
    requires NoNul(text)
    ensures fresh(ctx) && result == ResultOf(Read(text)) && result != Crashed
    ensures result == Success ==> ctx.View() == Read(text).ctx
  {
    LexProduced(text, true);
    var tokens := ScanAll(text);
    ctx := new ParseContext();
    result := ctx.YyParse(tokens);
  }

  lemma FirstTurn(input: seq<Token>)
    requires TokenList(input)
    ensures InitialMachine(input).Valid() && Run(InitialMachine(input)) == Parse(input) != Crash
    ensures InitialMachine(input) == Machine([0], [], input[0..], InitialContext)
  {
    ParseNeverCrashes(input);
    assert input[0..] == input;
  }

  lemma StoppingTurn(m: Machine)
    requires m.Valid()
    ensures |m.states| >= YYMAXDEPTH ==> Run(m) == MemoryExhausted
    ensures |m.states| < YYMAXDEPTH && m.Top() == YYFINAL ==> Run(m) == Accepted(m.ctx)
    ensures |m.states| < YYMAXDEPTH && m.Top() != YYFINAL && Action(m.Top(), Head(m.rest).kind).SyntaxError? ==>
              Run(m).SyntaxFailure?
  {
    hide Action, Act, Rank, Goto, YyR1, YyR2, Reduced;
  }

  /** A turn brings the machine closer to its end. */
  predicate Closer(next: Machine, m: Machine)
    requires |next.states| > 0 && |m.states| > 0
  {
    |next.rest| < |m.rest| || (next.rest == m.rest && Rank(next.Top()) < Rank(m.Top()))
  }

  lemma ShiftTurn(m: Machine, state: int)
    requires m.Valid() && |m.states| < YYMAXDEPTH && m.Top() != YYFINAL
    requires Action(m.Top(), Head(m.rest).kind) == Shift(state)
    ensures state >= 0 && Shifted(m, state).Valid() && Run(m) == Run(Shifted(m, state)) && Closer(Shifted(m, state), m)
  {
    hide Action, Act, Rank, Goto, YyR1, YyR2, Reduced, Run;
    HeadIsToken(m.rest);
    ShiftLands(m.Top(), Head(m.rest).kind);
    RunShift(m, state);
    assert Step(m) == Go(Shifted(m, state));
    StepProgress(m);
  }

  lemma ShortStackTurn(m: Machine, r: int)
    requires m.Valid() && |m.states| < YYMAXDEPTH && m.Top() != YYFINAL
    requires Action(m.Top(), Head(m.rest).kind) == Reduce(r)
    ensures YyR2(r) >= |m.states| ==> Run(m) == Crash
  {
    hide Action, Act, Rank, Goto, YyR1, YyR2, Reduced, Args;
  }

  lemma ReduceTurn(m: Machine, r: int)
    requires m.Valid() && |m.states| < YYMAXDEPTH && m.Top() != YYFINAL && Run(m) != Crash
    requires Action(m.Top(), Head(m.rest).kind) == Reduce(r)
    ensures r >= 0 && 0 <= YyR2(r) < |m.states| && Goto(Uncovered(m, r), YyR1(r)) >= 0
    ensures
      var a := Act(r, Args(m, r), m.Below(), m.ctx);
      && (a.Done? ==>
            && Reduced(m, r, a.ctx).Valid() && Run(m) == Run(Reduced(m, r, a.ctx))
            && Closer(Reduced(m, r, a.ctx), m))
      && (a.Rejected? ==> Run(m) == ActionFailure(a.ctx, a.message))
      && !a.Fault?
  {
    hide Action, Act, Rank, Goto, YyR1, YyR2, Reduced, Args;
    ReducedValid(m, Head(m.rest).kind, m.ctx);
    ShortStackTurn(m, r);
    RunReduce(m, r);
    var a := Act(r, Args(m, r), m.Below(), m.ctx);
    if a.Done? { ReducedValid(m, Head(m.rest).kind, a.ctx); }
  }

  /** With no row in the packed table a state moves without looking ahead. */
  function DefaultMove(state: int): Move {
    if YyDefact(state) == 0 then SyntaxError else Reduce(YyDefact(state))
  }

  lemma DefaultIgnoresLookahead(state: int, tok: int)
    ensures YyPact(state) == YYPACT_NINF ==> Action(state, tok) == DefaultMove(state)
  {}

  predicate Lookahead(input: seq<Token>, cursor: nat, yychar: Option<Token>) {
    yychar.Some? ==>
      if yychar.value == END_TOKEN then cursor == |input| else 0 < cursor <= |input| && yychar.value == input[cursor - 1]
  }

  /** The tokens still to be shifted: a lookahead already read comes first. */
  function Rest(input: seq<Token>, cursor: nat, yychar: Option<Token>): seq<Token>
    requires cursor <= |input| && Lookahead(input, cursor, yychar)
  {
    if yychar.None? then input[cursor..]
    else if yychar.value == END_TOKEN then []
    else input[cursor - 1..]
  }

  lemma LookaheadIsHead(input: seq<Token>, cursor: nat, yychar: Option<Token>)
    requires TokenList(input) && cursor <= |input| && Lookahead(input, cursor, yychar)
    ensures yychar.Some? ==> yychar.value == Head(Rest(input, cursor, yychar))
    ensures yychar.Some? ==> Tail(Rest(input, cursor, yychar)) == Rest(input, cursor, None)
  {}

  /** Reads the next token; at the end of the input the scanner answers end-of-input for ever. */
  method Fetch(input: seq<Token>, cursor: nat) returns (next: nat, token: Option<Token>)
    requires TokenList(input) && cursor <= |input|
    ensures next <= |input| && token.Some? && Lookahead(input, next, token)
    ensures Rest(input, next, token) == input[cursor..]
  {
    if cursor < |input| {
      next, token := cursor + 1, Some(input[cursor]);
    } else {
      next, token := cursor, Some(END_TOKEN);
    }
  }

  /** After a syntax error the driver pops its stack looking for a state that shifts the error
      token; there is none, so it gives up. */
  method Recover(states: seq<nat>) returns (resumed: bool)
    requires |states| > 0
    ensures !resumed
  {
    var n := |states|;
    while true
      invariant 0 < n <= |states|
      decreases n
    {
      var yyn := YyPact(states[n - 1]);
      if yyn != YYPACT_NINF {
        yyn := yyn + 1;
        NoErrorToken(yyn);
        if 0 <= yyn <= YYLAST && YyCheck(yyn) == 1 && 0 < YyTable(yyn) { return true; }
      }
      if n == 1 { return false; }
      n := n - 1;
    }
  }

  lemma NoErrorToken(n: int)
    ensures YyCheck(n) != 1
  {}

  /** The value a scalar rule builds from its token, or none when the token is of another type. */
  function ScalarArg(rule: int, args: seq<SemVal>): Value {
    if |args| != 1 then NoneV
    else
      match args[0]
      case IVal(i) =>
        if rule == 23 then BoolV(i) else if rule == 24 then IntV(i, FORMAT_DEFAULT) else if rule == 26 then IntV(i, FORMAT_HEX) else NoneV
      case LVal(l) => if rule == 25 then Int64V(l, FORMAT_DEFAULT) else if rule == 27 then Int64V(l, FORMAT_HEX) else NoneV
      case FVal(f) => if rule == 28 then FloatV(f) else NoneV
      case _ => NoneV
  }

  /** What `libconfig_yyparse` answers. */
  datatype Result = Success | Aborted | Exhausted | Crashed

  function ResultOf(o: Outcome): Result {
    match o
    case Accepted(_) => Success
    case SyntaxFailure(_) => Aborted
    case ActionFailure(_, _) => Aborted
    case MemoryExhausted => Exhausted
    case Crash => Crashed
  }
}
