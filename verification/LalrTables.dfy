/** The LALR(1) parser tables that Bison generated for libconfig, and what they decode to.

    A table is a function of its index; an index past its end answers -1.  Symbol numbers below
    23 are tokens, the others are nonterminals, as in the generated file. */
module LalrTables {

  const YYFINAL := 6
  const YYLAST := 35
  const YYNTOKENS := 23
  const YYPACT_NINF := -26
  const YYMAXDEPTH := 10000
  const YYINITDEPTH := 200

  // Token numbers after yytranslate.
  const T_END := 0
  const T_BOOLEAN := 3
  const T_INTEGER := 4
  const T_HEX := 5
  const T_INTEGER64 := 6
  const T_HEX64 := 7
  const T_FLOAT := 8
  const T_STRING := 9
  const T_NAME := 10
  const T_EQUALS := 11
  const T_ARRAY_START := 13
  const T_ARRAY_END := 14
  const T_LIST_START := 15
  const T_LIST_END := 16
  const T_COMMA := 17
  const T_GROUP_START := 18
  const T_GROUP_END := 19
  const T_SEMICOLON := 20
  const T_GARBAGE := 21
  const T_ERROR := 22

  // Nonterminal numbers.
  const N_CONFIGURATION := 24
  const N_SETTING_LIST := 25
  const N_SETTING_LIST_OPT := 26
  const N_TERMINATOR := 27
  const N_SETTING := 28
  const N_VALUE := 34
  const N_STRING := 35
  const N_SIMPLE_VALUE := 36
  const N_VALUE_LIST := 37
  const N_VALUE_LIST_OPT := 38
  const N_SIMPLE_LIST := 39
  const N_SIMPLE_LIST_OPT := 40

  // left-hand side of each rule
  function YyR1(i: int): int {
    match i
    case 0 => 0 case 1 => 23 case 2 => 24 case 3 => 24 case 4 => 25 case 5 => 25 case 6 => 26 case 7 => 26
    case 8 => 27 case 9 => 27 case 10 => 27 case 11 => 29 case 12 => 28 case 13 => 31 case 14 => 30
    case 15 => 33 case 16 => 32 case 17 => 34 case 18 => 34 case 19 => 34 case 20 => 34 case 21 => 35
    case 22 => 35 case 23 => 36 case 24 => 36 case 25 => 36 case 26 => 36 case 27 => 36 case 28 => 36
    case 29 => 36 case 30 => 37 case 31 => 37 case 32 => 38 case 33 => 38 case 34 => 39 case 35 => 39
    case 36 => 40 case 37 => 40 case 38 => 42 case 39 => 41
    case _ => -1
  }

  // length of the right-hand side of each rule
  function YyR2(i: int): int {
    match i
    case 0 => 0 case 1 => 2 case 2 => 0 case 3 => 1 case 4 => 1 case 5 => 2 case 6 => 0 case 7 => 1 case 8 => 0
    case 9 => 1 case 10 => 1 case 11 => 0 case 12 => 5 case 13 => 0 case 14 => 4 case 15 => 0 case 16 => 4
    case 17 => 1 case 18 => 1 case 19 => 1 case 20 => 1 case 21 => 1 case 22 => 2 case 23 => 1 case 24 => 1
    case 25 => 1 case 26 => 1 case 27 => 1 case 28 => 1 case 29 => 1 case 30 => 1 case 31 => 3 case 32 => 0
    case 33 => 1 case 34 => 1 case 35 => 3 case 36 => 0 case 37 => 1 case 38 => 0 case 39 => 4
    case _ => -1
  }

  // default reduction of each state, 0 for an error
  function YyDefact(i: int): int {
    match i
    case 0 => 2 case 1 => 11 case 2 => 0 case 3 => 3 case 4 => 4 case 5 => 0 case 6 => 1 case 7 => 5 case 8 => 0
    case 9 => 23 case 10 => 24 case 11 => 26 case 12 => 25 case 13 => 27 case 14 => 28 case 15 => 21
    case 16 => 13 case 17 => 15 case 18 => 38 case 19 => 18 case 20 => 19 case 21 => 8 case 22 => 29
    case 23 => 17 case 24 => 20 case 25 => 36 case 26 => 32 case 27 => 6 case 28 => 10 case 29 => 9
    case 30 => 12 case 31 => 22 case 32 => 34 case 33 => 37 case 34 => 0 case 35 => 30 case 36 => 33
    case 37 => 0 case 38 => 7 case 39 => 0 case 40 => 0 case 41 => 14 case 42 => 0 case 43 => 16 case 44 => 39
    case 45 => 35 case 46 => 31
    case _ => -1
  }

  // default goto of each nonterminal
  function YyDefgoto(i: int): int {
    match i
    case 0 => -1 case 1 => 2 case 2 => 3 case 3 => 39 case 4 => 30 case 5 => 4 case 6 => 5 case 7 => 19
    case 8 => 25 case 9 => 20 case 10 => 26 case 11 => 21 case 12 => 22 case 13 => 23 case 14 => 36
    case 15 => 37 case 16 => 33 case 17 => 34 case 18 => 24 case 19 => 27
    case _ => -1
  }

  // row of each state in the packed table
  function YyPact(i: int): int {
    match i
    case 0 => -8 case 1 => -26 case 2 => 12 case 3 => -8 case 4 => -26 case 5 => 5 case 6 => -26 case 7 => -26
    case 8 => 0 case 9 => -26 case 10 => -26 case 11 => -26 case 12 => -26 case 13 => -26 case 14 => -26
    case 15 => -26 case 16 => -26 case 17 => -26 case 18 => -26 case 19 => -26 case 20 => -26 case 21 => -6
    case 22 => 10 case 23 => -26 case 24 => -26 case 25 => 23 case 26 => 0 case 27 => -8 case 28 => -26
    case 29 => -26 case 30 => -26 case 31 => -26 case 32 => -26 case 33 => 3 case 34 => 7 case 35 => -26
    case 36 => 6 case 37 => 8 case 38 => -8 case 39 => 14 case 40 => 23 case 41 => -26 case 42 => 0
    case 43 => -26 case 44 => -26 case 45 => -26 case 46 => -26
    case _ => -1
  }

  // row of each nonterminal in the packed table
  function YyPgoto(i: int): int {
    match i
    case 0 => -26 case 1 => -26 case 2 => -5 case 3 => -26 case 4 => -26 case 5 => -3 case 6 => -26
    case 7 => -26 case 8 => -26 case 9 => -26 case 10 => -26 case 11 => -25 case 12 => -26 case 13 => -15
    case 14 => -26 case 15 => -26 case 16 => -26 case 17 => -26 case 18 => -26 case 19 => -26
    case _ => -1
  }

  // packed shift and goto targets
  function YyTable(i: int): int {
    match i
    case 0 => 7 case 1 => 35 case 2 => 1 case 3 => 9 case 4 => 10 case 5 => 11 case 6 => 12 case 7 => 13
    case 8 => 14 case 9 => 15 case 10 => 32 case 11 => 28 case 12 => 6 case 13 => 16 case 14 => 29 case 15 => 17
    case 16 => 8 case 17 => 46 case 18 => 18 case 19 => 31 case 20 => 40 case 21 => 41 case 22 => 38
    case 23 => 42 case 24 => 43 case 25 => 45 case 26 => 9 case 27 => 10 case 28 => 11 case 29 => 12
    case 30 => 13 case 31 => 14 case 32 => 15 case 33 => 44 case 34 => 0 case 35 => 7
    case _ => -1
  }

  // owner of each packed entry
  function YyCheck(i: int): int {
    match i
    case 0 => 3 case 1 => 26 case 2 => 10 case 3 => 3 case 4 => 4 case 5 => 5 case 6 => 6 case 7 => 7
    case 8 => 8 case 9 => 9 case 10 => 25 case 11 => 17 case 12 => 0 case 13 => 13 case 14 => 20 case 15 => 15
    case 16 => 11 case 17 => 42 case 18 => 18 case 19 => 9 case 20 => 17 case 21 => 14 case 22 => 27
    case 23 => 17 case 24 => 16 case 25 => 40 case 26 => 3 case 27 => 4 case 28 => 5 case 29 => 6 case 30 => 7
    case 31 => 8 case 32 => 9 case 33 => 19 case 34 => -1 case 35 => 38
    case _ => -1
  }

  // accessing symbol of each state
  function YyStos(i: int): int {
    match i
    case 0 => 0 case 1 => 10 case 2 => 24 case 3 => 25 case 4 => 28 case 5 => 29 case 6 => 0 case 7 => 28
    case 8 => 11 case 9 => 3 case 10 => 4 case 11 => 5 case 12 => 6 case 13 => 7 case 14 => 8 case 15 => 9
    case 16 => 13 case 17 => 15 case 18 => 18 case 19 => 30 case 20 => 32 case 21 => 34 case 22 => 35
    case 23 => 36 case 24 => 41 case 25 => 31 case 26 => 33 case 27 => 42 case 28 => 17 case 29 => 20
    case 30 => 27 case 31 => 9 case 32 => 36 case 33 => 39 case 34 => 40 case 35 => 34 case 36 => 37
    case 37 => 38 case 38 => 25 case 39 => 26 case 40 => 17 case 41 => 14 case 42 => 17 case 43 => 16
    case 44 => 19 case 45 => 36 case 46 => 34
    case _ => -1
  }

  // right-hand side of each rule
  function Rhs(rule: int): seq<nat> {
    match rule
    case 1 => [24, 0]
    case 2 => []
    case 3 => [25]
    case 4 => [28]
    case 5 => [25, 28]
    case 6 => []
    case 7 => [25]
    case 8 => []
    case 9 => [20]
    case 10 => [17]
    case 11 => []
    case 12 => [10, 29, 11, 34, 27]
    case 13 => []
    case 14 => [13, 31, 40, 14]
    case 15 => []
    case 16 => [15, 33, 38, 16]
    case 17 => [36]
    case 18 => [30]
    case 19 => [32]
    case 20 => [41]
    case 21 => [9]
    case 22 => [35, 9]
    case 23 => [3]
    case 24 => [4]
    case 25 => [6]
    case 26 => [5]
    case 27 => [7]
    case 28 => [8]
    case 29 => [35]
    case 30 => [34]
    case 31 => [37, 17, 34]
    case 32 => []
    case 33 => [37]
    case 34 => [36]
    case 35 => [39, 17, 36]
    case 36 => []
    case 37 => [39]
    case 38 => []
    case 39 => [18, 42, 26, 19]
    case _ => []
  }

  datatype Move = Shift(state: int) | Reduce(rule: int) | SyntaxError

  /** What the driver does in `state` with lookahead `tok`: the packed table decides, and when it
      has no entry for this pair the state's default reduction (or error) applies. */
  function Action(state: int, tok: int): Move {
    var n := YyPact(state) + tok;
    if YyPact(state) != YYPACT_NINF && 0 <= n <= YYLAST && YyCheck(n) == tok then
      if YyTable(n) == 0 then SyntaxError else Shift(YyTable(n))
    else if YyDefact(state) == 0 then SyntaxError
    else Reduce(YyDefact(state))
  }

  lemma ActionReduces(state: int, tok: int)
    requires Action(state, tok).Reduce?
    ensures Action(state, tok).rule == YyDefact(state) && YyDefact(state) != 0
  {}

  /** Where the driver goes after reducing to `nonterminal` above `state`. */
  function Goto(state: int, nonterminal: int): int {
    var n := YyPgoto(nonterminal - YYNTOKENS) + state;
    if 0 <= n <= YYLAST && YyCheck(n) == state then YyTable(n)
    else YyDefgoto(nonterminal - YYNTOKENS)
  }

  predicate IsState(s: int) { 0 <= s < 47 }

  predicate IsToken(t: int) { 0 <= t < YYNTOKENS }

  predicate Scalar(t: int) { T_BOOLEAN <= t <= T_STRING }

  predicate Opener(t: int) { t == T_ARRAY_START || t == T_LIST_START || t == T_GROUP_START }

  function Opened(t: int): int {
    if t == T_ARRAY_START then 16 else if t == T_LIST_START then 17 else 18
  }

  /** The automaton the packed tables encode, state by state. */
  function Decoded(s: int, t: int): Move {
    match s
    case 0 => if t == T_NAME then Shift(1) else Reduce(2)
    case 1 => Reduce(11)
    case 2 => if t == T_END then Shift(6) else SyntaxError
    case 3 => if t == T_NAME then Shift(1) else Reduce(3)
    case 4 => Reduce(4)
    case 5 => if t == T_EQUALS then Shift(8) else SyntaxError
    case 6 => Reduce(1)
    case 7 => Reduce(5)
    case 8 => if Scalar(t) then Shift(t + 6) else if Opener(t) then Shift(Opened(t)) else SyntaxError
    case 9 => Reduce(23)
    case 10 => Reduce(24)
    case 11 => Reduce(26)
    case 12 => Reduce(25)
    case 13 => Reduce(27)
    case 14 => Reduce(28)
    case 15 => Reduce(21)
    case 16 => Reduce(13)
    case 17 => Reduce(15)
    case 18 => Reduce(38)
    case 19 => Reduce(18)
    case 20 => Reduce(19)
    case 21 => if t == T_COMMA then Shift(28) else if t == T_SEMICOLON then Shift(29) else Reduce(8)
    case 22 => if t == T_STRING then Shift(31) else Reduce(29)
    case 23 => Reduce(17)
    case 24 => Reduce(20)
    case 25 => if Scalar(t) then Shift(t + 6) else Reduce(36)
    case 26 => if Scalar(t) then Shift(t + 6) else if Opener(t) then Shift(Opened(t)) else Reduce(32)
    case 27 => if t == T_NAME then Shift(1) else Reduce(6)
    case 28 => Reduce(10)
    case 29 => Reduce(9)
    case 30 => Reduce(12)
    case 31 => Reduce(22)
    case 32 => Reduce(34)
    case 33 => if t == T_COMMA then Shift(40) else Reduce(37)
    case 34 => if t == T_ARRAY_END then Shift(41) else SyntaxError
    case 35 => Reduce(30)
    case 36 => if t == T_COMMA then Shift(42) else Reduce(33)
    case 37 => if t == T_LIST_END then Shift(43) else SyntaxError
    case 38 => if t == T_NAME then Shift(1) else Reduce(7)
    case 39 => if t == T_GROUP_END then Shift(44) else SyntaxError
    case 40 => if Scalar(t) then Shift(t + 6) else SyntaxError
    case 41 => Reduce(14)
    case 42 => if Scalar(t) then Shift(t + 6) else if Opener(t) then Shift(Opened(t)) else SyntaxError
    case 43 => Reduce(16)
    case 44 => Reduce(39)
    case 45 => Reduce(35)
    case _ => Reduce(31)
  }

  /** The states from which the automaton enters a state. */
  function Preds(s: int): set<int> {
    match s
    case 0 => {}
    case 1 => {0, 3, 27, 38}
    case 2 => {0}
    case 3 => {0}
    case 4 => {0, 27}
    case 5 => {1}
    case 6 => {2}
    case 7 => {3, 38}
    case 8 => {5}
    case 9 => {8, 25, 26, 40, 42}
    case 10 => {8, 25, 26, 40, 42}
    case 11 => {8, 25, 26, 40, 42}
    case 12 => {8, 25, 26, 40, 42}
    case 13 => {8, 25, 26, 40, 42}
    case 14 => {8, 25, 26, 40, 42}
    case 15 => {8, 25, 26, 40, 42}
    case 16 => {8, 26, 42}
    case 17 => {8, 26, 42}
    case 18 => {8, 26, 42}
    case 19 => {8, 26, 42}
    case 20 => {8, 26, 42}
    case 21 => {8}
    case 22 => {8, 25, 26, 40, 42}
    case 23 => {8, 26, 42}
    case 24 => {8, 26, 42}
    case 25 => {16}
    case 26 => {17}
    case 27 => {18}
    case 28 => {21}
    case 29 => {21}
    case 30 => {21}
    case 31 => {22}
    case 32 => {25}
    case 33 => {25}
    case 34 => {25}
    case 35 => {26}
    case 36 => {26}
    case 37 => {26}
    case 38 => {27}
    case 39 => {27}
    case 40 => {33}
    case 41 => {34}
    case 42 => {36}
    case 43 => {37}
    case 44 => {39}
    case 45 => {40}
    case 46 => {42}
    case _ => {}
  }

  lemma Decode0(s: int, t: int)
    requires 0 <= s < 8 && IsToken(t)
    ensures Action(s, t) == Decoded(s, t)
  {}

  lemma Decode1(s: int, t: int)
    requires 8 <= s < 9 && IsToken(t)
    ensures Action(s, t) == Decoded(s, t)
  {}

  lemma Decode2(s: int, t: int)
    requires 9 <= s < 21 && IsToken(t)
    ensures Action(s, t) == Decoded(s, t)
  {}

  lemma Decode3(s: int, t: int)
    requires 21 <= s < 26 && IsToken(t)
    ensures Action(s, t) == Decoded(s, t)
  {}

  lemma Decode4(s: int, t: int)
    requires 26 <= s < 27 && IsToken(t)
    ensures Action(s, t) == Decoded(s, t)
  {}

  lemma Decode5(s: int, t: int)
    requires 27 <= s < 40 && IsToken(t)
    ensures Action(s, t) == Decoded(s, t)
  {}

  lemma Decode6(s: int, t: int)
    requires 40 <= s < 47 && IsToken(t)
    ensures Action(s, t) == Decoded(s, t)
  {}

  /** Unpacking the tables gives exactly the automaton of `Decoded`. */
  lemma TablesDecode(s: int, t: int)
    requires IsState(s) && IsToken(t)
    ensures Action(s, t) == Decoded(s, t)
  {
    if s < 8 { Decode0(s, t); }
    else if s < 9 { Decode1(s, t); }
    else if s < 21 { Decode2(s, t); }
    else if s < 26 { Decode3(s, t); }
    else if s < 27 { Decode4(s, t); }
    else if s < 40 { Decode5(s, t); }
    else { Decode6(s, t); }
  }

  /** The packed goto table sends each nonterminal to one of the states it accesses. */
  function Targets(nonterminal: int): set<int> {
    match nonterminal
    case 24 => {2} case 25 => {3, 38} case 26 => {39} case 27 => {30} case 28 => {4, 7} case 29 => {5}
    case 30 => {19} case 31 => {25} case 32 => {20} case 33 => {26} case 34 => {21, 35, 46} case 35 => {22}
    case 36 => {23, 32, 45} case 37 => {36} case 38 => {37} case 39 => {33} case 40 => {34} case 41 => {24}
    case 42 => {27}
    case _ => {}
  }

  lemma GotoTargets(p: int, nonterminal: int)
    requires IsState(p) && N_CONFIGURATION <= nonterminal <= 42
    ensures Goto(p, nonterminal) in Targets(nonterminal)
  {}
}
