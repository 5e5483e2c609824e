/** The scanner: which token each stretch of text becomes.

    Between tokens the longest match wins and, among equally long ones, the earliest rule.  A text is
    a C string, so it contains no NUL.  `@include` files cannot be opened here. */
module Scanner {
  import opened ConfigTree
  import opened LalrTables
  import opened Parser

  // ----- character classes

  predicate Blank(c: char) { c == ' ' || c == '\t' }

  predicate HexDigit(c: char) { IsDigit(c) || 'a' <= c <= 'f' || 'A' <= c <= 'F' }

  predicate NumberChar(c: char) {
    HexDigit(c) || c == '+' || c == '-' || c == '.' || c == 'x' || c == 'X' || c == 'L'
  }

  predicate NumberStart(c: char) { IsDigit(c) || c == '+' || c == '-' || c == '.' }

  predicate AllDigits(s: string) { forall i | 0 <= i < |s| :: IsDigit(s[i]) }

  predicate AllHex(s: string) { forall i | 0 <= i < |s| :: HexDigit(s[i]) }

  // ----- the language of each rule

  /** Letter by letter, ignoring case; `word` is in lower case. */
  predicate SameLetters(s: string, word: string) {
    |s| == |word| && forall i | 0 <= i < |s| :: s[i] == word[i] || (IsAlpha(s[i]) && s[i] as int + 32 == word[i] as int)
  }

  function SkipSign(s: string): string {
    if s != "" && (s[0] == '+' || s[0] == '-') then s[1..] else s
  }

  function SkipDigits(s: string): string {
    if s != "" && IsDigit(s[0]) then SkipDigits(s[1..]) else s
  }

  predicate Exponent(s: string) {
    |s| > 1 && (s[0] == 'e' || s[0] == 'E') && SkipSign(s[1..]) != "" && AllDigits(SkipSign(s[1..]))
  }

  predicate FloatWord(s: string) {
    var u := SkipDigits(SkipSign(s));
    if u != "" && u[0] == '.' then SkipDigits(u[1..]) == "" || Exponent(SkipDigits(u[1..]))
    else u != SkipSign(s) && Exponent(u)
  }

  predicate IntegerWord(s: string) {
    SkipSign(s) != "" && AllDigits(SkipSign(s))
  }

  /** Without the suffix L or LL; the text itself when it has none. */
  function StripL(s: string): string {
    if |s| > 1 && s[|s| - 2..] == "LL" then s[..|s| - 2]
    else if |s| > 0 && s[|s| - 1] == 'L' then s[..|s| - 1]
    else s
  }

  predicate Integer64Word(s: string) {
    StripL(s) != s && IntegerWord(StripL(s))
  }

  predicate HexWord(s: string) {
    |s| > 2 && s[0] == '0' && (s[1] == 'x' || s[1] == 'X') && AllHex(s[2..])
  }

  predicate Hex64Word(s: string) {
    StripL(s) != s && HexWord(StripL(s))
  }

  /** A comment runs to the end of its line; the line break is only looked at. */
  predicate CommentLine(s: string) {
    && |s| > 1 && s[|s| - 1] == '\n' && (s[0] == '#' || (|s| > 2 && s[..2] == "//"))
    && forall i | 0 <= i < |s| - 1 :: s[i] != '\n'
  }

  function SkipBlanks(s: string): string {
    if s != "" && Blank(s[0]) then SkipBlanks(s[1..]) else s
  }

  predicate IncludeOpen(s: string) {
    var u := SkipBlanks(s);
    |u| > 8 && u[..8] == "@include" && Blank(u[8]) && SkipBlanks(u[8..]) == "\""
  }

  /** The earliest rule of the initial state that matches all of `s`, or 0; `bol` says that `s`
      stands at the beginning of a line. */
  function RuleOf(s: string, bol: bool): nat {
    if s == "" then 0
    else if s == "/*" then 1
    else if s == "\"" then 5
    else if bol && IncludeOpen(s) then 16
    else if s == "\n" || s == "\r" || s == [12 as char] then 21
    else if SkipBlanks(s) == "" then 22
    else if s == "=" || s == ":" then 23
    else if s == "," then 24
    else if s == "{" then 25
    else if s == "}" then 26
    else if SameLetters(s, "true") then 27
    else if SameLetters(s, "false") then 28
    else if ValidName(s) then 29
    else if FloatWord(s) then 30
    else if IntegerWord(s) then 31
    else if Integer64Word(s) then 32
    else if HexWord(s) then 33
    else if Hex64Word(s) then 34
    else if s == "[" then 35
    else if s == "]" then 36
    else if s == "(" then 37
    else if s == ")" then 38
    else if s == ";" then 39
    else if CommentLine(s) then 40
    else if |s| == 1 then 41
    else 0
  }

  /** The length of the longest prefix of at most `n` characters that some rule matches. */
  function Longest(s: string, n: nat, bol: bool): nat
    requires n <= |s|
    ensures Longest(s, n, bol) <= n
    ensures n > 0 ==> Longest(s, n, bol) > 0 && RuleOf(s[..Longest(s, n, bol)], bol) != 0
  {
    if n <= 1 || RuleOf(s[..n], bol) != 0 then n else Longest(s, n - 1, bol)
  }

  // ----- values

  function DigitValue(c: char): nat
    requires HexDigit(c)
  {
    if IsDigit(c) then (c - '0') as nat else if 'a' <= c <= 'f' then (c - 'a') as nat + 10 else (c - 'A') as nat + 10
  }

  /** The number written in a base, most significant digit first. */
  function Number(s: string, base: nat): nat
    requires AllHex(s)
  {
    if s == "" then 0 else Number(s[..|s| - 1], base) * base + DigitValue(s[|s| - 1])
  }

  function Clamp(n: int, lo: int, hi: int): int { if n < lo then lo else if n > hi then hi else n }

  const TWO32: int := 0x1_0000_0000
  const TWO64: int := 0x1_0000_0000_0000_0000
  const INT64_MIN: int := -0x8000_0000_0000_0000
  const INT64_MAX: int := 0x7FFF_FFFF_FFFF_FFFF

  /** Conversion to a 32-bit or 64-bit two's complement integer. */
  function Wrap32(n: int): int { if n % TWO32 < 0x8000_0000 then n % TWO32 else n % TWO32 - TWO32 }

  function Wrap64(n: int): int { if n % TWO64 <= INT64_MAX then n % TWO64 else n % TWO64 - TWO64 }

  /** `atoll`: a signed decimal, held within 64 bits. */
  function Decimal(s: string): int
    requires IntegerWord(s)
  {
    DigitsAreHex(SkipSign(s));
    var n: int := Number(SkipSign(s), 10);
    Clamp(if s[0] == '-' then -n else n, INT64_MIN, INT64_MAX)
  }

  /** `strtoul` and `strtoull` in base 16, held within 64 bits. */
  function Hexadecimal(s: string): int
    requires HexWord(s)
  {
    Clamp(Number(s[2..], 16), 0, TWO64 - 1)
  }

  lemma DigitsAreHex(s: string)
    requires AllDigits(s)
    ensures AllHex(s)
  {}

  /** The token a rule of the initial state returns for the text it matched; other rules return none. */
  function TokenOf(rule: nat, s: string): seq<Token> {
    match rule
    case 23 => [Token(T_EQUALS, NoVal)]
    case 24 => [Token(T_COMMA, NoVal)]
    case 25 => [Token(T_GROUP_START, NoVal)]
    case 26 => [Token(T_GROUP_END, NoVal)]
    case 27 => [Token(T_BOOLEAN, IVal(1))]
    case 28 => [Token(T_BOOLEAN, IVal(0))]
    case 29 => [Token(T_NAME, SVal(s))]
    case 30 => [Token(T_FLOAT, FVal(s))]
    case 31 => if IntegerWord(s) then [Token(T_INTEGER, IVal(Wrap32(Decimal(s))))] else []
    case 32 => if Integer64Word(s) then [Token(T_INTEGER64, LVal(Decimal(StripL(s))))] else []
    case 33 => if HexWord(s) then [Token(T_HEX, IVal(Wrap32(Hexadecimal(s))))] else []
    case 34 => if Hex64Word(s) then [Token(T_HEX64, LVal(Wrap64(Hexadecimal(StripL(s)))))] else []
    case 35 => [Token(T_ARRAY_START, NoVal)]
    case 36 => [Token(T_ARRAY_END, NoVal)]
    case 37 => [Token(T_LIST_START, NoVal)]
    case 38 => [Token(T_LIST_END, NoVal)]
    case 39 => [Token(T_SEMICOLON, NoVal)]
    case 41 => [Token(T_GARBAGE, NoVal)]
    case _ => []
  }

  // ----- strings and comments

  /** How much of the text the first rule to match inside a string consumes, and what it appends.
      A C string stops at a NUL, so the escape for code 0 appends nothing. */
  function StringPiece(s: string): (p: (nat, string))
    requires s != "" && s[0] != '"'
    ensures 0 < p.0 <= |s|
  {
    if s[0] != '\\' then (PlainRun(s), s[..PlainRun(s)])
    else if |s| > 1 && s[1] == 'n' then (2, "\n")
    else if |s| > 1 && s[1] == 'r' then (2, "\r")
    else if |s| > 1 && s[1] == 't' then (2, "\t")
    else if |s| > 1 && s[1] == 'f' then (2, [12 as char])
    else if |s| > 1 && s[1] == '\\' then (2, "\\")
    else if |s| > 1 && s[1] == '"' then (2, "\"")
    else if |s| > 3 && (s[1] == 'x' || s[1] == 'X') && HexDigit(s[2]) && HexDigit(s[3]) then
      var code := DigitValue(s[2]) * 16 + DigitValue(s[3]);
      (4, if code == 0 then "" else [code as char])
    else (1, "\\")
  }

  /** The longest run without quotes and backslashes. */
  function PlainRun(s: string): (n: nat)
    ensures n <= |s|
    ensures s != "" && s[0] != '"' && s[0] != '\\' ==> n > 0
  {
    if s == "" || s[0] == '"' || s[0] == '\\' then 0 else 1 + PlainRun(s[1..])
  }

  datatype StringScan = Closed(text: string, rest: string) | Unclosed

  /** Inside a string literal, with `sofar` collected. */
  function ScanString(s: string, sofar: string): (r: StringScan)
    ensures r.Closed? ==> |r.rest| < |s|
    decreases |s|
  {
    if s == "" then Unclosed
    else if s[0] == '"' then Closed(sofar, s[1..])
    else
      var p := StringPiece(s);
      ScanString(s[p.0..], sofar + p.1)
  }

  /** After an opening comment bracket: the text behind the closing one. */
  function SkipComment(s: string): (r: string)
    ensures |r| <= |s|
  {
    if s == "" then ""
    else if |s| > 1 && s[..2] == "*/" then s[2..]
    else SkipComment(s[1..])
  }

  // ----- the whole text

  /** All tokens of the text, ending where the scanner first answers end-of-input or gives up on an
      `@include`. */
  function Lex(s: string, bol: bool): seq<Token>
    decreases |s|
  {
    if s == "" then []
    else
      var n := Longest(s, |s|, bol);
      var rule := RuleOf(s[..n], bol);
      if rule == 1 then Lex(SkipComment(s[n..]), false)
      else if rule == 5 then
        match ScanString(s[n..], "")
        case Unclosed => []
        case Closed(text, rest) => [Token(T_STRING, SVal(text))] + Lex(rest, false)
      else if rule == 16 then [Token(T_ERROR, NoVal)]
      else if rule == 40 then Lex(s[n - 1..], false)
      else TokenOf(rule, s[..n]) + Lex(s[n..], s[n - 1] == '\n')
  }
}
