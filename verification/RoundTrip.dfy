/** Writing a configuration and reading it back gives the same configuration. */
module RoundTrip {
  import opened ConfigTree
  import opened LalrTables
  import opened Parser
  import opened Scanner
  import opened ScannerProps
  import opened Writer

  // ----- trees that survive

  predicate BooleanWord(s: string) { SameLetters(s, "true") || SameLetters(s, "false") }

  predicate Fits32(n: int) { -0x8000_0000 <= n < 0x8000_0000 }

  predicate Fits64(n: int) { INT64_MIN <= n <= INT64_MAX }

  predicate IsFormat(f: int) { f == FORMAT_DEFAULT || f == FORMAT_HEX }

  predicate NoNul(s: string) { forall i | 0 <= i < |s| :: s[i] != 0 as char }

  /** What the C types hold, and names the scanner reads as names. */
  predicate Writable(v: Value)
    decreases v
  {
    match v
    case NoneV => false
    case FloatV(_) => false
    case BoolV(b) => b == 0 || b == 1
    case IntV(n, f) => Fits32(n) && IsFormat(f)
    case Int64V(n, f) => Fits64(n) && IsFormat(f)
    case StringV(s) => NoNul(s)
    case AggV(kind, elems) =>
      forall i | 0 <= i < |elems| ::
        && Writable(elems[i].val)
        && (kind == Group ==> elems[i].name.Some? && ValidName(elems[i].name.value) && !BooleanWord(elems[i].name.value))
  }

  lemma {:induction false} WritableNoFloats(v: Value)
    requires Writable(v)
    ensures NoFloats(v)
    decreases v
  {
    if v.AggV? {
      forall i | 0 <= i < |v.elems| ensures NoFloats(v.elems[i].val) {
        SmallerElement(v, i);
        WritableNoFloats(v.elems[i].val);
      }
    }
  }

  lemma SmallerElement(v: Value, i: nat)
    requires v.AggV? && i < |v.elems|
    ensures v.elems[i].val < v
  {}

  // ----- the tokens of a tree

  function ScalarToken(v: Value): Token
    requires ScalarKind(v) != 0
  {
    match v
    case BoolV(b) => Token(T_BOOLEAN, IVal(b))
    case IntV(n, f) => Token(if f == FORMAT_HEX then T_HEX else T_INTEGER, IVal(n))
    case Int64V(n, f) => Token(if f == FORMAT_HEX then T_HEX64 else T_INTEGER64, LVal(n))
    case FloatV(t) => Token(T_FLOAT, FVal(t))
    case StringV(s) => Token(T_STRING, SVal(s))
  }

  function Opening(kind: Kind): Token {
    Token(if kind == Array then T_ARRAY_START else if kind == List then T_LIST_START else T_GROUP_START, NoVal)
  }

  function Closing(kind: Kind): Token {
    Token(if kind == Array then T_ARRAY_END else if kind == List then T_LIST_END else T_GROUP_END, NoVal)
  }

  function ValueTokens(v: Value): seq<Token>
    decreases v, 0
  {
    match v
    case NoneV => []
    case AggV(kind, elems) =>
      [Opening(kind)] + (if kind == Group then SettingsTokens(elems) else ElemsTokens(elems)) + [Closing(kind)]
    case _ => [ScalarToken(v)]
  }

  function ElemTokens(s: Setting): seq<Token>
    decreases s, 1
  {
    ValueTokens(s.val)
  }

  function ElemsTokens(elems: seq<Setting>): seq<Token>
    decreases elems, 2
  {
    if elems == [] then []
    else ElemTokens(elems[0]) + (if |elems| > 1 then [Token(T_COMMA, NoVal)] else []) + ElemsTokens(elems[1..])
  }

  function SettingTokens(s: Setting): seq<Token>
    decreases s, 1
  {
    [Token(T_NAME, SVal(if s.name.Some? then s.name.value else "")), Token(T_EQUALS, NoVal)]
    + ValueTokens(s.val) + [Token(T_SEMICOLON, NoVal)]
  }

  function SettingsTokens(elems: seq<Setting>): seq<Token>
    decreases elems, 2
  {
    if elems == [] then [] else SettingTokens(elems[0]) + SettingsTokens(elems[1..])
  }

  // ----- numbers

  lemma {:induction false} DigitsBack(n: nat, base: nat)
    requires base == 10 || base == 16
    ensures Digits(n, base) != "" && AllHex(Digits(n, base)) && Number(Digits(n, base), base) == n
    ensures base == 10 ==> AllDigits(Digits(n, base))
  {
    HexDigitBack(n % base);
    hide DigitChar, DigitValue, HexDigit;
    if n < base {
      assert Digits(n, base)[..0] == "";
    } else {
      DigitsBack(n / base, base);
      var s, u := Digits(n, base), Digits(n / base, base);
      assert s[..|s| - 1] == u;
      assert n == n / base * base + n % base;
    }
  }

  /** A printed decimal is an integer word that reads back as the same number. */
  lemma SignedBack(n: int)
    requires Fits64(n)
    ensures IntegerWord(SignedText(n)) && Decimal(SignedText(n)) == n
  {
    hide Digits, Number, Clamp;
    var s := SignedText(n);
    if n < 0 {
      DigitsBack(-n, 10);
      assert SkipSign(s) == Digits(-n, 10);
    } else {
      DigitsBack(n, 10);
      assert SkipSign(s) == s;
    }
    ClampInside(n);
  }

  lemma ClampInside(n: int)
    requires Fits64(n)
    ensures Clamp(n, INT64_MIN, INT64_MAX) == n
  {}

  /** A printed hexadecimal reads back as the same number once it is stored in as many bits. */
  lemma HexBack(n: int, modulus: int)
    requires modulus == TWO32 || modulus == TWO64
    ensures HexWord("0x" + HexText(n, modulus)) && Hexadecimal("0x" + HexText(n, modulus)) == n % modulus
  {
    DigitsBack(n % modulus, 16);
    var s := "0x" + HexText(n, modulus);
    assert s[2..] == HexText(n, modulus);
  }

  lemma Wrapped32(n: int)
    requires Fits32(n)
    ensures Wrap32(n) == n && Wrap32(n % TWO32) == n
  {}

  lemma Wrapped64(n: int)
    requires Fits64(n)
    ensures Wrap64(n % TWO64) == n
  {}

  // ----- which rule each printed word belongs to

  lemma NameRule(s: string, bol: bool)
    requires ValidName(s) && !BooleanWord(s)
    ensures RuleOf(s, bol) == 29
  {
    ValidIsName(s);
    hide FloatWord, IncludeOpen, SkipBlanks, CommentLine, ValidName, SameLetters;
    NotBlank(s);
  }

  lemma BooleanRules(bol: bool)
    ensures RuleOf("true", bol) == 27 && RuleOf("false", bol) == 28
  {
    hide FloatWord, IncludeOpen, SkipBlanks, CommentLine, ValidName;
    NotBlank("true");
    NotBlank("false");
  }

  lemma {:induction false} NoDigitsLeft(s: string)
    requires AllDigits(s)
    ensures SkipDigits(s) == ""
  {
    if s != "" { NoDigitsLeft(s[1..]); }
  }

  lemma IntegerRule(s: string, bol: bool)
    requires IntegerWord(s)
    ensures RuleOf(s, bol) == 31
  {
    IntegerIsNumber(s);
    NoDigitsLeft(SkipSign(s));
    hide IncludeOpen, SkipBlanks, CommentLine, ValidName, SameLetters, IntegerWord, SkipDigits;
    NotBlank(s);
    NotWord(s);
  }

  lemma SuffixL(s: string)
    requires s != "" && s[|s| - 1] != 'L'
    ensures StripL(s + "L") == s
  {
    var t := s + "L";
    assert t[|t| - 2..][0] == s[|s| - 1];
    assert t[..|t| - 1] == s;
  }

  lemma NotInteger(s: string, i: nat)
    requires 0 < i < |s| && !IsDigit(s[i])
    ensures !IntegerWord(s)
  {}

  /** A text that begins like a number is only ever a number. */
  lemma NumberOnly(s: string)
    requires s != "" && NumberStart(s[0])
    ensures SkipBlanks(s) != "" && !IncludeOpen(s)
    ensures !SameLetters(s, "true") && !SameLetters(s, "false") && !ValidName(s)
  {
    NotBlank(s);
    NotWord(s);
  }

  lemma Integer64Rule(w: string, bol: bool)
    requires IntegerWord(w)
    ensures RuleOf(w + "L", bol) == 32 && Integer64Word(w + "L") && StripL(w + "L") == w
  {
    hide IncludeOpen, SkipBlanks, CommentLine, ValidName, SameLetters, SkipDigits, FloatWord, StripL;
    var s := w + "L";
    IntegerIsNumber(w);
    assert s[0] == w[0];
    NumberOnly(s);
    LastDigit(w);
    SuffixL(w);
    NotInteger(s, |w|);
    NotFloatL(w);
  }

  lemma LastDigit(w: string)
    requires IntegerWord(w)
    ensures w != "" && w[|w| - 1] != 'L'
  {
    var u := SkipSign(w);
    assert u == w || u == w[1..];
    assert IsDigit(u[|u| - 1]);
  }

  lemma NotFloatL(w: string)
    requires IntegerWord(w)
    ensures !FloatWord(w + "L")
  {
    assert SkipSign(w + "L") == SkipSign(w) + "L";
    DigitsThenL(SkipSign(w));
  }

  lemma {:induction false} DigitsThenL(s: string)
    requires AllDigits(s)
    ensures SkipDigits(s + "L") == "L"
  {
    if s != "" {
      DigitsThenL(s[1..]);
      assert (s + "L")[1..] == s[1..] + "L";
    } else {
      assert s + "L" == "L";
    }
  }

  lemma HexRule(s: string, bol: bool)
    requires HexWord(s)
    ensures RuleOf(s, bol) == 33
  {
    HexNotDecimal(s);
    assert s[|s| - 1] == s[2..][|s| - 3];
    assert StripL(s) == s;
    hide IncludeOpen, SkipBlanks, CommentLine, ValidName, SameLetters, IntegerWord, SkipDigits, StripL, SkipSign, FloatWord;
    NotBlank(s);
    NotWord(s);
  }

  lemma HexNotDecimal(s: string)
    requires |s| > 2 && s[0] == '0' && (s[1] == 'x' || s[1] == 'X')
    ensures !FloatWord(s) && !IntegerWord(s)
  {
    NotInteger(s, 1);
    assert SkipDigits(s) == SkipDigits(s[1..]) == s[1..];
  }

  lemma Hex64Rule(w: string, bol: bool)
    requires HexWord(w)
    ensures RuleOf(w + "L", bol) == 34 && Hex64Word(w + "L") && StripL(w + "L") == w
  {
    var s := w + "L";
    assert w[|w| - 1] == w[2..][|w| - 3];
    SuffixL(w);
    HexNotDecimal(s);
    NotInteger(w, 1);
    assert s[2..][|s| - 3] == 'L';
    hide IncludeOpen, SkipBlanks, CommentLine, ValidName, SameLetters, IntegerWord, StripL, FloatWord;
    NotBlank(s);
    NotWord(s);
  }

  // ----- strings

  /** Characters of a run may be taken one at a time. */
  lemma PlainStep(c: char, t: string, sofar: string)
    requires c != '"' && c != '\\'
    ensures ScanString([c] + t, sofar) == ScanString(t, sofar + [c])
  {
    var s := [c] + t;
    var k := PlainRun(t);
    assert s[1..] == t;
    assert StringPiece(s) == (k + 1, s[..k + 1]);
    assert s[k + 1..] == t[k..] && s[..k + 1] == [c] + t[..k];
    assert sofar + ([c] + t[..k]) == (sofar + [c]) + t[..k];
    if k == 0 {
      assert t[0..] == t && (sofar + [c]) + t[..0] == sofar + [c];
    }
  }

  lemma HexDigitBack(d: nat)
    requires d < 16
    ensures HexDigit(DigitChar(d)) && DigitValue(DigitChar(d)) == d
  {}

  /** One written character reads back as itself. */
  lemma EscapedStep(c: char, t: string, sofar: string)
    requires c != 0 as char
    ensures ScanString(Escaped(c) + t, sofar) == ScanString(t, sofar + [c])
  {
    EscapedShape(c);
    if |Escaped(c)| > 1 { EscapedPiece(c, t); }
    hide Escaped, StringPiece, ScanString;
    if |Escaped(c)| == 1 { PlainStep(c, t, sofar); } else { PieceStep(Escaped(c), t, sofar, [c]); }
  }

  lemma EscapedShape(c: char)
    ensures Escaped(c) == [c] ==> c != '"' && c != '\\'
    ensures Escaped(c) != [c] ==> |Escaped(c)| > 1 && Escaped(c)[0] == '\\'
  {}

  lemma PieceStep(e: string, t: string, sofar: string, add: string)
    requires e != "" && e[0] == '\\' && StringPiece(e + t) == (|e|, add)
    ensures ScanString(e + t, sofar) == ScanString(t, sofar + add)
  {
    hide StringPiece;
    assert (e + t)[|e|..] == t;
  }

  lemma EscapedPiece(c: char, t: string)
    requires c != 0 as char && |Escaped(c)| > 1
    ensures StringPiece(Escaped(c) + t) == (|Escaped(c)|, [c])
  {
    if |Escaped(c)| == 4 {
      HexDigitBack(c as int / 16);
      HexDigitBack(c as int % 16);
    }
  }

  lemma EndOfString(rest: string, sofar: string)
    ensures ScanString("\"" + rest, sofar) == Closed(sofar, rest)
  {
    assert ("\"" + rest)[1..] == rest;
  }

  lemma {:induction false} StringBack(text: string, rest: string, sofar: string)
    requires NoNul(text)
    ensures ScanString(EscapedText(text) + "\"" + rest, sofar) == Closed(sofar + text, rest)
  {
    hide ScanString, Escaped;
    if text == "" {
      EndOfString(rest, sofar);
      assert EscapedText(text) + "\"" + rest == "\"" + rest;
    } else {
      var tail := EscapedText(text[1..]) + "\"" + rest;
      assert EscapedText(text) + "\"" + rest == Escaped(text[0]) + tail;
      EscapedStep(text[0], tail, sofar);
      StringBack(text[1..], rest, sofar + [text[0]]);
      assert sofar + [text[0]] + text[1..] == sofar + text;
    }
  }

  // ----- scanning what was written

  /** After a value the writer puts one of these. */
  predicate EndsValue(rest: string) {
    rest != "" && (rest[0] == ',' || rest[0] == ' ' || rest[0] == ';')
  }

  predicate Solid(rest: string) { rest != "" && !Blank(rest[0]) && rest[0] != '@' }

  lemma LexSpecial(c: char, rest: string, bol: bool)
    requires Special(c) && c != '"'
    ensures Lex([c] + rest, bol) == TokenOf(SpecialRule(c), [c]) + Lex(rest, c == '\n')
  {
    SpecialWord(c, rest, bol);
    LexWord([c], rest, bol, SpecialRule(c));
  }

  lemma LexBlanks(w: string, rest: string, bol: bool)
    requires w != "" && AllBlank(w) && Solid(rest)
    ensures Lex(w + rest, bol) == Lex(rest, false)
  {
    hide Lex, RuleOf, IncludeOpen;
    BlankRule(w, bol);
    LexWord(w, rest, bol, 22);
    assert TokenOf(22, w) + Lex(rest, false) == Lex(rest, false);
  }

  lemma {:induction false} OnlyBlanks(w: string)
    requires AllBlank(w)
    ensures SkipBlanks(w) == ""
  {
    if w != "" { OnlyBlanks(w[1..]); }
  }

  lemma BlankRule(w: string, bol: bool)
    requires w != "" && AllBlank(w)
    ensures RuleOf(w, bol) == 22
  {
    OnlyBlanks(w);
    assert w[0] != '\n' && w[0] != '\r' && w[0] != 12 as char;
  }

  lemma LexName(name: string, rest: string, bol: bool)
    requires ValidName(name) && !BooleanWord(name) && rest != "" && rest[0] == ' '
    ensures Lex(name + rest, bol) == [Token(T_NAME, SVal(name))] + Lex(rest, false)
  {
    hide Lex, RuleOf, BooleanWord;
    NameRule(name, bol);
    LexWord(name, rest, bol, 29);
  }

  lemma LexNumber(w: string, rest: string, bol: bool, rule: nat)
    requires EndsValue(rest) && w != "" && NumberStart(w[0]) && AllNumber(w)
    requires 31 <= rule <= 34 && RuleOf(w, bol) == rule
    ensures Lex(w + rest, bol) == TokenOf(rule, w) + Lex(rest, false)
  {
    LexWord(w, rest, bol, rule);
  }

  lemma LexInt(n: int, format: int, rest: string, bol: bool)
    requires Fits32(n) && IsFormat(format) && EndsValue(rest)
    ensures Lex(IntText(n, format) + rest, bol) == [ScalarToken(IntV(n, format))] + Lex(rest, false)
  {
    hide Lex, RuleOf, Decimal, Hexadecimal, Wrap32;
    var w := IntText(n, format);
    Wrapped32(n);
    if format == FORMAT_HEX {
      HexBack(n, TWO32);
      HexRule(w, bol);
      HexIsNumber(w);
      LexNumber(w, rest, bol, 33);
    } else {
      SignedBack(n);
      IntegerRule(w, bol);
      IntegerIsNumber(w);
      LexNumber(w, rest, bol, 31);
    }
  }

  lemma LexInt64(n: int, format: int, rest: string, bol: bool)
    requires Fits64(n) && IsFormat(format) && EndsValue(rest)
    ensures Lex(Int64Text(n, format) + rest, bol) == [ScalarToken(Int64V(n, format))] + Lex(rest, false)
  {
    hide Lex, RuleOf, Decimal, Hexadecimal, Wrap64, StripL;
    var w := Int64Text(n, format);
    Wrapped64(n);
    if format == FORMAT_HEX {
      HexBack(n, TWO64);
      Hex64Rule("0x" + HexText(n, TWO64), bol);
      Hex64IsNumber(w);
      LexNumber(w, rest, bol, 34);
    } else {
      SignedBack(n);
      Integer64Rule(SignedText(n), bol);
      Integer64IsNumber(w);
      LexNumber(w, rest, bol, 32);
    }
  }

  lemma LexString(text: string, rest: string, bol: bool)
    requires NoNul(text)
    ensures Lex("\"" + EscapedText(text) + "\"" + rest, bol) == [Token(T_STRING, SVal(text))] + Lex(rest, false)
  {
    var inner := EscapedText(text) + "\"" + rest;
    var s := "\"" + inner;
    assert "\"" + EscapedText(text) + "\"" + rest == s;
    SpecialWord('"', inner, bol);
    FirstWord("\"", inner, bol);
    StringBack(text, rest, "");
    assert "" + text == text;
  }

  lemma LexScalar(v: Value, depth: nat, tabWidth: nat, rest: string, bol: bool)
    requires Writable(v) && NoFloats(v) && ScalarKind(v) != 0 && EndsValue(rest)
    ensures Lex(ValueText(v, depth, tabWidth) + rest, bol) == [ScalarToken(v)] + Lex(rest, false)
  {
    hide Lex, RuleOf, IntText, Int64Text, EscapedText;
    match v
    case BoolV(b) =>
      var w := if b != 0 then "true" else "false";
      BooleanRules(bol);
      LexWord(w, rest, bol, if b != 0 then 27 else 28);
    case IntV(n, f) => LexInt(n, f, rest, bol);
    case Int64V(n, f) => LexInt64(n, f, rest, bol);
    case StringV(text) => LexString(text, rest, bol);
  }

  /** Indentation is skipped; what follows is scanned in the middle of a line, or where the line stood. */
  lemma LexIndent(depth: nat, tabWidth: nat, rest: string, bol: bool) returns (b: bool)
    requires Solid(rest)
    ensures Lex(IndentBelow(depth, tabWidth) + rest, bol) == Lex(rest, b)
  {
    if depth > 1 {
      b := false;
      var w := Indent(depth, tabWidth);
      assert |w| > 0 by { if tabWidth > 0 { Product(depth - 1, tabWidth); } }
      LexBlanks(w, rest, bol);
    } else {
      b := bol;
      assert IndentBelow(depth, tabWidth) + rest == rest;
    }
  }

  lemma Product(a: nat, b: nat)
    requires a > 0 && b > 0
    ensures a * b > 0
  {}

  /** Scanning a written value yields the tokens of the value. */
  lemma {:induction false} LexValue(v: Value, depth: nat, tabWidth: nat, rest: string, bol: bool)
    requires Writable(v) && NoFloats(v) && depth > 0 && EndsValue(rest)
    ensures Lex(ValueText(v, depth, tabWidth) + rest, bol) == ValueTokens(v) + Lex(rest, false)
    decreases v, 0
  {
    hide Lex, ScalarToken;
    match v
    case AggV(kind, elems) =>
      if kind == Group { LexGroup(elems, depth, tabWidth, rest, bol); }
      else { LexVector(kind, elems, depth, tabWidth, rest, bol); }
    case _ => LexScalar(v, depth, tabWidth, rest, bol);
  }

  predicate WritableElems(elems: seq<Setting>, kind: Kind) {
    forall i | 0 <= i < |elems| ::
      && Writable(elems[i].val) && NoFloats(elems[i].val)
      && (kind == Group ==> elems[i].name.Some? && ValidName(elems[i].name.value) && !BooleanWord(elems[i].name.value))
  }

  lemma {:induction false} LexVector(kind: Kind, elems: seq<Setting>, depth: nat, tabWidth: nat, rest: string, bol: bool)
    requires kind != Group && WritableElems(elems, kind) && depth > 0
    ensures Lex(ValueText(AggV(kind, elems), depth, tabWidth) + rest, bol)
      == [Opening(kind)] + ElemsTokens(elems) + [Closing(kind)] + Lex(rest, false)
    decreases elems, 3
  {
    hide Lex, ElemsText, ElemsTokens;
    var open, close := if kind == Array then '[' else '(', if kind == Array then ']' else ')';
    var inner := ElemsText(elems, depth, tabWidth) + ([close] + rest);
    assert ValueText(AggV(kind, elems), depth, tabWidth) + rest == [open] + (" " + inner);
    LexSpecial(open, " " + inner, bol);
    ElemsTextSolid(elems, depth, tabWidth, kind, [close] + rest);
    LexBlanks(" ", inner, false);
    LexElems(elems, depth, tabWidth, [close] + rest, kind);
    LexSpecial(close, rest, false);
    assert TokenOf(SpecialRule(open), [open]) == [Opening(kind)] && TokenOf(SpecialRule(close), [close]) == [Closing(kind)];
  }

  lemma {:induction false} LexElement(s: Setting, depth: nat, tabWidth: nat, rest: string, bol: bool)
    requires Writable(s.val) && NoFloats(s.val) && depth > 0 && EndsValue(rest)
    ensures Lex(ElementText(s, depth, tabWidth) + rest, bol) == ElemTokens(s) + Lex(rest, false)
    decreases s, 1
  {
    LexValue(s.val, depth, tabWidth, rest, bol);
  }

  lemma {:induction false} LexElems(elems: seq<Setting>, depth: nat, tabWidth: nat, rest: string, kind: Kind)
    requires WritableElems(elems, kind) && Solid(rest)
    ensures Lex(ElemsText(elems, depth, tabWidth) + rest, false) == ElemsTokens(elems) + Lex(rest, false)
    decreases elems, 2
  {
    hide Lex, ElementText, ElemTokens, Writable, NoFloats, TokenOf;
    if elems == [] {
      assert ElemsText(elems, depth, tabWidth) + rest == rest;
    } else {
      var tail := ElemsText(elems[1..], depth, tabWidth) + rest;
      ElemsTextSolid(elems[1..], depth, tabWidth, kind, rest);
      var first := ElementText(elems[0], depth + 1, tabWidth);
      LexBlanks(" ", tail, false);
      LexElems(elems[1..], depth, tabWidth, rest, kind);
      if |elems| > 1 {
        assert ElemsText(elems, depth, tabWidth) + rest == first + ("," + (" " + tail));
        LexElement(elems[0], depth + 1, tabWidth, "," + (" " + tail), false);
        LexSpecial(',', " " + tail, false);
        CommaToken();
      } else {
        assert ElemsText(elems, depth, tabWidth) + rest == first + (" " + tail);
        LexElement(elems[0], depth + 1, tabWidth, " " + tail, false);
      }
    }
  }

  lemma CommaToken()
    ensures TokenOf(SpecialRule(','), ",") == [Token(T_COMMA, NoVal)]
  {}

  lemma {:induction false} LexGroup(elems: seq<Setting>, depth: nat, tabWidth: nat, rest: string, bol: bool)
    requires WritableElems(elems, Group) && depth > 0
    ensures Lex(ValueText(AggV(Group, elems), depth, tabWidth) + rest, bol)
      == [Opening(Group)] + SettingsTokens(elems) + [Closing(Group)] + Lex(rest, false)
    decreases elems, 3
  {
    hide Lex, SettingsText, SettingsTokens, IndentBelow, TokenOf;
    var indent := IndentBelow(depth, tabWidth);
    var closing := "}" + rest;
    var body := SettingsText(elems, depth + 1, tabWidth) + (indent + closing);
    var opening := "{" + ("\n" + body);
    assert ValueText(AggV(Group, elems), depth, tabWidth) + rest == "\n" + (indent + opening);
    LexSpecial('\n', indent + opening, bol);
    var b1 := LexIndent(depth, tabWidth, opening, true);
    LexSpecial('{', "\n" + body, b1);
    LexSpecial('\n', body, false);
    var b2 := LexSettings(elems, depth + 1, tabWidth, indent + closing, true);
    var b3 := LexIndent(depth, tabWidth, closing, b2);
    LexSpecial('}', rest, b3);
    BraceTokens();
  }

  lemma BraceTokens()
    ensures TokenOf(SpecialRule('{'), "{") == [Opening(Group)] && TokenOf(SpecialRule('}'), "}") == [Closing(Group)]
    ensures TokenOf(SpecialRule('\n'), "\n") == [] && TokenOf(SpecialRule(';'), ";") == [Token(T_SEMICOLON, NoVal)]
    ensures TokenOf(SpecialRule('='), "=") == TokenOf(SpecialRule(':'), ":") == [Token(T_EQUALS, NoVal)]
  {}

  lemma {:induction false} LexSettings(elems: seq<Setting>, depth: nat, tabWidth: nat, rest: string, bol: bool) returns (b: bool)
    requires WritableElems(elems, Group) && depth > 0
    ensures Lex(SettingsText(elems, depth, tabWidth) + rest, bol) == SettingsTokens(elems) + Lex(rest, b)
    decreases elems, 2
  {
    hide Lex, SettingText, SettingTokens, Writable, NoFloats;
    if elems == [] {
      b := bol;
      assert SettingsText(elems, depth, tabWidth) + rest == rest;
    } else {
      var tail := SettingsText(elems[1..], depth, tabWidth) + rest;
      assert SettingsText(elems, depth, tabWidth) + rest == SettingText(elems[0], depth, tabWidth) + tail;
      LexSetting(elems[0], depth, tabWidth, tail, bol);
      b := LexSettings(elems[1..], depth, tabWidth, rest, true);
    }
  }

  lemma {:induction false} LexSetting(s: Setting, depth: nat, tabWidth: nat, rest: string, bol: bool)
    requires Writable(s.val) && NoFloats(s.val) && depth > 0
    requires s.name.Some? && ValidName(s.name.value) && !BooleanWord(s.name.value)
    ensures Lex(SettingText(s, depth, tabWidth) + rest, bol) == SettingTokens(s) + Lex(rest, true)
    decreases s, 1
  {
    hide Lex, ValueText, ValueTokens, Writable, NoFloats, TokenOf, BooleanWord;
    var name, indent := s.name.value, IndentBelow(depth, tabWidth);
    var op := if s.val.AggV? && s.val.kind == Group then ':' else '=';
    var ending := ";" + ("\n" + rest);
    var value := ValueText(s.val, depth, tabWidth) + ending;
    var assignment := [op] + (" " + value);
    var all := name + (" " + assignment);
    assert SettingText(s, depth, tabWidth) + rest == indent + all;
    ValueTextSolid(s.val, depth, tabWidth, ending);
    NameSolid(name);
    var b := LexIndent(depth, tabWidth, all, bol);
    LexName(name, " " + assignment, b);
    LexBlanks(" ", assignment, false);
    LexSpecial(op, " " + value, false);
    LexBlanks(" ", value, false);
    LexValue(s.val, depth, tabWidth, ending, false);
    LexSpecial(';', "\n" + rest, false);
    LexSpecial('\n', rest, false);
    BraceTokens();
  }

  lemma NameSolid(name: string)
    requires ValidName(name)
    ensures Solid(name)
  {}

  /** No written value begins with a blank. */
  lemma ValueTextSolid(v: Value, depth: nat, tabWidth: nat, rest: string)
    requires Writable(v) && NoFloats(v) && depth > 0
    ensures Solid(ValueText(v, depth, tabWidth) + rest)
  {
    match v
    case IntV(n, f) =>
      SignedBack(n);
      IntegerIsNumber(SignedText(n));
    case Int64V(n, f) =>
      SignedBack(n);
      IntegerIsNumber(SignedText(n));
    case _ =>
  }

  lemma ElemsTextSolid(elems: seq<Setting>, depth: nat, tabWidth: nat, kind: Kind, rest: string)
    requires WritableElems(elems, kind) && Solid(rest)
    ensures Solid(ElemsText(elems, depth, tabWidth) + rest)
  {
    hide Writable, NoFloats, ValueText;
    if elems == [] {
      assert ElemsText(elems, depth, tabWidth) + rest == rest;
    } else {
      ValueTextSolid(elems[0].val, depth + 1, tabWidth, "");
      assert ValueText(elems[0].val, depth + 1, tabWidth) + "" == ValueText(elems[0].val, depth + 1, tabWidth);
    }
  }

  /** Scanning a written configuration yields the tokens of its settings. */
  lemma LexConfig(root: Setting, tabWidth: nat)
    requires root.name.None? && root.val.AggV? && root.val.kind == Group && Writable(root.val) && NoFloats(root.val)
    ensures Lex(ConfigText(root, tabWidth), true) == SettingsTokens(root.val.elems)
  {
    hide Lex, SettingsText, SettingsTokens;
    var elems := root.val.elems;
    var text := SettingsText(elems, 1, tabWidth);
    assert root.val == AggV(Group, elems) && IndentBelow(0, tabWidth) == "";
    assert ValueText(root.val, 0, tabWidth) == "" + text + "" + "";
    assert ConfigText(root, tabWidth) == text + "";
    var b := LexSettings(elems, 1, tabWidth, "", true);
    LexNothing(b);
  }

  lemma LexNothing(bol: bool)
    ensures Lex("", bol) == []
  {}
}
