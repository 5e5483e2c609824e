/** What the words of a configuration file mean to the scanner, written out: numbers by the worth of
    their digits, strings piece by piece, comments by their brackets. */
module Lexemes {
  import opened ConfigTree
  import opened LalrTables
  import opened Parser
  import opened Scanner
  import opened ScannerProps
  import opened RoundTrip

  // ----- digits

  const LOWER := "0123456789abcdef"
  const UPPER := "0123456789ABCDEF"

  datatype Digit = Digit(value: nat, upper: bool)

  predicate InBase(ds: seq<Digit>, base: nat) { forall i | 0 <= i < |ds| :: ds[i].value < base }

  function Letter(d: Digit): char
    requires d.value < 16
  {
    if d.upper then UPPER[d.value] else LOWER[d.value]
  }

  function Spelled(ds: seq<Digit>): (s: string)
    requires InBase(ds, 16)
    ensures |s| == |ds|
  {
    seq(|ds|, i requires 0 <= i < |ds| => Letter(ds[i]))
  }

  /** The number that the digits stand for. */
  function Worth(ds: seq<Digit>, base: nat): nat {
    if ds == [] then 0 else Worth(ds[..|ds| - 1], base) * base + ds[|ds| - 1].value
  }

  lemma LetterValue(d: Digit)
    requires d.value < 16
    ensures HexDigit(Letter(d)) && DigitValue(Letter(d)) == d.value && (d.value < 10 ==> IsDigit(Letter(d)))
  {}

  lemma {:induction false} SpelledNumber(ds: seq<Digit>, base: nat)
    requires InBase(ds, 16)
    ensures AllHex(Spelled(ds)) && Number(Spelled(ds), base) == Worth(ds, base)
    ensures InBase(ds, 10) ==> AllDigits(Spelled(ds))
  {
    hide Letter;
    if ds != [] {
      var n := |ds| - 1;
      SpelledNumber(ds[..n], base);
      LetterValue(ds[n]);
      assert Spelled(ds)[..n] == Spelled(ds[..n]) && Spelled(ds)[n] == Letter(ds[n]);
      forall i | 0 <= i < n ensures Spelled(ds)[i] == Spelled(ds)[..n][i] {}
    }
  }

  // ----- numbers

  /** A number is cut off before anything that is not part of one. */
  predicate NumberEnds(rest: string) { rest == "" || !NumberChar(rest[0]) }

  predicate Suffix(s: string) { s == "L" || s == "LL" }

  lemma LexNumeral(w: string, rest: string, bol: bool, rule: nat)
    requires NumberEnds(rest) && w != "" && NumberStart(w[0]) && AllNumber(w)
    requires 30 <= rule <= 34 && RuleOf(w, bol) == rule
    ensures Lex(w + rest, bol) == TokenOf(rule, w) + Lex(rest, false)
  {
    hide RuleOf, TokenOf;
    LexWord(w, rest, bol, rule);
  }

  /** The low bits of a number, as a signed number. */
  lemma LowBits32(n: int)
    ensures -0x8000_0000 <= Wrap32(n) < 0x8000_0000 && (n - Wrap32(n)) % 0x1_0000_0000 == 0
  {
    assert n - n % TWO32 == TWO32 * (n / TWO32);
  }

  lemma LowBits64(n: int)
    ensures -0x8000_0000_0000_0000 <= Wrap64(n) < 0x8000_0000_0000_0000 && (n - Wrap64(n)) % 0x1_0000_0000_0000_0000 == 0
  {
    assert n - n % TWO64 == TWO64 * (n / TWO64);
  }

  function HexText(x: char, ds: seq<Digit>): string
    requires InBase(ds, 16)
  {
    ['0', x] + Spelled(ds)
  }

  lemma HexValue(x: char, ds: seq<Digit>)
    requires (x == 'x' || x == 'X') && ds != [] && InBase(ds, 16) && Worth(ds, 16) < 0x1_0000_0000_0000_0000
    ensures HexWord(HexText(x, ds)) && Hexadecimal(HexText(x, ds)) == Worth(ds, 16)
  {
    SpelledNumber(ds, 16);
    assert HexText(x, ds)[2..] == Spelled(ds);
  }

  /** A hexadecimal number in letters of either case is the number its digits stand for, cut to 32 bits. */
  lemma HexMeans(x: char, ds: seq<Digit>, rest: string, bol: bool) returns (v: int)
    requires (x == 'x' || x == 'X') && ds != [] && InBase(ds, 16) && Worth(ds, 16) < 0x1_0000_0000_0000_0000
    requires NumberEnds(rest)
    ensures -0x8000_0000 <= v < 0x8000_0000 && (Worth(ds, 16) - v) % 0x1_0000_0000 == 0
    ensures Lex(HexText(x, ds) + rest, bol) == [Token(T_HEX, IVal(v))] + Lex(rest, false)
  {
    hide Lex, RuleOf, HexWord, Hexadecimal, HexText, Wrap32;
    var w := HexText(x, ds);
    HexValue(x, ds);
    v := Wrap32(Worth(ds, 16));
    LowBits32(Worth(ds, 16));
    HexRule(w, bol);
    NotEmpty(w);
    HexIsNumber(w);
    LexNumeral(w, rest, bol, 33);
  }

  lemma NotEmpty(w: string)
    requires HexWord(w)
    ensures |w| > 2
  {}

  /** With the suffix L or LL it is cut to 64 bits. */
  lemma Hex64Means(x: char, ds: seq<Digit>, suffix: string, rest: string, bol: bool) returns (v: int)
    requires (x == 'x' || x == 'X') && ds != [] && InBase(ds, 16) && Worth(ds, 16) < 0x1_0000_0000_0000_0000
    requires Suffix(suffix) && NumberEnds(rest)
    ensures -0x8000_0000_0000_0000 <= v < 0x8000_0000_0000_0000 && (Worth(ds, 16) - v) % 0x1_0000_0000_0000_0000 == 0
    ensures Lex(HexText(x, ds) + suffix + rest, bol) == [Token(T_HEX64, LVal(v))] + Lex(rest, false)
  {
    hide Lex, RuleOf, HexWord, Hexadecimal, HexText, Wrap64, StripL;
    var w := HexText(x, ds);
    HexValue(x, ds);
    v := Wrap64(Worth(ds, 16));
    LowBits64(Worth(ds, 16));
    NotEmpty(w);
    Hex64Suffix(w, suffix, bol);
    Hex64IsNumber(w + suffix);
    LexNumeral(w + suffix, rest, bol, 34);
  }

  lemma Stripped(w: string, suffix: string)
    requires w != "" && w[|w| - 1] != 'L' && Suffix(suffix)
    ensures StripL(w + suffix) == w
  {
    var t := w + suffix;
    if suffix == "L" { assert t[|t| - 2..][0] == w[|w| - 1]; } else { assert t[|t| - 2..] == "LL"; }
    assert t[..|w|] == w;
  }

  lemma Hex64Suffix(w: string, suffix: string, bol: bool)
    requires HexWord(w) && Suffix(suffix)
    ensures RuleOf(w + suffix, bol) == 34 && Hex64Word(w + suffix) && StripL(w + suffix) == w
  {
    var s := w + suffix;
    assert w[|w| - 1] == w[2..][|w| - 3];
    Stripped(w, suffix);
    HexNotDecimal(s);
    NotInteger(w, 1);
    assert s[2..][|w| - 2] == 'L';
    hide IncludeOpen, SkipBlanks, CommentLine, ValidName, SameLetters, IntegerWord, StripL, FloatWord;
    NotBlank(s);
    NotWord(s);
  }

  // ----- decimal numbers

  predicate Sign(s: string) { s == "" || s == "+" || s == "-" }

  function Signed(sign: string, n: nat): int { if sign == "-" then -(n as int) else n }

  lemma DecimalValue(sign: string, ds: seq<Digit>)
    requires Sign(sign) && ds != [] && InBase(ds, 10) && Fits64(Signed(sign, Worth(ds, 10)))
    ensures IntegerWord(sign + Spelled(ds)) && Decimal(sign + Spelled(ds)) == Signed(sign, Worth(ds, 10))
  {
    SpelledNumber(ds, 10);
    hide Spelled, Worth, Clamp;
    var s := sign + Spelled(ds);
    assert SkipSign(s) == Spelled(ds) by {
      if sign == "" { assert s == Spelled(ds) && IsDigit(s[0]); } else { assert s[1..] == Spelled(ds); }
    }
    assert s[0] == '-' <==> sign == "-";
    ClampInside(Signed(sign, Worth(ds, 10)));
  }

  /** A decimal number is the number its digits stand for. */
  lemma DecimalMeans(sign: string, ds: seq<Digit>, rest: string, bol: bool)
    requires Sign(sign) && ds != [] && InBase(ds, 10) && NumberEnds(rest) && Fits32(Signed(sign, Worth(ds, 10)))
    ensures Lex(sign + Spelled(ds) + rest, bol) == [Token(T_INTEGER, IVal(Signed(sign, Worth(ds, 10))))] + Lex(rest, false)
  {
    hide Lex, RuleOf, IntegerWord, Decimal, Wrap32;
    var w := sign + Spelled(ds);
    DecimalValue(sign, ds);
    Wrapped32(Signed(sign, Worth(ds, 10)));
    IntegerRule(w, bol);
    IntegerIsNumber(w);
    LexNumeral(w, rest, bol, 31);
  }

  lemma Decimal64Means(sign: string, ds: seq<Digit>, suffix: string, rest: string, bol: bool)
    requires Sign(sign) && ds != [] && InBase(ds, 10) && Fits64(Signed(sign, Worth(ds, 10)))
    requires Suffix(suffix) && NumberEnds(rest)
    ensures Lex(sign + Spelled(ds) + suffix + rest, bol)
            == [Token(T_INTEGER64, LVal(Signed(sign, Worth(ds, 10))))] + Lex(rest, false)
  {
    hide Lex, RuleOf, IntegerWord, Decimal, StripL;
    var w := sign + Spelled(ds);
    DecimalValue(sign, ds);
    Integer64Suffix(w, suffix, bol);
    Integer64IsNumber(w + suffix);
    LexNumeral(w + suffix, rest, bol, 32);
  }

  lemma Integer64Suffix(w: string, suffix: string, bol: bool)
    requires IntegerWord(w) && Suffix(suffix)
    ensures w != "" && RuleOf(w + suffix, bol) == 32 && Integer64Word(w + suffix) && StripL(w + suffix) == w
  {
    hide IncludeOpen, SkipBlanks, CommentLine, ValidName, SameLetters, SkipDigits, FloatWord, StripL;
    var s := w + suffix;
    IntegerIsNumber(w);
    assert s[0] == w[0];
    NumberOnly(s);
    LastDigit(w);
    Stripped(w, suffix);
    NotInteger(s, |w|);
    NotFloatSuffix(w, suffix);
  }

  lemma NotFloatSuffix(w: string, suffix: string)
    requires IntegerWord(w) && Suffix(suffix)
    ensures !FloatWord(w + suffix)
  {
    assert SkipSign(w + suffix) == SkipSign(w) + suffix;
    DigitsThen(SkipSign(w), suffix);
  }

  lemma {:induction false} DigitsThen(s: string, t: string)
    requires AllDigits(s) && (t == "" || !IsDigit(t[0]))
    ensures SkipDigits(s + t) == t
  {
    if s == "" {
      assert s + t == t;
    } else {
      DigitsThen(s[1..], t);
      assert (s + t)[1..] == s[1..] + t;
    }
  }

  /** Digits around a point are a float, kept as written. */
  lemma FloatMeans(sign: string, a: seq<Digit>, b: seq<Digit>, rest: string, bol: bool)
    requires Sign(sign) && InBase(a, 10) && InBase(b, 10) && NumberEnds(rest)
    ensures
      var w := sign + Spelled(a) + "." + Spelled(b);
      Lex(w + rest, bol) == [Token(T_FLOAT, FVal(w))] + Lex(rest, false)
  {
    hide Lex, RuleOf, Spelled;
    SpelledNumber(a, 10);
    SpelledNumber(b, 10);
    var w := sign + Spelled(a) + "." + Spelled(b);
    PointIsFloat(sign, Spelled(a), Spelled(b));
    FloatIsNumber(w);
    FloatRule(w, bol);
    LexNumeral(w, rest, bol, 30);
  }

  lemma PointIsFloat(sign: string, a: string, b: string)
    requires Sign(sign) && AllDigits(a) && AllDigits(b)
    ensures FloatWord(sign + a + "." + b)
  {
    var w, t := sign + a + "." + b, a + ("." + b);
    assert w == sign + t;
    assert SkipSign(w) == t by {
      if sign == "" { assert w == t && t[0] != '+' && t[0] != '-'; } else { assert w[1..] == t; }
    }
    DigitsThen(a, "." + b);
    assert ("." + b)[1..] == b;
    NoDigitsLeft(b);
  }

  predicate ExponentMark(e: string) { e == "e" || e == "E" }

  /** Digits, with or without a point among or around them, and an exponent are a float. */
  lemma ExponentMeans(sign: string, a: seq<Digit>, point: string, b: seq<Digit>, e: string, esign: string, c: seq<Digit>,
                      rest: string, bol: bool)
    requires Sign(sign) && InBase(a, 10) && InBase(b, 10) && ExponentMark(e) && Sign(esign) && InBase(c, 10) && c != []
    requires point == "." || (point == "" && a != [] && b == [])
    requires NumberEnds(rest)
    ensures
      var w := sign + (Spelled(a) + (point + (Spelled(b) + (e + esign + Spelled(c)))));
      Lex(w + rest, bol) == [Token(T_FLOAT, FVal(w))] + Lex(rest, false)
  {
    hide Lex, RuleOf, Spelled, NumberEnds;
    SpelledNumber(a, 10);
    SpelledNumber(b, 10);
    SpelledNumber(c, 10);
    var w := sign + (Spelled(a) + (point + (Spelled(b) + (e + esign + Spelled(c)))));
    ExponentIsFloat(sign, Spelled(a), point, Spelled(b), e, esign, Spelled(c));
    FloatIsNumber(w);
    FloatRule(w, bol);
    LexNumeral(w, rest, bol, 30);
  }

  lemma ExponentIsFloat(sign: string, a: string, point: string, b: string, e: string, esign: string, c: string)
    requires Sign(sign) && AllDigits(a) && AllDigits(b) && ExponentMark(e) && Sign(esign) && AllDigits(c) && c != ""
    requires point == "." || (point == "" && a != "" && b == "")
    ensures FloatWord(sign + (a + (point + (b + (e + esign + c)))))
  {
    var x := e + esign + c;
    ExponentText(e, esign, c);
    hide Exponent, SkipDigits, SkipSign, AllDigits, FloatWord;
    if point == "." {
      PointExponent(sign, a, b, x);
    } else {
      PlainExponent(sign, a, x);
      assert point + (b + x) == x;
    }
  }

  lemma PointExponent(sign: string, a: string, b: string, x: string)
    requires Sign(sign) && AllDigits(a) && AllDigits(b) && Exponent(x)
    ensures FloatWord(sign + (a + ("." + (b + x))))
  {
    var u := "." + (b + x);
    ExponentStart(x);
    hide Exponent, SkipDigits, SkipSign, AllDigits, FloatWord;
    if a != "" { FirstDigit(a); assert (a + u)[0] == a[0]; } else { assert a + u == u; }
    AfterSignText(sign, a + u);
    DigitsThen(a, u);
    assert u[1..] == b + x;
    DigitsThen(b, x);
    FloatFrom(sign + (a + u), a + u, u);
  }

  lemma PlainExponent(sign: string, a: string, x: string)
    requires Sign(sign) && AllDigits(a) && a != "" && Exponent(x)
    ensures FloatWord(sign + (a + x))
  {
    ExponentStart(x);
    hide Exponent, SkipDigits, SkipSign, AllDigits, FloatWord;
    FirstDigit(a);
    assert (a + x)[0] == a[0];
    AfterSignText(sign, a + x);
    DigitsThen(a, x);
    assert |a + x| == |a| + |x|;
    FloatFrom(sign + (a + x), a + x, x);
  }

  lemma ExponentStart(x: string)
    requires Exponent(x)
    ensures x != "" && !IsDigit(x[0]) && x[0] != '.' && x[0] != '+' && x[0] != '-'
  {}

  lemma FirstDigit(a: string)
    requires a != "" && AllDigits(a)
    ensures IsDigit(a[0])
  {}

  lemma FloatFrom(s: string, t: string, u: string)
    requires SkipSign(s) == t && SkipDigits(t) == u && u != ""
    requires if u[0] == '.' then Exponent(SkipDigits(u[1..])) else u != t && Exponent(u)
    ensures FloatWord(s)
  {}

  lemma AfterSignText(sign: string, t: string)
    requires Sign(sign) && t != "" && t[0] != '+' && t[0] != '-'
    ensures SkipSign(sign + t) == t
  {
    if sign == "" { assert sign + t == t; } else { assert (sign + t)[1..] == t; }
  }

  lemma ExponentText(e: string, esign: string, c: string)
    requires ExponentMark(e) && Sign(esign) && AllDigits(c) && c != ""
    ensures Exponent(e + esign + c)
  {
    var x := e + esign + c;
    assert x[1..] == esign + c;
    AfterSignText(esign, c);
  }

  lemma FloatRule(w: string, bol: bool)
    requires FloatWord(w)
    ensures RuleOf(w, bol) == 30
  {
    FloatIsNumber(w);
    hide IncludeOpen, SkipBlanks, CommentLine, ValidName, SameLetters, FloatWord;
    NumberOnly(w);
  }

  // ----- words and punctuation

  /** `w` is the word in letters of either case. */
  predicate EitherCase(w: string, lower: string, upper: string) {
    |w| == |lower| == |upper| && forall i | 0 <= i < |w| :: w[i] == lower[i] || w[i] == upper[i]
  }

  predicate NameEnds(rest: string) { rest == "" || !NameChar(rest[0]) }

  /** In letters of either case the words true and false stand for 1 and 0. */
  lemma BooleanMeans(w: string, rest: string, bol: bool)
    requires NameEnds(rest)
    ensures EitherCase(w, "true", "TRUE") ==> Lex(w + rest, bol) == [Token(T_BOOLEAN, IVal(1))] + Lex(rest, false)
    ensures EitherCase(w, "false", "FALSE") ==> Lex(w + rest, bol) == [Token(T_BOOLEAN, IVal(0))] + Lex(rest, false)
  {
    hide Lex, RuleOf;
    if EitherCase(w, "true", "TRUE") || EitherCase(w, "false", "FALSE") {
      WordRule(w, bol);
      LexWord(w, rest, bol, if |w| == 4 then 27 else 28);
    }
  }

  lemma WordRule(w: string, bol: bool)
    requires EitherCase(w, "true", "TRUE") || EitherCase(w, "false", "FALSE")
    ensures w != "" && IsAlpha(w[0]) && (|w| == 4 <==> EitherCase(w, "true", "TRUE"))
    ensures RuleOf(w, bol) == if |w| == 4 then 27 else 28
  {
    hide FloatWord, IncludeOpen, SkipBlanks, CommentLine, ValidName;
    NotBlank(w);
  }

  /** Any other proper name stands for itself. */
  lemma NameMeans(w: string, rest: string, bol: bool)
    requires ValidName(w) && NameEnds(rest)
    requires !EitherCase(w, "true", "TRUE") && !EitherCase(w, "false", "FALSE")
    ensures Lex(w + rest, bol) == [Token(T_NAME, SVal(w))] + Lex(rest, false)
  {
    hide Lex, RuleOf;
    if BooleanWord(w) { BooleanSpelling(w); }
    NameRule(w, bol);
    LexWord(w, rest, bol, 29);
  }

  lemma BooleanSpelling(w: string)
    requires BooleanWord(w)
    ensures EitherCase(w, "true", "TRUE") || EitherCase(w, "false", "FALSE")
  {
    if SameLetters(w, "true") {
      forall i | 0 <= i < |w| ensures w[i] == "true"[i] || w[i] == "TRUE"[i] { UpperLetter(w[i], "true"[i], "TRUE"[i]); }
    } else {
      forall i | 0 <= i < |w| ensures w[i] == "false"[i] || w[i] == "FALSE"[i] { UpperLetter(w[i], "false"[i], "FALSE"[i]); }
    }
  }

  lemma UpperLetter(c: char, lower: char, upper: char)
    requires lower as int == upper as int + 32 && (c == lower || c as int + 32 == lower as int)
    ensures c == lower || c == upper
  {}

  /** What a punctuation character stands for. */
  function Mark(c: char): int {
    match c
    case '=' => T_EQUALS
    case ':' => T_EQUALS
    case ',' => T_COMMA
    case ';' => T_SEMICOLON
    case '{' => T_GROUP_START
    case '}' => T_GROUP_END
    case '[' => T_ARRAY_START
    case ']' => T_ARRAY_END
    case '(' => T_LIST_START
    case ')' => T_LIST_END
    case _ => 0
  }

  lemma MarkMeans(c: char, rest: string, bol: bool)
    requires Mark(c) != 0
    ensures Lex([c] + rest, bol) == [Token(Mark(c), NoVal)] + Lex(rest, false)
  {
    hide Lex;
    LexSpecial(c, rest, bol);
  }

  // ----- what means nothing

  /** Blanks are skipped, unless they lead up to an include. */
  lemma BlanksSkipped(w: string, rest: string, bol: bool)
    requires w != "" && forall i | 0 <= i < |w| :: w[i] == ' ' || w[i] == '\t'
    requires rest == "" || (rest[0] != ' ' && rest[0] != '\t' && rest[0] != '@')
    ensures Lex(w + rest, bol) == Lex(rest, false)
  {
    hide Lex, RuleOf, Separated;
    BlankRule(w, bol);
    BlanksAlone(w, rest);
    LexWord(w, rest, bol, 22);
    assert TokenOf(22, w) + Lex(rest, false) == Lex(rest, false);
  }

  lemma BlanksAlone(w: string, rest: string)
    requires w != "" && forall i | 0 <= i < |w| :: w[i] == ' ' || w[i] == '\t'
    requires rest == "" || (rest[0] != ' ' && rest[0] != '\t' && rest[0] != '@')
    ensures Separated(w, rest)
  {}

  /** Line breaks of all three kinds are skipped; only behind a line feed a line begins. */
  lemma BreakSkipped(c: char, rest: string, bol: bool)
    requires c == '\n' || c == '\r' || c == 12 as char
    ensures Lex([c] + rest, bol) == Lex(rest, c == '\n')
  {
    hide Lex, RuleOf, Separated;
    BreakRule(c, bol);
    BreakAlone(c, rest);
    LexWord([c], rest, bol, 21);
    assert TokenOf(21, [c]) + Lex(rest, c == '\n') == Lex(rest, c == '\n');
  }

  lemma BreakAlone(c: char, rest: string)
    requires c == '\n' || c == '\r' || c == 12 as char
    ensures Separated([c], rest)
  {}

  lemma BreakRule(c: char, bol: bool)
    requires c == '\n' || c == '\r' || c == 12 as char
    ensures RuleOf([c], bol) == 21
  {
    hide IncludeOpen, SkipBlanks;
    NotBlank([c]);
  }

  /** A character with which nothing else begins. */
  predicate Alone(c: char) {
    && !Blank(c) && c != '\n' && c != '\r' && c != 12 as char && c != '"' && Mark(c) == 0
    && !NameStart(c) && !NumberStart(c) && c != '#' && c != '/' && c != '@'
  }

  /** Such a character is a token that no rule of the grammar takes. */
  lemma GarbageMeans(c: char, rest: string, bol: bool)
    requires Alone(c)
    ensures Lex([c] + rest, bol) == [Token(T_GARBAGE, NoVal)] + Lex(rest, false)
  {
    GarbageRule(c, bol);
    hide Lex, RuleOf, Mark;
    LexWord([c], rest, bol, 41);
  }

  lemma GarbageRule(c: char, bol: bool)
    requires Alone(c)
    ensures RuleOf([c], bol) == 41
  {
    hide FloatWord, IntegerWord, Integer64Word, HexWord, Hex64Word, IncludeOpen, SkipBlanks, ValidName, SameLetters;
    NotBlank([c]);
    NotNumber([c]);
    NotWord([c]);
  }

  /** So is a sign before anything but a number. */
  lemma SignMeans(sign: string, rest: string, bol: bool)
    requires Sign(sign) && sign != "" && NumberEnds(rest)
    ensures Lex(sign + rest, bol) == [Token(T_GARBAGE, NoVal)] + Lex(rest, false)
  {
    hide Lex, RuleOf, Separated;
    SignRule(sign, bol);
    SignAlone(sign, rest);
    LexWord(sign, rest, bol, 41);
  }

  lemma SignAlone(sign: string, rest: string)
    requires Sign(sign) && sign != "" && NumberEnds(rest)
    ensures Separated(sign, rest) && sign[|sign| - 1] != '\n'
  {}

  lemma SignRule(sign: string, bol: bool)
    requires Sign(sign) && sign != ""
    ensures RuleOf(sign, bol) == 41
  {
    assert SkipSign(sign) == "" && StripL(sign) == sign;
    hide IncludeOpen, SkipBlanks, ValidName, SameLetters;
    NotBlank(sign);
    NotWord(sign);
  }

  // ----- comments

  predicate Closes(s: string, i: int) { 0 <= i < |s| - 1 && s[i] == '*' && s[i + 1] == '/' }

  /** The closing bracket occurs only at the end. */
  predicate NoBracket(c: string) { forall i | 0 <= i < |c| :: !Closes(c + "*/", i) }

  /** A comment in brackets is skipped up to its closing bracket. */
  lemma BlockCommentSkipped(c: string, rest: string, bol: bool)
    requires NoBracket(c)
    ensures Lex("/*" + c + "*/" + rest, bol) == Lex(rest, false)
  {
    hide RuleOf, SkipComment;
    var inner := c + "*/" + rest;
    assert "/*" + c + "*/" + rest == "/*" + inner;
    OpensComment(inner, bol);
    SkipsTo(c, rest);
  }

  lemma OpensComment(inner: string, bol: bool)
    ensures Longest("/*" + inner, |"/*" + inner|, bol) == 2 && RuleOf("/*", bol) == 1
    ensures ("/*" + inner)[..2] == "/*" && ("/*" + inner)[2..] == inner
  {
    var s := "/*" + inner;
    assert RuleOf(s[..2], bol) == 1 by { assert s[..2] == "/*"; }
    forall j | 2 < j <= |s| ensures RuleOf(s[..j], bol) == 0 {
      NotLonger(s[..j], bol);
    }
    LongestIs(s, 2, |s|, bol);
  }

  lemma NotLonger(s: string, bol: bool)
    requires |s| > 2 && s[0] == '/' && s[1] == '*'
    ensures RuleOf(s, bol) == 0
  {
    hide FloatWord, IntegerWord, Integer64Word, HexWord, Hex64Word, IncludeOpen, SkipBlanks, ValidName, SameLetters;
    NotBlank(s);
    NotNumber(s);
    NotWord(s);
    assert s[..2][1] == '*';
  }

  lemma {:induction false} SkipsTo(c: string, rest: string)
    requires NoBracket(c)
    ensures SkipComment(c + "*/" + rest) == rest
  {
    hide NoBracket;
    var s := c + "*/" + rest;
    if c == "" {
      assert s[..2] == "*/" && s[2..] == rest;
    } else {
      NoBracketTail(c, rest);
      assert s[1..] == c[1..] + "*/" + rest;
      SkipsTo(c[1..], rest);
    }
  }

  lemma NoBracketTail(c: string, rest: string)
    requires NoBracket(c) && c != ""
    ensures NoBracket(c[1..]) && !Closes(c + "*/" + rest, 0)
  {
    assert !Closes(c + "*/", 0);
    forall i | 0 <= i < |c[1..]| ensures !Closes(c[1..] + "*/", i) {
      assert !Closes(c + "*/", i + 1);
    }
  }

  /** A comment that is never closed takes up the rest of the text. */
  lemma OpenCommentSkipped(c: string, bol: bool)
    requires forall i | 0 <= i < |c| :: !Closes(c, i)
    ensures Lex("/*" + c, bol) == []
  {
    hide RuleOf, SkipComment;
    OpensComment(c, bol);
    SkipsAll(c);
  }

  lemma {:induction false} SkipsAll(c: string)
    requires forall i | 0 <= i < |c| :: !Closes(c, i)
    ensures SkipComment(c) == ""
  {
    if c != "" {
      assert !Closes(c, 0);
      forall i | 0 <= i < |c[1..]| ensures !Closes(c[1..], i) { assert !Closes(c, i + 1); }
      SkipsAll(c[1..]);
    }
  }

  /** A comment behind # or // ends with its line. */
  lemma LineCommentSkipped(open: string, c: string, rest: string, bol: bool)
    requires (open == "#" || open == "//") && forall i | 0 <= i < |c| :: c[i] != '\n'
    ensures Lex(open + c + "\n" + rest, bol) == Lex(rest, true)
  {
    hide RuleOf, Longest, Lex;
    var w := open + c + "\n";
    var s := w + rest;
    LineRule(open, c, bol);
    LineIsFirst(w, rest, bol);
    LexAfterLine(s, |w|, bol);
    assert s[|w| - 1..] == "\n" + rest;
    LexSpecial('\n', rest, false);
    assert [] + Lex(rest, true) == Lex(rest, true);
  }

  lemma LexAfterLine(s: string, n: nat, bol: bool)
    requires s != "" && Longest(s, |s|, bol) == n && RuleOf(s[..n], bol) == 40
    ensures Lex(s, bol) == Lex(s[n - 1..], false)
  {
    hide RuleOf, Longest;
  }

  lemma LineIsFirst(w: string, rest: string, bol: bool)
    requires |w| > 1 && w[|w| - 1] == '\n' && (w[0] == '#' || w[0] == '/') && RuleOf(w, bol) == 40
    ensures Longest(w + rest, |w + rest|, bol) == |w| && (w + rest)[..|w|] == w
  {
    hide RuleOf;
    var s := w + rest;
    assert s[..|w|] == w;
    forall j | |w| < j <= |s| ensures RuleOf(s[..j], bol) == 0 {
      assert s[..j][|w| - 1] == '\n' && s[..j][0] == w[0];
      PastLine(s[..j], |w| - 1, bol);
    }
    LongestIs(s, |w|, |s|, bol);
  }

  lemma LineRule(open: string, c: string, bol: bool)
    requires (open == "#" || open == "//") && forall i | 0 <= i < |c| :: c[i] != '\n'
    ensures RuleOf(open + c + "\n", bol) == 40
  {
    hide FloatWord, IntegerWord, Integer64Word, HexWord, Hex64Word, IncludeOpen, SkipBlanks, ValidName, SameLetters;
    var s := open + c + "\n";
    NotBlank(s);
    NotNumber(s);
    NotWord(s);
    if open == "//" { assert s[..2] == "//"; }
  }

  lemma PastLine(s: string, i: nat, bol: bool)
    requires i < |s| - 1 && s[i] == '\n' && (s[0] == '#' || s[0] == '/') && i > 0
    ensures RuleOf(s, bol) == 0
  {
    hide FloatWord, IntegerWord, Integer64Word, HexWord, Hex64Word, IncludeOpen, SkipBlanks, ValidName, SameLetters;
    NotBlank(s);
    NotNumber(s);
    NotWord(s);
  }

  // ----- strings

  /** A character that stands for itself, an escape letter, two hexadecimal digits, or a backslash that
      escapes nothing. */
  datatype Piece = Plain(c: char) | Escape(letter: char) | Code(x: char, high: Digit, low: Digit) | Stray(c: char)

  predicate ProperPiece(p: Piece) {
    match p
    case Plain(c) => c != '"' && c != '\\'
    case Escape(c) => c == 'n' || c == 'r' || c == 't' || c == 'f' || c == '\\' || c == '"'
    case Code(x, h, l) => (x == 'x' || x == 'X') && h.value < 16 && l.value < 16 && h.value + l.value > 0
    case Stray(c) => c !in "nrtfxX\\\""
  }

  function PieceText(p: Piece): string
    requires ProperPiece(p)
  {
    match p
    case Plain(c) => [c]
    case Escape(c) => ['\\', c]
    case Code(x, h, l) => ['\\', x, Letter(h), Letter(l)]
    case Stray(c) => ['\\', c]
  }

  /** The characters meant, by their codes where they have no letter. */
  function PieceMeaning(p: Piece): string
    requires ProperPiece(p)
  {
    match p
    case Plain(c) => [c]
    case Escape('n') => [10 as char]
    case Escape('r') => [13 as char]
    case Escape('t') => [9 as char]
    case Escape('f') => [12 as char]
    case Escape(c) => [c]
    case Code(_, h, l) => [(h.value * 16 + l.value) as char]
    case Stray(c) => ['\\', c]
  }

  predicate ProperPieces(ps: seq<Piece>) { forall i | 0 <= i < |ps| :: ProperPiece(ps[i]) }

  function PiecesText(ps: seq<Piece>): string
    requires ProperPieces(ps)
  {
    if ps == [] then "" else PieceText(ps[0]) + PiecesText(ps[1..])
  }

  function PiecesMeaning(ps: seq<Piece>): string
    requires ProperPieces(ps)
  {
    if ps == [] then "" else PieceMeaning(ps[0]) + PiecesMeaning(ps[1..])
  }

  lemma OnePiece(p: Piece, t: string, sofar: string)
    requires ProperPiece(p)
    ensures ScanString(PieceText(p) + t, sofar) == ScanString(t, sofar + PieceMeaning(p))
  {
    hide ScanString, StringPiece, Letter;
    match p
    case Plain(c) => PlainStep(c, t, sofar);
    case Escape(c) =>
      EscapePiece(c, t);
      PieceStep(['\\', c], t, sofar, PieceMeaning(p));
    case Code(x, h, l) =>
      CodePiece(x, h, l, t);
      PieceStep(['\\', x, Letter(h), Letter(l)], t, sofar, PieceMeaning(p));
    case Stray(c) =>
      StrayPiece(c, t);
      PieceStep("\\", [c] + t, sofar, "\\");
      PlainStep(c, t, sofar + "\\");
      assert ['\\', c] + t == "\\" + ([c] + t) && sofar + "\\" + [c] == sofar + ['\\', c];
  }

  lemma EscapePiece(c: char, t: string)
    requires ProperPiece(Escape(c))
    ensures StringPiece(['\\', c] + t) == (2, PieceMeaning(Escape(c)))
  {}

  lemma CodePiece(x: char, h: Digit, l: Digit, t: string)
    requires ProperPiece(Code(x, h, l))
    ensures StringPiece(['\\', x, Letter(h), Letter(l)] + t) == (4, PieceMeaning(Code(x, h, l)))
  {
    LetterValue(h);
    LetterValue(l);
    hide Letter, DigitValue, HexDigit;
  }

  lemma StrayPiece(c: char, t: string)
    requires ProperPiece(Stray(c))
    ensures StringPiece("\\" + ([c] + t)) == (1, "\\")
  {
    assert c != 'n' && c != 'r' && c != 't' && c != 'f' && c != 'x' && c != 'X' && c != '\\' && c != '"' by {
      var s := "nrtfxX\\\"";
      assert s[0] == 'n' && s[1] == 'r' && s[2] == 't' && s[3] == 'f' && s[4] == 'x' && s[5] == 'X' && s[6] == '\\' && s[7] == '"';
    }
  }

  lemma {:induction false} PiecesScanned(ps: seq<Piece>, rest: string, sofar: string)
    requires ProperPieces(ps)
    ensures ScanString(PiecesText(ps) + "\"" + rest, sofar) == Closed(sofar + PiecesMeaning(ps), rest)
  {
    hide ScanString, PieceText, PieceMeaning, ProperPiece;
    if ps == [] {
      EndOfString(rest, sofar);
      assert "" + "\"" + rest == "\"" + rest;
    } else {
      var tail := PiecesText(ps[1..]) + "\"" + rest;
      assert PiecesText(ps) + "\"" + rest == PieceText(ps[0]) + tail;
      OnePiece(ps[0], tail, sofar);
      PiecesScanned(ps[1..], rest, sofar + PieceMeaning(ps[0]));
      assert sofar + PieceMeaning(ps[0]) + PiecesMeaning(ps[1..]) == sofar + PiecesMeaning(ps);
    }
  }

  /** A string stands for what its pieces mean, in order. */
  lemma StringMeans(ps: seq<Piece>, rest: string, bol: bool)
    requires ProperPieces(ps)
    ensures Lex("\"" + PiecesText(ps) + "\"" + rest, bol) == [Token(T_STRING, SVal(PiecesMeaning(ps)))] + Lex(rest, false)
  {
    hide RuleOf, ScanString, PiecesText, PiecesMeaning;
    var inner := PiecesText(ps) + "\"" + rest;
    assert "\"" + PiecesText(ps) + "\"" + rest == "\"" + inner;
    SpecialWord('"', inner, bol);
    FirstWord("\"", inner, bol);
    PiecesScanned(ps, rest, "");
    assert "" + PiecesMeaning(ps) == PiecesMeaning(ps);
  }
}
