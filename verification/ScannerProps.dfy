/** How the scanner cuts a text whose words are separated: facts the round trip rests on. */
module ScannerProps {
  import opened ConfigTree
  import opened LalrTables
  import opened Parser
  import opened Scanner

  predicate AllName(s: string) { forall i | 0 <= i < |s| :: NameChar(s[i]) }

  predicate AllNumber(s: string) { forall i | 0 <= i < |s| :: NumberChar(s[i]) }

  predicate AllBlank(s: string) { forall i | 0 <= i < |s| :: Blank(s[i]) }

  // ----- what a match of two or more characters looks like

  lemma {:induction false} SkippedDigits(s: string)
    ensures |SkipDigits(s)| <= |s|
    ensures s == s[..|s| - |SkipDigits(s)|] + SkipDigits(s) && AllDigits(s[..|s| - |SkipDigits(s)|])
  {
    if s != "" && IsDigit(s[0]) {
      SkippedDigits(s[1..]);
      var k := |s| - |SkipDigits(s)|;
      assert s[..k] == [s[0]] + s[1..][..k - 1];
    }
  }

  lemma SkippedSign(s: string)
    ensures |SkipSign(s)| <= |s| && s == s[..|s| - |SkipSign(s)|] + SkipSign(s)
    ensures forall i | 0 <= i < |s| - |SkipSign(s)| :: s[i] == '+' || s[i] == '-'
  {}

  lemma DigitsAreNumber(a: string, b: string)
    requires AllNumber(a) && AllNumber(b)
    ensures AllNumber(a + b)
  {}

  lemma ExponentIsNumber(s: string)
    requires Exponent(s)
    ensures AllNumber(s)
  {
    SkippedSign(s[1..]);
    assert s == [s[0]] + s[1..];
  }

  lemma AfterDigits(t: string)
    requires AllNumber(SkipDigits(t))
    ensures AllNumber(t)
  {
    SkippedDigits(t);
    DigitsAreNumber(t[..|t| - |SkipDigits(t)|], SkipDigits(t));
  }

  lemma AfterSign(s: string)
    requires AllNumber(SkipSign(s))
    ensures AllNumber(s)
  {
    SkippedSign(s);
    DigitsAreNumber(s[..|s| - |SkipSign(s)|], SkipSign(s));
  }

  lemma FloatIsNumber(s: string)
    requires FloatWord(s)
    ensures s != "" && NumberStart(s[0]) && AllNumber(s)
  {
    hide Exponent;
    var t := SkipSign(s);
    var u := SkipDigits(t);
    if u != "" && u[0] == '.' {
      var v := SkipDigits(u[1..]);
      if v != "" { ExponentIsNumber(v); }
      AfterDigits(u[1..]);
      DigitsAreNumber(".", u[1..]);
      assert u == "." + u[1..];
    } else {
      ExponentIsNumber(u);
    }
    AfterDigits(t);
    AfterSign(s);
  }

  lemma IntegerIsNumber(s: string)
    requires IntegerWord(s)
    ensures s != "" && NumberStart(s[0]) && AllNumber(s)
  {
    SkippedSign(s);
  }

  lemma HexIsNumber(s: string)
    requires HexWord(s)
    ensures NumberStart(s[0]) && AllNumber(s)
  {
    assert s == s[..2] + s[2..];
  }

  lemma SuffixIsNumber(s: string)
    requires StripL(s) != "" && NumberStart(StripL(s)[0]) && AllNumber(StripL(s))
    ensures NumberStart(s[0]) && AllNumber(s)
  {
    assert s == StripL(s) + s[|StripL(s)|..];
  }

  lemma LettersAreName(s: string)
    requires SameLetters(s, "true") || SameLetters(s, "false")
    ensures NameStart(s[0]) && AllName(s)
  {
    assert forall i | 0 <= i < |s| :: IsAlpha(s[i]);
  }

  lemma ValidIsName(s: string)
    requires ValidName(s)
    ensures NameStart(s[0]) && AllName(s)
  {}

  lemma LineStarts(s: string)
    requires s != "" && (SkipBlanks(s) == "" || IncludeOpen(s) || CommentLine(s))
    ensures SkipBlanks(s) == "" ==> Blank(s[0])
    ensures IncludeOpen(s) ==> Blank(s[0]) || s[0] == '@'
    ensures CommentLine(s) ==> s[0] == '#' || s[0] == '/'
  {
    if IncludeOpen(s) && !Blank(s[0]) { assert SkipBlanks(s) == s; }
  }

  /** A match of two or more characters is a word, a number, blanks or an include, or a comment. */
  lemma LongMatches(s: string, bol: bool)
    requires |s| > 1 && RuleOf(s, bol) != 0
    ensures
      || (NameStart(s[0]) && AllName(s))
      || (NumberStart(s[0]) && AllNumber(s))
      || (Blank(s[0]) && (SkipBlanks(s) == "" || IncludeOpen(s)))
      || s[0] == '@' || s[0] == '#' || s[0] == '/'
  {
    hide FloatWord, IntegerWord, Integer64Word, HexWord, Hex64Word, IncludeOpen, SkipBlanks, CommentLine, ValidName, SameLetters, StripL, AllName, AllNumber;
    if SkipBlanks(s) == "" || IncludeOpen(s) || CommentLine(s) { LineStarts(s);
    } else if SameLetters(s, "true") || SameLetters(s, "false") { LettersAreName(s);
    } else if ValidName(s) { ValidIsName(s);
    } else if FloatWord(s) { FloatIsNumber(s);
    } else if IntegerWord(s) { IntegerIsNumber(s);
    } else if Integer64Word(s) { Integer64IsNumber(s);
    } else if HexWord(s) { HexIsNumber(s);
    } else if Hex64Word(s) { Hex64IsNumber(s);
    }
  }

  lemma Integer64IsNumber(s: string)
    requires Integer64Word(s)
    ensures NumberStart(s[0]) && AllNumber(s)
  {
    IntegerIsNumber(StripL(s));
    SuffixIsNumber(s);
  }

  lemma Hex64IsNumber(s: string)
    requires Hex64Word(s)
    ensures NumberStart(s[0]) && AllNumber(s)
  {
    HexIsNumber(StripL(s));
    SuffixIsNumber(s);
  }

  // ----- the cut

  /** The next match is matched by some rule, and nothing longer is. */
  lemma {:induction false} LongestMatch(s: string, n: nat, bol: bool)
    requires 0 < n <= |s|
    ensures
      var k := Longest(s, n, bol);
      && 0 < k <= n && RuleOf(s[..k], bol) != 0
      && forall j | k < j <= n :: RuleOf(s[..j], bol) == 0
    decreases n
  {
    hide RuleOf;
    if Longest(s, n, bol) < n { LongestMatch(s, n - 1, bol); }
  }

  /** When `w` matches and nothing longer does, `w` is the next match. */
  lemma {:induction false} LongestIs(s: string, k: nat, n: nat, bol: bool)
    requires 0 < k <= n <= |s| && RuleOf(s[..k], bol) != 0
    requires forall j | k < j <= n :: RuleOf(s[..j], bol) == 0
    ensures Longest(s, n, bol) == k
    decreases n
  {
    hide RuleOf;
    if n > k { LongestIs(s, k, n - 1, bol); }
  }

  /** A word is cut off before a character that cannot continue it. */
  predicate Separated(w: string, rest: string) {
    && w != ""
    && (NameStart(w[0]) ==> rest == "" || !NameChar(rest[0]))
    && (NumberStart(w[0]) ==> rest == "" || !NumberChar(rest[0]))
    && (Blank(w[0]) ==> AllBlank(w) && (rest == "" || (!Blank(rest[0]) && rest[0] != '@')))
    && w[0] != '@' && w[0] != '#' && w[0] != '/'
  }

  lemma {:induction false} BlanksThen(w: string, rest: string)
    requires AllBlank(w) && rest != "" && !Blank(rest[0])
    ensures SkipBlanks(w + rest) == rest
  {
    if w == "" {
      assert w + rest == rest;
    } else {
      BlanksThen(w[1..], rest);
      assert (w + rest)[1..] == w[1..] + rest;
    }
  }

  lemma NothingLonger(w: string, rest: string, k: nat, bol: bool)
    requires Separated(w, rest) && |w| < k <= |w + rest|
    ensures RuleOf((w + rest)[..k], bol) == 0
  {
    hide RuleOf, NameStart, NameChar, NumberStart, NumberChar, IncludeOpen;
    var s := (w + rest)[..k];
    assert s[0] == w[0] && s[|w|] == rest[0];
    if RuleOf(s, bol) != 0 {
      LongMatches(s, bol);
      if Blank(w[0]) {
        var tail := rest[..k - |w|];
        assert s == w + tail;
        BlanksThen(w, tail);
        NotInclude(s);
      }
    }
  }

  lemma NotInclude(s: string)
    requires SkipBlanks(s) != "" && SkipBlanks(s)[0] != '@'
    ensures !IncludeOpen(s)
  {}

  /** The next match of a separated text is its first word. */
  lemma FirstWord(w: string, rest: string, bol: bool)
    requires Separated(w, rest) && RuleOf(w, bol) != 0
    ensures Longest(w + rest, |w + rest|, bol) == |w|
    ensures (w + rest)[..|w|] == w && (w + rest)[|w|..] == rest
  {
    forall k | |w| < k <= |w + rest|
      ensures RuleOf((w + rest)[..k], bol) == 0
    {
      NothingLonger(w, rest, k, bol);
    }
    LongestIs(w + rest, |w|, |w + rest|, bol);
  }

  /** A plain token, or blanks: the scanner emits the token of the rule and goes on behind it. */
  lemma LexWord(w: string, rest: string, bol: bool, rule: nat)
    requires Separated(w, rest) && RuleOf(w, bol) == rule && rule !in {0, 1, 5, 16, 40}
    ensures Lex(w + rest, bol) == TokenOf(rule, w) + Lex(rest, w[|w| - 1] == '\n')
  {
    hide RuleOf, Separated, TokenOf;
    assert w != "" by { SeparatedSome(w, rest); }
    FirstWord(w, rest, bol);
  }

  lemma SeparatedSome(w: string, rest: string)
    requires Separated(w, rest)
    ensures w != ""
  {}

  // ----- ruling rules out

  lemma NotBlank(s: string)
    requires s != "" && !Blank(s[0]) && s[0] != '@'
    ensures SkipBlanks(s) == s && !IncludeOpen(s)
  {
    NotInclude(s);
  }

  lemma NotNumber(s: string)
    requires s != "" && !NumberStart(s[0])
    ensures !FloatWord(s) && !IntegerWord(s) && !Integer64Word(s) && !HexWord(s) && !Hex64Word(s)
  {
    if FloatWord(s) { FloatIsNumber(s); }
    if IntegerWord(s) { IntegerIsNumber(s); }
    if Integer64Word(s) { Integer64IsNumber(s); }
    if HexWord(s) { HexIsNumber(s); }
    if Hex64Word(s) { Hex64IsNumber(s); }
  }

  lemma NotWord(s: string)
    requires s != "" && !NameStart(s[0])
    ensures !SameLetters(s, "true") && !SameLetters(s, "false") && !ValidName(s)
  {
    if SameLetters(s, "true") || SameLetters(s, "false") { LettersAreName(s); }
  }

  predicate Special(c: char) {
    c == '"' || c == '\n' || c == '=' || c == ':' || c == ',' || c == '{' || c == '}' || c == ';'
    || c == '[' || c == ']' || c == '(' || c == ')'
  }

  function SpecialRule(c: char): nat {
    if c == '"' then 5 else if c == '\n' then 21 else if c == '=' || c == ':' then 23 else if c == ',' then 24
    else if c == '{' then 25 else if c == '}' then 26 else if c == '[' then 35 else if c == ']' then 36
    else if c == '(' then 37 else if c == ')' then 38 else 39
  }

  /** A punctuation character is a word by itself, whatever follows. */
  lemma SpecialWord(c: char, rest: string, bol: bool)
    requires Special(c)
    ensures RuleOf([c], bol) == SpecialRule(c) && Separated([c], rest)
  {
    hide FloatWord, IntegerWord, Integer64Word, HexWord, Hex64Word, IncludeOpen, SkipBlanks, CommentLine, ValidName, SameLetters;
    NotBlank([c]);
    NotNumber([c]);
    NotWord([c]);
  }
}
