/** What the writer writes, with the layout spelled out. */
module WrittenText {
  import opened Options
  import opened ConfigTree
  import opened Writer

  lemma IndentIs(depth: nat, tabWidth: nat)
    requires depth > 1
    ensures
      var t := Indent(depth, tabWidth);
      && |t| == (if tabWidth > 0 then (depth - 1) * tabWidth else depth - 1)
      && forall i | 0 <= i < |t| :: t[i] == if tabWidth > 0 then ' ' else '\t'
  {}

  /** A named group inside another one. */
  lemma GroupMeans(name: string, xs: seq<Setting>, depth: nat, tabWidth: nat)
    requires depth > 1 && NoFloats(AggV(Group, xs))
    ensures
      var t := Indent(depth, tabWidth);
      SettingText(Setting(Some(name), AggV(Group, xs)), depth, tabWidth) ==
      t + name + " : \n" + t + "{\n" + SettingsText(xs, depth + 1, tabWidth) + t + "};\n"
  {
    hide Indent, SettingsText;
    var t, u := Indent(depth, tabWidth), SettingsText(xs, depth + 1, tabWidth);
    assert ValueText(AggV(Group, xs), depth, tabWidth) == "\n" + t + "{\n" + u + t + "}";
    assert " : " + ("\n" + t + "{\n" + u + t + "}") + ";\n" == " : \n" + t + "{\n" + u + t + "};\n";
  }

  lemma ScalarMeans(name: string, v: Value, depth: nat, tabWidth: nat)
    requires depth > 1 && NoFloats(v) && !v.AggV?
    ensures SettingText(Setting(Some(name), v), depth, tabWidth) ==
            Indent(depth, tabWidth) + name + " = " + ValueText(v, depth, tabWidth) + ";\n"
  {
    hide Indent, ValueText;
  }

  /** Settings of the first level are not indented, nor are the braces of a group there. */
  lemma TopLevelMeans(name: string, v: Value, tabWidth: nat)
    requires NoFloats(v)
    ensures
      var text := SettingText(Setting(Some(name), v), 1, tabWidth);
      if v.AggV? && v.kind == Group then text == name + " : \n{\n" + SettingsText(v.elems, 2, tabWidth) + "};\n"
      else text == name + " = " + ValueText(v, 1, tabWidth) + ";\n"
  {
    hide SettingsText;
    if v.AggV? && v.kind == Group {
      var u := SettingsText(v.elems, 2, tabWidth);
      assert ValueText(v, 1, tabWidth) == "\n{\n" + u + "}";
      assert " : " + ("\n{\n" + u + "}") + ";\n" == " : \n{\n" + u + "};\n";
    } else {
      hide ValueText;
    }
  }

  /** The file is the settings of the root, one behind the other. */
  lemma FileMeans(xs: seq<Setting>, y: Setting, tabWidth: nat)
    requires NoFloats(AggV(Group, xs + [y]))
    ensures forall i | 0 <= i < |xs| :: (xs + [y])[i] == xs[i]
    ensures (xs + [y])[|xs|] == y && NoFloats(AggV(Group, xs))
    ensures ConfigText(Setting(None, AggV(Group, [])), tabWidth) == ""
    ensures ConfigText(Setting(None, AggV(Group, xs + [y])), tabWidth) ==
            ConfigText(Setting(None, AggV(Group, xs)), tabWidth) + SettingText(y, 1, tabWidth)
  {
    hide SettingText;
    forall i | 0 <= i < |xs| ensures (xs + [y])[i] == xs[i] && NoFloats(xs[i].val) {
      assert NoFloats((xs + [y])[i].val);
    }
    assert NoFloats((xs + [y])[|xs|].val);
    RootText([], tabWidth);
    RootText(xs, tabWidth);
    RootText(xs + [y], tabWidth);
    SettingsSnoc(xs, y, 1, tabWidth);
  }

  lemma RootText(xs: seq<Setting>, tabWidth: nat)
    requires NoFloats(AggV(Group, xs))
    ensures ConfigText(Setting(None, AggV(Group, xs)), tabWidth) == SettingsText(xs, 1, tabWidth)
  {
    hide SettingsText;
    assert ValueText(AggV(Group, xs), 0, tabWidth) == SettingsText(xs, 1, tabWidth);
  }

  lemma {:induction false} SettingsSnoc(xs: seq<Setting>, y: Setting, depth: nat, tabWidth: nat)
    requires NoFloats(y.val) && forall i | 0 <= i < |xs| :: NoFloats(xs[i].val)
    ensures SettingsText(xs + [y], depth, tabWidth) == SettingsText(xs, depth, tabWidth) + SettingText(y, depth, tabWidth)
  {
    hide SettingText, NoFloats;
    if xs == [] {
      assert xs + [y] == [y] && [y][1..] == [];
    } else {
      assert (xs + [y])[1..] == xs[1..] + [y];
      SettingsSnoc(xs[1..], y, depth, tabWidth);
    }
  }

  /** Elements of arrays and lists have a comma between any two, and a blank after each: `t` is what the
      elements before the last one look like. */
  lemma ElementsMean(kind: Kind, xs: seq<Setting>, y: Setting, depth: nat, tabWidth: nat) returns (t: string)
    requires kind != Group && xs != [] && NoFloats(y.val) && forall i | 0 <= i < |xs| :: NoFloats(xs[i].val)
    ensures forall i | 0 <= i < |xs + [y]| :: NoFloats((xs + [y])[i].val)
    ensures
      var l, r := if kind == List then "( " else "[ ", if kind == List then ")" else "]";
      && ValueText(AggV(kind, xs), depth, tabWidth) == l + t + " " + r
      && ValueText(AggV(kind, xs + [y]), depth, tabWidth) == l + (t + ", " + ValueText(y.val, depth + 1, tabWidth)) + " " + r
  {
    forall i | 0 <= i < |xs + [y]| ensures NoFloats((xs + [y])[i].val) { assert i < |xs| ==> (xs + [y])[i] == xs[i]; }
    hide NoFloats, ValueText, ElemsText;
    t := ElementsSnoc(xs, y, depth, tabWidth);
    BracketsMean(kind, xs, depth, tabWidth);
    BracketsMean(kind, xs + [y], depth, tabWidth);
    var l, r := if kind == List then "( " else "[ ", if kind == List then ")" else "]";
    Spaced(l, t, r);
    Spaced(l, t + ", " + ValueText(y.val, depth + 1, tabWidth), r);
  }

  lemma Spaced(l: string, t: string, r: string)
    ensures l + (t + " ") + r == l + t + " " + r
  {}

  /** An empty one has just its brackets, and one element stands alone between them. */
  lemma ElementAlone(kind: Kind, y: Setting, depth: nat, tabWidth: nat)
    requires kind != Group && NoFloats(y.val)
    ensures ValueText(AggV(kind, []), depth, tabWidth) == if kind == List then "( )" else "[ ]"
    ensures ValueText(AggV(kind, [y]), depth, tabWidth) ==
            (if kind == List then "( " else "[ ") + ValueText(y.val, depth + 1, tabWidth) + " " + (if kind == List then ")" else "]")
  {
    OneElement(y, depth, tabWidth);
    BracketsMean(kind, [], depth, tabWidth);
    BracketsMean(kind, [y], depth, tabWidth);
    hide ValueText, NoFloats;
    Spaced(if kind == List then "( " else "[ ", ValueText(y.val, depth + 1, tabWidth), if kind == List then ")" else "]");
  }

  lemma BracketsMean(kind: Kind, xs: seq<Setting>, depth: nat, tabWidth: nat)
    requires kind != Group && forall i | 0 <= i < |xs| :: NoFloats(xs[i].val)
    ensures ValueText(AggV(kind, xs), depth, tabWidth) ==
            (if kind == List then "( " else "[ ") + ElemsText(xs, depth, tabWidth) + (if kind == List then ")" else "]")
  {
    hide ElemsText;
  }

  lemma {:induction false} ElementsSnoc(xs: seq<Setting>, y: Setting, depth: nat, tabWidth: nat) returns (t: string)
    requires xs != [] && NoFloats(y.val) && forall i | 0 <= i < |xs| :: NoFloats(xs[i].val)
    ensures ElemsText(xs, depth, tabWidth) == t + " "
    ensures ElemsText(xs + [y], depth, tabWidth) == t + ", " + ElementText(y, depth + 1, tabWidth) + " "
  {
    hide ElementText, NoFloats, ElemsText;
    var u, e := ElementText(xs[0], depth + 1, tabWidth), ElementText(y, depth + 1, tabWidth);
    assert xs == [xs[0]] + xs[1..] && xs + [y] == [xs[0]] + (xs[1..] + [y]);
    if |xs| == 1 {
      t := u;
      assert xs == [xs[0]] && xs[1..] + [y] == [y];
      OneElement(xs[0], depth, tabWidth);
      OneElement(y, depth, tabWidth);
      ElementFirst(xs[0], [y], depth, tabWidth);
      assert u + "," + " " + (e + " ") == u + ", " + e + " ";
    } else {
      var v := ElementsSnoc(xs[1..], y, depth, tabWidth);
      t := u + ", " + v;
      ElementFirst(xs[0], xs[1..], depth, tabWidth);
      ElementFirst(xs[0], xs[1..] + [y], depth, tabWidth);
      assert u + "," + " " + (v + " ") == t + " ";
      assert u + "," + " " + (v + ", " + e + " ") == t + ", " + e + " ";
    }
  }

  lemma OneElement(x: Setting, depth: nat, tabWidth: nat)
    requires NoFloats(x.val)
    ensures ElemsText([x], depth, tabWidth) == ElementText(x, depth + 1, tabWidth) + " "
  {
    hide ElementText, NoFloats;
    assert [x][1..] == [];
  }

  lemma ElementFirst(x: Setting, xs: seq<Setting>, depth: nat, tabWidth: nat)
    requires xs != [] && NoFloats(x.val) && forall i | 0 <= i < |xs| :: NoFloats(xs[i].val)
    ensures ElemsText([x] + xs, depth, tabWidth) == ElementText(x, depth + 1, tabWidth) + "," + " " + ElemsText(xs, depth, tabWidth)
  {
    hide ElementText, NoFloats;
    assert ([x] + xs)[1..] == xs;
  }

  // ----- values

  const DIGITS := "0123456789ABCDEF"

  predicate UpperDigit(c: char, base: nat) { '0' <= c <= '9' || (base > 10 && 'A' <= c <= 'F') }

  /** Digits are written in upper case and without leading zeros; `RoundTrip.DigitsBack` has their value. */
  lemma {:induction false} DigitsMean(n: nat, base: nat)
    requires 2 <= base <= 16
    ensures
      var t := Digits(n, base);
      |t| > 0 && (forall i | 0 <= i < |t| :: UpperDigit(t[i], base)) && (|t| > 1 ==> t[0] != '0') && (t[0] == '0' ==> n == 0)
    decreases n
  {
    DigitsUnfold(n, base);
    hide Digits, DigitChar, UpperDigit;
    if n < base {
      DigitIs(n, base);
    } else {
      Smaller(n, base);
      DigitIs(n % base, base);
      DigitsMean(n / base, base);
    }
  }

  lemma DigitsUnfold(n: nat, base: nat)
    requires 2 <= base <= 16
    ensures Digits(n, base) == if n < base then [DigitChar(n)] else Digits(n / base, base) + [DigitChar(n % base)]
  {
    hide DigitChar;
  }

  lemma Smaller(n: nat, base: nat)
    requires 2 <= base <= n
    ensures 0 < n / base < n && 0 <= n % base < base
  {}

  lemma DigitIs(d: nat, base: nat)
    requires d < base <= 16
    ensures DigitChar(d) == DIGITS[d] && UpperDigit(DigitChar(d), base) && (DigitChar(d) == '0' ==> d == 0)
  {}

  /** Scalars: words for booleans, a sign for negative numbers only, a prefix and a suffix. */
  lemma ScalarTexts(n: int, format: int, depth: nat, tabWidth: nat)
    ensures ValueText(BoolV(n), depth, tabWidth) == if n == 0 then "false" else "true"
    ensures format != FORMAT_HEX ==> ValueText(IntV(n, format), depth, tabWidth) == if n < 0 then "-" + Digits(-n, 10) else Digits(n, 10)
    ensures format != FORMAT_HEX ==> ValueText(Int64V(n, format), depth, tabWidth) == (if n < 0 then "-" + Digits(-n, 10) else Digits(n, 10)) + "L"
    ensures ValueText(IntV(n, FORMAT_HEX), depth, tabWidth) == "0x" + Digits(n % 0x1_0000_0000, 16)
    ensures ValueText(Int64V(n, FORMAT_HEX), depth, tabWidth) == "0x" + Digits(n % 0x1_0000_0000_0000_0000, 16) + "L"
  {
    hide Digits;
  }

  /** Strings: quotes, backslashes and control characters are escaped, and nothing else is. */
  lemma CharacterMeans(c: char)
    ensures
      var e := Escaped(c);
      if c == '"' then e == "\\\""
      else if c == '\\' then e == "\\\\"
      else if c == '\n' then e == "\\n"
      else if c == '\r' then e == "\\r"
      else if c == '\t' then e == "\\t"
      else if c == 12 as char then e == "\\f"
      else if c < ' ' then e == "\\x" + [DIGITS[c as int / 16], DIGITS[c as int % 16]]
      else e == [c]
  {
    if c < ' ' {
      DigitIs(c as int / 16, 16);
      DigitIs(c as int % 16, 16);
    }
  }

  lemma StringMeans(s: string, c: char, depth: nat, tabWidth: nat)
    ensures ValueText(StringV(""), depth, tabWidth) == "\"\""
    ensures ValueText(StringV([c] + s), depth, tabWidth) == "\"" + Escaped(c) + EscapedText(s) + "\""
  {
    hide Escaped;
    assert ([c] + s)[1..] == s;
  }
}
