/** The scanner's loop over its input and the writer's calls on an output stream. */
module TextStreams {
  import opened Options
  import opened LalrTables
  import opened Parser
  import opened ConfigTree
  import opened Scanner
  import opened Writer

  // ----- scanning

  datatype Start = Initial | InComment | InString

  /** The tokens a scanner in this state will still return. */
  function Pending(start: Start, s: string, bol: bool, collected: string): seq<Token> {
    match start
    case Initial => Lex(s, bol)
    case InComment => Lex(SkipComment(s), false)
    case InString =>
      var r := ScanString(s, collected);
      if r.Unclosed? then [] else [Token(T_STRING, SVal(r.text))] + Lex(r.rest, false)
  }

  /** The start condition, the text not yet consumed and the string being collected. */
  class TokenSource {
    var start: Start
    var rest: string
    var bol: bool
    var collected: string

    function Tokens(): seq<Token>
      reads this
    {
      Pending(start, rest, bol, collected)
    }

    constructor (text: string)
      ensures Tokens() == Lex(text, true)
    {
      start, rest, bol, collected := Initial, text, true, "";
    }

    /** `libconfig_yylex`: matches rules until one returns a token or the text ends. */
    method YyLex() returns (t: Option<Token>)
      modifies this
      ensures t.None? ==> old(Tokens()) == Tokens() == []
      ensures t.Some? ==> old(Tokens()) == [t.value] + Tokens()
    {
      while rest != ""
        invariant Tokens() == old(Tokens())
        decreases |rest|
      {
        match start
        case InComment => CommentRule();
        case InString =>
          t := StringRule();
          if t.Some? { return; }
        case Initial =>
          t := InitialRule();
          if t.Some? { return; }
      }
      t := None;
    }

    method CommentRule()
      requires start == InComment && rest != ""
      modifies this
      ensures Tokens() == old(Tokens()) && |rest| < |old(rest)|
    {
      if |rest| > 1 && rest[..2] == "*/" {
        start, rest, bol := Initial, rest[2..], false;
      } else {
        rest := rest[1..];
      }
    }

    method StringRule() returns (t: Option<Token>)
      requires start == InString && rest != ""
      modifies this
      ensures |rest| < |old(rest)|
      ensures old(Tokens()) == (if t.Some? then [t.value] else []) + Tokens()
    {
      if rest[0] == '"' {
        t, start, rest, bol := Some(Token(T_STRING, SVal(collected))), Initial, rest[1..], false;
      } else {
        var p := StringPiece(rest);
        t, rest, collected := None, rest[p.0..], collected + p.1;
      }
    }

    method InitialRule() returns (t: Option<Token>)
      requires start == Initial && rest != ""
      modifies this
      ensures |rest| < |old(rest)|
      ensures old(Tokens()) == (if t.Some? then [t.value] else []) + Tokens()
    {
      hide RuleOf;
      var n := Longest(rest, |rest|, bol);
      var rule := RuleOf(rest[..n], bol);
      var matched := rest[..n];
      t := None;
      if rule == 1 {
        start, rest := InComment, rest[n..];
      } else if rule == 5 {
        start, rest, collected := InString, rest[n..], "";
      } else if rule == 16 {
        t, rest := Some(Token(T_ERROR, NoVal)), "";
      } else if rule == 40 {
        CommentIsLong(matched, bol);
        rest, bol := rest[n - 1..], false;
      } else {
        rest, bol := rest[n..], matched[n - 1] == '\n';
        if |TokenOf(rule, matched)| > 0 { t := Some(TokenOf(rule, matched)[0]); }
      }
    }
  }

  lemma CommentIsLong(s: string, bol: bool)
    requires RuleOf(s, bol) == 40
    ensures |s| > 1
  {}

  /** Reading to the end yields the list of tokens. */
  method ScanAll(text: string) returns (tokens: seq<Token>)
    ensures tokens == Lex(text, true)
  {
    hide Pending, Lex;
    var source := new TokenSource(text);
    tokens := [];
    var more := true;
    while more
      invariant tokens + source.Tokens() == Lex(text, true)
      invariant !more ==> source.Tokens() == []
      decreases more, |source.Tokens()|
    {
      ghost var left := source.Tokens();
      var t := source.YyLex();
      assert t.Some? ==> tokens + left == tokens + [t.value] + source.Tokens();
      if t.Some? { tokens := tokens + [t.value]; } else { more := false; }
    }
  }

  // ----- writing

  /** A stored node shows its own name, and as a group exactly when it is stored as one. */
  lemma NodeShows(ns: Nodes, i: nat)
    requires Ordered(ns) && i < |ns|
    ensures Tree(ns, i) == Setting(ns[i].name, DataTree(ns, i))
    ensures ns[i].data.DAgg? && ns[i].data.kind == Group <==> DataTree(ns, i).AggV? && DataTree(ns, i).kind == Group
  {}

  lemma GroupLayout(elems: seq<Setting>, depth: nat, tabWidth: nat)
    requires NoFloats(AggV(Group, elems))
    ensures
      ValueText(AggV(Group, elems), depth, tabWidth) ==
      (if depth > 0 then "\n" + IndentBelow(depth, tabWidth) + "{\n" else "")
      + SettingsText(elems, depth + 1, tabWidth) + IndentBelow(depth, tabWidth) + (if depth > 0 then "}" else "")
  {
    hide Indent, SettingsText;
  }

  class Stream {
    var out: string

    constructor ()
      ensures out == ""
    {
      out := "";
    }

    /** One character of a string literal, escaped. */
    method WriteChar(c: char)
      modifies this
      ensures out == old(out) + Escaped(c)
    {
      if c == '"' || c == '\\' {
        out := out + ['\\'];
        out := out + [c];
      } else if c == '\n' {
        out := out + "\\n";
      } else if c == '\r' {
        out := out + "\\r";
      } else if c == 12 as char {
        out := out + "\\f";
      } else if c == '\t' {
        out := out + "\\t";
      } else if c >= ' ' {
        out := out + [c];
      } else {
        out := out + ['\\', 'x', DigitChar(c as int / 16), DigitChar(c as int % 16)];
      }
    }

    method WriteString(s: string)
      modifies this
      ensures out == old(out) + "\"" + EscapedText(s) + "\""
    {
      hide Escaped;
      out := out + "\"";
      ghost var begun := out;
      var p := 0;
      while p < |s|
        invariant p <= |s| && out + EscapedText(s[p..]) == begun + EscapedText(s)
      {
        WriteChar(s[p]);
        assert s[p..][1..] == s[p + 1..];
        p := p + 1;
      }
      out := out + "\"";
    }

    /** `__config_write_value` of a stored node. */
    method WriteValue(ns: Nodes, i: nat, depth: nat, tabWidth: nat)
      requires Ordered(ns) && i < |ns| && NoFloats(DataTree(ns, i))
      modifies this
      ensures out == old(out) + ValueText(DataTree(ns, i), depth, tabWidth)
      decreases |ns| - i, 1
    {
      match ns[i].data
      case DNone => out := out + "???";
      case DScalar(v) => WriteScalar(v);
      case DAgg(kind, _) =>
        AggregateTree(ns, i);
        hide DataTree, ElemsText, SettingsText;
        match kind
        case Group =>
          WriteGroup(ns, i, depth, tabWidth);
        case List =>
          out := out + "( ";
          WriteElements(ns, i, depth, tabWidth);
          out := out + ")";
        case Array =>
          out := out + "[ ";
          WriteElements(ns, i, depth, tabWidth);
          out := out + "]";
    }

    method WriteGroup(ns: Nodes, i: nat, depth: nat, tabWidth: nat)
      requires Ordered(ns) && i < |ns| && ns[i].data.DAgg? && ns[i].data.kind == Group && NoFloats(DataTree(ns, i))
      modifies this
      ensures DataTree(ns, i).AggV? && out == old(out) + ValueText(AggV(Group, DataTree(ns, i).elems), depth, tabWidth)
      decreases |ns| - i, 0, 1
    {
      AggregateTree(ns, i);
      ghost var elems := DataTree(ns, i).elems;
      GroupLayout(elems, depth, tabWidth);
      hide DataTree, SettingsText, NoFloats, Tree, SettingText, ValueText, IndentBelow;
      OpenBrace(depth, tabWidth);
      WriteSettings(ns, i, depth, tabWidth);
      CloseBrace(depth, tabWidth);
    }

    method OpenBrace(depth: nat, tabWidth: nat)
      modifies this
      ensures out == old(out) + (if depth > 0 then "\n" + IndentBelow(depth, tabWidth) + "{\n" else "")
    {
      hide Indent;
      if depth > 0 {
        out := out + "\n";
        if depth > 1 { out := out + Indent(depth, tabWidth); }
        out := out + "{\n";
      }
    }

    method CloseBrace(depth: nat, tabWidth: nat)
      modifies this
      ensures out == old(out) + (IndentBelow(depth, tabWidth) + (if depth > 0 then "}" else ""))
    {
      hide Indent;
      if depth > 1 { out := out + Indent(depth, tabWidth); }
      if depth > 0 { out := out + "}"; }
    }

    method WriteScalar(v: Value)
      requires NoFloats(v) && ScalarKind(v) != 0
      modifies this
      ensures out == old(out) + ValueText(v, 0, 0)
    {
      match v
      case BoolV(b) => out := out + (if b != 0 then "true" else "false");
      case IntV(n, f) => out := out + (if f == FORMAT_HEX then "0x" + HexText(n, 0x1_0000_0000) else SignedText(n));
      case Int64V(n, f) =>
        out := out + (if f == FORMAT_HEX then "0x" + HexText(n, 0x1_0000_0000_0000_0000) + "L" else SignedText(n) + "L");
      case StringV(s) => WriteString(s);
    }

    method WriteElements(ns: Nodes, i: nat, depth: nat, tabWidth: nat)
      requires Ordered(ns) && i < |ns| && ns[i].data.DAgg? && NoFloats(DataTree(ns, i))
      modifies this
      ensures out == old(out) + ElemsText(DataTree(ns, i).elems, depth, tabWidth)
      decreases |ns| - i, 0, 0
    {
      AggregateTree(ns, i);
      var kids := ns[i].data.kids;
      ghost var elems := DataTree(ns, i).elems;
      var k := 0;
      while k < |kids|
        invariant k <= |kids|
        invariant out + ElemsText(elems[k..], depth, tabWidth) == old(out) + ElemsText(elems, depth, tabWidth)
      {
        ghost var before := out;
        WriteValue(ns, kids[k], depth + 1, tabWidth);
        if k + 1 < |kids| { out := out + ","; }
        out := out + " ";
        assert elems[k..][1..] == elems[k + 1..];
        assert out == before + ElementText(elems[k], depth + 1, tabWidth) + (if |elems[k..]| > 1 then "," else "") + " ";
        k := k + 1;
      }
    }

    method WriteSettings(ns: Nodes, i: nat, depth: nat, tabWidth: nat)
      requires Ordered(ns) && i < |ns| && ns[i].data.DAgg? && NoFloats(DataTree(ns, i))
      modifies this
      ensures out == old(out) + SettingsText(DataTree(ns, i).elems, depth + 1, tabWidth)
      decreases |ns| - i, 0, 0
    {
      hide SettingText, DataTree;
      AggregateTree(ns, i);
      var kids := ns[i].data.kids;
      ghost var elems := DataTree(ns, i).elems;
      var k := 0;
      while k < |kids|
        invariant k <= |kids|
        invariant out + SettingsText(elems[k..], depth + 1, tabWidth) == old(out) + SettingsText(elems, depth + 1, tabWidth)
      {
        WriteSetting(ns, kids[k], depth + 1, tabWidth);
        assert elems[k..][1..] == elems[k + 1..];
        k := k + 1;
      }
    }

    /** `__config_write_setting` of a stored node. */
    method WriteSetting(ns: Nodes, i: nat, depth: nat, tabWidth: nat)
      requires Ordered(ns) && i < |ns| && NoFloats(DataTree(ns, i))
      modifies this
      ensures out == old(out) + SettingText(Tree(ns, i), depth, tabWidth)
      decreases |ns| - i, 2
    {
      hide ValueText, Indent, NoFloats, DataTree;
      NodeShows(ns, i);
      if depth > 1 { out := out + Indent(depth, tabWidth); }
      if ns[i].name.Some? {
        out := out + ns[i].name.value;
        out := out + (if ns[i].data.DAgg? && ns[i].data.kind == Group then " : " else " = ");
      }
      WriteValue(ns, i, depth, tabWidth);
      if depth > 0 { out := out + ";\n"; }
    }
  }

  /** `config_write`. */
  method WriteConfig(ns: Nodes, tabWidth: nat) returns (text: string)
    requires Ordered(ns) && |ns| > ROOT && NoFloats(Tree(ns, ROOT).val)
    ensures text == ConfigText(Tree(ns, ROOT), tabWidth)
  {
    var stream := new Stream();
    stream.WriteSetting(ns, ROOT, 0, tabWidth);
    text := stream.out;
  }
}
