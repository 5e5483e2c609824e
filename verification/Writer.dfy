/** Writing a configuration as text. */
module Writer {
  import opened ConfigTree

  // ----- numbers, as printf writes them

  function DigitChar(d: nat): char
    requires d < 16
  {
    if d < 10 then '0' + d as char else 'A' + (d - 10) as char
  }

  function Digits(n: nat, base: nat): string
    requires 2 <= base <= 16
  {
    if n < base then [DigitChar(n)] else Digits(n / base, base) + [DigitChar(n % base)]
  }

  /** `%d` and `%lld`. */
  function SignedText(n: int): string {
    if n < 0 then "-" + Digits(-n, 10) else Digits(n, 10)
  }

  /** `%X` and `%llX` of an integer stored in that many bits. */
  function HexText(n: int, modulus: int): string
    requires modulus > 0
  {
    Digits(n % modulus, 16)
  }

  // ----- strings

  function Escaped(c: char): string {
    if c == '"' || c == '\\' then ['\\', c]
    else if c == '\n' then "\\n"
    else if c == '\r' then "\\r"
    else if c == 12 as char then "\\f"
    else if c == '\t' then "\\t"
    else if c >= ' ' then [c]
    else ['\\', 'x', DigitChar(c as int / 16), DigitChar(c as int % 16)]
  }

  function EscapedText(s: string): string {
    if s == "" then "" else Escaped(s[0]) + EscapedText(s[1..])
  }

  // ----- layout

  function Repeat(c: char, n: nat): string { seq(n, _ => c) }

  /** `__config_indent`, called below the first level only: blanks by the tab width, or tabs when that is zero. */
  function Indent(depth: nat, tabWidth: nat): string
    requires depth > 1
  {
    if tabWidth > 0 then Repeat(' ', (depth - 1) * tabWidth) else Repeat('\t', depth - 1)
  }

  function IndentBelow(depth: nat, tabWidth: nat): string {
    if depth > 1 then Indent(depth, tabWidth) else ""
  }

  // ----- values

  function IntText(n: int, format: int): string {
    if format == FORMAT_HEX then "0x" + HexText(n, 0x1_0000_0000) else SignedText(n)
  }

  function Int64Text(n: int, format: int): string {
    if format == FORMAT_HEX then "0x" + HexText(n, 0x1_0000_0000_0000_0000) + "L" else SignedText(n) + "L"
  }

  /** Everything but floats, whose printed form loses digits. */
  predicate NoFloats(v: Value)
    decreases v
  {
    match v
    case FloatV(_) => false
    case AggV(_, elems) => forall i | 0 <= i < |elems| :: NoFloats(elems[i].val)
    case _ => true
  }

  /** `__config_write_value`. */
  function ValueText(v: Value, depth: nat, tabWidth: nat): string
    requires NoFloats(v)
    decreases v, 0
  {
    match v
    case NoneV => "???"
    case BoolV(b) => if b != 0 then "true" else "false"
    case IntV(n, f) => IntText(n, f)
    case Int64V(n, f) => Int64Text(n, f)
    case StringV(s) => "\"" + EscapedText(s) + "\""
    case AggV(List, elems) => "( " + ElemsText(elems, depth, tabWidth) + ")"
    case AggV(Array, elems) => "[ " + ElemsText(elems, depth, tabWidth) + "]"
    case AggV(Group, elems) =>
      (if depth > 0 then "\n" + IndentBelow(depth, tabWidth) + "{\n" else "")
      + SettingsText(elems, depth + 1, tabWidth)
      + IndentBelow(depth, tabWidth) + (if depth > 0 then "}" else "")
  }

  function ElemsText(elems: seq<Setting>, depth: nat, tabWidth: nat): string
    requires forall i | 0 <= i < |elems| :: NoFloats(elems[i].val)
    decreases elems, 1
  {
    if elems == [] then ""
    else
      ElementText(elems[0], depth + 1, tabWidth) + (if |elems| > 1 then "," else "") + " "
      + ElemsText(elems[1..], depth, tabWidth)
  }

  function ElementText(s: Setting, depth: nat, tabWidth: nat): string
    requires NoFloats(s.val)
    decreases s, 1
  {
    ValueText(s.val, depth, tabWidth)
  }

  function SettingsText(elems: seq<Setting>, depth: nat, tabWidth: nat): string
    requires forall i | 0 <= i < |elems| :: NoFloats(elems[i].val)
    decreases elems, 1
  {
    if elems == [] then "" else SettingText(elems[0], depth, tabWidth) + SettingsText(elems[1..], depth, tabWidth)
  }

  /** `__config_write_setting`. */
  function SettingText(s: Setting, depth: nat, tabWidth: nat): string
    requires NoFloats(s.val)
    decreases s, 1
  {
    IndentBelow(depth, tabWidth)
    + (if s.name.None? then "" else s.name.value + (if s.val.AggV? && s.val.kind == Group then " : " else " = "))
    + ValueText(s.val, depth, tabWidth)
    + (if depth > 0 then ";\n" else "")
  }

  /** `config_write` of the root setting. */
  function ConfigText(root: Setting, tabWidth: nat): string
    requires NoFloats(root.val)
  {
    SettingText(root, 0, tabWidth)
  }
}
