/** Account variables on their way to the login-server: entries are packed into one buffer, which is
    sent whenever it has grown past a limit, and unpacked at the other end. */
module Registry {
  import opened Options

  type byte = b: int | 0 <= b < 256

  /** A variable to set; number 0 and no string delete it. */
  datatype Reg = Num(key: seq<byte>, index: int, n: int) | Str(key: seq<byte>, index: int, s: Option<seq<byte>>)

  predicate CString(s: seq<byte>) { forall i | 0 <= i < |s| :: s[i] != 0 }

  const KEY_MAX := 32
  const STRING_MAX := 254
  const TWO32: int := 0x1_0000_0000

  /** What the columns of the variable tables allow. */
  predicate Fits(r: Reg) {
    && CString(r.key) && |r.key| <= KEY_MAX && 0 <= r.index < TWO32
    && match r
       case Num(_, _, n) => 0 <= n < TWO32
       case Str(_, _, s) => s.Some? ==> CString(s.value) && |s.value| <= STRING_MAX
  }

  // ----- bytes

  function Word(n: int): (r: seq<byte>)
    ensures |r| == 2
  {
    [n % 256, n / 256 % 256]
  }

  function Long(n: int): (r: seq<byte>)
    ensures |r| == 4
  {
    [n % 256, n / 256 % 256, n / 0x1_0000 % 256, n / 0x100_0000 % 256]
  }

  function WordAt(p: seq<byte>, i: nat): int
    requires i + 2 <= |p|
  {
    p[i] as int + p[i + 1] as int * 256
  }

  function LongAt(p: seq<byte>, i: nat): int
    requires i + 4 <= |p|
  {
    p[i] as int + p[i + 1] as int * 256 + p[i + 2] as int * 0x1_0000 + p[i + 3] as int * 0x100_0000
  }

  lemma WordBack(n: int)
    requires 0 <= n < 0x1_0000
    ensures WordAt(Word(n), 0) == n
  {}

  lemma LongBack(n: int)
    requires 0 <= n < TWO32
    ensures LongAt(Long(n), 0) == n
  {
    var a, b, c := n / 256, n / 0x1_0000, n / 0x100_0000;
    assert b == a / 256 && c == b / 256 && c < 256;
  }

  // ----- the format

  /** A string with its length, which counts the closing zero. */
  function Counted(s: seq<byte>): seq<byte>
    requires |s| < 255
  {
    [|s| + 1] + s + [0]
  }

  /** What follows key and index. */
  function Tail(r: Reg): seq<byte>
    requires Fits(r)
  {
    match r
    case Num(_, _, n) => if n != 0 then [0] + Long(n) else [1]
    case Str(_, _, s) => if s.Some? then [2] + Counted(s.value) else [3]
  }

  function Encode(r: Reg): (e: seq<byte>)
    requires Fits(r)
    ensures 7 <= |e| <= 1 + (KEY_MAX + 1) + 4 + 1 + 1 + (STRING_MAX + 1)
  {
    Counted(r.key) + Long(r.index) + Tail(r)
  }

  ghost predicate AllFit(rs: seq<Reg>) { forall i | 0 <= i < |rs| :: Fits(rs[i]) }

  ghost function EncodeAll(rs: seq<Reg>): seq<byte>
    requires AllFit(rs)
  {
    if rs == [] then [] else EncodeAll(rs[..|rs| - 1]) + Encode(rs[|rs| - 1])
  }

  const HEADER := 14
  const PACKET: int := 0x2728

  function Head(account: int, charId: int, length: int, count: int): (h: seq<byte>)
    ensures |h| == HEADER
  {
    Word(PACKET) + Word(length) + Long(account) + Long(charId) + Word(count)
  }

  /** The packet carrying these entries. */
  ghost function Packet(account: int, charId: int, rs: seq<Reg>): seq<byte>
    requires AllFit(rs)
  {
    Head(account, charId, HEADER + |EncodeAll(rs)|, |rs|) + EncodeAll(rs)
  }

  const NUMBER := Num([35, 66], 0x0102_0304, 0x0a0b_0c0d)
  const NO_NUMBER := Num([67], 1, 0)
  const STRING := Str([68], 2, Some([88, 89]))
  const NO_STRING := Str([69], 3, None)

  /** The four kinds of entries as bytes. */
  lemma EntriesByHand()
    ensures AllFit([NUMBER, NO_NUMBER, STRING, NO_STRING])
    ensures Encode(NUMBER) == [3, 35, 66, 0, 4, 3, 2, 1, 0, 0x0d, 0x0c, 0x0b, 0x0a]
    ensures Encode(NO_NUMBER) == [2, 67, 0, 1, 0, 0, 0, 1]
    ensures Encode(STRING) == [2, 68, 0, 2, 0, 0, 0, 2, 3, 88, 89, 0]
    ensures Encode(NO_STRING) == [2, 69, 0, 3, 0, 0, 0, 3]
  {
    assert Long(0x0102_0304) == [4, 3, 2, 1] && Long(0x0a0b_0c0d) == [0x0d, 0x0c, 0x0b, 0x0a];
    assert Long(1) == [1, 0, 0, 0] && Long(2) == [2, 0, 0, 0] && Long(3) == [3, 0, 0, 0];
    hide Long;
  }

  lemma HeadByHand(account: int, charId: int)
    requires account == 0x1122_3344 && charId == 0x5566_7788
    ensures Head(account, charId, 55, 4) == [0x28, 0x27, 55, 0, 0x44, 0x33, 0x22, 0x11, 0x88, 0x77, 0x66, 0x55, 4, 0]
  {
    assert Word(PACKET) == [0x28, 0x27] && Word(55) == [55, 0] && Word(4) == [4, 0];
    assert Long(0x1122_3344) == [0x44, 0x33, 0x22, 0x11] && Long(0x5566_7788) == [0x88, 0x77, 0x66, 0x55];
    hide Word, Long;
  }

  /** A packet as bytes. */
  lemma PacketByHand(account: int, charId: int)
    requires account == 0x1122_3344 && charId == 0x5566_7788
    ensures AllFit([NUMBER, NO_NUMBER, STRING, NO_STRING])
    ensures Packet(account, charId, [NUMBER, NO_NUMBER, STRING, NO_STRING]) ==
            [0x28, 0x27, 55, 0, 0x44, 0x33, 0x22, 0x11, 0x88, 0x77, 0x66, 0x55, 4, 0]
            + [3, 35, 66, 0, 4, 3, 2, 1, 0, 0x0d, 0x0c, 0x0b, 0x0a]
            + [2, 67, 0, 1, 0, 0, 0, 1]
            + [2, 68, 0, 2, 0, 0, 0, 2, 3, 88, 89, 0]
            + [2, 69, 0, 3, 0, 0, 0, 3]
  {
    EntriesByHand();
    HeadByHand(account, charId);
    hide Encode, Fits, Head;
    var rs := [NUMBER, NO_NUMBER, STRING, NO_STRING];
    assert EncodeAll(rs[..1]) == Encode(NUMBER) by { EncodeSnoc([], NUMBER); assert rs[..1] == [] + [NUMBER]; }
    assert EncodeAll(rs[..2]) == EncodeAll(rs[..1]) + Encode(NO_NUMBER) by { EncodeSnoc(rs[..1], NO_NUMBER); assert rs[..2] == rs[..1] + [NO_NUMBER]; }
    assert EncodeAll(rs[..3]) == EncodeAll(rs[..2]) + Encode(STRING) by { EncodeSnoc(rs[..2], STRING); assert rs[..3] == rs[..2] + [STRING]; }
    assert EncodeAll(rs) == EncodeAll(rs[..3]) + Encode(NO_STRING);
  }

  // ----- unpacking

  datatype End = Complete | UnknownType | Overrun

  /** What was read, and how reading ended; the source does not notice running past the packet. */
  datatype Parsed = Parsed(regs: seq<Reg>, end: End)

  /** Up to the first zero, as a C string. */
  function Trimmed(s: seq<byte>): seq<byte> {
    if s == [] || s[0] == 0 then [] else [s[0]] + Trimmed(s[1..])
  }

  datatype Piece<T> = Got(value: T, cursor: nat) | Bad(end: End)

  function StringAt(p: seq<byte>, i: nat): (r: Piece<seq<byte>>)
    ensures r.Got? ==> i < r.cursor <= |p|
  {
    if i >= |p| || i + 1 + p[i] > |p| then Bad(Overrun)
    else Got(Trimmed(p[i + 1..i + 1 + p[i]]), i + 1 + p[i])
  }

  function RegAt(p: seq<byte>, i: nat): (r: Piece<Reg>)
    ensures r.Got? ==> i < r.cursor <= |p|
  {
    var k := StringAt(p, i);
    if k.Bad? then Bad(k.end)
    else if k.cursor + 5 > |p| then Bad(Overrun)
    else
      var index, kind, at := LongAt(p, k.cursor), p[k.cursor + 4], k.cursor + 5;
      if kind == 0 then if at + 4 > |p| then Bad(Overrun) else Got(Num(k.value, index, LongAt(p, at)), at + 4)
      else if kind == 1 then Got(Num(k.value, index, 0), at)
      else if kind == 2 then
        var s := StringAt(p, at);
        if s.Bad? then Bad(s.end) else Got(Str(k.value, index, Some(s.value)), s.cursor)
      else if kind == 3 then Got(Str(k.value, index, None), at)
      else Bad(UnknownType)
  }

  function RegsFrom(p: seq<byte>, i: nat, count: nat): Parsed
    decreases count
  {
    if count == 0 then Parsed([], Complete)
    else
      var r := RegAt(p, i);
      if r.Bad? then Parsed([], r.end)
      else
        var rest := RegsFrom(p, r.cursor, count - 1);
        Parsed([r.value] + rest.regs, rest.end)
  }

  function Unpack(p: seq<byte>): Parsed
    requires |p| >= HEADER
  {
    RegsFrom(p, HEADER, WordAt(p, 12))
  }

  // ----- one entry comes back

  lemma {:induction false} TrimmedBack(s: seq<byte>)
    requires CString(s)
    ensures Trimmed(s + [0]) == s
  {
    if s != [] {
      TrimmedBack(s[1..]);
      assert (s + [0])[1..] == s[1..] + [0];
    }
  }

  lemma CountedBack(a: seq<byte>, s: seq<byte>, b: seq<byte>)
    requires CString(s) && |s| < 255
    ensures StringAt(a + Counted(s) + b, |a|) == Got(s, |a| + |s| + 2)
  {
    var p := a + Counted(s) + b;
    assert p[|a|] == |s| + 1;
    assert p[|a| + 1..|a| + 1 + |s| + 1] == s + [0];
    TrimmedBack(s);
  }

  lemma LongInside(a: seq<byte>, n: int, b: seq<byte>)
    requires 0 <= n < TWO32
    ensures LongAt(a + Long(n) + b, |a|) == n
  {
    LongBack(n);
    var p, l := a + Long(n) + b, Long(n);
    assert p[|a|] == l[0] && p[|a| + 1] == l[1] && p[|a| + 2] == l[2] && p[|a| + 3] == l[3];
  }

  /** At `i` stands the value of entry `r`. */
  predicate TailAt(p: seq<byte>, i: nat, r: Reg)
    requires Fits(r)
  {
    && i < |p|
    && match r
       case Num(_, _, n) => if n != 0 then p[i] == 0 && i + 5 <= |p| && LongAt(p, i + 1) == n else p[i] == 1
       case Str(_, _, s) => if s.Some? then p[i] == 2 && StringAt(p, i + 1) == Got(s.value, i + |s.value| + 3) else p[i] == 3
  }

  function TailLength(r: Reg): nat {
    match r
    case Num(_, _, n) => if n != 0 then 5 else 1
    case Str(_, _, s) => if s.Some? then |s.value| + 3 else 1
  }

  lemma TailBack(a: seq<byte>, r: Reg, b: seq<byte>)
    requires Fits(r)
    ensures TailAt(a + Tail(r) + b, |a|, r) && |Tail(r)| == TailLength(r)
  {
    hide Long, LongAt, StringAt, Counted;
    if r.Num? {
      if r.n != 0 {
        LongInside(a + [0], r.n, b);
        TagFirst(a, 0, Long(r.n), b);
      } else {
        TagFirst(a, 1, [], b);
      }
    } else if r.s.Some? {
      CountedBack(a + [2], r.s.value, b);
      CountedLength(r.s.value);
      TagFirst(a, 2, Counted(r.s.value), b);
    } else {
      TagFirst(a, 3, [], b);
    }
  }

  lemma TagFirst(a: seq<byte>, tag: byte, c: seq<byte>, b: seq<byte>)
    ensures
      var p := a + ([tag] + c) + b;
      p == (a + [tag]) + c + b && p[|a|] == tag && |p| == |a| + 1 + |c| + |b| && [tag] + [] == [tag]
  {}

  /** An entry is read from its three parts. */
  lemma RegFromParts(p: seq<byte>, i: nat, k: nat, r: Reg)
    requires Fits(r) && StringAt(p, i) == Got(r.key, k) && k + 5 <= |p| && LongAt(p, k) == r.index && TailAt(p, k + 4, r)
    ensures RegAt(p, i) == Got(r, k + 4 + TailLength(r))
  {
    hide LongAt, StringAt;
  }

  /** Key and index, in front of the value. */
  lemma FrontBack(a: seq<byte>, r: Reg, t: seq<byte>)
    requires Fits(r)
    ensures
      var p, i := a + (Counted(r.key) + Long(r.index)) + t, |a| + |r.key| + 2;
      && StringAt(p, |a|) == Got(r.key, i) && i + 4 + |t| == |p| && LongAt(p, i) == r.index
  {
    hide Counted, Long, LongAt, StringAt;
    var c, l := Counted(r.key), Long(r.index);
    CountedBack(a, r.key, l + t);
    assert a + c + (l + t) == a + (c + l) + t;
    LongInside(a + c, r.index, t);
    assert (a + c) + l + t == a + (c + l) + t;
    CountedLength(r.key);
  }

  lemma CountedLength(s: seq<byte>)
    requires |s| < 255
    ensures |Counted(s)| == |s| + 2
  {}

  lemma Regroup<T>(a: seq<T>, b: seq<T>, c: seq<T>, d: seq<T>)
    ensures a + (b + c) + d == a + b + (c + d) == (a + b) + c + d
  {}

  /** An entry is read back from where it was written. */
  lemma RegBack(a: seq<byte>, r: Reg, b: seq<byte>)
    requires Fits(r)
    ensures RegAt(a + Encode(r) + b, |a|) == Got(r, |a| + |Encode(r)|)
  {
    var front, t := Counted(r.key) + Long(r.index), Tail(r);
    CountedLength(r.key);
    FrontBack(a, r, t + b);
    TailBack(a + front, r, b);
    Regroup(a, front, t, b);
    assert Encode(r) == front + t;
    hide Tail, Counted, Long, LongAt, StringAt, Encode, RegAt, TailAt;
    RegFromParts(a + Encode(r) + b, |a|, |a| + |r.key| + 2, r);
  }

  lemma {:induction false} RegsBack(a: seq<byte>, rs: seq<Reg>, b: seq<byte>)
    requires AllFit(rs)
    ensures RegsFrom(a + EncodeAll(rs) + b, |a|, |rs|) == Parsed(rs, Complete)
    decreases |rs|
  {
    hide RegAt, Encode, EncodeAll, AllFit, Fits;
    if rs == [] {
      EncodeNone();
    } else {
      FitParts(rs);
      var e, rest := Encode(rs[0]), EncodeAll(rs[1..]);
      EncodeFirst(rs);
      RegBack(a, rs[0], rest + b);
      RegsBack(a + e, rs[1..], b);
      Regroup(a, e, rest, b);
    }
  }

  lemma EncodeNone()
    ensures EncodeAll([]) == []
  {}

  lemma FitParts(rs: seq<Reg>)
    requires AllFit(rs) && rs != []
    ensures Fits(rs[0]) && AllFit(rs[1..])
    ensures Fits(rs[|rs| - 1]) && AllFit(rs[..|rs| - 1])
  {
    hide Fits;
  }

  lemma {:induction false} EncodeFirst(rs: seq<Reg>)
    requires AllFit(rs) && rs != []
    ensures EncodeAll(rs) == Encode(rs[0]) + EncodeAll(rs[1..])
  {
    hide Encode, EncodeAll, Fits;
    var n := |rs| - 1;
    EncodeSnoc(rs[..n], rs[n]);
    assert rs[..n] + [rs[n]] == rs;
    if n == 0 {
      EncodeNone();
      assert rs[..0] == [] && rs[1..] == [];
    } else {
      EncodeFirst(rs[..n]);
      var middle := rs[1..n];
      EncodeSnoc(middle, rs[n]);
      assert rs[..n][1..] == middle && middle + [rs[n]] == rs[1..];
      Join(Encode(rs[0]), EncodeAll(middle), Encode(rs[n]));
    }
  }

  lemma HeadFields(account: int, charId: int, length: int, count: int, body: seq<byte>)
    requires 0 <= length < 0x1_0000 && 0 <= count < 0x1_0000
    ensures
      var p := Head(account, charId, length, count) + body;
      WordAt(p, 2) == length && WordAt(p, 12) == count
  {
    WordBack(length);
    WordBack(count);
    var h := Head(account, charId, length, count);
    assert h[2] == Word(length)[0] && h[3] == Word(length)[1] && h[12] == Word(count)[0] && h[13] == Word(count)[1];
  }

  /** Unpacking a packet yields the entries packed, each once and in order. */
  lemma PacketBack(account: int, charId: int, rs: seq<Reg>)
    requires AllFit(rs) && HEADER + |EncodeAll(rs)| < 0x1_0000
    ensures Unpack(Packet(account, charId, rs)) == Parsed(rs, Complete)
    ensures WordAt(Packet(account, charId, rs), 2) == HEADER + |EncodeAll(rs)|
    ensures WordAt(Packet(account, charId, rs), 12) == |rs|
  {
    hide EncodeAll, RegsFrom, WordAt, Head, AllFit, Fits;
    EncodeSize(rs);
    var h := Head(account, charId, HEADER + |EncodeAll(rs)|, |rs|);
    HeadFields(account, charId, HEADER + |EncodeAll(rs)|, |rs|, EncodeAll(rs));
    RegsBack(h, rs, []);
    NothingBehind(h + EncodeAll(rs));
  }

  lemma Join<T>(a: seq<T>, b: seq<T>, c: seq<T>)
    ensures a + b + c == a + (b + c)
  {}

  lemma NothingBehind<T>(s: seq<T>)
    ensures s + [] == s
  {}

  // ----- packing

  const LIMIT := 60000
  const RESERVED := LIMIT + 300
  const ENTRY_MAX := 295

  lemma {:induction false} EncodeSize(rs: seq<Reg>)
    requires AllFit(rs)
    ensures |EncodeAll(rs)| >= 7 * |rs|
  {
    hide Encode;
    if rs != [] { EncodeSize(rs[..|rs| - 1]); }
  }

  lemma EncodeSnoc(rs: seq<Reg>, r: Reg)
    requires AllFit(rs) && Fits(r)
    ensures AllFit(rs + [r]) && EncodeAll(rs + [r]) == EncodeAll(rs) + Encode(r)
  {
    hide Encode;
    assert (rs + [r])[..|rs|] == rs;
  }

  /** Two bytes replaced. */
  function WithWord(p: seq<byte>, at: nat, n: int): (r: seq<byte>)
    requires at + 2 <= |p|
    ensures |r| == |p|
  {
    p[at := Word(n)[0]][at + 1 := Word(n)[1]]
  }

  /** Rewriting the length and count fields of a header. */
  lemma HeadChanged(account: int, charId: int, length: int, count: int, body: seq<byte>, length': int, count': int)
    ensures
      var p := Head(account, charId, length, count) + body;
      WithWord(WithWord(p, 12, count'), 2, length') == Head(account, charId, length', count') + body
  {}

  /** Within the reservation, announcing its own length, and readable to the end. */
  predicate Proper(p: seq<byte>) {
    HEADER <= |p| <= LIMIT + ENTRY_MAX && WordAt(p, 2) == |p| && Unpack(p).end == Complete && |Unpack(p).regs| == WordAt(p, 12)
  }

  predicate AllProper(packets: seq<seq<byte>>) { forall i | 0 <= i < |packets| :: Proper(packets[i]) }

  /** A packet of the right kind, for this account and character. */
  predicate Addressed(p: seq<byte>, account: int, charId: int) {
    HEADER <= |p| && WordAt(p, 0) == PACKET && LongAt(p, 4) == account && LongAt(p, 8) == charId
  }

  predicate AllAddressed(packets: seq<seq<byte>>, account: int, charId: int) {
    forall i | 0 <= i < |packets| :: Addressed(packets[i], account, charId)
  }

  lemma PacketIsAddressed(account: int, charId: int, rs: seq<Reg>)
    requires AllFit(rs) && 0 <= account < TWO32 && 0 <= charId < TWO32
    ensures Addressed(Packet(account, charId, rs), account, charId)
  {
    hide EncodeAll, LongAt;
    var p := Packet(account, charId, rs);
    HeadIds(p, account, charId, rs);
    WordBack(PACKET);
    assert p[0] == Word(PACKET)[0] && p[1] == Word(PACKET)[1];
  }

  /** What a receiver makes of a sequence of packets. */
  function Received(packets: seq<seq<byte>>): seq<Reg>
    requires AllProper(packets)
  {
    if packets == [] then [] else Received(packets[..|packets| - 1]) + Unpack(packets[|packets| - 1]).regs
  }

  lemma ReceivedSnoc(packets: seq<seq<byte>>, p: seq<byte>)
    requires AllProper(packets) && Proper(p)
    ensures AllProper(packets + [p]) && Received(packets + [p]) == Received(packets) + Unpack(p).regs
  {
    hide Proper, Unpack;
    assert AllProper(packets + [p]);
    assert (packets + [p])[..|packets|] == packets;
  }

  lemma PacketIsProper(account: int, charId: int, rs: seq<Reg>)
    requires AllFit(rs) && HEADER + |EncodeAll(rs)| <= LIMIT + ENTRY_MAX
    ensures Proper(Packet(account, charId, rs)) && Unpack(Packet(account, charId, rs)).regs == rs
  {
    PacketBack(account, charId, rs);
    hide EncodeAll, Unpack, WordAt;
  }

  lemma HeadIds(p: seq<byte>, account: int, charId: int, rs: seq<Reg>)
    requires AllFit(rs) && 0 <= account < TWO32 && 0 <= charId < TWO32
    requires HEADER + |EncodeAll(rs)| <= |p| && p[..HEADER + |EncodeAll(rs)|] == Packet(account, charId, rs)
    ensures LongAt(p, 4) == account && LongAt(p, 8) == charId
  {
    hide EncodeAll, Head, LongAt;
    var h := Head(account, charId, HEADER + |EncodeAll(rs)|, |rs|);
    HeadLongs(account, charId, HEADER + |EncodeAll(rs)|, |rs|);
    assert p[..HEADER] == p[..HEADER + |EncodeAll(rs)|][..HEADER] == h;
    LongInPrefix(p, HEADER, 4);
    LongInPrefix(p, HEADER, 8);
  }

  lemma HeadLongs(account: int, charId: int, length: int, count: int)
    requires 0 <= account < TWO32 && 0 <= charId < TWO32
    ensures LongAt(Head(account, charId, length, count), 4) == account && LongAt(Head(account, charId, length, count), 8) == charId
  {
    LongBack(account);
    LongBack(charId);
    var h, a, c := Head(account, charId, length, count), Long(account), Long(charId);
    hide Word, Long;
    assert h[4] == a[0] && h[5] == a[1] && h[6] == a[2] && h[7] == a[3];
    assert h[8] == c[0] && h[9] == c[1] && h[10] == c[2] && h[11] == c[3];
  }

  lemma LongInPrefix(p: seq<byte>, m: nat, i: nat)
    requires i + 4 <= m <= |p|
    ensures LongAt(p, i) == LongAt(p[..m], i)
  {}

  lemma WithWordPrefix(q: seq<byte>, m: nat, count: int)
    requires HEADER <= m <= |q|
    ensures WithWord(WithWord(q, 12, count), 2, m)[..m] == WithWord(WithWord(q[..m], 12, count), 2, m)
  {
    hide Word;
  }

  lemma WordInPrefix(p: seq<byte>, m: nat, i: nat)
    requires i + 2 <= m <= |p|
    ensures WordAt(p, i) == WordAt(p[..m], i)
  {}

  class Packer {
    /** The write buffer; the source reserves this much before each packet. */
    const wdata: array<byte>
    var sent: seq<seq<byte>>
    ghost var account: int
    ghost var charId: int
    /** The entries in the buffer. */
    ghost var packed: seq<Reg>

    /** The buffer holds a packet with the entries packed so far. */
    ghost predicate Open()
      reads this, wdata
    {
      && wdata.Length == RESERVED && AllFit(packed) && HEADER + |EncodeAll(packed)| <= LIMIT
      && 0 <= account < TWO32 && 0 <= charId < TWO32
      && wdata[..HEADER + |EncodeAll(packed)|] == Packet(account, charId, packed)
      && AllProper(sent) && AllAddressed(sent, account, charId)
    }

    constructor ()
      ensures fresh(wdata) && wdata.Length == RESERVED && sent == []
    {
      wdata := new byte[RESERVED];
      sent := [];
    }

    method Put(at: nat, bs: seq<byte>)
      requires at + |bs| <= wdata.Length
      modifies wdata
      ensures wdata[..at + |bs|] == old(wdata[..at]) + bs
    {
      var k := 0;
      while k < |bs|
        invariant k <= |bs| && wdata[..at + k] == old(wdata[..at]) + bs[..k]
      {
        wdata[at + k] := bs[k];
        assert wdata[..at + k + 1] == wdata[..at + k] + [bs[k]];
        k := k + 1;
      }
      assert bs[..k] == bs;
    }

    method PutWord(at: nat, n: int)
      requires at + 2 <= wdata.Length
      modifies wdata
      ensures wdata[..] == WithWord(old(wdata[..]), at, n)
    {
      wdata[at] := Word(n)[0];
      wdata[at + 1] := Word(n)[1];
    }

    /** `chlogif_upd_global_accreg`: an empty packet. */
    method Begin(accountId: int, character: int)
      requires wdata.Length == RESERVED && AllProper(sent) && AllAddressed(sent, accountId, character)
      requires 0 <= accountId < TWO32 && 0 <= character < TWO32
      modifies this`account, this`charId, this`packed, wdata
      ensures Open() && packed == [] && account == accountId && charId == character
    {
      account, charId, packed := accountId, character, [];
      Put(0, Word(PACKET));
      Put(2, Word(HEADER));
      Put(4, Long(accountId));
      Put(8, Long(character));
      Put(12, Word(0));
      assert wdata[..HEADER] == Head(accountId, character, HEADER, 0);
    }

    method GetWord(at: nat) returns (n: int)
      requires at + 2 <= wdata.Length
      ensures n == WordAt(wdata[..], at)
    {
      n := wdata[at] as int + wdata[at + 1] as int * 256;
    }

    method GetLong(at: nat) returns (n: int)
      requires at + 4 <= wdata.Length
      ensures n == LongAt(wdata[..], at)
    {
      n := wdata[at] as int + wdata[at + 1] as int * 256 + wdata[at + 2] as int * 0x1_0000 + wdata[at + 3] as int * 0x100_0000;
    }

    /** `chlogif_prepsend_global_accreg`: what the header says the packet holds is sent. */
    method Flush()
      requires wdata.Length == RESERVED && AllFit(packed) && HEADER + |EncodeAll(packed)| <= LIMIT + ENTRY_MAX
      requires wdata[..HEADER + |EncodeAll(packed)|] == Packet(account, charId, packed)
      requires AllProper(sent) && AllAddressed(sent, account, charId) && 0 <= account < TWO32 && 0 <= charId < TWO32
      modifies this`sent
      ensures sent == old(sent) + [Packet(account, charId, packed)]
      ensures AllProper(sent) && AllAddressed(sent, account, charId)
      ensures Received(sent) == old(Received(sent)) + packed
    {
      hide EncodeAll, Packet, Unpack, Proper, Addressed;
      PacketIsAddressed(account, charId, packed);
      PacketIsProper(account, charId, packed);
      PacketBack(account, charId, packed);
      ghost var m := HEADER + |EncodeAll(packed)|;
      WordInPrefix(wdata[..], m, 2);
      var n := GetWord(2);
      ReceivedSnoc(sent, Packet(account, charId, packed));
      sent := sent + [wdata[..n]];
    }

    /** `chlogif_send_global_accreg`: the entry is appended and length and count are rewritten; past the
        limit the packet is sent and the next one begun. */
    method Send(r: Reg)
      requires Open() && Fits(r)
      modifies this, wdata
      ensures Open() && account == old(account) && charId == old(charId)
      ensures Received(sent) + packed == old(Received(sent) + packed) + [r]
    {
      hide EncodeAll, Encode, Packet, Proper, Addressed, Received, Tail;
      ghost var rs := packed;
      Append(r);
      EncodeSnoc(rs, r);
      packed := packed + [r];
      var n := GetWord(2);
      PacketBack(account, charId, packed);
      WordInPrefix(wdata[..], HEADER + |EncodeAll(packed)|, 2);
      if n > LIMIT {
        HeadIds(wdata[..], account, charId, packed);
        var accountId := GetLong(4);
        var character := GetLong(8);
        Flush();
        Begin(accountId, character);
      }
    }

    method PutTail(at: nat, r: Reg) returns (nlen: nat)
      requires Fits(r) && at + |Tail(r)| <= wdata.Length
      modifies wdata
      ensures nlen == at + |Tail(r)| && wdata[..nlen] == old(wdata[..at]) + Tail(r)
    {
      hide Long, Counted;
      ghost var before := wdata[..at];
      nlen := at + 1;
      match r
      case Num(_, _, n) =>
        Put(at, [if n != 0 then 0 else 1]);
        if n != 0 {
          Put(nlen, Long(n));
          nlen := nlen + 4;
          Join(before, [0], Long(n));
        }
      case Str(_, _, s) =>
        Put(at, [if s.Some? then 2 else 3]);
        if s.Some? {
          CountedLength(s.value);
          Put(nlen, Counted(s.value));
          nlen := nlen + |s.value| + 2;
          Join(before, [2], Counted(s.value));
        }
    }

    method PutEntry(at: nat, r: Reg) returns (nlen: nat)
      requires Fits(r) && at + |Encode(r)| <= wdata.Length
      modifies wdata
      ensures nlen == at + |Encode(r)| && wdata[..nlen] == old(wdata[..at]) + Encode(r)
    {
      hide Long, Tail, Counted;
      ghost var before := wdata[..at];
      CountedLength(r.key);
      nlen := at;
      Put(nlen, Counted(r.key));
      nlen := nlen + |r.key| + 2;
      Put(nlen, Long(r.index));
      nlen := nlen + 4;
      nlen := PutTail(nlen, r);
      Join(before, Counted(r.key), Long(r.index));
      Join(before, Counted(r.key) + Long(r.index), Tail(r));
    }

    method Append(r: Reg)
      requires Open() && Fits(r)
      modifies wdata
      ensures
        var n := HEADER + |EncodeAll(packed)| + |Encode(r)|;
        n <= LIMIT + ENTRY_MAX && AllFit(packed + [r]) && n == HEADER + |EncodeAll(packed + [r])|
        && wdata[..n] == Packet(account, charId, packed + [r])
    {
      hide EncodeAll, Encode, Proper, WordAt, Word, Head, Unpack;
      ghost var n0 := HEADER + |EncodeAll(packed)|;
      ghost var body := EncodeAll(packed) + Encode(r);
      PacketBack(account, charId, packed);
      EncodeSnoc(packed, r);
      WordInPrefix(wdata[..], n0, 2);
      WordInPrefix(wdata[..], n0, 12);
      var nlen := GetWord(2);
      var count := GetWord(12);
      nlen := PutEntry(nlen, r);
      ghost var q, p := wdata[..], wdata[..nlen];
      assert p == Head(account, charId, n0, count) + body;
      PutWord(12, count + 1);
      PutWord(2, nlen);
      WithWordPrefix(q, nlen, count + 1);
      HeadChanged(account, charId, n0, count, body, nlen, count + 1);
    }
  }

  /** Packing any list of variables: every packet sent is proper and addressed to the account and character,
      and together they carry exactly the list. */
  method Pack(account: int, charId: int, rs: seq<Reg>) returns (packets: seq<seq<byte>>)
    requires AllFit(rs) && 0 <= account < TWO32 && 0 <= charId < TWO32
    ensures AllProper(packets) && AllAddressed(packets, account, charId)
    ensures Received(packets) == rs
  {
    hide EncodeAll, Packet, Unpack, Proper, Addressed;
    var packer := new Packer();
    packer.Begin(account, charId);
    var i := 0;
    while i < |rs|
      invariant packer.account == account && packer.charId == charId
      invariant i <= |rs| && packer.Open() && Received(packer.sent) + packer.packed == rs[..i]
    {
      packer.Send(rs[i]);
      i := i + 1;
    }
    packer.Flush();
    packets := packer.sent;
    assert rs[..i] == rs;
  }

  /** `mapif_parse_Registry`: what is saved of a received packet. */
  method ParseRegistry(p: seq<byte>) returns (regs: seq<Reg>, end: End)
    requires |p| >= HEADER
    ensures Parsed(regs, end) == Unpack(p)
  {
    var count := WordAt(p, 12);
    var cursor: nat, i := HEADER, 0;
    regs := [];
    while i < count
      invariant 0 <= i <= count
      invariant RegsFrom(p, HEADER, count) == Before(regs, RegsFrom(p, cursor, count - i))
    {
      hide RegAt;
      var r := RegAt(p, cursor);
      if r.Bad? { return regs, r.end; }
      ghost var rest := RegsFrom(p, r.cursor, count - i - 1);
      assert regs + ([r.value] + rest.regs) == (regs + [r.value]) + rest.regs;
      regs, cursor, i := regs + [r.value], r.cursor, i + 1;
    }
    end := Complete;
  }

  /** `rs` was read first. */
  function Before(rs: seq<Reg>, rest: Parsed): Parsed { Parsed(rs + rest.regs, rest.end) }
}
