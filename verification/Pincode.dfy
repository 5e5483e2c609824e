/** Decrypting a pincode: a seed shuffles the ten digits in place, and each digit typed stands for the
    one at its position. */
module Pincode {

  const PINCODE_LENGTH := 4
  const TWO32: int := 0x1_0000_0000

  type Table = t: seq<bv8> | |t| == 10 witness [0, 1, 2, 3, 4, 5, 6, 7, 8, 9]

  const DIGITS: Table := [0, 1, 2, 3, 4, 5, 6, 7, 8, 9]

  /** The next seed, in 32 bits. */
  function NextSeed(seed: int): (r: int)
    ensures 0 <= r < TWO32
  {
    (0x881234 + seed * 0x3498) % TWO32
  }

  function Swapped(t: Table, i: nat, j: nat): Table
    requires i < 10 && j < 10
  {
    t[i := t[j]][j := t[i]]
  }

  /** The seed and the table before turn `i` of the shuffle. */
  function SeedAt(seed: int, i: nat): int {
    if i <= 1 then seed else NextSeed(SeedAt(seed, i - 1))
  }

  function TableAt(seed: int, i: nat): Table
    requires i <= 10
  {
    if i <= 1 then DIGITS else Swapped(TableAt(seed, i - 1), i - 1, SeedAt(seed, i) % i)
  }

  function Shuffled(seed: int): Table { TableAt(seed, 10) }

  /** All different, all digits. */
  predicate Permutes(t: Table) {
    && (forall i | 0 <= i < 10 :: t[i] < 10)
    && (forall i, j | 0 <= i < j < 10 :: t[i] != t[j])
  }

  lemma SwapPermutes(t: Table, i: nat, j: nat)
    requires Permutes(t) && i < 10 && j < 10
    ensures Permutes(Swapped(t, i, j))
  {}

  lemma {:induction false} ShufflePermutes(seed: int, i: nat)
    requires i <= 10
    ensures Permutes(TableAt(seed, i))
  {
    if i > 1 {
      ShufflePermutes(seed, i - 1);
      SwapPermutes(TableAt(seed, i - 1), i - 1, SeedAt(seed, i) % i);
    }
  }

  function Power(b: int, n: nat): int { if n == 0 then 1 else b * Power(b, n - 1) }

  /** The sum of the first `n` powers. */
  function Series(b: int, n: nat): int { if n == 0 then 0 else 1 + b * Series(b, n - 1) }

  lemma TurnInside(x: int)
    ensures (8917556 + x % TWO32 * 13464) % TWO32 == (8917556 + x * 13464) % TWO32
  {}

  /** The seed as a function of the first one: it is multiplied by 13464 and moved on by 8917556 `n`
      times, modulo 2^32. */
  lemma {:induction false} SeedIs(seed: int, n: nat)
    ensures n > 0 ==> SeedAt(seed, n + 1) == (seed * Power(13464, n) + 8917556 * Series(13464, n)) % 0x1_0000_0000
  {
    if n == 1 {
      assert Power(13464, 1) == 13464 * Power(13464, 0) && Series(13464, 1) == 1 + 13464 * Series(13464, 0);
    } else if n > 1 {
      SeedIs(seed, n - 1);
      var p, z := Power(13464, n - 1), Series(13464, n - 1);
      var x := seed * p + 8917556 * z;
      TurnInside(x);
      assert 8917556 + x * 13464 == seed * (13464 * p) + 8917556 * (1 + 13464 * z);
    }
  }

  /** Turn `i` touches entries up to `i` only: digit `i` goes where the new seed says, and what was there
      goes to entry `i`. */
  lemma {:induction false} TurnMoves(seed: int, i: nat)
    requires 1 <= i < 10
    ensures
      var pos, t, t' := SeedAt(seed, i + 1) % (i + 1), TableAt(seed, i), TableAt(seed, i + 1);
      && (forall k | i <= k < 10 :: t[k] as int == k)
      && t'[pos] as int == i && t'[i] == t[pos]
      && forall k | 0 <= k < 10 && k != pos && k != i :: t'[k] == t[k]
  {
    if i > 1 { TurnMoves(seed, i - 1); }
  }

  lemma FirstTurn(seed: int)
    ensures SeedAt(seed, 1) == seed && TableAt(seed, 1) == DIGITS
  {}

  lemma Turn(seed: int, i: nat, next: int, t: Table, t': Table)
    requires 1 <= i < 10 && TableAt(seed, i) == t && NextSeed(SeedAt(seed, i)) == next
    requires Exchanged(t, t', i, next % (i + 1))
    ensures SeedAt(seed, i + 1) == next && TableAt(seed, i + 1) == t'
  {}

  /** Two entries have changed places. */
  predicate Exchanged(t: Table, t': Table, i: nat, j: nat)
    requires i < 10 && j < 10
  {
    t'[i] == t[j] && t'[j] == t[i] && forall k | 0 <= k < 10 && k != i && k != j :: t'[k] == t[k]
  }

  lemma TableOfZeroEarly()
    ensures SeedAt(0, 4) == 2528855572 && TableAt(0, 4) == [3, 0, 2, 1, 4, 5, 6, 7, 8, 9]
  {
    hide Swapped, TableAt, SeedAt;
    FirstTurn(0);
    Turn(0, 1, 8917556, [0, 1, 2, 3, 4, 5, 6, 7, 8, 9], [1, 0, 2, 3, 4, 5, 6, 7, 8, 9]);
    Turn(0, 2, 4110774548, [1, 0, 2, 3, 4, 5, 6, 7, 8, 9], [1, 0, 2, 3, 4, 5, 6, 7, 8, 9]);
    Turn(0, 3, 2528855572, [1, 0, 2, 3, 4, 5, 6, 7, 8, 9], [3, 0, 2, 1, 4, 5, 6, 7, 8, 9]);
  }

  lemma TableOfZeroMidway()
    ensures SeedAt(0, 7) == 601554452 && TableAt(0, 7) == [3, 0, 6, 1, 5, 2, 4, 7, 8, 9]
  {
    hide Swapped, TableAt, SeedAt;
    TableOfZeroEarly();
    Turn(0, 4, 2314583572, [3, 0, 2, 1, 4, 5, 6, 7, 8, 9], [3, 0, 4, 1, 2, 5, 6, 7, 8, 9]);
    Turn(0, 5, 3574398484, [3, 0, 4, 1, 2, 5, 6, 7, 8, 9], [3, 0, 4, 1, 5, 2, 6, 7, 8, 9]);
    Turn(0, 6, 601554452, [3, 0, 4, 1, 5, 2, 6, 7, 8, 9], [3, 0, 6, 1, 5, 2, 4, 7, 8, 9]);
  }

  /** The table of seed 0. */
  lemma TableOfZero()
    ensures Shuffled(0) == [3, 0, 6, 1, 9, 8, 4, 5, 2, 7]
  {
    hide Swapped, TableAt, SeedAt;
    TableOfZeroMidway();
    Turn(0, 7, 3324706324, [3, 0, 6, 1, 5, 2, 4, 7, 8, 9], [3, 0, 6, 1, 7, 2, 4, 5, 8, 9]);
    Turn(0, 8, 1705704980, [3, 0, 6, 1, 7, 2, 4, 5, 8, 9], [3, 0, 6, 1, 7, 8, 4, 5, 2, 9]);
    Turn(0, 9, 430636564, [3, 0, 6, 1, 7, 8, 4, 5, 2, 9], [3, 0, 6, 1, 9, 8, 4, 5, 2, 7]);
  }

  // ----- exclusive or

  function Xor(x: bv8, y: bv8): bv8 { x ^ y }

  /** Three assignments exchange two different variables, and would clear a variable exchanged with itself. */
  lemma XorSwap(x: bv8, y: bv8)
    ensures Xor(y, Xor(x, y)) == x && Xor(Xor(x, y), x) == y
    ensures Xor(x, x) == 0
  {}

  // ----- decryption

  predicate IsDigit(c: char) { '0' <= c <= '9' }

  predicate AllDigits(s: string) { forall i | 0 <= i < |s| :: IsDigit(s[i]) }

  function DigitOf(c: char): (d: nat)
    requires IsDigit(c)
    ensures d < 10
  {
    (c - '0') as nat
  }

  function Decoded(t: Table, c: char): char
    requires IsDigit(c) && Permutes(t)
  {
    '0' + t[DigitOf(c)] as char
  }

  function Decrypted(seed: int, pin: string): (r: string)
    requires AllDigits(pin)
    ensures |r| == |pin|
  {
    ShufflePermutes(seed, 10);
    seq(|pin|, i requires 0 <= i < |pin| => Decoded(Shuffled(seed), pin[i]))
  }

  lemma ByteToChar(x: bv8, y: bv8)
    requires x < 10 && y < 10
    ensures IsDigit('0' + x as char) && ('0' + x as char == '0' + y as char ==> x == y)
  {
    assert x == (x as int) as bv8 && y == (y as int) as bv8;
  }

  lemma DecodedDigit(t: Table, c: char, d: char)
    requires Permutes(t) && IsDigit(c) && IsDigit(d)
    ensures IsDigit(Decoded(t, c)) && (Decoded(t, c) == Decoded(t, d) ==> c == d)
  {
    ByteToChar(t[DigitOf(c)], t[DigitOf(d)]);
  }

  /** A decrypted pin consists of digits, and under one seed different pins decrypt differently. */
  lemma DecryptionIsInjective(seed: int, a: string, b: string)
    requires AllDigits(a) && AllDigits(b)
    ensures AllDigits(Decrypted(seed, a)) && (Decrypted(seed, a) == Decrypted(seed, b) ==> a == b)
  {
    ShufflePermutes(seed, 10);
    hide Permutes, TableAt, Decoded;
    var t, x, y := Shuffled(seed), Decrypted(seed, a), Decrypted(seed, b);
    forall i | 0 <= i < |a| ensures IsDigit(x[i]) { DecodedDigit(t, a[i], a[i]); }
    if x == y {
      forall i | 0 <= i < |a| ensures a[i] == b[i] {
        assert x[i] == y[i];
        DecodedDigit(t, a[i], b[i]);
      }
    }
  }

  /** A digit typed stands for the entry of the table at its position. */
  lemma DecryptionMeans(seed: int, pin: string, i: nat)
    requires AllDigits(pin) && i < |pin|
    ensures
      var d := pin[i] as int - '0' as int;
      0 <= d < 10 && Decrypted(seed, pin)[i] as int == '0' as int + Shuffled(seed)[d] as int
  {
    hide TableAt, NextSeed;
    ShufflePermutes(seed, 10);
    CharOfDigit(Shuffled(seed)[DigitOf(pin[i])]);
  }

  lemma CharOfDigit(x: bv8)
    requires x < 10
    ensures ('0' + x as char) as int == '0' as int + x as int
  {}

  // ----- in place

  method Shuffle(userSeed: int) returns (tab: array<bv8>)
    ensures fresh(tab) && tab[..] == Shuffled(userSeed)
  {
    hide Swapped;
    tab := new bv8[10](i requires 0 <= i < 10 => DIGITS[i]);
    assert tab[..] == DIGITS;
    var seed, i := userSeed, 1;
    while i < 10
      invariant 1 <= i <= 10 && seed == SeedAt(userSeed, i)
      invariant tab.Length == 10 && tab[..] == TableAt(userSeed, i)
    {
      seed := NextSeed(seed);
      var pos := seed % (i + 1);
      Swap(tab, i, pos);
      i := i + 1;
    }
  }

  /** The exclusive-or exchange, left out for an entry with itself. */
  method Swap(tab: array<bv8>, i: nat, pos: nat)
    requires tab.Length == 10 && i < 10 && pos < 10
    modifies tab
    ensures tab[..] == Swapped(old(tab[..]), i, pos)
  {
    hide Xor;
    ghost var x, y := tab[i], tab[pos];
    if i != pos {
      XorSwap(x, y);
      tab[i] := Xor(tab[i], tab[pos]);
      tab[pos] := Xor(tab[pos], tab[i]);
      tab[i] := Xor(tab[i], tab[pos]);
    }
  }

  /** `char_pincode_decrypt`: the digits are decoded into a buffer, which then replaces the pin.  A
      character that is no digit has no entry in the table; there decryption is taken to end. */
  method Decrypt(userSeed: int, pin: array<char>) returns (ok: bool)
    requires pin.Length == PINCODE_LENGTH
    modifies pin
    ensures ok <==> AllDigits(old(pin[..]))
    ensures pin[..] == if ok then Decrypted(userSeed, old(pin[..])) else old(pin[..])
  {
    hide TableAt, Permutes, Decoded;
    ShufflePermutes(userSeed, 10);
    var tab := Shuffle(userSeed);
    var buf := new char[PINCODE_LENGTH];
    var i := 0;
    while i < PINCODE_LENGTH
      invariant i <= PINCODE_LENGTH && tab[..] == Shuffled(userSeed) && pin[..] == old(pin[..])
      invariant forall k | 0 <= k < i :: IsDigit(pin[k]) && buf[k] == Decoded(Shuffled(userSeed), pin[k])
    {
      if !IsDigit(pin[i]) { return false; }
      DecodesTo(tab[..], pin[i]);
      buf[i] := '0' + tab[DigitOf(pin[i])] as char;
      i := i + 1;
    }
    i := 0;
    while i < PINCODE_LENGTH
      invariant i <= PINCODE_LENGTH && AllDigits(old(pin[..]))
      invariant forall k | 0 <= k < PINCODE_LENGTH :: buf[k] == Decoded(Shuffled(userSeed), old(pin[k]))
      invariant forall k | 0 <= k < i :: pin[k] == buf[k]
    {
      pin[i] := buf[i];
      i := i + 1;
    }
    ok := true;
  }

  lemma DecodesTo(t: Table, c: char)
    requires Permutes(t) && IsDigit(c)
    ensures t[DigitOf(c)] < 10 && Decoded(t, c) == '0' + t[DigitOf(c)] as char
  {}
}
