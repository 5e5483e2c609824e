/** The one-round DES variant that map files are scrambled with: permutations, expansion, S-boxes and
    round, bit by bit in place. */
module Des {

  // ----- the tables, whose entries count bits from 1

  /** Initial permutation, FIPS 46-3. */
  function IpTable(k: nat): nat
  {
    match k
    case 0 => 58 case 1 => 50 case 2 => 42 case 3 => 34 case 4 => 26 case 5 => 18 case 6 => 10 case 7 => 2
    case 8 => 60 case 9 => 52 case 10 => 44 case 11 => 36 case 12 => 28 case 13 => 20 case 14 => 12 case 15 => 4
    case 16 => 62 case 17 => 54 case 18 => 46 case 19 => 38 case 20 => 30 case 21 => 22 case 22 => 14 case 23 => 6
    case 24 => 64 case 25 => 56 case 26 => 48 case 27 => 40 case 28 => 32 case 29 => 24 case 30 => 16 case 31 => 8
    case 32 => 57 case 33 => 49 case 34 => 41 case 35 => 33 case 36 => 25 case 37 => 17 case 38 => 9 case 39 => 1
    case 40 => 59 case 41 => 51 case 42 => 43 case 43 => 35 case 44 => 27 case 45 => 19 case 46 => 11 case 47 => 3
    case 48 => 61 case 49 => 53 case 50 => 45 case 51 => 37 case 52 => 29 case 53 => 21 case 54 => 13 case 55 => 5
    case 56 => 63 case 57 => 55 case 58 => 47 case 59 => 39 case 60 => 31 case 61 => 23 case 62 => 15 case 63 => 7
    case _ => 1
  }

  /** Final permutation, FIPS 46-3. */
  function FpTable(k: nat): nat
  {
    match k
    case 0 => 40 case 1 => 8 case 2 => 48 case 3 => 16 case 4 => 56 case 5 => 24 case 6 => 64 case 7 => 32
    case 8 => 39 case 9 => 7 case 10 => 47 case 11 => 15 case 12 => 55 case 13 => 23 case 14 => 63 case 15 => 31
    case 16 => 38 case 17 => 6 case 18 => 46 case 19 => 14 case 20 => 54 case 21 => 22 case 22 => 62 case 23 => 30
    case 24 => 37 case 25 => 5 case 26 => 45 case 27 => 13 case 28 => 53 case 29 => 21 case 30 => 61 case 31 => 29
    case 32 => 36 case 33 => 4 case 34 => 44 case 35 => 12 case 36 => 52 case 37 => 20 case 38 => 60 case 39 => 28
    case 40 => 35 case 41 => 3 case 42 => 43 case 43 => 11 case 44 => 51 case 45 => 19 case 46 => 59 case 47 => 27
    case 48 => 34 case 49 => 2 case 50 => 42 case 51 => 10 case 52 => 50 case 53 => 18 case 54 => 58 case 55 => 26
    case 56 => 33 case 57 => 1 case 58 => 41 case 59 => 9 case 60 => 49 case 61 => 17 case 62 => 57 case 63 => 25
    case _ => 1
  }

  /** Transposition P, FIPS 46-3. */
  function TpTable(k: nat): nat
  {
    match k
    case 0 => 16 case 1 => 7 case 2 => 20 case 3 => 21 case 4 => 29 case 5 => 12 case 6 => 28 case 7 => 17
    case 8 => 1 case 9 => 15 case 10 => 23 case 11 => 26 case 12 => 5 case 13 => 18 case 14 => 31 case 15 => 10
    case 16 => 2 case 17 => 8 case 18 => 24 case 19 => 14 case 20 => 32 case 21 => 27 case 22 => 3 case 23 => 9
    case 24 => 19 case 25 => 13 case 26 => 30 case 27 => 6 case 28 => 22 case 29 => 11 case 30 => 4 case 31 => 25
    case _ => 1
  }

  /** Bit selection E, FIPS 46-3. */
  function ExpandTable(k: nat): nat
  {
    match k
    case 0 => 32 case 1 => 1 case 2 => 2 case 3 => 3 case 4 => 4 case 5 => 5 case 6 => 4 case 7 => 5
    case 8 => 6 case 9 => 7 case 10 => 8 case 11 => 9 case 12 => 8 case 13 => 9 case 14 => 10 case 15 => 11
    case 16 => 12 case 17 => 13 case 18 => 12 case 19 => 13 case 20 => 14 case 21 => 15 case 22 => 16 case 23 => 17
    case 24 => 16 case 25 => 17 case 26 => 18 case 27 => 19 case 28 => 20 case 29 => 21 case 30 => 20 case 31 => 21
    case 32 => 22 case 33 => 23 case 34 => 24 case 35 => 25 case 36 => 24 case 37 => 25 case 38 => 26 case 39 => 27
    case 40 => 28 case 41 => 29 case 42 => 28 case 43 => 29 case 44 => 30 case 45 => 31 case 46 => 32 case 47 => 1
    case _ => 1
  }

  type byte = n: int | 0 <= n < 256

  /** Two S-boxes share each table, one in the upper and one in the lower half of the bytes. */
  function SboxTable(i: nat, x: nat): byte {
    match i case 0 => Sbox0(x) case 1 => Sbox1(x) case 2 => Sbox2(x) case _ => Sbox3(x)
  }

  function Sbox0(x: nat): byte
  {
    match x
    case 0 => 0xef case 1 => 0x03 case 2 => 0x41 case 3 => 0xfd case 4 => 0xd8 case 5 => 0x74 case 6 => 0x1e case 7 => 0x47
    case 8 => 0x26 case 9 => 0xef case 10 => 0xfb case 11 => 0x22 case 12 => 0xb3 case 13 => 0xd8 case 14 => 0x84 case 15 => 0x1e
    case 16 => 0x39 case 17 => 0xac case 18 => 0xa7 case 19 => 0x60 case 20 => 0x62 case 21 => 0xc1 case 22 => 0xcd case 23 => 0xba
    case 24 => 0x5c case 25 => 0x96 case 26 => 0x90 case 27 => 0x59 case 28 => 0x05 case 29 => 0x3b case 30 => 0x7a case 31 => 0x85
    case 32 => 0x40 case 33 => 0xfd case 34 => 0x1e case 35 => 0xc8 case 36 => 0xe7 case 37 => 0x8a case 38 => 0x8b case 39 => 0x21
    case 40 => 0xda case 41 => 0x43 case 42 => 0x64 case 43 => 0x9f case 44 => 0x2d case 45 => 0x14 case 46 => 0xb1 case 47 => 0x72
    case 48 => 0xf5 case 49 => 0x5b case 50 => 0xc8 case 51 => 0xb6 case 52 => 0x9c case 53 => 0x37 case 54 => 0x76 case 55 => 0xec
    case 56 => 0x39 case 57 => 0xa0 case 58 => 0xa3 case 59 => 0x05 case 60 => 0x52 case 61 => 0x6e case 62 => 0x0f case 63 => 0xd9
    case _ => 0
  }

  function Sbox1(x: nat): byte
  {
    match x
    case 0 => 0xa7 case 1 => 0xdd case 2 => 0x0d case 3 => 0x78 case 4 => 0x9e case 5 => 0x0b case 6 => 0xe3 case 7 => 0x95
    case 8 => 0x60 case 9 => 0x36 case 10 => 0x36 case 11 => 0x4f case 12 => 0xf9 case 13 => 0x60 case 14 => 0x5a case 15 => 0xa3
    case 16 => 0x11 case 17 => 0x24 case 18 => 0xd2 case 19 => 0x87 case 20 => 0xc8 case 21 => 0x52 case 22 => 0x75 case 23 => 0xec
    case 24 => 0xbb case 25 => 0xc1 case 26 => 0x4c case 27 => 0xba case 28 => 0x24 case 29 => 0xfe case 30 => 0x8f case 31 => 0x19
    case 32 => 0xda case 33 => 0x13 case 34 => 0x66 case 35 => 0xaf case 36 => 0x49 case 37 => 0xd0 case 38 => 0x90 case 39 => 0x06
    case 40 => 0x8c case 41 => 0x6a case 42 => 0xfb case 43 => 0x91 case 44 => 0x37 case 45 => 0x8d case 46 => 0x0d case 47 => 0x78
    case 48 => 0xbf case 49 => 0x49 case 50 => 0x11 case 51 => 0xf4 case 52 => 0x23 case 53 => 0xe5 case 54 => 0xce case 55 => 0x3b
    case 56 => 0x55 case 57 => 0xbc case 58 => 0xa2 case 59 => 0x57 case 60 => 0xe8 case 61 => 0x22 case 62 => 0x74 case 63 => 0xce
    case _ => 0
  }

  function Sbox2(x: nat): byte
  {
    match x
    case 0 => 0x2c case 1 => 0xea case 2 => 0xc1 case 3 => 0xbf case 4 => 0x4a case 5 => 0x24 case 6 => 0x1f case 7 => 0xc2
    case 8 => 0x79 case 9 => 0x47 case 10 => 0xa2 case 11 => 0x7c case 12 => 0xb6 case 13 => 0xd9 case 14 => 0x68 case 15 => 0x15
    case 16 => 0x80 case 17 => 0x56 case 18 => 0x5d case 19 => 0x01 case 20 => 0x33 case 21 => 0xfd case 22 => 0xf4 case 23 => 0xae
    case 24 => 0xde case 25 => 0x30 case 26 => 0x07 case 27 => 0x9b case 28 => 0xe5 case 29 => 0x83 case 30 => 0x9b case 31 => 0x68
    case 32 => 0x49 case 33 => 0xb4 case 34 => 0x2e case 35 => 0x83 case 36 => 0x1f case 37 => 0xc2 case 38 => 0xb5 case 39 => 0x7c
    case 40 => 0xa2 case 41 => 0x19 case 42 => 0xd8 case 43 => 0xe5 case 44 => 0x7c case 45 => 0x2f case 46 => 0x83 case 47 => 0xda
    case 48 => 0xf7 case 49 => 0x6b case 50 => 0x90 case 51 => 0xfe case 52 => 0xc4 case 53 => 0x01 case 54 => 0x5a case 55 => 0x97
    case 56 => 0x61 case 57 => 0xa6 case 58 => 0x3d case 59 => 0x40 case 60 => 0x0b case 61 => 0x58 case 62 => 0xe6 case 63 => 0x3d
    case _ => 0
  }

  function Sbox3(x: nat): byte
  {
    match x
    case 0 => 0x4d case 1 => 0xd1 case 2 => 0xb2 case 3 => 0x0f case 4 => 0x28 case 5 => 0xbd case 6 => 0xe4 case 7 => 0x78
    case 8 => 0xf6 case 9 => 0x4a case 10 => 0x0f case 11 => 0x93 case 12 => 0x8b case 13 => 0x17 case 14 => 0xd1 case 15 => 0xa4
    case 16 => 0x3a case 17 => 0xec case 18 => 0xc9 case 19 => 0x35 case 20 => 0x93 case 21 => 0x56 case 22 => 0x7e case 23 => 0xcb
    case 24 => 0x55 case 25 => 0x20 case 26 => 0xa0 case 27 => 0xfe case 28 => 0x6c case 29 => 0x89 case 30 => 0x17 case 31 => 0x62
    case 32 => 0x17 case 33 => 0x62 case 34 => 0x4b case 35 => 0xb1 case 36 => 0xb4 case 37 => 0xde case 38 => 0xd1 case 39 => 0x87
    case 40 => 0xc9 case 41 => 0x14 case 42 => 0x3c case 43 => 0x4a case 44 => 0x7e case 45 => 0xa8 case 46 => 0xe2 case 47 => 0x7d
    case 48 => 0xa0 case 49 => 0x9f case 50 => 0xf6 case 51 => 0x5c case 52 => 0x6a case 53 => 0x09 case 54 => 0x8d case 55 => 0xf0
    case 56 => 0x0f case 57 => 0xe3 case 58 => 0x53 case 59 => 0x25 case 60 => 0x95 case 61 => 0x36 case 62 => 0x28 case 63 => 0xcb
    case _ => 0
  }

  // ----- bits

  type Block = b: seq<bv8> | |b| == 8 witness [0, 0, 0, 0, 0, 0, 0, 0]

  /** Bit 0 is the highest. */
  function Mask(k: nat): bv8 {
    match k
    case 0 => 0x80 case 1 => 0x40 case 2 => 0x20 case 3 => 0x10
    case 4 => 0x08 case 5 => 0x04 case 6 => 0x02 case _ => 0x01
  }

  function Number(x: bv8): nat { x as int }

  predicate BitOf(x: bv8, k: nat) { x & Mask(k) != 0 }

  predicate Bit(b: Block, k: nat)
    requires k < 64
  {
    BitOf(b[k / 8], k % 8)
  }

  function WithBit(x: bv8, k: nat): bv8 { x | Mask(k) }

  lemma SetBit(x: bv8, k: nat, m: nat)
    requires k < 8 && m < 8
    ensures BitOf(WithBit(x, k), m) <==> k == m || BitOf(x, m)
  {}

  lemma NoBits(m: nat)
    ensures !BitOf(0, m)
  {}

  /** A byte is its bits. */
  lemma SameByte(x: bv8, y: bv8)
    requires forall m | 0 <= m < 8 :: BitOf(x, m) == BitOf(y, m)
    ensures x == y
  {
    assert BitOf(x, 0) == BitOf(y, 0) && BitOf(x, 1) == BitOf(y, 1) && BitOf(x, 2) == BitOf(y, 2) && BitOf(x, 3) == BitOf(y, 3);
    assert BitOf(x, 4) == BitOf(y, 4) && BitOf(x, 5) == BitOf(y, 5) && BitOf(x, 6) == BitOf(y, 6) && BitOf(x, 7) == BitOf(y, 7);
  }

  lemma SameBlock(a: Block, b: Block)
    requires forall k | 0 <= k < 64 :: Bit(a, k) == Bit(b, k)
    ensures a == b
  {
    hide BitOf;
    forall i | 0 <= i < 8 ensures a[i] == b[i] {
      forall m | 0 <= m < 8 ensures BitOf(a[i], m) == BitOf(b[i], m) {
        assert Bit(a, 8 * i + m) == Bit(b, 8 * i + m);
      }
      SameByte(a[i], b[i]);
    }
  }

  // ----- permutations

  datatype Table = Ip | Fp | Tp

  /** Which bit of its source bit `k` of a rearranged block comes from; transposition fills only the
      second half, from the first. */
  function Source(t: Table, k: nat): (r: nat)
    requires k < 64
  {
    match t
    case Ip => IpTable(k) - 1
    case Fp => FpTable(k) - 1
    case Tp => if k < 32 then 64 else TpTable(k - 32) - 1
  }

  lemma IpShape(r: nat, c: nat)
    requires r < 8 && c < 8
    ensures IpTable(8 * r + c) == (if r < 4 then 58 + 2 * r else 49 + 2 * r) - 8 * c
  {
    match r
    case 0 => case 1 => case 2 => case 3 => case 4 => case 5 => case 6 => case 7 =>
  }

  lemma FpShape(r: nat, c: nat)
    requires r < 8 && c < 8
    ensures FpTable(8 * r + c) == (if c % 2 == 0 then 40 + 4 * c else 4 + 4 * c) - r
  {
    match r
    case 0 => case 1 => case 2 => case 3 => case 4 => case 5 => case 6 => case 7 =>
  }

  lemma IpThenFp(k: nat)
    requires k < 64
    ensures FpTable(k) - 1 < 64 && IpTable(FpTable(k) - 1) - 1 == k
  {
    hide IpTable, FpTable;
    var r, c := k / 8, k % 8;
    FpShape(r, c);
    IpShape(if c % 2 == 0 then 4 + c / 2 else c / 2, 7 - r);
  }

  lemma FpThenIp(k: nat)
    requires k < 64
    ensures IpTable(k) - 1 < 64 && FpTable(IpTable(k) - 1) - 1 == k
  {
    hide IpTable, FpTable;
    var r, c := k / 8, k % 8;
    IpShape(r, c);
    FpShape(7 - c, if r < 4 then 2 * r + 1 else 2 * (r - 4));
  }

  function Byte(b0: bool, b1: bool, b2: bool, b3: bool, b4: bool, b5: bool, b6: bool, b7: bool): bv8 {
    (if b0 then 0x80 else 0) | (if b1 then 0x40 else 0) | (if b2 then 0x20 else 0) | (if b3 then 0x10 else 0)
    | (if b4 then 0x08 else 0) | (if b5 then 0x04 else 0) | (if b6 then 0x02 else 0) | (if b7 then 0x01 else 0)
  }

  lemma ByteBits(b0: bool, b1: bool, b2: bool, b3: bool, b4: bool, b5: bool, b6: bool, b7: bool)
    ensures
      var x := Byte(b0, b1, b2, b3, b4, b5, b6, b7);
      && BitOf(x, 0) == b0 && BitOf(x, 1) == b1 && BitOf(x, 2) == b2 && BitOf(x, 3) == b3
      && BitOf(x, 4) == b4 && BitOf(x, 5) == b5 && BitOf(x, 6) == b6 && BitOf(x, 7) == b7
  {}

  predicate BitFrom(b: Block, t: Table, k: nat)
    requires k < 64
  {
    Source(t, k) < 64 && Bit(b, Source(t, k))
  }

  function ByteFrom(b: Block, t: Table, i: nat): bv8
    requires i < 8
  {
    Byte(BitFrom(b, t, 8 * i), BitFrom(b, t, 8 * i + 1), BitFrom(b, t, 8 * i + 2), BitFrom(b, t, 8 * i + 3),
         BitFrom(b, t, 8 * i + 4), BitFrom(b, t, 8 * i + 5), BitFrom(b, t, 8 * i + 6), BitFrom(b, t, 8 * i + 7))
  }

  /** A block whose bits come from another, as a table says. */
  function Rearranged(b: Block, t: Table): Block {
    seq(8, i requires 0 <= i < 8 => ByteFrom(b, t, i))
  }

  lemma RearrangedBit(b: Block, t: Table, k: nat)
    requires k < 64
    ensures Bit(Rearranged(b, t), k) == BitFrom(b, t, k)
  {
    hide BitFrom, BitOf, Byte, ByteFrom;
    ByteFromBit(b, t, k / 8, k % 8);
    assert Rearranged(b, t)[k / 8] == ByteFrom(b, t, k / 8);
  }

  lemma ByteFromBit(b: Block, t: Table, i: nat, m: nat)
    requires i < 8 && m < 8
    ensures BitOf(ByteFrom(b, t, i), m) == BitFrom(b, t, 8 * i + m)
  {
    hide BitFrom, BitOf, Byte;
    ByteBits(BitFrom(b, t, 8 * i), BitFrom(b, t, 8 * i + 1), BitFrom(b, t, 8 * i + 2), BitFrom(b, t, 8 * i + 3),
             BitFrom(b, t, 8 * i + 4), BitFrom(b, t, 8 * i + 5), BitFrom(b, t, 8 * i + 6), BitFrom(b, t, 8 * i + 7));
  }

  /** Initial and final permutation undo each other, both ways. */
  lemma PermutationsInvert(b: Block)
    ensures Rearranged(Rearranged(b, Ip), Fp) == b && Rearranged(Rearranged(b, Fp), Ip) == b
  {
    hide Rearranged, Bit, Source;
    forall k | 0 <= k < 64
      ensures Bit(Rearranged(Rearranged(b, Ip), Fp), k) == Bit(b, k)
      ensures Bit(Rearranged(Rearranged(b, Fp), Ip), k) == Bit(b, k)
    {
      SourcesInvert(k);
      RearrangedBit(Rearranged(b, Ip), Fp, k);
      RearrangedBit(b, Ip, Source(Fp, k));
      RearrangedBit(Rearranged(b, Fp), Ip, k);
      RearrangedBit(b, Fp, Source(Ip, k));
    }
    SameBlock(Rearranged(Rearranged(b, Ip), Fp), b);
    SameBlock(Rearranged(Rearranged(b, Fp), Ip), b);
  }

  lemma SourcesInvert(k: nat)
    requires k < 64
    ensures Source(Fp, k) < 64 && Source(Ip, Source(Fp, k)) == k
    ensures Source(Ip, k) < 64 && Source(Fp, Source(Ip, k)) == k
  {
    hide IpTable, FpTable;
    IpThenFp(k);
    FpThenIp(k);
  }

  // ----- expansion and substitution

  /** Six bits across two bytes: one of the first and five of the second, or five and one. */
  function ShiftedEven(x: bv8, y: bv8): bv8 { ((x << 5) | (y >> 3)) & 0x3f }
  function ShiftedOdd(x: bv8, y: bv8): bv8 { ((x << 1) | (y >> 7)) & 0x3f }

  /** The optimized expansion: eight times six bits, in the lower end of each byte. */
  function Expanded(b: Block): Block {
    [ShiftedEven(b[7], b[4]), ShiftedOdd(b[4], b[5]), ShiftedEven(b[4], b[5]), ShiftedOdd(b[5], b[6]),
     ShiftedEven(b[5], b[6]), ShiftedOdd(b[6], b[7]), ShiftedEven(b[6], b[7]), ShiftedOdd(b[7], b[4])]
  }

  predicate Selected(b: Block, i: nat)
    requires i < 48
  {
    Bit(b, 32 + ExpandTable(i) - 1)
  }

  /** The table-driven expansion that the optimized one replaces: six bits in the upper end of each byte. */
  function TableExpanded(b: Block, i: nat): bv8
    requires i < 8
  {
    Byte(Selected(b, 6 * i), Selected(b, 6 * i + 1), Selected(b, 6 * i + 2), Selected(b, 6 * i + 3),
         Selected(b, 6 * i + 4), Selected(b, 6 * i + 5), false, false)
  }

  lemma EvenSix(x: bv8, y: bv8)
    ensures ShiftedEven(x, y) ==
            Byte(BitOf(x, 7), BitOf(y, 0), BitOf(y, 1), BitOf(y, 2), BitOf(y, 3), BitOf(y, 4), false, false) >> 2
  {}

  lemma OddSix(x: bv8, y: bv8)
    ensures ShiftedOdd(x, y) ==
            Byte(BitOf(x, 3), BitOf(x, 4), BitOf(x, 5), BitOf(x, 6), BitOf(x, 7), BitOf(y, 0), false, false) >> 2
  {}

  lemma ExpandShape(i: nat, j: nat)
    requires i < 8 && j < 6
    ensures ExpandTable(6 * i + j) - 1 == (4 * i + j + 31) % 32
  {
    match i
    case 0 => case 1 => case 2 => case 3 => case 4 => case 5 => case 6 => case 7 =>
  }

  lemma SelectedIs(b: Block, i: nat, j: nat)
    requires i < 8 && j < 6
    ensures Selected(b, 6 * i + j) == BitOf(b[4 + (4 * i + j + 31) % 32 / 8], (4 * i + j + 31) % 8)
  {
    hide ExpandTable, BitOf;
    ExpandShape(i, j);
  }

  lemma EvenSelected(b: Block, h: nat, j: nat)
    requires h < 4 && j < 6
    ensures Selected(b, 12 * h + j) == if j == 0 then BitOf(b[4 + (h + 3) % 4], 7) else BitOf(b[4 + h], j - 1)
  {
    hide Selected, BitOf;
    SelectedIs(b, 2 * h, j);
    match h
    case 0 => case 1 => case 2 => case 3 =>
  }

  lemma OddSelected(b: Block, h: nat, j: nat)
    requires h < 4 && j < 6
    ensures Selected(b, 12 * h + 6 + j) == if j == 5 then BitOf(b[4 + (h + 1) % 4], 0) else BitOf(b[4 + h], 3 + j)
  {
    hide Selected, BitOf;
    SelectedIs(b, 2 * h + 1, j);
    match h
    case 0 => case 1 => case 2 => case 3 =>
  }

  lemma EvenTable(b: Block, h: nat)
    requires h < 4
    ensures
      var x, y := b[4 + (h + 3) % 4], b[4 + h];
      TableExpanded(b, 2 * h) ==
      Byte(BitOf(x, 7), BitOf(y, 0), BitOf(y, 1), BitOf(y, 2), BitOf(y, 3), BitOf(y, 4), false, false)
  {
    hide BitOf, Byte, Selected;
    EvenSelected(b, h, 0);
    EvenSelected(b, h, 1);
    EvenSelected(b, h, 2);
    EvenSelected(b, h, 3);
    EvenSelected(b, h, 4);
    EvenSelected(b, h, 5);
  }

  lemma OddTable(b: Block, h: nat)
    requires h < 4
    ensures
      var x, y := b[4 + h], b[4 + (h + 1) % 4];
      TableExpanded(b, 2 * h + 1) ==
      Byte(BitOf(x, 3), BitOf(x, 4), BitOf(x, 5), BitOf(x, 6), BitOf(x, 7), BitOf(y, 0), false, false)
  {
    hide BitOf, Byte, Selected;
    OddSelected(b, h, 0);
    OddSelected(b, h, 1);
    OddSelected(b, h, 2);
    OddSelected(b, h, 3);
    OddSelected(b, h, 4);
    OddSelected(b, h, 5);
  }

  /** The optimization is right up to a shift by two. */
  lemma ExpansionsAgree(b: Block, h: nat)
    requires h < 4
    ensures Expanded(b)[2 * h] == TableExpanded(b, 2 * h) >> 2
    ensures Expanded(b)[2 * h + 1] == TableExpanded(b, 2 * h + 1) >> 2
  {
    hide BitOf, Byte, Expanded, TableExpanded, ShiftedEven, ShiftedOdd;
    ExpandedBytes(b, h);
    EvenTable(b, h);
    OddTable(b, h);
    EvenSix(b[4 + (h + 3) % 4], b[4 + h]);
    OddSix(b[4 + h], b[4 + (h + 1) % 4]);
  }

  lemma ExpandedBytes(b: Block, h: nat)
    requires h < 4
    ensures Expanded(b)[2 * h] == ShiftedEven(b[4 + (h + 3) % 4], b[4 + h])
    ensures Expanded(b)[2 * h + 1] == ShiftedOdd(b[4 + h], b[4 + (h + 1) % 4])
  {
    hide ShiftedEven, ShiftedOdd;
    match h
    case 0 => case 1 => case 2 => case 3 =>
  }

  lemma SmallBytes(x: bv8, y: bv8)
    ensures Number(ShiftedEven(x, y)) < 64 && Number(ShiftedOdd(x, y)) < 64
  {
    SmallByte((x << 5) | (y >> 3));
    SmallByte((x << 1) | (y >> 7));
  }

  lemma SmallByte(x: bv8)
    ensures Number(x & 0x3f) < 64
  {}

  predicate SixBitBytes(b: Block) { forall i | 0 <= i < 8 :: Number(b[i]) < 64 }

  lemma ExpandedFits(b: Block)
    ensures SixBitBytes(Expanded(b))
  {
    hide Expanded, ShiftedEven, ShiftedOdd;
    forall i | 0 <= i < 8 ensures Number(Expanded(b)[i]) < 64 {
      var h := i / 2;
      ExpandedBytes(b, h);
      SmallBytes(b[4 + (h + 3) % 4], b[4 + h]);
      SmallBytes(b[4 + h], b[4 + (h + 1) % 4]);
      assert i == 2 * h || i == 2 * h + 1;
    }
  }

  function Mixed(p: bv8, q: bv8): bv8 { (p & 0xf0) | (q & 0x0f) }

  /** One table serves two S-boxes: the upper half of one entry, the lower half of another. */
  function TwoNibbles(i: nat, x: bv8, y: bv8): bv8
    requires i < 4 && Number(x) < 64 && Number(y) < 64
  {
    Mixed(SboxTable(i, Number(x)) as bv8, SboxTable(i, Number(y)) as bv8)
  }

  /** Eight six-bit inputs, two to a table, give four bytes. */
  function Substituted(b: Block): Block
    requires SixBitBytes(b)
  {
    seq(8, i requires 0 <= i < 8 =>
      if i < 4 then TwoNibbles(i, b[2 * i], b[2 * i + 1]) else 0)
  }

  // ----- one round

  /** What the round adds to the first half; it depends on the second half only. */
  function Scramble(b: Block): Block {
    ExpandedFits(b);
    Rearranged(Substituted(Expanded(b)), Tp)
  }

  function Xor(x: bv8, y: bv8): bv8 { x ^ y }

  function Round(b: Block): Block {
    seq(8, i requires 0 <= i < 8 => if i < 4 then Xor(b[i], Scramble(b)[i + 4]) else b[i])
  }

  function Decrypted(b: Block): Block {
    Rearranged(Round(Rearranged(b, Ip)), Fp)
  }

  lemma ScrambleReadsSecondHalf(a: Block, b: Block)
    requires forall i | 4 <= i < 8 :: a[i] == b[i]
    ensures Scramble(a) == Scramble(b)
  {
    hide Expanded, Rearranged, Substituted;
    SameExpansion(a, b);
  }

  lemma SameExpansion(a: Block, b: Block)
    requires forall i | 4 <= i < 8 :: a[i] == b[i]
    ensures Expanded(a) == Expanded(b)
  {
    hide Expanded;
    forall i | 0 <= i < 8 ensures Expanded(a)[i] == Expanded(b)[i] {
      ExpandedBytes(a, i / 2);
      ExpandedBytes(b, i / 2);
      assert i == 2 * (i / 2) || i == 2 * (i / 2) + 1;
    }
  }

  lemma XorTwice(x: bv8, y: bv8)
    ensures Xor(Xor(x, y), y) == x
  {}

  lemma RoundInvolution(b: Block)
    ensures Round(Round(b)) == b
  {
    hide Scramble, Xor;
    ScrambleReadsSecondHalf(Round(b), b);
    forall i | 0 <= i < 8 ensures Round(Round(b))[i] == b[i] {
      XorTwice(b[i], if i < 4 then Scramble(b)[i + 4] else 0);
    }
  }

  /** Decrypting a block twice gives it back. */
  lemma BlockInvolution(b: Block)
    ensures Decrypted(Decrypted(b)) == b
  {
    hide Rearranged, Round;
    var p := Rearranged(b, Ip);
    PermutationsInvert(Round(p));
    RoundInvolution(p);
    PermutationsInvert(b);
  }

  /** `n` times over, which is none or once by parity. */
  function Repeated(b: Block, n: nat): Block {
    if n == 0 then b else Decrypted(Repeated(b, n - 1))
  }

  lemma {:induction false} OnlyParityCounts(b: Block, n: nat)
    ensures Repeated(b, n) == if n % 2 == 1 then Decrypted(b) else b
  {
    hide Decrypted;
    if n > 0 {
      OnlyParityCounts(b, n - 1);
      BlockInvolution(b);
    }
  }

  // ----- in place, on the first eight bytes of a buffer

  /** `IP`, `FP` and `TP`, which differ in their tables. */
  method Rearrange(src: array<bv8>, t: Table)
    requires src.Length >= 8
    modifies src
    ensures src[..8] == Rearranged(old(src[..8]), t) && src[8..] == old(src[8..])
  {
    hide Rearranged, Bit, BitOf, Source, Mask, WithBit;
    var tmp := new bv8[8](_ => 0);
    ghost var before: Block := src[..8];
    var i := if t == Tp then 32 else 0;
    EmptyBlock(tmp[..]);
    TpLeavesFirstHalf();
    while i < 64
      invariant 0 <= i <= 64 && src[..] == old(src[..])
      invariant FilledTo(tmp[..], before, t, i)
    {
      var j := Source(t, i);
      ghost var was: Block := tmp[..];
      FillOne(was, before, t, i);
      BitIs(before, j);
      if j < 64 && BitOf(src[j / 8], j % 8) {
        tmp[i / 8] := WithBit(tmp[i / 8], i % 8);
        assert tmp[..] == was[i / 8 := WithBit(was[i / 8], i % 8)];
      }
      i := i + 1;
    }
    ghost var after: Block := tmp[..];
    forall k | 0 <= k < 64 ensures Bit(after, k) == Bit(Rearranged(before, t), k) { RearrangedBit(before, t, k); }
    SameBlock(tmp[..], Rearranged(before, t));
    forall k | 0 <= k < 8 { src[k] := tmp[k]; }
  }

  /** The first `i` bits are in place, the others still clear. */
  predicate FilledTo(b: Block, before: Block, t: Table, i: nat) {
    forall k | 0 <= k < 64 :: Bit(b, k) == (k < i && BitFrom(before, t, k))
  }

  lemma FillOne(b: Block, before: Block, t: Table, i: nat)
    requires i < 64 && FilledTo(b, before, t, i)
    ensures FilledTo(if BitFrom(before, t, i) then b[i / 8 := WithBit(b[i / 8], i % 8)] else b, before, t, i + 1)
  {
    hide Bit, WithBit, BitFrom;
    SetsBit(b, i);
  }

  lemma EmptyBlock(b: Block)
    requires forall i | 0 <= i < 8 :: b[i] == 0
    ensures forall k | 0 <= k < 64 :: !Bit(b, k)
  {
    hide BitOf;
    forall k | 0 <= k < 64 ensures !Bit(b, k) { NoBits(k % 8); }
  }

  lemma TpLeavesFirstHalf()
    ensures forall k: nat | k < 32 :: Source(Tp, k) == 64
  {}

  lemma BitIs(b: Block, j: nat)
    ensures j < 64 ==> (Bit(b, j) <==> BitOf(b[j / 8], j % 8))
  {}

  lemma SetsBit(b: Block, i: nat)
    requires i < 64
    ensures forall k | 0 <= k < 64 :: Bit(b[i / 8 := WithBit(b[i / 8], i % 8)], k) <==> k == i || Bit(b, k)
  {
    hide BitOf, WithBit;
    var b' := b[i / 8 := WithBit(b[i / 8], i % 8)];
    forall k | 0 <= k < 64 ensures Bit(b', k) <==> k == i || Bit(b, k) {
      SetBit(b[i / 8], i % 8, k % 8);
    }
  }

  /** `E`. */
  method Expand(src: array<bv8>)
    requires src.Length >= 8
    modifies src
    ensures src[..8] == Expanded(old(src[..8])) && src[8..] == old(src[8..])
  {
    hide ShiftedEven, ShiftedOdd;
    var low, high := (src[4], src[5]), (src[6], src[7]);
    var tmp: Block := [
      ShiftedEven(high.1, low.0), ShiftedOdd(low.0, low.1), ShiftedEven(low.0, low.1), ShiftedOdd(low.1, high.0),
      ShiftedEven(low.1, high.0), ShiftedOdd(high.0, high.1), ShiftedEven(high.0, high.1), ShiftedOdd(high.1, low.0)];
    assert tmp == Expanded(src[..8]);
    hide Expanded;
    forall k | 0 <= k < 8 { src[k] := tmp[k]; }
  }

  /** `SBOX`. */
  method Substitute(src: array<bv8>)
    requires src.Length >= 8 && SixBitBytes(src[..8])
    modifies src
    ensures src[..8] == Substituted(old(src[..8])) && src[8..] == old(src[8..])
  {
    hide TwoNibbles;
    var tmp := new bv8[8](_ => 0);
    ghost var before: Block := src[..8];
    var i := 0;
    while i < 4
      invariant i <= 4 && src[..] == old(src[..])
      invariant forall k | 0 <= k < i :: tmp[k] == Substituted(before)[k]
      invariant forall k | i <= k < 8 :: tmp[k] == 0
    {
      tmp[i] := TwoNibbles(i, src[2 * i], src[2 * i + 1]);
      i := i + 1;
    }
    forall k | 0 <= k < 8 { src[k] := tmp[k]; }
  }

  /** The copy of the block that the round scrambles. */
  method ScrambledCopy(src: array<bv8>) returns (tmp: array<bv8>)
    requires src.Length >= 8
    ensures fresh(tmp) && tmp.Length == 8 && tmp[..8] == Scramble(src[..8])
  {
    hide Expanded, Substituted, Rearranged, SixBitBytes;
    tmp := new bv8[8](i requires 0 <= i < 8 reads src => src[i]);
    assert tmp[..8] == src[..8];
    ExpandedFits(src[..8]);
    Expand(tmp);
    Substitute(tmp);
    Rearrange(tmp, Tp);
  }

  /** `RoundFunction`. */
  method RoundFunction(src: array<bv8>)
    requires src.Length >= 8
    modifies src
    ensures src[..8] == Round(old(src[..8])) && src[8..] == old(src[8..])
  {
    hide Xor, Scramble;
    var tmp := ScrambledCopy(src);
    ghost var f: Block := tmp[..8];
    assert forall k | 0 <= k < 8 :: tmp[k] == f[k];
    src[0] := Xor(src[0], tmp[4]);
    src[1] := Xor(src[1], tmp[5]);
    src[2] := Xor(src[2], tmp[6]);
    src[3] := Xor(src[3], tmp[7]);
  }

  /** `des_decrypt_block`. */
  method DecryptBlock(block: array<bv8>)
    requires block.Length >= 8
    modifies block
    ensures block[..8] == Decrypted(old(block[..8])) && block[8..] == old(block[8..])
  {
    hide Rearranged, Round;
    Rearrange(block, Ip);
    RoundFunction(block);
    Rearrange(block, Fp);
  }

  /** `des_decrypt`, as written: the block it works on never moves, and the index advances by eight at a
      time, so the first block is decrypted or not by the parity of the number of turns. */
  method Decrypt(data: array<bv8>, size: nat)
    requires size <= data.Length && (size > 0 ==> data.Length >= 8)
    modifies data
    ensures data.Length >= 8 ==>
              && data[..8] == (if (size + 63) / 64 % 2 == 1 then Decrypted(old(data[..8])) else old(data[..8]))
              && data[8..] == old(data[8..])
    ensures size == 0 ==> data[..] == old(data[..])
  {
    hide Decrypted;
    if size == 0 { return; }
    ghost var before: Block := data[..8];
    ghost var turns: nat := 0;
    var i := 0;
    while i * 8 < size
      invariant i == 8 * turns && turns <= (size + 63) / 64
      invariant data[..8] == Repeated(before, turns) && data[8..] == old(data[8..])
      decreases size - i * 8
    {
      DecryptBlock(data);
      i := i + 8;
      turns := turns + 1;
    }
    OnlyParityCounts(before, turns);
  }
}
