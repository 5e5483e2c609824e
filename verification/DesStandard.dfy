/** The tables of the block cipher held against FIPS 46-3: the eight S-boxes by row and column, the
    transposition by where it sends each bit, and one block worked through. */
module DesStandard {
  import opened Des

  // ----- the S-boxes

  type nibble = n: int | 0 <= n < 16

  /** S1 of FIPS 46-3, row by row. */
  function S1(k: nat): nibble
  {
    match k
    case 0 => 14 case 1 => 4 case 2 => 13 case 3 => 1 case 4 => 2 case 5 => 15 case 6 => 11 case 7 => 8
    case 8 => 3 case 9 => 10 case 10 => 6 case 11 => 12 case 12 => 5 case 13 => 9 case 14 => 0 case 15 => 7
    case 16 => 0 case 17 => 15 case 18 => 7 case 19 => 4 case 20 => 14 case 21 => 2 case 22 => 13 case 23 => 1
    case 24 => 10 case 25 => 6 case 26 => 12 case 27 => 11 case 28 => 9 case 29 => 5 case 30 => 3 case 31 => 8
    case 32 => 4 case 33 => 1 case 34 => 14 case 35 => 8 case 36 => 13 case 37 => 6 case 38 => 2 case 39 => 11
    case 40 => 15 case 41 => 12 case 42 => 9 case 43 => 7 case 44 => 3 case 45 => 10 case 46 => 5 case 47 => 0
    case 48 => 15 case 49 => 12 case 50 => 8 case 51 => 2 case 52 => 4 case 53 => 9 case 54 => 1 case 55 => 7
    case 56 => 5 case 57 => 11 case 58 => 3 case 59 => 14 case 60 => 10 case 61 => 0 case 62 => 6 case 63 => 13
    case _ => 0
  }

  /** S2 of FIPS 46-3, row by row. */
  function S2(k: nat): nibble
  {
    match k
    case 0 => 15 case 1 => 1 case 2 => 8 case 3 => 14 case 4 => 6 case 5 => 11 case 6 => 3 case 7 => 4
    case 8 => 9 case 9 => 7 case 10 => 2 case 11 => 13 case 12 => 12 case 13 => 0 case 14 => 5 case 15 => 10
    case 16 => 3 case 17 => 13 case 18 => 4 case 19 => 7 case 20 => 15 case 21 => 2 case 22 => 8 case 23 => 14
    case 24 => 12 case 25 => 0 case 26 => 1 case 27 => 10 case 28 => 6 case 29 => 9 case 30 => 11 case 31 => 5
    case 32 => 0 case 33 => 14 case 34 => 7 case 35 => 11 case 36 => 10 case 37 => 4 case 38 => 13 case 39 => 1
    case 40 => 5 case 41 => 8 case 42 => 12 case 43 => 6 case 44 => 9 case 45 => 3 case 46 => 2 case 47 => 15
    case 48 => 13 case 49 => 8 case 50 => 10 case 51 => 1 case 52 => 3 case 53 => 15 case 54 => 4 case 55 => 2
    case 56 => 11 case 57 => 6 case 58 => 7 case 59 => 12 case 60 => 0 case 61 => 5 case 62 => 14 case 63 => 9
    case _ => 0
  }

  /** S3 of FIPS 46-3, row by row. */
  function S3(k: nat): nibble
  {
    match k
    case 0 => 10 case 1 => 0 case 2 => 9 case 3 => 14 case 4 => 6 case 5 => 3 case 6 => 15 case 7 => 5
    case 8 => 1 case 9 => 13 case 10 => 12 case 11 => 7 case 12 => 11 case 13 => 4 case 14 => 2 case 15 => 8
    case 16 => 13 case 17 => 7 case 18 => 0 case 19 => 9 case 20 => 3 case 21 => 4 case 22 => 6 case 23 => 10
    case 24 => 2 case 25 => 8 case 26 => 5 case 27 => 14 case 28 => 12 case 29 => 11 case 30 => 15 case 31 => 1
    case 32 => 13 case 33 => 6 case 34 => 4 case 35 => 9 case 36 => 8 case 37 => 15 case 38 => 3 case 39 => 0
    case 40 => 11 case 41 => 1 case 42 => 2 case 43 => 12 case 44 => 5 case 45 => 10 case 46 => 14 case 47 => 7
    case 48 => 1 case 49 => 10 case 50 => 13 case 51 => 0 case 52 => 6 case 53 => 9 case 54 => 8 case 55 => 7
    case 56 => 4 case 57 => 15 case 58 => 14 case 59 => 3 case 60 => 11 case 61 => 5 case 62 => 2 case 63 => 12
    case _ => 0
  }

  /** S4 of FIPS 46-3, row by row. */
  function S4(k: nat): nibble
  {
    match k
    case 0 => 7 case 1 => 13 case 2 => 14 case 3 => 3 case 4 => 0 case 5 => 6 case 6 => 9 case 7 => 10
    case 8 => 1 case 9 => 2 case 10 => 8 case 11 => 5 case 12 => 11 case 13 => 12 case 14 => 4 case 15 => 15
    case 16 => 13 case 17 => 8 case 18 => 11 case 19 => 5 case 20 => 6 case 21 => 15 case 22 => 0 case 23 => 3
    case 24 => 4 case 25 => 7 case 26 => 2 case 27 => 12 case 28 => 1 case 29 => 10 case 30 => 14 case 31 => 9
    case 32 => 10 case 33 => 6 case 34 => 9 case 35 => 0 case 36 => 12 case 37 => 11 case 38 => 7 case 39 => 13
    case 40 => 15 case 41 => 1 case 42 => 3 case 43 => 14 case 44 => 5 case 45 => 2 case 46 => 8 case 47 => 4
    case 48 => 3 case 49 => 15 case 50 => 0 case 51 => 6 case 52 => 10 case 53 => 1 case 54 => 13 case 55 => 8
    case 56 => 9 case 57 => 4 case 58 => 5 case 59 => 11 case 60 => 12 case 61 => 7 case 62 => 2 case 63 => 14
    case _ => 0
  }

  /** S5 of FIPS 46-3, row by row. */
  function S5(k: nat): nibble
  {
    match k
    case 0 => 2 case 1 => 12 case 2 => 4 case 3 => 1 case 4 => 7 case 5 => 10 case 6 => 11 case 7 => 6
    case 8 => 8 case 9 => 5 case 10 => 3 case 11 => 15 case 12 => 13 case 13 => 0 case 14 => 14 case 15 => 9
    case 16 => 14 case 17 => 11 case 18 => 2 case 19 => 12 case 20 => 4 case 21 => 7 case 22 => 13 case 23 => 1
    case 24 => 5 case 25 => 0 case 26 => 15 case 27 => 10 case 28 => 3 case 29 => 9 case 30 => 8 case 31 => 6
    case 32 => 4 case 33 => 2 case 34 => 1 case 35 => 11 case 36 => 10 case 37 => 13 case 38 => 7 case 39 => 8
    case 40 => 15 case 41 => 9 case 42 => 12 case 43 => 5 case 44 => 6 case 45 => 3 case 46 => 0 case 47 => 14
    case 48 => 11 case 49 => 8 case 50 => 12 case 51 => 7 case 52 => 1 case 53 => 14 case 54 => 2 case 55 => 13
    case 56 => 6 case 57 => 15 case 58 => 0 case 59 => 9 case 60 => 10 case 61 => 4 case 62 => 5 case 63 => 3
    case _ => 0
  }

  /** S6 of FIPS 46-3, row by row. */
  function S6(k: nat): nibble
  {
    match k
    case 0 => 12 case 1 => 1 case 2 => 10 case 3 => 15 case 4 => 9 case 5 => 2 case 6 => 6 case 7 => 8
    case 8 => 0 case 9 => 13 case 10 => 3 case 11 => 4 case 12 => 14 case 13 => 7 case 14 => 5 case 15 => 11
    case 16 => 10 case 17 => 15 case 18 => 4 case 19 => 2 case 20 => 7 case 21 => 12 case 22 => 9 case 23 => 5
    case 24 => 6 case 25 => 1 case 26 => 13 case 27 => 14 case 28 => 0 case 29 => 11 case 30 => 3 case 31 => 8
    case 32 => 9 case 33 => 14 case 34 => 15 case 35 => 5 case 36 => 2 case 37 => 8 case 38 => 12 case 39 => 3
    case 40 => 7 case 41 => 0 case 42 => 4 case 43 => 10 case 44 => 1 case 45 => 13 case 46 => 11 case 47 => 6
    case 48 => 4 case 49 => 3 case 50 => 2 case 51 => 12 case 52 => 9 case 53 => 5 case 54 => 15 case 55 => 10
    case 56 => 11 case 57 => 14 case 58 => 1 case 59 => 7 case 60 => 6 case 61 => 0 case 62 => 8 case 63 => 13
    case _ => 0
  }

  /** S7 of FIPS 46-3, row by row. */
  function S7(k: nat): nibble
  {
    match k
    case 0 => 4 case 1 => 11 case 2 => 2 case 3 => 14 case 4 => 15 case 5 => 0 case 6 => 8 case 7 => 13
    case 8 => 3 case 9 => 12 case 10 => 9 case 11 => 7 case 12 => 5 case 13 => 10 case 14 => 6 case 15 => 1
    case 16 => 13 case 17 => 0 case 18 => 11 case 19 => 7 case 20 => 4 case 21 => 9 case 22 => 1 case 23 => 10
    case 24 => 14 case 25 => 3 case 26 => 5 case 27 => 12 case 28 => 2 case 29 => 15 case 30 => 8 case 31 => 6
    case 32 => 1 case 33 => 4 case 34 => 11 case 35 => 13 case 36 => 12 case 37 => 3 case 38 => 7 case 39 => 14
    case 40 => 10 case 41 => 15 case 42 => 6 case 43 => 8 case 44 => 0 case 45 => 5 case 46 => 9 case 47 => 2
    case 48 => 6 case 49 => 11 case 50 => 13 case 51 => 8 case 52 => 1 case 53 => 4 case 54 => 10 case 55 => 7
    case 56 => 9 case 57 => 5 case 58 => 0 case 59 => 15 case 60 => 14 case 61 => 2 case 62 => 3 case 63 => 12
    case _ => 0
  }

  /** S8 of FIPS 46-3, row by row. */
  function S8(k: nat): nibble
  {
    match k
    case 0 => 13 case 1 => 2 case 2 => 8 case 3 => 4 case 4 => 6 case 5 => 15 case 6 => 11 case 7 => 1
    case 8 => 10 case 9 => 9 case 10 => 3 case 11 => 14 case 12 => 5 case 13 => 0 case 14 => 12 case 15 => 7
    case 16 => 1 case 17 => 15 case 18 => 13 case 19 => 8 case 20 => 10 case 21 => 3 case 22 => 7 case 23 => 4
    case 24 => 12 case 25 => 5 case 26 => 6 case 27 => 11 case 28 => 0 case 29 => 14 case 30 => 9 case 31 => 2
    case 32 => 7 case 33 => 11 case 34 => 4 case 35 => 1 case 36 => 9 case 37 => 12 case 38 => 14 case 39 => 2
    case 40 => 0 case 41 => 6 case 42 => 10 case 43 => 13 case 44 => 15 case 45 => 3 case 46 => 5 case 47 => 8
    case 48 => 2 case 49 => 1 case 50 => 14 case 51 => 7 case 52 => 4 case 53 => 10 case 54 => 8 case 55 => 13
    case 56 => 15 case 57 => 12 case 58 => 9 case 59 => 0 case 60 => 3 case 61 => 5 case 62 => 6 case 63 => 11
    case _ => 0
  }

  function Box(box: nat, row: nat, col: nat): nibble {
    match box
    case 1 => S1(16 * row + col) case 2 => S2(16 * row + col) case 3 => S3(16 * row + col) case 4 => S4(16 * row + col)
    case 5 => S5(16 * row + col) case 6 => S6(16 * row + col) case 7 => S7(16 * row + col) case _ => S8(16 * row + col)
  }

  /** Of six bits the outer two name the row and the inner four the column. */
  function SixBits(row: nat, col: nat): nat { row / 2 * 32 + col * 2 + row % 2 }

  lemma Rows11(col: nat)
    requires col < 16
    ensures Sbox0(2 * col + 0) == 16 * S1(col + 0) + S2(col + 0)
    ensures Sbox0(2 * col + 1) == 16 * S1(col + 16) + S2(col + 16)
  {}

  lemma Rows12(col: nat)
    requires col < 16
    ensures Sbox0(2 * col + 32) == 16 * S1(col + 32) + S2(col + 32)
    ensures Sbox0(2 * col + 33) == 16 * S1(col + 48) + S2(col + 48)
  {}

  lemma Rows21(col: nat)
    requires col < 16
    ensures Sbox1(2 * col + 0) == 16 * S3(col + 0) + S4(col + 0)
    ensures Sbox1(2 * col + 1) == 16 * S3(col + 16) + S4(col + 16)
  {}

  lemma Rows22(col: nat)
    requires col < 16
    ensures Sbox1(2 * col + 32) == 16 * S3(col + 32) + S4(col + 32)
    ensures Sbox1(2 * col + 33) == 16 * S3(col + 48) + S4(col + 48)
  {}

  lemma Rows31(col: nat)
    requires col < 16
    ensures Sbox2(2 * col + 0) == 16 * S5(col + 0) + S6(col + 0)
    ensures Sbox2(2 * col + 1) == 16 * S5(col + 16) + S6(col + 16)
  {}

  lemma Rows32(col: nat)
    requires col < 16
    ensures Sbox2(2 * col + 32) == 16 * S5(col + 32) + S6(col + 32)
    ensures Sbox2(2 * col + 33) == 16 * S5(col + 48) + S6(col + 48)
  {}

  lemma Rows41(col: nat)
    requires col < 16
    ensures Sbox3(2 * col + 0) == 16 * S7(col + 0) + S8(col + 0)
    ensures Sbox3(2 * col + 1) == 16 * S7(col + 16) + S8(col + 16)
  {}

  lemma Rows42(col: nat)
    requires col < 16
    ensures Sbox3(2 * col + 32) == 16 * S7(col + 32) + S8(col + 32)
    ensures Sbox3(2 * col + 33) == 16 * S7(col + 48) + S8(col + 48)
  {}

  /** An entry of a table holds one entry of each of two boxes. */
  lemma Entries(i: nat, row: nat, col: nat)
    requires i < 4 && row < 4 && col < 16
    ensures SixBits(row, col) < 64
    ensures SboxTable(i, SixBits(row, col)) == 16 * Box(2 * i + 1, row, col) + Box(2 * i + 2, row, col)
  {
    hide Sbox0, Sbox1, Sbox2, Sbox3, S1, S2, S3, S4, S5, S6, S7, S8;
    Rows11(col); Rows12(col);
    Rows21(col); Rows22(col);
    Rows31(col); Rows32(col);
    Rows41(col); Rows42(col);
    match row case 0 => case 1 => case 2 => case 3 =>
  }

  function Upper(x: bv8): int { (x >> 4) as int }
  function Lower(x: bv8): int { (x & 0x0f) as int }

  lemma ByteIsHalves(x: bv8)
    ensures Number(x) == Upper(x) * 16 + Lower(x) && 0 <= Upper(x) < 16 && 0 <= Lower(x) < 16
  {}

  lemma MixedHalves(p: bv8, q: bv8)
    ensures Upper(Mixed(p, q)) == Upper(p) && Lower(Mixed(p, q)) == Lower(q)
  {}

  lemma MixedIs(p: bv8, q: bv8, a: nibble, b: nibble, c: nibble, d: nibble)
    requires Number(p) == 16 * a + b && Number(q) == 16 * c + d
    ensures Number(Mixed(p, q)) == 16 * a + d
  {
    hide Number, Upper, Lower, Mixed;
    ByteIsHalves(p);
    ByteIsHalves(q);
    MixedHalves(p, q);
    ByteIsHalves(Mixed(p, q));
  }

  lemma NumberIs(n: byte)
    ensures Number(n as bv8) == n
  {}

  lemma MixedEntries(i: nat, m: nat, n: nat, a: nibble, b: nibble, c: nibble, d: nibble)
    requires i < 4 && SboxTable(i, m) == 16 * a + b && SboxTable(i, n) == 16 * c + d
    ensures Number(Mixed(SboxTable(i, m) as bv8, SboxTable(i, n) as bv8)) == 16 * a + d
  {
    hide Number, Mixed, SboxTable;
    NumberIs(SboxTable(i, m));
    NumberIs(SboxTable(i, n));
    MixedIs(SboxTable(i, m) as bv8, SboxTable(i, n) as bv8, a, b, c, d);
  }

  /** Each table gives two substitutions at once: the upper half by the first of its boxes, the lower
      half by the second. */
  lemma SubstitutesAsStandard(i: nat, x: bv8, y: bv8, row: nat, col: nat, row': nat, col': nat)
    requires i < 4 && row < 4 && row' < 4 && col < 16 && col' < 16
    requires Number(x) == SixBits(row, col) && Number(y) == SixBits(row', col')
    ensures Number(x) < 64 && Number(y) < 64
    ensures Number(TwoNibbles(i, x, y)) == 16 * Box(2 * i + 1, row, col) + Box(2 * i + 2, row', col')
  {
    hide Number, SixBits, Box, SboxTable, Mixed;
    Entries(i, row, col);
    Entries(i, row', col');
    MixedEntries(i, Number(x), Number(y),
                 Box(2 * i + 1, row, col), Box(2 * i + 2, row, col), Box(2 * i + 1, row', col'), Box(2 * i + 2, row', col'));
  }

  // ----- the transposition

  /** Where P of FIPS 46-3 sends bit `k`; bits count from 1. */
  function GoesTo(k: nat): nat
  {
    match k
    case 1 => 9 case 2 => 17 case 3 => 23 case 4 => 31 case 5 => 13 case 6 => 28 case 7 => 2 case 8 => 18
    case 9 => 24 case 10 => 16 case 11 => 30 case 12 => 6 case 13 => 26 case 14 => 20 case 15 => 10 case 16 => 1
    case 17 => 8 case 18 => 14 case 19 => 25 case 20 => 3 case 21 => 4 case 22 => 29 case 23 => 11 case 24 => 19
    case 25 => 32 case 26 => 12 case 27 => 22 case 28 => 7 case 29 => 5 case 30 => 27 case 31 => 15 case 32 => 21
    case _ => 0
  }

  /** No bit is lost or doubled. */
  lemma TransposesAsStandard(k: nat)
    requires 1 <= k <= 32
    ensures 1 <= GoesTo(k) <= 32 && TpTable(GoesTo(k) - 1) == k
    ensures 1 <= TpTable(k - 1) <= 32 && GoesTo(TpTable(k - 1)) == k
  {}

  // ----- one block

  const CLEAR: Block := [0x52, 0x61, 0x67, 0x6e, 0x61, 0x72, 0x6f, 0x6b]
  const PERMUTED: Block := [0xff, 0x21, 0x4c, 0xd6, 0x00, 0xfe, 0xc8, 0xed]
  const EXPANDED: Block := [0x20, 0x01, 0x1f, 0x3d, 0x19, 0x11, 0x1d, 0x1a]
  const SUBSTITUTED: Block := [0x43, 0x12, 0x36, 0x80, 0x00, 0x00, 0x00, 0x00]
  const ADDED: Block := [0x00, 0x00, 0x00, 0x00, 0x64, 0x60, 0xc0, 0x89]
  const ROUNDED: Block := [0x9b, 0x41, 0x8c, 0x5f, 0x00, 0xfe, 0xc8, 0xed]
  const DECRYPTED: Block := [0x53, 0x61, 0x27, 0x6f, 0x61, 0x22, 0x3b, 0x6e]

  lemma IsByte(b: Block, t: Table, i: nat, x: bv8)
    requires i < 8
    requires forall m | 0 <= m < 8 :: BitFrom(b, t, 8 * i + m) == BitOf(x, m)
    ensures Rearranged(b, t)[i] == x
  {
    hide BitOf, Byte, BitFrom;
    forall m | 0 <= m < 8 ensures BitOf(ByteFrom(b, t, i), m) == BitOf(x, m) { ByteFromBit(b, t, i, m); }
    SameByte(ByteFrom(b, t, i), x);
  }

  lemma InitialLeft()
    ensures Rearranged(CLEAR, Ip)[0] == 0xff && Rearranged(CLEAR, Ip)[1] == 0x21 && Rearranged(CLEAR, Ip)[2] == 0x4c
  {
    hide Rearranged, ByteFrom;
    IsByte(CLEAR, Ip, 0, 0xff);
    IsByte(CLEAR, Ip, 1, 0x21);
    IsByte(CLEAR, Ip, 2, 0x4c);
  }

  lemma InitialMiddle()
    ensures Rearranged(CLEAR, Ip)[3] == 0xd6 && Rearranged(CLEAR, Ip)[4] == 0x00 && Rearranged(CLEAR, Ip)[5] == 0xfe
  {
    hide Rearranged, ByteFrom;
    IsByte(CLEAR, Ip, 3, 0xd6);
    IsByte(CLEAR, Ip, 4, 0x00);
    IsByte(CLEAR, Ip, 5, 0xfe);
  }

  lemma InitialRight()
    ensures Rearranged(CLEAR, Ip)[6] == 0xc8 && Rearranged(CLEAR, Ip)[7] == 0xed
  {
    hide Rearranged, ByteFrom;
    IsByte(CLEAR, Ip, 6, 0xc8);
    IsByte(CLEAR, Ip, 7, 0xed);
  }

  lemma TransposedLeft()
    ensures Rearranged(SUBSTITUTED, Tp)[0] == 0x00 && Rearranged(SUBSTITUTED, Tp)[1] == 0x00 && Rearranged(SUBSTITUTED, Tp)[2] == 0x00
  {
    hide Rearranged, ByteFrom;
    IsByte(SUBSTITUTED, Tp, 0, 0x00);
    IsByte(SUBSTITUTED, Tp, 1, 0x00);
    IsByte(SUBSTITUTED, Tp, 2, 0x00);
  }

  lemma TransposedMiddle()
    ensures Rearranged(SUBSTITUTED, Tp)[3] == 0x00 && Rearranged(SUBSTITUTED, Tp)[4] == 0x64 && Rearranged(SUBSTITUTED, Tp)[5] == 0x60
  {
    hide Rearranged, ByteFrom;
    IsByte(SUBSTITUTED, Tp, 3, 0x00);
    IsByte(SUBSTITUTED, Tp, 4, 0x64);
    IsByte(SUBSTITUTED, Tp, 5, 0x60);
  }

  lemma TransposedRight()
    ensures Rearranged(SUBSTITUTED, Tp)[6] == 0xc0 && Rearranged(SUBSTITUTED, Tp)[7] == 0x89
  {
    hide Rearranged, ByteFrom;
    IsByte(SUBSTITUTED, Tp, 6, 0xc0);
    IsByte(SUBSTITUTED, Tp, 7, 0x89);
  }

  lemma FinalLeft()
    ensures Rearranged(ROUNDED, Fp)[0] == 0x53 && Rearranged(ROUNDED, Fp)[1] == 0x61 && Rearranged(ROUNDED, Fp)[2] == 0x27
  {
    hide Rearranged, ByteFrom;
    IsByte(ROUNDED, Fp, 0, 0x53);
    IsByte(ROUNDED, Fp, 1, 0x61);
    IsByte(ROUNDED, Fp, 2, 0x27);
  }

  lemma FinalMiddle()
    ensures Rearranged(ROUNDED, Fp)[3] == 0x6f && Rearranged(ROUNDED, Fp)[4] == 0x61 && Rearranged(ROUNDED, Fp)[5] == 0x22
  {
    hide Rearranged, ByteFrom;
    IsByte(ROUNDED, Fp, 3, 0x6f);
    IsByte(ROUNDED, Fp, 4, 0x61);
    IsByte(ROUNDED, Fp, 5, 0x22);
  }

  lemma FinalRight()
    ensures Rearranged(ROUNDED, Fp)[6] == 0x3b && Rearranged(ROUNDED, Fp)[7] == 0x6e
  {
    hide Rearranged, ByteFrom;
    IsByte(ROUNDED, Fp, 6, 0x3b);
    IsByte(ROUNDED, Fp, 7, 0x6e);
  }

  lemma SubstitutionFirst()
    ensures TwoNibbles(0, 0x20, 0x01) == 0x43
  {}

  lemma SubstitutionSecond()
    ensures TwoNibbles(1, 0x1f, 0x3d) == 0x12
  {}

  lemma SubstitutionThird()
    ensures TwoNibbles(2, 0x19, 0x11) == 0x36
  {}

  lemma SubstitutionFourth()
    ensures TwoNibbles(3, 0x1d, 0x1a) == 0x80
  {}

  lemma Expansion()
    ensures Expanded(PERMUTED) == EXPANDED
  {}

  lemma Substitution()
    ensures SixBitBytes(EXPANDED) && Substituted(EXPANDED) == SUBSTITUTED
  {
    hide TwoNibbles;
    SubstitutionFirst();
    SubstitutionSecond();
    SubstitutionThird();
    SubstitutionFourth();
  }

  lemma Addition()
    ensures forall i | 0 <= i < 8 :: (if i < 4 then Xor(PERMUTED[i], ADDED[i + 4]) else PERMUTED[i]) == ROUNDED[i]
  {}

  /** One block, decrypted. */
  lemma Example()
    ensures Decrypted(CLEAR) == DECRYPTED
  {
    hide Rearranged, Expanded, Substituted, Xor, SixBitBytes;
    InitialLeft();
    InitialMiddle();
    InitialRight();
    assert Rearranged(CLEAR, Ip) == PERMUTED;
    Expansion();
    Substitution();
    TransposedLeft();
    TransposedMiddle();
    TransposedRight();
    assert Scramble(PERMUTED) == ADDED;
    Addition();
    assert Round(PERMUTED) == ROUNDED;
    FinalLeft();
    FinalMiddle();
    FinalRight();
    assert Rearranged(ROUNDED, Fp) == DECRYPTED;
  }
}
