/** The 64 operations of MD5: as deps/md5/md5.c lists them and as section 3.4 of RFC 1321 lists them. */
module Md5Tables {
  // ---------------------------------------------------------------- the operations of the source

  datatype Mixer = UseF | UseG | UseH | UseH2 | UseI

  datatype Register = A | B | C | D

  /** STEP(f, register, ..., word k, t, s) */
  datatype Op = Op(f: Mixer, register: Register, k: nat, t: nat, s: nat)

  function SourceRound1(j: nat): Op {
    match j
    case 0 => Op(UseF, A, 0, 0xd76aa478, 7)
    case 1 => Op(UseF, D, 1, 0xe8c7b756, 12)
    case 2 => Op(UseF, C, 2, 0x242070db, 17)
    case 3 => Op(UseF, B, 3, 0xc1bdceee, 22)
    case 4 => Op(UseF, A, 4, 0xf57c0faf, 7)
    case 5 => Op(UseF, D, 5, 0x4787c62a, 12)
    case 6 => Op(UseF, C, 6, 0xa8304613, 17)
    case 7 => Op(UseF, B, 7, 0xfd469501, 22)
    case 8 => Op(UseF, A, 8, 0x698098d8, 7)
    case 9 => Op(UseF, D, 9, 0x8b44f7af, 12)
    case 10 => Op(UseF, C, 10, 0xffff5bb1, 17)
    case 11 => Op(UseF, B, 11, 0x895cd7be, 22)
    case 12 => Op(UseF, A, 12, 0x6b901122, 7)
    case 13 => Op(UseF, D, 13, 0xfd987193, 12)
    case 14 => Op(UseF, C, 14, 0xa679438e, 17)
    case _ => Op(UseF, B, 15, 0x49b40821, 22)
  }

  function SourceRound2(j: nat): Op {
    match j
    case 0 => Op(UseG, A, 1, 0xf61e2562, 5)
    case 1 => Op(UseG, D, 6, 0xc040b340, 9)
    case 2 => Op(UseG, C, 11, 0x265e5a51, 14)
    case 3 => Op(UseG, B, 0, 0xe9b6c7aa, 20)
    case 4 => Op(UseG, A, 5, 0xd62f105d, 5)
    case 5 => Op(UseG, D, 10, 0x02441453, 9)
    case 6 => Op(UseG, C, 15, 0xd8a1e681, 14)
    case 7 => Op(UseG, B, 4, 0xe7d3fbc8, 20)
    case 8 => Op(UseG, A, 9, 0x21e1cde6, 5)
    case 9 => Op(UseG, D, 14, 0xc33707d6, 9)
    case 10 => Op(UseG, C, 3, 0xf4d50d87, 14)
    case 11 => Op(UseG, B, 8, 0x455a14ed, 20)
    case 12 => Op(UseG, A, 13, 0xa9e3e905, 5)
    case 13 => Op(UseG, D, 2, 0xfcefa3f8, 9)
    case 14 => Op(UseG, C, 7, 0x676f02d9, 14)
    case _ => Op(UseG, B, 12, 0x8d2a4c8a, 20)
  }

  function SourceRound3(j: nat): Op {
    match j
    case 0 => Op(UseH, A, 5, 0xfffa3942, 4)
    case 1 => Op(UseH2, D, 8, 0x8771f681, 11)
    case 2 => Op(UseH, C, 11, 0x6d9d6122, 16)
    case 3 => Op(UseH2, B, 14, 0xfde5380c, 23)
    case 4 => Op(UseH, A, 1, 0xa4beea44, 4)
    case 5 => Op(UseH2, D, 4, 0x4bdecfa9, 11)
    case 6 => Op(UseH, C, 7, 0xf6bb4b60, 16)
    case 7 => Op(UseH2, B, 10, 0xbebfbc70, 23)
    case 8 => Op(UseH, A, 13, 0x289b7ec6, 4)
    case 9 => Op(UseH2, D, 0, 0xeaa127fa, 11)
    case 10 => Op(UseH, C, 3, 0xd4ef3085, 16)
    case 11 => Op(UseH2, B, 6, 0x04881d05, 23)
    case 12 => Op(UseH, A, 9, 0xd9d4d039, 4)
    case 13 => Op(UseH2, D, 12, 0xe6db99e5, 11)
    case 14 => Op(UseH, C, 15, 0x1fa27cf8, 16)
    case _ => Op(UseH2, B, 2, 0xc4ac5665, 23)
  }

  function SourceRound4(j: nat): Op {
    match j
    case 0 => Op(UseI, A, 0, 0xf4292244, 6)
    case 1 => Op(UseI, D, 7, 0x432aff97, 10)
    case 2 => Op(UseI, C, 14, 0xab9423a7, 15)
    case 3 => Op(UseI, B, 5, 0xfc93a039, 21)
    case 4 => Op(UseI, A, 12, 0x655b59c3, 6)
    case 5 => Op(UseI, D, 3, 0x8f0ccc92, 10)
    case 6 => Op(UseI, C, 10, 0xffeff47d, 15)
    case 7 => Op(UseI, B, 1, 0x85845dd1, 21)
    case 8 => Op(UseI, A, 8, 0x6fa87e4f, 6)
    case 9 => Op(UseI, D, 15, 0xfe2ce6e0, 10)
    case 10 => Op(UseI, C, 6, 0xa3014314, 15)
    case 11 => Op(UseI, B, 13, 0x4e0811a1, 21)
    case 12 => Op(UseI, A, 4, 0xf7537e82, 6)
    case 13 => Op(UseI, D, 11, 0xbd3af235, 10)
    case 14 => Op(UseI, C, 2, 0x2ad7d2bb, 15)
    case _ => Op(UseI, B, 9, 0xeb86d391, 21)
  }

  function SourceOp(i: nat): Op {
    match i / 16
    case 0 => SourceRound1(i)
    case 1 => SourceRound2(i - 16)
    case 2 => SourceRound3(i - 32)
    case _ => SourceRound4(if i < 48 then 0 else i - 48)
  }

  // ---------------------------------------------------------------- the operations of the standard

  /** A row [abcd k s i] of section 3.4. */
  datatype Row = Row(k: nat, s: nat, i: nat)

  function StandardRound1(j: nat): Row {
    match j
    case 0 => Row(0, 7, 1)
    case 1 => Row(1, 12, 2)
    case 2 => Row(2, 17, 3)
    case 3 => Row(3, 22, 4)
    case 4 => Row(4, 7, 5)
    case 5 => Row(5, 12, 6)
    case 6 => Row(6, 17, 7)
    case 7 => Row(7, 22, 8)
    case 8 => Row(8, 7, 9)
    case 9 => Row(9, 12, 10)
    case 10 => Row(10, 17, 11)
    case 11 => Row(11, 22, 12)
    case 12 => Row(12, 7, 13)
    case 13 => Row(13, 12, 14)
    case 14 => Row(14, 17, 15)
    case _ => Row(15, 22, 16)
  }

  function StandardRound2(j: nat): Row {
    match j
    case 0 => Row(1, 5, 17)
    case 1 => Row(6, 9, 18)
    case 2 => Row(11, 14, 19)
    case 3 => Row(0, 20, 20)
    case 4 => Row(5, 5, 21)
    case 5 => Row(10, 9, 22)
    case 6 => Row(15, 14, 23)
    case 7 => Row(4, 20, 24)
    case 8 => Row(9, 5, 25)
    case 9 => Row(14, 9, 26)
    case 10 => Row(3, 14, 27)
    case 11 => Row(8, 20, 28)
    case 12 => Row(13, 5, 29)
    case 13 => Row(2, 9, 30)
    case 14 => Row(7, 14, 31)
    case _ => Row(12, 20, 32)
  }

  function StandardRound3(j: nat): Row {
    match j
    case 0 => Row(5, 4, 33)
    case 1 => Row(8, 11, 34)
    case 2 => Row(11, 16, 35)
    case 3 => Row(14, 23, 36)
    case 4 => Row(1, 4, 37)
    case 5 => Row(4, 11, 38)
    case 6 => Row(7, 16, 39)
    case 7 => Row(10, 23, 40)
    case 8 => Row(13, 4, 41)
    case 9 => Row(0, 11, 42)
    case 10 => Row(3, 16, 43)
    case 11 => Row(6, 23, 44)
    case 12 => Row(9, 4, 45)
    case 13 => Row(12, 11, 46)
    case 14 => Row(15, 16, 47)
    case _ => Row(2, 23, 48)
  }

  function StandardRound4(j: nat): Row {
    match j
    case 0 => Row(0, 6, 49)
    case 1 => Row(7, 10, 50)
    case 2 => Row(14, 15, 51)
    case 3 => Row(5, 21, 52)
    case 4 => Row(12, 6, 53)
    case 5 => Row(3, 10, 54)
    case 6 => Row(10, 15, 55)
    case 7 => Row(1, 21, 56)
    case 8 => Row(8, 6, 57)
    case 9 => Row(15, 10, 58)
    case 10 => Row(6, 15, 59)
    case 11 => Row(13, 21, 60)
    case 12 => Row(4, 6, 61)
    case 13 => Row(11, 10, 62)
    case 14 => Row(2, 15, 63)
    case _ => Row(9, 21, 64)
  }

  function StandardRow(n: nat): Row {
    match n / 16
    case 0 => StandardRound1(n)
    case 1 => StandardRound2(n - 16)
    case 2 => StandardRound3(n - 32)
    case _ => StandardRound4(if n < 48 then 0 else n - 48)
  }

  function T1(j: nat): nat {
    match j
    case 0 => 0xd76aa478
    case 1 => 0xe8c7b756
    case 2 => 0x242070db
    case 3 => 0xc1bdceee
    case 4 => 0xf57c0faf
    case 5 => 0x4787c62a
    case 6 => 0xa8304613
    case 7 => 0xfd469501
    case 8 => 0x698098d8
    case 9 => 0x8b44f7af
    case 10 => 0xffff5bb1
    case 11 => 0x895cd7be
    case 12 => 0x6b901122
    case 13 => 0xfd987193
    case 14 => 0xa679438e
    case _ => 0x49b40821
  }

  function T2(j: nat): nat {
    match j
    case 0 => 0xf61e2562
    case 1 => 0xc040b340
    case 2 => 0x265e5a51
    case 3 => 0xe9b6c7aa
    case 4 => 0xd62f105d
    case 5 => 0x02441453
    case 6 => 0xd8a1e681
    case 7 => 0xe7d3fbc8
    case 8 => 0x21e1cde6
    case 9 => 0xc33707d6
    case 10 => 0xf4d50d87
    case 11 => 0x455a14ed
    case 12 => 0xa9e3e905
    case 13 => 0xfcefa3f8
    case 14 => 0x676f02d9
    case _ => 0x8d2a4c8a
  }

  function T3(j: nat): nat {
    match j
    case 0 => 0xfffa3942
    case 1 => 0x8771f681
    case 2 => 0x6d9d6122
    case 3 => 0xfde5380c
    case 4 => 0xa4beea44
    case 5 => 0x4bdecfa9
    case 6 => 0xf6bb4b60
    case 7 => 0xbebfbc70
    case 8 => 0x289b7ec6
    case 9 => 0xeaa127fa
    case 10 => 0xd4ef3085
    case 11 => 0x04881d05
    case 12 => 0xd9d4d039
    case 13 => 0xe6db99e5
    case 14 => 0x1fa27cf8
    case _ => 0xc4ac5665
  }

  function T4(j: nat): nat {
    match j
    case 0 => 0xf4292244
    case 1 => 0x432aff97
    case 2 => 0xab9423a7
    case 3 => 0xfc93a039
    case 4 => 0x655b59c3
    case 5 => 0x8f0ccc92
    case 6 => 0xffeff47d
    case 7 => 0x85845dd1
    case 8 => 0x6fa87e4f
    case 9 => 0xfe2ce6e0
    case 10 => 0xa3014314
    case 11 => 0x4e0811a1
    case 12 => 0xf7537e82
    case 13 => 0xbd3af235
    case 14 => 0x2ad7d2bb
    case _ => 0xeb86d391
  }

  /** T[i] of section 3.4, for i from 1 to 64. */
  function T(i: nat): nat
    requires 1 <= i <= 64
  {
    match (i - 1) / 16
    case 0 => T1(i - 1)
    case 1 => T2(i - 17)
    case 2 => T3(i - 33)
    case _ => T4(i - 49)
  }

  lemma RowInRange(n: nat)
    requires n < 64
    ensures var row := StandardRow(n); row.k < 16 && row.s < 32 && row.i == n + 1
  {
  }

  function MixerAt(n: nat): Mixer {
    match n / 16
    case 0 => UseF
    case 1 => UseG
    case 2 => if n % 2 == 0 then UseH else UseH2
    case _ => UseI
  }

  function RegisterAt(n: nat): Register {
    match n % 4
    case 0 => A
    case 1 => D
    case 2 => C
    case _ => B
  }

  ghost predicate Same(n: nat)
    requires n < 64
  {
    RowInRange(n);
    var row := StandardRow(n);
    SourceOp(n) == Op(MixerAt(n), RegisterAt(n), row.k, T(row.i), row.s)
  }

  /** The table of operations in the source is the table of the standard, word by word. */
  lemma SameTable(n: nat)
    requires n < 64
    ensures Same(n)
  {
    if n < 16 {
      SameRound1(n);
    } else if n < 32 {
      SameRound2(n);
    } else if n < 48 {
      SameRound3(n);
    } else {
      SameRound4(n);
    }
  }

  lemma SameRound1(n: nat)
    requires n < 16
    ensures Same(n)
  {
    assert n / 16 == 0;
    RowInRange(n);
    assert T(n + 1) == T1(n) == SourceRound1(n).t;
  }

  lemma SameRound2(n: nat)
    requires 16 <= n < 32
    ensures Same(n)
  {
    assert n / 16 == 1;
    RowInRange(n);
    assert T(n + 1) == T2(n - 16) == SourceRound2(n - 16).t;
  }

  lemma SameRound3(n: nat)
    requires 32 <= n < 48
    ensures Same(n)
  {
    assert n / 16 == 2;
    RowInRange(n);
    assert T(n + 1) == T3(n - 32) == SourceRound3(n - 32).t;
  }

  lemma SameRound4(n: nat)
    requires 48 <= n < 64
    ensures Same(n)
  {
    assert n / 16 == 3;
    RowInRange(n);
    assert T(n + 1) == T4(n - 48) == SourceRound4(n - 48).t;
  }

  lemma ShiftInRound(n: nat)
    requires n < 64
    ensures var s := StandardRow(n).s;
            match n / 16
            case 0 => s == 7 || s == 12 || s == 17 || s == 22
            case 1 => s == 5 || s == 9 || s == 14 || s == 20
            case 2 => s == 4 || s == 11 || s == 16 || s == 23
            case _ => s == 6 || s == 10 || s == 15 || s == 21
  {
  }
}

/** The MD5 round functions and compression of deps/md5/md5.c, against section 3.4 of RFC 1321. */
module Md5Compression {
  import opened Arithmetic
  import opened Bytes
  import opened Md5
  import opened Md5Tables

  type Word = bv32

  datatype State = State(a: Word, b: Word, c: Word, d: Word)

  // the optimized round functions of the source
  function F(x: Word, y: Word, z: Word): Word { z ^ (x & (y ^ z)) }
  function G(x: Word, y: Word, z: Word): Word { y ^ (z & (x ^ y)) }
  function H(x: Word, y: Word, z: Word): Word { (x ^ y) ^ z }
  function H2(x: Word, y: Word, z: Word): Word { x ^ (y ^ z) }
  function I(x: Word, y: Word, z: Word): Word { y ^ (x | !z) }

  // the definitions of the standard
  function StandardF(x: Word, y: Word, z: Word): Word { (x & y) | (!x & z) }
  function StandardG(x: Word, y: Word, z: Word): Word { (x & z) | (y & !z) }
  function StandardH(x: Word, y: Word, z: Word): Word { x ^ y ^ z }
  function StandardI(x: Word, y: Word, z: Word): Word { y ^ (x | !z) }

  /** Selecting bits of y or z by x, without and-not. */
  lemma SelectBits(x: Word, y: Word, z: Word)
    ensures z ^ (x & (y ^ z)) == (x & y) | (!x & z)
  {
  }

  lemma FIsStandard(x: Word, y: Word, z: Word)
    ensures F(x, y, z) == StandardF(x, y, z)
  {
    SelectBits(x, y, z);
  }

  lemma GIsStandard(x: Word, y: Word, z: Word)
    ensures G(x, y, z) == StandardG(x, y, z)
  {
    SelectBits(z, x, y);
    assert (z & x) | (!z & y) == (x & z) | (y & !z);
  }

  lemma HIsStandard(x: Word, y: Word, z: Word)
    ensures H(x, y, z) == StandardH(x, y, z) && H2(x, y, z) == StandardH(x, y, z)
  {
  }

  lemma IIsStandard(x: Word, y: Word, z: Word)
    ensures I(x, y, z) == StandardI(x, y, z)
  {
  }

  /** Addition modulo 2^32, in the order of the source and of the standard. */
  function Plus(x: Word, y: Word): Word { x + y }
  function SourceSum(v: Word, m: Word, w: Word, t: Word): Word { v + (m + w + t) }
  function StandardSum(v: Word, m: Word, w: Word, t: Word): Word { v + m + w + t }

  /** x <<< s */
  function Rotated(x: Word, s: nat): Word
    requires s < 32
  {
    x.RotateLeft(s)
  }

  /** The rotation as the source writes it. */
  function Rotate(x: Word, s: nat): Word
    requires s <= 32
  {
    (x << s) | (x >> (32 - s))
  }

  function Mix(f: Mixer, x: Word, y: Word, z: Word): Word {
    match f
    case UseF => F(x, y, z)
    case UseG => G(x, y, z)
    case UseH => H(x, y, z)
    case UseH2 => H2(x, y, z)
    case UseI => I(x, y, z)
  }

  /** The register gets (register + f + word + t) rotated, plus the register behind it. */
  function Stepped(op: Op, v: Word, x: Word, y: Word, z: Word, word: Word): Word
    requires op.s <= 32
  {
    Plus(Rotate(SourceSum(v, Mix(op.f, x, y, z), word, ToWord(op.t)), op.s), x)
  }

  function SourceStep(st: State, op: Op, word: Word): State
    requires op.s <= 32
  {
    match op.register
    case A => st.(a := Stepped(op, st.a, st.b, st.c, st.d, word))
    case D => st.(d := Stepped(op, st.d, st.a, st.b, st.c, word))
    case C => st.(c := Stepped(op, st.c, st.d, st.a, st.b, word))
    case B => st.(b := Stepped(op, st.b, st.c, st.d, st.a, word))
  }

  function StandardMix(n: nat, x: Word, y: Word, z: Word): Word {
    match n / 16
    case 0 => StandardF(x, y, z)
    case 1 => StandardG(x, y, z)
    case 2 => StandardH(x, y, z)
    case _ => StandardI(x, y, z)
  }

  /** b + ((a + f(b,c,d) + X[k] + T[i]) <<< s) */
  function StandardValue(n: nat, a: Word, b: Word, c: Word, d: Word, word: Word): Word
    requires n < 64
  {
    RowInRange(n);
    Plus(b, Rotated(StandardSum(a, StandardMix(n, b, c, d), word, ToWord(T(StandardRow(n).i))), StandardRow(n).s))
  }

  /** A row replaces its first register; the next row starts with its last one, so the registers move on. */
  function StandardStep(st: State, n: nat, words: seq<Word>): State
    requires |words| == 16 && n < 64
  {
    RowInRange(n);
    State(st.d, StandardValue(n, st.a, st.b, st.c, st.d, words[StandardRow(n).k]), st.b, st.c)
  }

  // ---------------------------------------------------------------- both are the same

  lemma MixIsStandard(n: nat, x: Word, y: Word, z: Word)
    ensures Mix(MixerAt(n), x, y, z) == StandardMix(n, x, y, z)
  {
    hide F, G, H, H2, I, StandardF, StandardG, StandardH, StandardI;
    match n / 16 {
      case 0 => FIsStandard(x, y, z);
      case 1 => GIsStandard(x, y, z);
      case 2 => HIsStandard(x, y, z);
      case _ => IIsStandard(x, y, z);
    }
  }

  // the rotations in the table, round by round

  lemma Rotations1(x: Word)
    ensures Rotate(x, 7) == Rotated(x, 7) && Rotate(x, 12) == Rotated(x, 12)
    ensures Rotate(x, 17) == Rotated(x, 17) && Rotate(x, 22) == Rotated(x, 22)
  {
  }

  lemma Rotations2(x: Word)
    ensures Rotate(x, 5) == Rotated(x, 5) && Rotate(x, 9) == Rotated(x, 9)
    ensures Rotate(x, 14) == Rotated(x, 14) && Rotate(x, 20) == Rotated(x, 20)
  {
  }

  lemma Rotations3(x: Word)
    ensures Rotate(x, 4) == Rotated(x, 4) && Rotate(x, 11) == Rotated(x, 11)
    ensures Rotate(x, 16) == Rotated(x, 16) && Rotate(x, 23) == Rotated(x, 23)
  {
  }

  lemma Rotations4(x: Word)
    ensures Rotate(x, 6) == Rotated(x, 6) && Rotate(x, 10) == Rotated(x, 10)
    ensures Rotate(x, 15) == Rotated(x, 15) && Rotate(x, 21) == Rotated(x, 21)
  {
  }

  lemma RotateIsRotation(x: Word, n: nat)
    requires n < 64
    ensures StandardRow(n).s < 32 && Rotate(x, StandardRow(n).s) == Rotated(x, StandardRow(n).s)
  {
    hide Rotate, Rotated, StandardRow;
    RowInRange(n);
    ShiftInRound(n);
    Rotations1(x);
    Rotations2(x);
    Rotations3(x);
    Rotations4(x);
  }

  lemma SumOrder(v: Word, m: Word, w: Word, t: Word)
    ensures SourceSum(v, m, w, t) == StandardSum(v, m, w, t)
  {
  }

  lemma Commute(a: Word, b: Word)
    ensures Plus(a, b) == Plus(b, a)
  {
  }

  /** One STEP of the source computes what one row of the standard computes. */
  lemma SteppedIsStandard(n: nat, a: Word, b: Word, c: Word, d: Word, word: Word)
    requires n < 64
    ensures SourceOp(n).s <= 32 && Stepped(SourceOp(n), a, b, c, d, word) == StandardValue(n, a, b, c, d, word)
  {
    hide SourceOp, StandardRow, T, Mix, StandardMix, Rotate, Rotated, Plus, SourceSum, StandardSum, MixerAt, ToWord;
    SameTable(n);
    RowInRange(n);
    var op, row := SourceOp(n), StandardRow(n);
    MixIsStandard(n, b, c, d);
    var m, t := StandardMix(n, b, c, d), ToWord(T(row.i));
    SumOrder(a, m, word, t);
    var sum := StandardSum(a, m, word, t);
    RotateIsRotation(sum, n);
    Commute(Rotate(sum, row.s), b);
  }

  /** The registers in the order in which row n names them. */
  function Roles(st: State, n: nat): State {
    match n % 4
    case 0 => st
    case 1 => State(st.d, st.a, st.b, st.c)
    case 2 => State(st.c, st.d, st.a, st.b)
    case _ => State(st.b, st.c, st.d, st.a)
  }

  /** One STEP of the source is one row of the standard. */
  lemma StepIsStandard(st: State, n: nat, words: seq<Word>)
    requires |words| == 16 && n < 64
    ensures SourceOp(n).k < 16 && SourceOp(n).s <= 32
    ensures Roles(SourceStep(st, SourceOp(n), words[SourceOp(n).k]), n + 1) == StandardStep(Roles(st, n), n, words)
  {
    hide SourceOp, StandardRow, Stepped, StandardValue, MixerAt, RegisterAt, Roles, SourceStep, T;
    SameTable(n);
    RowInRange(n);
    var op, r := SourceOp(n), Roles(st, n);
    SteppedIsStandard(n, r.a, r.b, r.c, r.d, words[op.k]);
    RolesMoveOn(st, op, n, words[op.k]);
  }

  /** The register that a STEP replaces is the first in its role. */
  lemma RolesMoveOn(st: State, op: Op, n: nat, word: Word)
    requires op.s <= 32 && op.register == RegisterAt(n)
    ensures var r := Roles(st, n);
            Roles(SourceStep(st, op, word), n + 1) == State(r.d, Stepped(op, r.a, r.b, r.c, r.d, word), r.b, r.c)
  {
    hide Stepped;
    if n % 4 == 0 {
      assert (n + 1) % 4 == 1;
    } else if n % 4 == 1 {
      assert (n + 1) % 4 == 2;
    } else if n % 4 == 2 {
      assert (n + 1) % 4 == 3;
    } else {
      assert n % 4 == 3 && (n + 1) % 4 == 0;
    }
  }

  /** Operations n to 63 of the source. */
  function Operations(st: State, words: seq<Word>, n: nat): State
    requires |words| == 16 && n <= 64
    decreases 64 - n
  {
    if n == 64 then st
    else
      StepIsStandard(st, n, words);
      Operations(SourceStep(st, SourceOp(n), words[SourceOp(n).k]), words, n + 1)
  }

  /** Rows n to 63 of the standard. */
  function StandardOperations(st: State, words: seq<Word>, n: nat): State
    requires |words| == 16 && n <= 64
    decreases 64 - n
  {
    if n == 64 then st else StandardOperations(StandardStep(st, n, words), words, n + 1)
  }

  lemma {:induction false} OperationsAreStandard(st: State, words: seq<Word>, n: nat)
    requires |words| == 16 && n <= 64
    ensures Operations(st, words, n) == StandardOperations(Roles(st, n), words, n)
    decreases 64 - n
  {
    hide SourceStep, StandardStep, SourceOp;
    if n < 64 {
      StepIsStandard(st, n, words);
      hide Roles;
      OperationsAreStandard(SourceStep(st, SourceOp(n), words[SourceOp(n).k]), words, n + 1);
    }
  }

  /** SET: four bytes in little-endian order. */
  function WordAt(block: Data, n: nat): Word
    requires |block| == 64 && n < 16
  {
    var v: nat := block[4 * n] as nat;
    ToWord(v + 0x100 * (block[4 * n + 1] as nat) + 0x1_0000 * (block[4 * n + 2] as nat) + 0x100_0000 * (block[4 * n + 3] as nat))
  }

  function ToWord(v: nat): Word { (v % 0x1_0000_0000) as bv32 }

  function Words(block: Data): (r: seq<Word>)
    requires |block| == 64
    ensures |r| == 16
  {
    seq(16, n requires 0 <= n < 16 => WordAt(block, n))
  }

  /** The words of a block are read low-order byte first, one behind the other. */
  lemma WordsAreRead(block: Data, n: nat) returns (v: nat)
    requires |block| == 64 && n < 16
    ensures v < 0x1_0000_0000 && WordBytes(v) == block[4 * n..4 * n + 4] && Words(block)[n] == ToWord(v)
  {
    var a, b, c, d := block[4 * n] as nat, block[4 * n + 1] as nat, block[4 * n + 2] as nat, block[4 * n + 3] as nat;
    v := a + 0x100 * b + 0x1_0000 * c + 0x100_0000 * d;
    BytesOfSum(a, b, c, d);
    WordBytesAre(v);
    hide WordBytes, ToWord;
    assert block[4 * n..4 * n + 4] == [a, b, c, d];
  }

  lemma BytesOfSum(a: nat, b: nat, c: nat, d: nat)
    requires a < 256 && b < 256 && c < 256 && d < 256
    ensures var v := a + 0x100 * b + 0x1_0000 * c + 0x100_0000 * d;
            && v < 0x1_0000_0000 && v % 0x100 == a && v / 0x100 % 0x100 == b && v / 0x1_0000 % 0x100 == c && v / 0x100_0000 == d
  {
    var v := a + 0x100 * b + 0x1_0000 * c + 0x100_0000 * d;
    DivUnique(v, 0x100, b + 0x100 * c + 0x1_0000 * d);
    DivUnique(v, 0x1_0000, c + 0x100 * d);
    DivUnique(v, 0x100_0000, d);
    DivUnique(b + 0x100 * c + 0x1_0000 * d, 0x100, c + 0x100 * d);
    DivUnique(c + 0x100 * d, 0x100, d);
  }

  function ToState(c: Chain): State { State(ToWord(c.a), ToWord(c.b), ToWord(c.c), ToWord(c.d)) }

  function ToChain(s: State): Chain { Chain(s.a as nat, s.b as nat, s.c as nat, s.d as nat) }

  function Added(s: State, r: State): State { State(r.a + s.a, r.b + s.b, r.c + s.c, r.d + s.d) }

  /** The loop body of body(). */
  function SourceCompress(c: Chain, block: Data): Chain {
    if |block| != 64 then c else ToChain(Added(ToState(c), Operations(ToState(c), Words(block), 0)))
  }

  /** The compression of the standard. */
  function StandardCompress(c: Chain, block: Data): Chain {
    if |block| != 64 then c else ToChain(Added(ToState(c), StandardOperations(ToState(c), Words(block), 0)))
  }

  lemma CompressIsStandard(c: Chain, block: Data)
    ensures SourceCompress(c, block) == StandardCompress(c, block)
  {
    hide Operations, StandardOperations, Words, ToState, ToChain, Added;
    if |block| == 64 {
      OperationsAreStandard(ToState(c), Words(block), 0);
      assert Roles(ToState(c), 0) == ToState(c);
    }
  }

  /** The digest that the source computes for a message is the one of the standard. */
  lemma DigestIsStandard(msg: Data)
    ensures Digest(SourceCompress, msg) == Digest(StandardCompress, msg)
  {
    hide SourceCompress, StandardCompress;
    forall c, block ensures SourceCompress(c, block) == StandardCompress(c, block) {
      CompressIsStandard(c, block);
    }
    FoldSame(SourceCompress, StandardCompress, Init(), Pad(msg));
  }
}
