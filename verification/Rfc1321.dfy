/** The MD5 algorithm as sections 3.1 to 3.5 of RFC 1321 describe it. */
module Rfc1321 {
  import opened Bytes

  datatype Regs = Regs(a: bv32, b: bv32, c: bv32, d: bv32)

  const INIT := Regs(0x67452301, 0xefcdab89, 0x98badcfe, 0x10325476)

  /* ---------- section 3.4: one block ---------- */

  function Plus(x: bv32, y: bv32): bv32 { x + y }

  function F(x: bv32, y: bv32, z: bv32): bv32 { (x & y) | (!x & z) }

  function G(x: bv32, y: bv32, z: bv32): bv32 { (x & z) | (y & !z) }

  function H(x: bv32, y: bv32, z: bv32): bv32 { x ^ y ^ z }

  function I(x: bv32, y: bv32, z: bv32): bv32 { y ^ (x | !z) }

  /** The auxiliary function of a round. */
  function Aux(round: nat, x: bv32, y: bv32, z: bv32): (r: bv32)
    ensures round == 0 ==> r == F(x, y, z)
    ensures round == 1 ==> r == G(x, y, z)
    ensures round == 2 ==> r == H(x, y, z)
    ensures round == 3 ==> r == I(x, y, z)
  {
    match round
    case 0 => F(x, y, z)
    case 1 => G(x, y, z)
    case 2 => H(x, y, z)
    case _ => I(x, y, z)
  }

  /** Which word of the block step `i` uses. */
  function K(i: nat): (k: nat)
    ensures k < 16
  {
    match i / 16
    case 0 => i % 16
    case 1 => (1 + 5 * i) % 16
    case 2 => (5 + 3 * i) % 16
    case _ => (7 * i) % 16
  }

  /** How far step `i` rotates. */
  function S(i: nat): (s: nat)
    ensures 0 < s < 32
  {
    match i / 16
    case 0 => (match i % 4 case 0 => 7 case 1 => 12 case 2 => 17 case _ => 22)
    case 1 => (match i % 4 case 0 => 5 case 1 => 9 case 2 => 14 case _ => 20)
    case 2 => (match i % 4 case 0 => 4 case 1 => 11 case 2 => 16 case _ => 23)
    case _ => (match i % 4 case 0 => 6 case 1 => 10 case 2 => 15 case _ => 21)
  }

  /** The additive constants, numbered from 0. */
  function T(i: nat): bv32
    requires i < 64
  {
    match i / 8
    case 0 => (match i % 8
      case 0 => 0xd76aa478 case 1 => 0xe8c7b756 case 2 => 0x242070db case 3 => 0xc1bdceee
      case 4 => 0xf57c0faf case 5 => 0x4787c62a case 6 => 0xa8304613 case _ => 0xfd469501)
    case 1 => (match i % 8
      case 0 => 0x698098d8 case 1 => 0x8b44f7af case 2 => 0xffff5bb1 case 3 => 0x895cd7be
      case 4 => 0x6b901122 case 5 => 0xfd987193 case 6 => 0xa679438e case _ => 0x49b40821)
    case 2 => (match i % 8
      case 0 => 0xf61e2562 case 1 => 0xc040b340 case 2 => 0x265e5a51 case 3 => 0xe9b6c7aa
      case 4 => 0xd62f105d case 5 => 0x02441453 case 6 => 0xd8a1e681 case _ => 0xe7d3fbc8)
    case 3 => (match i % 8
      case 0 => 0x21e1cde6 case 1 => 0xc33707d6 case 2 => 0xf4d50d87 case 3 => 0x455a14ed
      case 4 => 0xa9e3e905 case 5 => 0xfcefa3f8 case 6 => 0x676f02d9 case _ => 0x8d2a4c8a)
    case 4 => (match i % 8
      case 0 => 0xfffa3942 case 1 => 0x8771f681 case 2 => 0x6d9d6122 case 3 => 0xfde5380c
      case 4 => 0xa4beea44 case 5 => 0x4bdecfa9 case 6 => 0xf6bb4b60 case _ => 0xbebfbc70)
    case 5 => (match i % 8
      case 0 => 0x289b7ec6 case 1 => 0xeaa127fa case 2 => 0xd4ef3085 case 3 => 0x04881d05
      case 4 => 0xd9d4d039 case 5 => 0xe6db99e5 case 6 => 0x1fa27cf8 case _ => 0xc4ac5665)
    case 6 => (match i % 8
      case 0 => 0xf4292244 case 1 => 0x432aff97 case 2 => 0xab9423a7 case 3 => 0xfc93a039
      case 4 => 0x655b59c3 case 5 => 0x8f0ccc92 case 6 => 0xffeff47d case _ => 0x85845dd1)
    case _ => (match i % 8
      case 0 => 0x6fa87e4f case 1 => 0xfe2ce6e0 case 2 => 0xa3014314 case 3 => 0x4e0811a1
      case 4 => 0xf7537e82 case 5 => 0xbd3af235 case 6 => 0x2ad7d2bb case _ => 0xeb86d391)
  }

  function RotateLeft(w: bv32, s: nat): bv32
    requires 0 < s < 32
  {
    (w << s) | (w >> (32 - s))
  }

  lemma Rotation4(w: bv32)
    ensures RotateLeft(w, 4) & 0xf == w >> 28 && RotateLeft(w, 4) >> 4 == w & 0xfff_ffff
  {}

  lemma Rotation5(w: bv32)
    ensures RotateLeft(w, 5) & 0x1f == w >> 27 && RotateLeft(w, 5) >> 5 == w & 0x7ff_ffff
  {}

  lemma Rotation6(w: bv32)
    ensures RotateLeft(w, 6) & 0x3f == w >> 26 && RotateLeft(w, 6) >> 6 == w & 0x3ff_ffff
  {}

  lemma Rotation7(w: bv32)
    ensures RotateLeft(w, 7) & 0x7f == w >> 25 && RotateLeft(w, 7) >> 7 == w & 0x1ff_ffff
  {}

  lemma Rotation9(w: bv32)
    ensures RotateLeft(w, 9) & 0x1ff == w >> 23 && RotateLeft(w, 9) >> 9 == w & 0x7f_ffff
  {}

  lemma Rotation10(w: bv32)
    ensures RotateLeft(w, 10) & 0x3ff == w >> 22 && RotateLeft(w, 10) >> 10 == w & 0x3f_ffff
  {}

  lemma Rotation11(w: bv32)
    ensures RotateLeft(w, 11) & 0x7ff == w >> 21 && RotateLeft(w, 11) >> 11 == w & 0x1f_ffff
  {}

  lemma Rotation12(w: bv32)
    ensures RotateLeft(w, 12) & 0xfff == w >> 20 && RotateLeft(w, 12) >> 12 == w & 0xf_ffff
  {}

  lemma Rotation14(w: bv32)
    ensures RotateLeft(w, 14) & 0x3fff == w >> 18 && RotateLeft(w, 14) >> 14 == w & 0x3_ffff
  {}

  lemma Rotation15(w: bv32)
    ensures RotateLeft(w, 15) & 0x7fff == w >> 17 && RotateLeft(w, 15) >> 15 == w & 0x1_ffff
  {}

  lemma Rotation16(w: bv32)
    ensures RotateLeft(w, 16) & 0xffff == w >> 16 && RotateLeft(w, 16) >> 16 == w & 0xffff
  {}

  lemma Rotation17(w: bv32)
    ensures RotateLeft(w, 17) & 0x1_ffff == w >> 15 && RotateLeft(w, 17) >> 17 == w & 0x7fff
  {}

  lemma Rotation20(w: bv32)
    ensures RotateLeft(w, 20) & 0xf_ffff == w >> 12 && RotateLeft(w, 20) >> 20 == w & 0xfff
  {}

  lemma Rotation21(w: bv32)
    ensures RotateLeft(w, 21) & 0x1f_ffff == w >> 11 && RotateLeft(w, 21) >> 21 == w & 0x7ff
  {}

  lemma Rotation22(w: bv32)
    ensures RotateLeft(w, 22) & 0x3f_ffff == w >> 10 && RotateLeft(w, 22) >> 22 == w & 0x3ff
  {}

  lemma Rotation23(w: bv32)
    ensures RotateLeft(w, 23) & 0x7f_ffff == w >> 9 && RotateLeft(w, 23) >> 23 == w & 0x1ff
  {}

  /** The shifts of the four rounds turn a word to the left: its top bits come out at the
      bottom, and the others move up. */
  lemma Rotations(w: bv32)
    ensures RotateLeft(w, 7) & 0x7f == w >> 25 && RotateLeft(w, 7) >> 7 == w & 0x1ff_ffff
    ensures RotateLeft(w, 12) & 0xfff == w >> 20 && RotateLeft(w, 12) >> 12 == w & 0xf_ffff
    ensures RotateLeft(w, 17) & 0x1_ffff == w >> 15 && RotateLeft(w, 17) >> 17 == w & 0x7fff
    ensures RotateLeft(w, 22) & 0x3f_ffff == w >> 10 && RotateLeft(w, 22) >> 22 == w & 0x3ff
    ensures RotateLeft(w, 5) & 0x1f == w >> 27 && RotateLeft(w, 5) >> 5 == w & 0x7ff_ffff
    ensures RotateLeft(w, 9) & 0x1ff == w >> 23 && RotateLeft(w, 9) >> 9 == w & 0x7f_ffff
    ensures RotateLeft(w, 14) & 0x3fff == w >> 18 && RotateLeft(w, 14) >> 14 == w & 0x3_ffff
    ensures RotateLeft(w, 20) & 0xf_ffff == w >> 12 && RotateLeft(w, 20) >> 20 == w & 0xfff
    ensures RotateLeft(w, 4) & 0xf == w >> 28 && RotateLeft(w, 4) >> 4 == w & 0xfff_ffff
    ensures RotateLeft(w, 11) & 0x7ff == w >> 21 && RotateLeft(w, 11) >> 11 == w & 0x1f_ffff
    ensures RotateLeft(w, 16) & 0xffff == w >> 16 && RotateLeft(w, 16) >> 16 == w & 0xffff
    ensures RotateLeft(w, 23) & 0x7f_ffff == w >> 9 && RotateLeft(w, 23) >> 23 == w & 0x1ff
    ensures RotateLeft(w, 6) & 0x3f == w >> 26 && RotateLeft(w, 6) >> 6 == w & 0x3ff_ffff
    ensures RotateLeft(w, 10) & 0x3ff == w >> 22 && RotateLeft(w, 10) >> 10 == w & 0x3f_ffff
    ensures RotateLeft(w, 15) & 0x7fff == w >> 17 && RotateLeft(w, 15) >> 15 == w & 0x1_ffff
    ensures RotateLeft(w, 21) & 0x1f_ffff == w >> 11 && RotateLeft(w, 21) >> 21 == w & 0x7ff
  {
    hide RotateLeft;
    Rotation7(w); Rotation12(w); Rotation17(w); Rotation22(w);
    Rotation5(w); Rotation9(w); Rotation14(w); Rotation20(w);
    Rotation4(w); Rotation11(w); Rotation16(w); Rotation23(w);
    Rotation6(w); Rotation10(w); Rotation15(w); Rotation21(w);
  }

  /** Addition is modulo 2^32: the sum of the words without its carry. */
  lemma PlusWraps(x: bv32, y: bv32)
    ensures Plus(x, y) as bv64 == (x as bv64 + y as bv64) & 0xffff_ffff
  {}

  function Operation(f: bv32, a: bv32, b: bv32, k: bv32, t: bv32, s: nat): bv32
    requires 0 < s < 32
  {
    b + RotateLeft(a + f + k + t, s)
  }

  /** One step; the registers change places so that each step looks the same. */
  function OneStep(r: Regs, x: seq<bv32>, i: nat): Regs
    requires |x| == 16 && i < 64
  {
    Regs(r.d, Operation(Aux(i / 16, r.b, r.c, r.d), r.a, r.b, x[K(i)], T(i), S(i)), r.b, r.c)
  }

  function Steps(r: Regs, x: seq<bv32>, n: nat): Regs
    requires |x| == 16 && n <= 64
  {
    if n == 0 then r else OneStep(Steps(r, x, n - 1), x, n - 1)
  }

  function Word(s: seq<byte>): bv32
    requires |s| == 4
  {
    assert Pow256(4) == 0x1_0000_0000;
    FromLE(s) as bv32
  }

  function Words(block: seq<byte>): (x: seq<bv32>)
    requires |block| == 64
    ensures |x| == 16
  {
    seq(16, i requires 0 <= i < 16 => Word(block[4 * i..4 * i + 4]))
  }

  function Compress(r: Regs, block: seq<byte>): Regs
    requires |block| == 64
  {
    var t := Steps(r, Words(block), 64);
    Regs(Plus(r.a, t.a), Plus(r.b, t.b), Plus(r.c, t.c), Plus(r.d, t.d))
  }

  /** The state after the first `k` blocks of a message. */
  function After(m: seq<byte>, k: nat): Regs
    requires 64 * k <= |m|
  {
    if k == 0 then INIT else Compress(After(m, k - 1), m[64 * k - 64..64 * k])
  }

  /** Blocks that come later do not matter. */
  lemma {:induction false} AfterAppend(m: seq<byte>, n: seq<byte>, k: nat)
    requires 64 * k <= |m|
    ensures After(m + n, k) == After(m, k)
  {
    hide Compress;
    if k > 0 {
      AfterAppend(m, n, k - 1);
      assert (m + n)[64 * k - 64..64 * k] == m[64 * k - 64..64 * k];
    }
  }

  /* ---------- sections 3.1 and 3.2: padding ---------- */

  function Zeros(n: nat): (z: seq<byte>)
    ensures |z| == n
  {
    seq(n, _ => 0)
  }

  /** The padding: a one bit, then as few zero bits as bring the length to 448 modulo
      512 bits, then the bit length modulo 2^64. */
  function Padding(n: nat): (p: seq<byte>)
    ensures (n + |p|) % 64 == 0 && 9 <= |p| <= 72
  {
    var zeros := (55 - n) % 64;
    assert (n + 9 + zeros) % 64 == 0;
    [0x80] + Zeros(zeros) + LE(8 * n % TWO64, 8)
  }

  /** All messages are padded the least amount that fits the mark and the length. */
  lemma PaddingIsLeast(n: nat, total: nat)
    requires total % 64 == 0 && total >= n + 9
    ensures n + |Padding(n)| <= total
  {
    hide LE;
    var zeros := (55 - n) % 64;
    assert |Padding(n)| == 1 + zeros + 8;
    hide Padding;
    assert (n + 9 + zeros) % 64 == 0;
    MultiplesApart(n + 9 + zeros, total);
  }

  lemma MultiplesApart(a: nat, b: nat)
    requires a % 64 == 0 && b % 64 == 0 && a < b + 64
    ensures a <= b
  {
    assert a == 64 * (a / 64) && b == 64 * (b / 64);
  }

  /* ---------- section 3.5: output ---------- */

  function LE32(w: bv32): (r: seq<byte>)
    ensures |r| == 4
  {
    LE(w as int, 4)
  }

  function Output(r: Regs): (d: seq<byte>)
    ensures |d| == 16
  {
    LE32(r.a) + LE32(r.b) + LE32(r.c) + LE32(r.d)
  }

  function Digest(message: seq<byte>): seq<byte> {
    var padded := message + Padding(|message|);
    Output(After(padded, |padded| / 64))
  }

  /** The output determines the four state words. */
  lemma OutputFaithful(r: Regs)
    ensures Word(Output(r)[0..4]) == r.a
    ensures Word(Output(r)[4..8]) == r.b
    ensures Word(Output(r)[8..12]) == r.c
    ensures Word(Output(r)[12..16]) == r.d
  {
    hide Word, LE32;
    var d := Output(r);
    assert d[0..4] == LE32(r.a) && d[4..8] == LE32(r.b) && d[8..12] == LE32(r.c) && d[12..16] == LE32(r.d);
    WordOfLE32(r.a);
    WordOfLE32(r.b);
    WordOfLE32(r.c);
    WordOfLE32(r.d);
  }

  lemma WordOfLE32(w: bv32)
    ensures Word(LE32(w)) == w
  {
    hide LE, FromLE, Pow256;
    LE32Value(w as int);
  }

  lemma LE32Value(v: nat)
    requires v < 0x1_0000_0000
    ensures Pow256(4) == 0x1_0000_0000
    ensures FromLE(LE(v, 4)) == v
  {
    Widths();
    FromLEofLE(v, 4);
    SmallRemainder(v, 0x1_0000_0000);
  }

  /** The bytes of words, each least significant byte first. */
  function WordBytes(ws: seq<bv32>): (b: seq<byte>)
    ensures |b| == 4 * |ws|
  {
    if ws == [] then [] else LE32(ws[0]) + WordBytes(ws[1..])
  }

  lemma {:induction false} WordBytesAt(ws: seq<bv32>, i: nat)
    requires i < |ws|
    ensures WordBytes(ws)[4 * i..4 * i + 4] == LE32(ws[i])
  {
    hide LE32;
    var rest := WordBytes(ws[1..]);
    if i > 0 {
      WordBytesAt(ws[1..], i - 1);
      assert WordBytes(ws)[4 * i..4 * i + 4] == rest[4 * (i - 1)..4 * (i - 1) + 4];
    }
  }

  /** A block is sixteen words in order, each least significant byte first. */
  lemma WordsInOrder(ws: seq<bv32>)
    requires |ws| == 16
    ensures Words(WordBytes(ws)) == ws
  {
    hide LE32, Word, WordBytes;
    forall i | 0 <= i < 16 ensures Words(WordBytes(ws))[i] == ws[i] {
      WordBytesAt(ws, i);
      WordOfLE32(ws[i]);
    }
  }
}
