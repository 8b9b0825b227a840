/** The streaming MD5 implementation: a context updated in place, chunk by chunk. */
module Md5 {
  import opened Bytes
  import opened Rfc1321

  /* ---------- the four core functions, the first two optimised ---------- */

  function F1(x: bv32, y: bv32, z: bv32): (r: bv32)
    ensures r == F(x, y, z)
  {
    assert z ^ (x & (y ^ z)) == (x & y) | (!x & z);
    z ^ (x & (y ^ z))
  }

  function F2(x: bv32, y: bv32, z: bv32): (r: bv32)
    ensures r == G(x, y, z)
  {
    F1(z, x, y)
  }

  function F3(x: bv32, y: bv32, z: bv32): (r: bv32)
    ensures r == H(x, y, z)
  {
    x ^ y ^ z
  }

  function F4(x: bv32, y: bv32, z: bv32): (r: bv32)
    ensures r == I(x, y, z)
  {
    y ^ (x | !z)
  }

  function Step(f: bv32, w: bv32, x: bv32, data: bv32, s: nat): bv32
    requires 0 < s < 32
  {
    RotateLeft(w + (f + data), s) + x
  }

  lemma StepIsOperation(f: bv32, w: bv32, x: bv32, k: bv32, t: bv32, s: nat)
    requires 0 < s < 32
    ensures Step(f, w, x, k + t, s) == Operation(f, w, x, k, t, s)
  {
    hide RotateLeft;
    assert w + (f + (k + t)) == w + f + k + t;
  }

  /** The central step: `w` is the register it updates.  The ghost arguments say which
      step of the standard's loop this is. */
  method Md5Step(f: bv32, w: bv32, x: bv32, ghost y: bv32, ghost z: bv32, k: bv32, t: bv32, s: nat,
                 ghost r: Regs, ghost words: seq<bv32>, ghost i: nat)
    returns (v: bv32)
    requires |words| == 16 && i < 64 && Steps(r, words, i) == Regs(w, x, y, z)
    requires f == Aux(i / 16, x, y, z) && k == words[K(i)] && t == T(i) && s == S(i)
    ensures Steps(r, words, i + 1) == Regs(z, v, x, y)
  {
    hide Step, Operation, Aux, T, K, S;
    StepIsOperation(f, w, x, k, t, s);
    v := Step(f, w, x, k + t, s);
  }

  /* The standard's constants, row by row. */

  lemma Constants0()
    ensures T(0) == 0xd76aa478 && T(1) == 0xe8c7b756 && T(2) == 0x242070db && T(3) == 0xc1bdceee
    ensures T(4) == 0xf57c0faf && T(5) == 0x4787c62a && T(6) == 0xa8304613 && T(7) == 0xfd469501
  {}

  lemma Constants8()
    ensures T(8) == 0x698098d8 && T(9) == 0x8b44f7af && T(10) == 0xffff5bb1 && T(11) == 0x895cd7be
    ensures T(12) == 0x6b901122 && T(13) == 0xfd987193 && T(14) == 0xa679438e && T(15) == 0x49b40821
  {}

  lemma Constants16()
    ensures T(16) == 0xf61e2562 && T(17) == 0xc040b340 && T(18) == 0x265e5a51 && T(19) == 0xe9b6c7aa
    ensures T(20) == 0xd62f105d && T(21) == 0x02441453 && T(22) == 0xd8a1e681 && T(23) == 0xe7d3fbc8
  {}

  lemma Constants24()
    ensures T(24) == 0x21e1cde6 && T(25) == 0xc33707d6 && T(26) == 0xf4d50d87 && T(27) == 0x455a14ed
    ensures T(28) == 0xa9e3e905 && T(29) == 0xfcefa3f8 && T(30) == 0x676f02d9 && T(31) == 0x8d2a4c8a
  {}

  lemma Constants32()
    ensures T(32) == 0xfffa3942 && T(33) == 0x8771f681 && T(34) == 0x6d9d6122 && T(35) == 0xfde5380c
    ensures T(36) == 0xa4beea44 && T(37) == 0x4bdecfa9 && T(38) == 0xf6bb4b60 && T(39) == 0xbebfbc70
  {}

  lemma Constants40()
    ensures T(40) == 0x289b7ec6 && T(41) == 0xeaa127fa && T(42) == 0xd4ef3085 && T(43) == 0x04881d05
    ensures T(44) == 0xd9d4d039 && T(45) == 0xe6db99e5 && T(46) == 0x1fa27cf8 && T(47) == 0xc4ac5665
  {}

  lemma Constants48()
    ensures T(48) == 0xf4292244 && T(49) == 0x432aff97 && T(50) == 0xab9423a7 && T(51) == 0xfc93a039
    ensures T(52) == 0x655b59c3 && T(53) == 0x8f0ccc92 && T(54) == 0xffeff47d && T(55) == 0x85845dd1
  {}

  lemma Constants56()
    ensures T(56) == 0x6fa87e4f && T(57) == 0xfe2ce6e0 && T(58) == 0xa3014314 && T(59) == 0x4e0811a1
    ensures T(60) == 0xf7537e82 && T(61) == 0xbd3af235 && T(62) == 0x2ad7d2bb && T(63) == 0xeb86d391
  {}

  /* The unrolled lines of the transform, eight at a time. */

  method Lines0(ghost r: Regs, x: seq<bv32>, a0: bv32, b0: bv32, c0: bv32, d0: bv32)
    returns (a: bv32, b: bv32, c: bv32, d: bv32)
    requires |x| == 16 && Regs(a0, b0, c0, d0) == Steps(r, x, 0)
    ensures Regs(a, b, c, d) == Steps(r, x, 8)
  {
    hide Steps, Aux, F, G, H, I, F1, F2, F3, F4, T;
    Constants0();
    a, b, c, d := a0, b0, c0, d0;
    a := Md5Step(F1(b, c, d), a, b, c, d, x[0], 0xd76aa478, 7, r, x, 0);
    d := Md5Step(F1(a, b, c), d, a, b, c, x[1], 0xe8c7b756, 12, r, x, 1);
    c := Md5Step(F1(d, a, b), c, d, a, b, x[2], 0x242070db, 17, r, x, 2);
    b := Md5Step(F1(c, d, a), b, c, d, a, x[3], 0xc1bdceee, 22, r, x, 3);
    a := Md5Step(F1(b, c, d), a, b, c, d, x[4], 0xf57c0faf, 7, r, x, 4);
    d := Md5Step(F1(a, b, c), d, a, b, c, x[5], 0x4787c62a, 12, r, x, 5);
    c := Md5Step(F1(d, a, b), c, d, a, b, x[6], 0xa8304613, 17, r, x, 6);
    b := Md5Step(F1(c, d, a), b, c, d, a, x[7], 0xfd469501, 22, r, x, 7);
  }

  method Lines8(ghost r: Regs, x: seq<bv32>, a0: bv32, b0: bv32, c0: bv32, d0: bv32)
    returns (a: bv32, b: bv32, c: bv32, d: bv32)
    requires |x| == 16 && Regs(a0, b0, c0, d0) == Steps(r, x, 8)
    ensures Regs(a, b, c, d) == Steps(r, x, 16)
  {
    hide Steps, Aux, F, G, H, I, F1, F2, F3, F4, T;
    Constants8();
    a, b, c, d := a0, b0, c0, d0;
    a := Md5Step(F1(b, c, d), a, b, c, d, x[8], 0x698098d8, 7, r, x, 8);
    d := Md5Step(F1(a, b, c), d, a, b, c, x[9], 0x8b44f7af, 12, r, x, 9);
    c := Md5Step(F1(d, a, b), c, d, a, b, x[10], 0xffff5bb1, 17, r, x, 10);
    b := Md5Step(F1(c, d, a), b, c, d, a, x[11], 0x895cd7be, 22, r, x, 11);
    a := Md5Step(F1(b, c, d), a, b, c, d, x[12], 0x6b901122, 7, r, x, 12);
    d := Md5Step(F1(a, b, c), d, a, b, c, x[13], 0xfd987193, 12, r, x, 13);
    c := Md5Step(F1(d, a, b), c, d, a, b, x[14], 0xa679438e, 17, r, x, 14);
    b := Md5Step(F1(c, d, a), b, c, d, a, x[15], 0x49b40821, 22, r, x, 15);
  }

  method Lines16(ghost r: Regs, x: seq<bv32>, a0: bv32, b0: bv32, c0: bv32, d0: bv32)
    returns (a: bv32, b: bv32, c: bv32, d: bv32)
    requires |x| == 16 && Regs(a0, b0, c0, d0) == Steps(r, x, 16)
    ensures Regs(a, b, c, d) == Steps(r, x, 24)
  {
    hide Steps, Aux, F, G, H, I, F1, F2, F3, F4, T;
    Constants16();
    a, b, c, d := a0, b0, c0, d0;
    a := Md5Step(F2(b, c, d), a, b, c, d, x[1], 0xf61e2562, 5, r, x, 16);
    d := Md5Step(F2(a, b, c), d, a, b, c, x[6], 0xc040b340, 9, r, x, 17);
    c := Md5Step(F2(d, a, b), c, d, a, b, x[11], 0x265e5a51, 14, r, x, 18);
    b := Md5Step(F2(c, d, a), b, c, d, a, x[0], 0xe9b6c7aa, 20, r, x, 19);
    a := Md5Step(F2(b, c, d), a, b, c, d, x[5], 0xd62f105d, 5, r, x, 20);
    d := Md5Step(F2(a, b, c), d, a, b, c, x[10], 0x02441453, 9, r, x, 21);
    c := Md5Step(F2(d, a, b), c, d, a, b, x[15], 0xd8a1e681, 14, r, x, 22);
    b := Md5Step(F2(c, d, a), b, c, d, a, x[4], 0xe7d3fbc8, 20, r, x, 23);
  }

  method Lines24(ghost r: Regs, x: seq<bv32>, a0: bv32, b0: bv32, c0: bv32, d0: bv32)
    returns (a: bv32, b: bv32, c: bv32, d: bv32)
    requires |x| == 16 && Regs(a0, b0, c0, d0) == Steps(r, x, 24)
    ensures Regs(a, b, c, d) == Steps(r, x, 32)
  {
    hide Steps, Aux, F, G, H, I, F1, F2, F3, F4, T;
    Constants24();
    a, b, c, d := a0, b0, c0, d0;
    a := Md5Step(F2(b, c, d), a, b, c, d, x[9], 0x21e1cde6, 5, r, x, 24);
    d := Md5Step(F2(a, b, c), d, a, b, c, x[14], 0xc33707d6, 9, r, x, 25);
    c := Md5Step(F2(d, a, b), c, d, a, b, x[3], 0xf4d50d87, 14, r, x, 26);
    b := Md5Step(F2(c, d, a), b, c, d, a, x[8], 0x455a14ed, 20, r, x, 27);
    a := Md5Step(F2(b, c, d), a, b, c, d, x[13], 0xa9e3e905, 5, r, x, 28);
    d := Md5Step(F2(a, b, c), d, a, b, c, x[2], 0xfcefa3f8, 9, r, x, 29);
    c := Md5Step(F2(d, a, b), c, d, a, b, x[7], 0x676f02d9, 14, r, x, 30);
    b := Md5Step(F2(c, d, a), b, c, d, a, x[12], 0x8d2a4c8a, 20, r, x, 31);
  }

  method Lines32(ghost r: Regs, x: seq<bv32>, a0: bv32, b0: bv32, c0: bv32, d0: bv32)
    returns (a: bv32, b: bv32, c: bv32, d: bv32)
    requires |x| == 16 && Regs(a0, b0, c0, d0) == Steps(r, x, 32)
    ensures Regs(a, b, c, d) == Steps(r, x, 40)
  {
    hide Steps, Aux, F, G, H, I, F1, F2, F3, F4, T;
    Constants32();
    a, b, c, d := a0, b0, c0, d0;
    a := Md5Step(F3(b, c, d), a, b, c, d, x[5], 0xfffa3942, 4, r, x, 32);
    d := Md5Step(F3(a, b, c), d, a, b, c, x[8], 0x8771f681, 11, r, x, 33);
    c := Md5Step(F3(d, a, b), c, d, a, b, x[11], 0x6d9d6122, 16, r, x, 34);
    b := Md5Step(F3(c, d, a), b, c, d, a, x[14], 0xfde5380c, 23, r, x, 35);
    a := Md5Step(F3(b, c, d), a, b, c, d, x[1], 0xa4beea44, 4, r, x, 36);
    d := Md5Step(F3(a, b, c), d, a, b, c, x[4], 0x4bdecfa9, 11, r, x, 37);
    c := Md5Step(F3(d, a, b), c, d, a, b, x[7], 0xf6bb4b60, 16, r, x, 38);
    b := Md5Step(F3(c, d, a), b, c, d, a, x[10], 0xbebfbc70, 23, r, x, 39);
  }

  method Lines40(ghost r: Regs, x: seq<bv32>, a0: bv32, b0: bv32, c0: bv32, d0: bv32)
    returns (a: bv32, b: bv32, c: bv32, d: bv32)
    requires |x| == 16 && Regs(a0, b0, c0, d0) == Steps(r, x, 40)
    ensures Regs(a, b, c, d) == Steps(r, x, 48)
  {
    hide Steps, Aux, F, G, H, I, F1, F2, F3, F4, T;
    Constants40();
    a, b, c, d := a0, b0, c0, d0;
    a := Md5Step(F3(b, c, d), a, b, c, d, x[13], 0x289b7ec6, 4, r, x, 40);
    d := Md5Step(F3(a, b, c), d, a, b, c, x[0], 0xeaa127fa, 11, r, x, 41);
    c := Md5Step(F3(d, a, b), c, d, a, b, x[3], 0xd4ef3085, 16, r, x, 42);
    b := Md5Step(F3(c, d, a), b, c, d, a, x[6], 0x04881d05, 23, r, x, 43);
    a := Md5Step(F3(b, c, d), a, b, c, d, x[9], 0xd9d4d039, 4, r, x, 44);
    d := Md5Step(F3(a, b, c), d, a, b, c, x[12], 0xe6db99e5, 11, r, x, 45);
    c := Md5Step(F3(d, a, b), c, d, a, b, x[15], 0x1fa27cf8, 16, r, x, 46);
    b := Md5Step(F3(c, d, a), b, c, d, a, x[2], 0xc4ac5665, 23, r, x, 47);
  }

  method Lines48(ghost r: Regs, x: seq<bv32>, a0: bv32, b0: bv32, c0: bv32, d0: bv32)
    returns (a: bv32, b: bv32, c: bv32, d: bv32)
    requires |x| == 16 && Regs(a0, b0, c0, d0) == Steps(r, x, 48)
    ensures Regs(a, b, c, d) == Steps(r, x, 56)
  {
    hide Steps, Aux, F, G, H, I, F1, F2, F3, F4, T;
    Constants48();
    a, b, c, d := a0, b0, c0, d0;
    a := Md5Step(F4(b, c, d), a, b, c, d, x[0], 0xf4292244, 6, r, x, 48);
    d := Md5Step(F4(a, b, c), d, a, b, c, x[7], 0x432aff97, 10, r, x, 49);
    c := Md5Step(F4(d, a, b), c, d, a, b, x[14], 0xab9423a7, 15, r, x, 50);
    b := Md5Step(F4(c, d, a), b, c, d, a, x[5], 0xfc93a039, 21, r, x, 51);
    a := Md5Step(F4(b, c, d), a, b, c, d, x[12], 0x655b59c3, 6, r, x, 52);
    d := Md5Step(F4(a, b, c), d, a, b, c, x[3], 0x8f0ccc92, 10, r, x, 53);
    c := Md5Step(F4(d, a, b), c, d, a, b, x[10], 0xffeff47d, 15, r, x, 54);
    b := Md5Step(F4(c, d, a), b, c, d, a, x[1], 0x85845dd1, 21, r, x, 55);
  }

  method Lines56(ghost r: Regs, x: seq<bv32>, a0: bv32, b0: bv32, c0: bv32, d0: bv32)
    returns (a: bv32, b: bv32, c: bv32, d: bv32)
    requires |x| == 16 && Regs(a0, b0, c0, d0) == Steps(r, x, 56)
    ensures Regs(a, b, c, d) == Steps(r, x, 64)
  {
    hide Steps, Aux, F, G, H, I, F1, F2, F3, F4, T;
    Constants56();
    a, b, c, d := a0, b0, c0, d0;
    a := Md5Step(F4(b, c, d), a, b, c, d, x[8], 0x6fa87e4f, 6, r, x, 56);
    d := Md5Step(F4(a, b, c), d, a, b, c, x[15], 0xfe2ce6e0, 10, r, x, 57);
    c := Md5Step(F4(d, a, b), c, d, a, b, x[6], 0xa3014314, 15, r, x, 58);
    b := Md5Step(F4(c, d, a), b, c, d, a, x[13], 0x4e0811a1, 21, r, x, 59);
    a := Md5Step(F4(b, c, d), a, b, c, d, x[4], 0xf7537e82, 6, r, x, 60);
    d := Md5Step(F4(a, b, c), d, a, b, c, x[11], 0xbd3af235, 10, r, x, 61);
    c := Md5Step(F4(d, a, b), c, d, a, b, x[2], 0x2ad7d2bb, 15, r, x, 62);
    b := Md5Step(F4(c, d, a), b, c, d, a, x[9], 0xeb86d391, 21, r, x, 63);
  }

  /** Adds one block to the state. */
  method Transform(state: array<bv32>, block: seq<byte>)
    requires state.Length == 4 && |block| == 64
    modifies state
    ensures RegsOf(state) == Compress(old(RegsOf(state)), block)
  {
    hide Steps, Words, Plus;
    var x := Words(block);
    ghost var r := RegsOf(state);
    var a, b, c, d := state[0], state[1], state[2], state[3];
    ZeroSteps(r, x);
    a, b, c, d := Lines0(r, x, a, b, c, d);
    a, b, c, d := Lines8(r, x, a, b, c, d);
    a, b, c, d := Lines16(r, x, a, b, c, d);
    a, b, c, d := Lines24(r, x, a, b, c, d);
    a, b, c, d := Lines32(r, x, a, b, c, d);
    a, b, c, d := Lines40(r, x, a, b, c, d);
    a, b, c, d := Lines48(r, x, a, b, c, d);
    a, b, c, d := Lines56(r, x, a, b, c, d);
    state[0] := Plus(state[0], a);
    state[1] := Plus(state[1], b);
    state[2] := Plus(state[2], c);
    state[3] := Plus(state[3], d);
  }

  lemma ZeroSteps(r: Regs, x: seq<bv32>)
    requires |x| == 16
    ensures Steps(r, x, 0) == r
  {}

  function RegsOf(state: array<bv32>): Regs
    requires state.Length == 4
    reads state
  {
    Regs(state[0], state[1], state[2], state[3])
  }

  /* ---------- the context ---------- */

  /** The bytes of the buffer that are waiting for a full block. */
  function Have(count: nat): nat {
    (count / 8) % 64
  }

  /** The bit count of `n` bytes, as the context keeps it. */
  function Bits(n: nat): nat {
    8 * n % TWO64
  }

  /** The bit count determines how much is buffered although it wraps at 2^64. */
  lemma HaveIsTail(n: nat, k: nat)
    requires 64 * k <= n < 64 * k + 64
    ensures Have(Bits(n)) == n - 64 * k
  {
    var q := 8 * n / TWO64;
    var m := n - q * 0x2000_0000_0000_0000;
    assert Bits(n) == 8 * m;
    assert Bits(n) / 8 == m;
  }

  lemma BitsAdd(n: nat, len: nat)
    ensures (Bits(n) + Bits(len)) % TWO64 == Bits(n + len)
  {
    ModAdd(8 * n, 8 * len, TWO64);
    ModAdd(8 * len, Bits(n), TWO64);
  }

  lemma DropAppend(a: seq<byte>, b: seq<byte>, k: nat)
    requires k <= |a|
    ensures (a + b)[k..] == a[k..] + b
  {}

  class Context {
    const state: array<bv32>
    var count: nat
    const buffer: array<byte>
    /** All the bytes given to the context since `Init`, and how many blocks of them
        the state covers. */
    ghost var message: seq<byte>
    ghost var blocks: nat

    ghost predicate Shape() {
      state.Length == 4 && buffer.Length == 64
    }

    /** The count is the bit length modulo 2^64, the state covers the whole blocks,
        and the buffer begins with exactly the bytes not yet processed. */
    ghost predicate Valid()
      reads this, state, buffer
    {
      && Shape()
      && 64 * blocks <= |message|
      && count == Bits(|message|)
      && RegsOf(state) == After(message, blocks)
      && Buffered(message[64 * blocks..])
    }

    ghost predicate Buffered(rest: seq<byte>)
      requires Shape()
      reads buffer
    {
      |rest| < 64 && buffer[..|rest|] == rest
    }

    constructor ()
      ensures Shape() && fresh(state) && fresh(buffer)
    {
      state := new bv32[4];
      buffer := new byte[64];
    }

    method Init()
      requires Shape()
      modifies this, state
      ensures Valid() && message == []
    {
      count := 0;
      state[0] := 0x67452301;
      state[1] := 0xefcdab89;
      state[2] := 0x98badcfe;
      state[3] := 0x10325476;
      message, blocks := [], 0;
    }

    /** `memcpy(buffer + at, input, |input|)`. */
    method Fill(at: nat, input: seq<byte>)
      requires Shape() && at + |input| <= 64
      modifies buffer
      ensures buffer[..at + |input|] == old(buffer[..at]) + input
    {
      var k := 0;
      while k < |input|
        invariant k <= |input|
        invariant buffer[..at + k] == old(buffer[..at]) + input[..k]
      {
        buffer[at + k] := input[k];
        k := k + 1;
      }
    }

    /** The state covers the first `k` blocks of the message. */
    ghost predicate Covers(k: nat)
      reads this, state
    {
      Shape() && 64 * k <= |message| && RegsOf(state) == After(message, k)
    }

    /** Adds the next block of the message to the state. */
    method AddBlock(block: seq<byte>)
      requires Covers(blocks) && 64 * blocks + 64 <= |message|
      requires block == message[64 * blocks..64 * blocks + 64]
      modifies state, `blocks
      ensures Covers(blocks) && blocks == old(blocks) + 1
    {
      hide Compress, RegsOf;
      Transform(state, block);
      blocks := blocks + 1;
    }

    /** Adds whole blocks straight from the input, as long as there are any. */
    method AddBlocks(input: seq<byte>, from: nat) returns (pos: nat)
      requires Covers(blocks) && from <= |input| && input[from..] == message[64 * blocks..]
      modifies state, `blocks
      ensures Covers(blocks) && pos <= |input| < pos + 64 && input[pos..] == message[64 * blocks..]
    {
      hide After, RegsOf;
      pos := from;
      var len := |input| - pos;
      while len >= 64
        invariant pos + len == |input| && 0 <= len
        invariant Covers(blocks) && input[pos..] == message[64 * blocks..]
      {
        assert input[pos..pos + 64] == input[pos..][..64];
        assert input[pos + 64..] == input[pos..][64..];
        AddBlock(input[pos..pos + 64]);
        pos, len := pos + 64, len - 64;
      }
    }

    /** Fills up the buffered block from the input and adds it to the state. */
    method CompleteBlock(have: nat, input: seq<byte>)
      requires have < 64 && Covers(blocks) && |input| >= 64 - have
      requires message[64 * blocks..] == buffer[..have] + input
      modifies state, buffer, `blocks
      ensures Covers(blocks) && message[64 * blocks..] == input[64 - have..]
    {
      hide After, RegsOf;
      var need := 64 - have;
      ghost var rest := message[64 * blocks..];
      assert input == input[..need] + input[need..];
      Fill(have, input[..need]);
      assert buffer[..64] == buffer[..];
      assert rest == buffer[..] + input[need..];
      assert message[64 * blocks..64 * blocks + 64] == rest[..64];
      AddBlock(buffer[..]);
      assert message[64 * blocks..] == rest[64..];
    }

    /** Processes all whole blocks there are; what is left is buffered or still in the input. */
    method ProcessBlocks(have: nat, input: seq<byte>) returns (left: nat, pos: nat)
      requires have < 64 && Covers(blocks) && message[64 * blocks..] == buffer[..have] + input
      modifies state, buffer, `blocks
      ensures Covers(blocks) && left < 64 && pos <= |input| && left + (|input| - pos) < 64
      ensures message[64 * blocks..] == buffer[..left] + input[pos..]
    {
      hide After, RegsOf;
      left, pos := have, 0;
      var need := 64 - have;
      if |input| >= need {
        if have != 0 {
          CompleteBlock(have, input);
          left, pos := 0, need;
        }
        pos := AddBlocks(input, pos);
      }
    }

    /** Any number of bytes more. */
    method Update(input: seq<byte>)
      requires Valid()
      modifies this, state, buffer
      ensures Valid() && message == old(message) + input
    {
      hide After, RegsOf, Bits, Have;
      assert |message[64 * blocks..]| == |message| - 64 * blocks;
      HaveIsTail(|message|, blocks);
      BitsAdd(|message|, |input|);
      AfterAppend(message, input, blocks);
      DropAppend(message, input, 64 * blocks);
      var have := Have(count);
      count := (count + Bits(|input|)) % TWO64;
      message := message + input;
      var left, pos := ProcessBlocks(have, input);
      ghost var rest := message[64 * blocks..];
      if pos != |input| {
        Fill(left, input[pos..]);
      }
      assert Buffered(rest);
    }

    /** Pads the message to a multiple of 64 bytes, length included. */
    method Pad()
      requires Valid()
      modifies this, state, buffer
      ensures Valid() && message == old(message) + Padding(|old(message)|)
    {
      hide After, RegsOf, LE, Bits, Have;
      ghost var n := |message|;
      HaveIsTail(n, blocks);
      var bits := new byte[8];
      PutLE64(bits, count);
      var padlen := 64 - Have(count);
      if padlen < 1 + 8 {
        padlen := padlen + 64;
      }
      PaddingSplit(n, blocks, padlen);
      Update(PADDING[..padlen - 8]);
      Update(bits[..]);
      assert Valid();
      assert message == old(message) + (PADDING[..padlen - 8] + LE(Bits(n), 8));
    }

    /** Writes the state words where the digest goes. */
    method PutDigest(digest: array<byte>)
      requires Shape() && digest.Length == 16
      modifies digest
      ensures digest[..] == Output(RegsOf(state))
    {
      hide LE, LE32;
      PutLE32(digest, 0, state[0]);
      assert digest[..4] == LE32(state[0]);
      PutLE32(digest, 4, state[1]);
      assert digest[..8] == LE32(state[0]) + LE32(state[1]);
      PutLE32(digest, 8, state[2]);
      assert digest[..12] == LE32(state[0]) + LE32(state[1]) + LE32(state[2]);
      PutLE32(digest, 12, state[3]);
      assert digest[16..] == [];
    }

    /** Pads, writes the digest and wipes the context; without a place for the digest
        the context is only padded. */
    method Final(digest: array?<byte>)
      requires Valid()
      requires digest != null ==> digest.Length == 16 && digest != buffer
      modifies this, state, buffer, if digest != null then {digest} else {}
      ensures digest != null ==>
        && digest[..] == Digest(old(message))
        && state[..] == [0, 0, 0, 0] && count == 0 && buffer[..] == Zeros(64)
      ensures digest == null ==>
        Valid() && message == old(message) + Padding(|old(message)|)
    {
      hide After, Padding, Output, RegsOf, Bits, LE;
      ghost var padded := message + Padding(|message|);
      Pad();
      if digest != null {
        assert blocks == |padded| / 64;
        assert RegsOf(state) == After(padded, |padded| / 64);
        PutDigest(digest);
        Wipe();
      }
    }

    method Wipe()
      requires Shape()
      modifies this, state, buffer
      ensures count == 0 && state[..] == [0, 0, 0, 0] && buffer[..] == Zeros(64)
    {
      count := 0;
      forall i | 0 <= i < 4 { state[i] := 0; }
      forall i | 0 <= i < 64 { buffer[i] := 0; }
    }
  }

  const PADDING: seq<byte> := [0x80] + Zeros(63)

  /** What `Pad` feeds to `Update` is the standard's padding. */
  lemma PaddingSplit(n: nat, k: nat, padlen: nat)
    requires 64 * k <= n < 64 * k + 64
    requires padlen == (if n - 64 * k > 55 then 128 else 64) - (n - 64 * k)
    ensures 9 <= padlen <= 72
    ensures PADDING[..padlen - 8] + LE(Bits(n), 8) == Padding(n)
  {
    hide LE;
    assert (55 - n) % 64 == padlen - 9;
    assert PADDING[..padlen - 8] == [0x80] + Zeros(padlen - 9);
  }

  /** `PUT_64BIT_LE`. */
  method PutLE64(cp: array<byte>, value: nat)
    requires cp.Length == 8
    modifies cp
    ensures cp[..] == LE(value, 8)
  {
    hide ShiftBytes, LE;
    cp[7] := ShiftBytes(value, 7) % 256;
    cp[6] := ShiftBytes(value, 6) % 256;
    cp[5] := ShiftBytes(value, 5) % 256;
    cp[4] := ShiftBytes(value, 4) % 256;
    cp[3] := ShiftBytes(value, 3) % 256;
    cp[2] := ShiftBytes(value, 2) % 256;
    cp[1] := ShiftBytes(value, 1) % 256;
    cp[0] := ShiftBytes(value, 0) % 256;
    forall k | 0 <= k < 8 { LEAt(value, 8, k); }
  }

  /** `PUT_32BIT_LE` at an offset. */
  method PutLE32(cp: array<byte>, at: nat, word: bv32)
    requires at + 4 <= cp.Length
    modifies cp
    ensures cp[..] == old(cp[..at]) + LE32(word) + old(cp[at + 4..])
  {
    hide ShiftBytes, LE;
    var value := word as int;
    cp[at + 3] := ShiftBytes(value, 3) % 256;
    cp[at + 2] := ShiftBytes(value, 2) % 256;
    cp[at + 1] := ShiftBytes(value, 1) % 256;
    cp[at] := ShiftBytes(value, 0) % 256;
    forall k | 0 <= k < 4 { LEAt(value, 4, k); }
  }

  /* ---------- whole messages ---------- */

  /** The chunks put together. */
  function Flatten(chunks: seq<seq<byte>>): seq<byte> {
    if chunks == [] then [] else Flatten(chunks[..|chunks| - 1]) + chunks[|chunks| - 1]
  }

  /** Initialise, update with each chunk, finish: however a message is split, empty
      chunks included, the result is the one-shot digest of the whole. */
  method DigestOfChunks(chunks: seq<seq<byte>>) returns (digest: array<byte>)
    ensures digest[..] == Digest(Flatten(chunks))
  {
    var ctx := new Context();
    ctx.Init();
    for i := 0 to |chunks|
      invariant ctx.Valid() && ctx.message == Flatten(chunks[..i])
      invariant fresh(ctx) && fresh(ctx.state) && fresh(ctx.buffer)
    {
      assert chunks[..i + 1][..i] == chunks[..i];
      ctx.Update(chunks[i]);
    }
    assert chunks[..|chunks|] == chunks;
    digest := new byte[16];
    ctx.Final(digest);
  }

  const HEX: string := "0123456789abcdef"

  function HexDigit(v: nat): char
    requires v < 16
  {
    HEX[v]
  }

  /** Two lowercase digits a byte, high digit first. */
  function Hex(d: seq<byte>): (h: string)
    ensures |h| == 2 * |d|
  {
    if d == [] then []
    else
      var b := d[|d| - 1];
      Hex(d[..|d| - 1]) + [HexDigit(b / 16), HexDigit(b % 16)]
  }

  /** Writes the text of a digest, NUL included. */
  method PutHex(digest: array<byte>, ret: array<char>)
    requires digest.Length == 16 && ret.Length == 33
    modifies ret
    ensures ret[..] == Hex(digest[..]) + [0 as char]
  {
    hide HexDigit;
    var i := 0;
    while i < 16
      invariant 0 <= i <= 16
      invariant ret[..2 * i] == Hex(digest[..i])
    {
      ret[2 * i] := HexDigit(digest[i] / 16);
      ret[2 * i + 1] := HexDigit(digest[i] % 16);
      assert digest[..i + 1][..i] == digest[..i];
      i := i + 1;
    }
    ret[2 * i] := 0 as char;
    assert digest[..16] == digest[..];
  }

  /** `MD5Digest`: the digest of one message as text. */
  method DigestString(data: seq<byte>, ret: array<char>)
    requires ret.Length == 33
    modifies ret
    ensures ret[..] == Hex(Digest(data)) + [0 as char]
  {
    hide Hex, Digest;
    var ctx := new Context();
    var digest := new byte[16];
    ctx.Init();
    ctx.Update(data);
    assert ctx.message == data;
    ctx.Final(digest);
    PutHex(digest, ret);
  }

  /** The value of a digit. */
  function DigitValue(c: char): int {
    if '0' <= c <= '9' then c as int - '0' as int
    else if 'a' <= c <= 'f' then c as int - 'a' as int + 10
    else -1
  }

  /** The bytes whose text this is. */
  function Unhex(h: string): seq<int> {
    if |h| < 2 then []
    else Unhex(h[..|h| - 2]) + [16 * DigitValue(h[|h| - 2]) + DigitValue(h[|h| - 1])]
  }

  lemma {:induction false} UnhexOfHex(d: seq<byte>)
    ensures Unhex(Hex(d)) == d
  {
    hide *;
    if d == [] {
      NoText();
    } else {
      var front, last := d[..|d| - 1], d[|d| - 1];
      HexLast(d);
      UnhexOfHex(front);
      TwoDigits(last);
      UnhexAppend(Hex(front), HexDigit(last / 16), HexDigit(last % 16));
      assert d == front + [last];
    }
  }

  lemma NoText()
    ensures Hex([]) == [] && Unhex([]) == []
  {}

  lemma HexLast(d: seq<byte>)
    requires d != []
    ensures Hex(d) == Hex(d[..|d| - 1]) + [HexDigit(d[|d| - 1] / 16), HexDigit(d[|d| - 1] % 16)]
  {
    hide HexDigit;
  }

  /** Nothing but lowercase hexadecimal digits. */
  lemma {:induction false} HexDigitsOnly(d: seq<byte>, i: nat)
    requires i < 2 * |d|
    ensures Hex(d)[i] in HEX
  {
    var n := |d| - 1;
    if i < 2 * n {
      HexDigitsOnly(d[..n], i);
    }
  }

  lemma UnhexAppend(h: string, high: char, low: char)
    ensures Unhex(h + [high, low]) == Unhex(h) + [16 * DigitValue(high) + DigitValue(low)]
  {
    hide DigitValue;
    var t := h + [high, low];
    assert t[..|t| - 2] == h;
  }

  lemma TwoDigits(b: byte)
    ensures 16 * DigitValue(HexDigit(b / 16)) + DigitValue(HexDigit(b % 16)) == b
  {
    DigitRoundTrip(b / 16);
    DigitRoundTrip(b % 16);
  }

  lemma DigitRoundTrip(v: nat)
    requires v < 16
    ensures DigitValue(HexDigit(v)) == v
  {}

  /** The text determines the four final state words, so different digests have
      different texts. */
  lemma DigestTextFaithful(r: Regs, s: Regs)
    ensures Unhex(Hex(Output(r))) == Output(r)
    ensures Hex(Output(r)) == Hex(Output(s)) ==> r == s
  {
    hide Output, Hex, Unhex;
    UnhexOfHex(Output(r));
    UnhexOfHex(Output(s));
    OutputFaithful(r);
    OutputFaithful(s);
  }
}
