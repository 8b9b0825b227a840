/** Bytes and little-endian integers. */
module Bytes {
  type byte = x: int | 0 <= x < 256

  const TWO64: int := 0x1_0000_0000_0000_0000

  function Pow256(n: nat): (r: nat)
    ensures r > 0
  {
    if n == 0 then 1 else 256 * Pow256(n - 1)
  }

  /** The low `n` bytes of `v`, least significant first. */
  function LE(v: int, n: nat): (r: seq<byte>)
    ensures |r| == n
    decreases n
  {
    if n == 0 then [] else [v % 256] + LE(v / 256, n - 1)
  }

  /** The integer whose little-endian bytes these are. */
  function FromLE(s: seq<byte>): (r: nat)
    ensures r < Pow256(|s|)
  {
    if s == [] then 0 else s[0] + 256 * FromLE(s[1..])
  }

  /** `v >> 8*k`. */
  function ShiftBytes(v: int, k: nat): (r: int)
    ensures v >= 0 ==> r >= 0
    decreases k
  {
    if k == 0 then v else ShiftBytes(v / 256, k - 1)
  }

  lemma {:induction false} LEAt(v: int, n: nat, k: nat)
    requires k < n
    ensures LE(v, n)[k] == ShiftBytes(v, k) % 256
    decreases k
  {
    if k > 0 {
      LEAt(v / 256, n - 1, k - 1);
    }
  }

  /** Reading back keeps the value modulo the width, negative values included. */
  lemma {:induction false} FromLEofLE(v: int, n: nat)
    ensures FromLE(LE(v, n)) == v % Pow256(n)
    decreases n
  {
    if n > 0 {
      FromLEofLE(v / 256, n - 1);
      assert LE(v, n)[1..] == LE(v / 256, n - 1);
      ModSplit(v, Pow256(n - 1));
    }
  }

  lemma ModSplit(v: int, m: nat)
    requires m > 0
    ensures v % (256 * m) == v % 256 + 256 * ((v / 256) % m)
  {
    var h := v / 256;
    assert v == 256 * (m * (h / m) + h % m) + v % 256;
    DivUnique(v, 256 * m, h / m, v % 256 + 256 * (h % m));
  }

  /** Euclidean remainders are unique. */
  lemma DivUnique(v: int, m: nat, q: int, r: nat)
    requires r < m && v == m * q + r
    ensures v / m == q && v % m == r
  {
    var d := q - v / m;
    assert m * d == v % m - r by {
      assert v == m * (v / m) + v % m;
      assert m * d == m * q - m * (v / m);
    }
    MulAway(m, d);
  }

  lemma MulAway(m: nat, d: int)
    ensures d > 0 ==> m * d >= m
    ensures d < 0 ==> m * d + m <= 0
  {
    if d > 0 {
      assert m * (d - 1) >= 0;
    } else if d < 0 {
      assert m * (-d - 1) >= 0;
    }
  }

  lemma {:induction false} LEofFromLE(s: seq<byte>)
    ensures LE(FromLE(s), |s|) == s
  {
    if s != [] {
      var low, high := s[0], FromLE(s[1..]);
      LEofFromLE(s[1..]);
      DivUnique(low + 256 * high, 256, high, low);
      assert s == [low] + s[1..];
    }
  }

  /** Values that fit are told apart by their bytes. */
  lemma LEInjective(v: nat, w: nat, n: nat)
    requires v < Pow256(n) && w < Pow256(n) && LE(v, n) == LE(w, n)
    ensures v == w
  {
    FromLEofLE(v, n);
    FromLEofLE(w, n);
    hide LE, FromLE, Pow256;
    SmallRemainder(v, Pow256(n));
    SmallRemainder(w, Pow256(n));
  }

  lemma SmallRemainder(v: nat, m: nat)
    requires v < m
    ensures v % m == v
  {}

  /** Only the value modulo the width reaches the bytes. */
  lemma LEWraps(v: int, n: nat)
    ensures LE(v, n) == LE(v % Pow256(n), n)
  {
    FromLEofLE(v, n);
    LEofFromLE(LE(v, n));
  }

  /** The widths of the C integer types. */
  lemma Widths()
    ensures Pow256(1) == 0x100
    ensures Pow256(2) == 0x1_0000
    ensures Pow256(4) == 0x1_0000_0000
    ensures Pow256(8) == 0x1_0000_0000_0000_0000
  {
    assert Pow256(4) == 0x1_0000_0000;
    assert Pow256(8) == 256 * (256 * (256 * (256 * Pow256(4))));
  }

  /** Wrapping early or late is the same. */
  lemma ModAdd(a: int, b: int, m: nat)
    requires m > 0
    ensures (a % m + b) % m == (a + b) % m
  {
    var q, t := a / m, a % m + b;
    assert a == m * q + a % m;
    assert t == m * (t / m) + t % m;
    assert a + b == m * (q + t / m) + t % m by {
      assert m * (q + t / m) == m * q + m * (t / m);
    }
    DivUnique(a + b, m, q + t / m, t % m);
  }
}
