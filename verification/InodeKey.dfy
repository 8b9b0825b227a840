/** The cache key of a file: 32 bytes computed from its inode, once in C and once in Python. */
module InodeKey {
  import opened Bytes
  import opened Sequences

  /** What `stat` returns.  The kernel keeps the nanoseconds below 10^9. */
  datatype Stat = Stat(dev: int, ino: int, size: int, sec: int, nsec: int)
  {
    predicate Valid() { 0 <= nsec < 1_000_000_000 }

    /** Modification time in microseconds, rounded down. */
    function Micros(): int { (1_000_000_000 * sec + nsec) / 1000 }
  }

  const VERSION: int := 1

  /* ---------- the packed C struct ---------- */

  const TWO16: int := 0x1_0000
  const TWO32: int := 0x1_0000_0000

  /** `struct ino_hash` on a little-endian host; every field wraps at its width. */
  class InoHash {
    var version: int
    var kind: int
    var dev: int
    var ino: int
    var size: int
    var mtime: int

    function Image(): (b: seq<byte>)
      reads this
      ensures |b| == 32
    {
      LE(version, 2) + LE(kind, 2) + LE(dev, 4) + LE(ino, 8) + LE(size, 8) + LE(mtime, 8)
    }

    /** The part of `hash_inode` that fills the struct; `int64_t` does not overflow
        for times within 292 thousand years. */
    method Fill(k: int, st: Stat)
      requires 0 <= k < TWO16 && st.Valid()
      requires -0x8000_0000_0000_0000 <= 1_000_000 * st.sec < 0x8000_0000_0000_0000
      modifies this
      ensures Image() == CKey(k, st)
    {
      version := VERSION;
      kind := k;
      dev := st.dev % TWO32;
      ino := st.ino % TWO64;
      size := st.size % TWO64;
      mtime := 1_000_000 * st.sec % TWO64;
      mtime := (mtime + st.nsec / 1000) % TWO64;
      Widths();
      hide LE, Pow256;
      MtimeWraps(st);
      LEWraps(st.dev, 4);
      LEWraps(st.ino, 8);
      LEWraps(st.size, 8);
      LEWraps(st.Micros(), 8);
    }
  }

  /** What the C code hashes. */
  function CKey(kind: int, st: Stat): (b: seq<byte>)
    ensures |b| == 32
  {
    LE(VERSION, 2) + LE(kind, 2) + LE(st.dev, 4) + LE(st.ino, 8) + LE(st.size, 8) + LE(st.Micros(), 8)
  }

  /** The two ways of computing microseconds agree, up to wrapping. */
  lemma MtimeWraps(st: Stat)
    requires st.Valid()
    ensures 1_000_000 * st.sec + st.nsec / 1000 == st.Micros()
    ensures (1_000_000 * st.sec % TWO64 + st.nsec / 1000) % TWO64 == st.Micros() % TWO64
  {
    ModAdd(1_000_000 * st.sec, st.nsec / 1000, TWO64);
  }

  /* ---------- the Python tuple ---------- */

  /** `int.to_bytes(n, 'little')`: raises on negative values and overflow. */
  function ToBytes(v: int, n: nat): Option<seq<byte>> {
    if 0 <= v < Pow256(n) then Some(LE(v, n)) else None
  }

  /** The joined tuple; evaluating any of its parts may raise. */
  function PyKey(kind: int, st: Stat): Option<seq<byte>> {
    var version, k, dev := ToBytes(VERSION, 2), ToBytes(kind, 2), ToBytes(st.dev, 4);
    var ino, size := ToBytes(st.ino, 8), ToBytes(st.size, 8);
    var mtime := ToBytes((1_000_000_000 * st.sec + st.nsec) / 1000, 8);
    if version.None? || k.None? || dev.None? || ino.None? || size.None? || mtime.None? then None
    else Some(version.value + k.value + dev.value + ino.value + size.value + mtime.value)
  }

  /** All fields are non-negative and fit their widths. */
  predicate Fits(kind: int, st: Stat) {
    && 0 <= kind < TWO16
    && 0 <= st.dev < TWO32
    && 0 <= st.ino < TWO64
    && 0 <= st.size < TWO64
    && 0 <= st.Micros() < TWO64
  }

  /** One key, two implementations: Python computes the C bytes exactly when every
      field fits, and raises otherwise (where C wraps around). */
  lemma KeysAgree(kind: int, st: Stat)
    ensures PyKey(kind, st) == if Fits(kind, st) then Some(CKey(kind, st)) else None
  {
    Widths();
    hide LE, Pow256;
  }

  /** Where the fields are. */
  lemma KeyFields(kind: int, st: Stat)
    ensures var b := CKey(kind, st);
      && b[2..4] == LE(kind, 2) && b[4..8] == LE(st.dev, 4) && b[8..16] == LE(st.ino, 8)
      && b[16..24] == LE(st.size, 8) && b[24..] == LE(st.Micros(), 8)
  {
    hide LE;
    var b, mtime := CKey(kind, st), LE(st.Micros(), 8);
    assert |mtime| == 8 && b[24..] == mtime;
  }

  /** Every key begins with version 1. */
  lemma KeyVersion(kind: int, st: Stat)
    ensures CKey(kind, st)[..2] == [1, 0]
  {
    assert LE(1 / 256, 1) == [0] && LE(1, 2) == [1, 0];
    hide LE;
    assert CKey(kind, st)[..2] == LE(VERSION, 2);
  }

  /** Different files have different keys. */
  lemma KeyInjective(k1: int, s1: Stat, k2: int, s2: Stat)
    requires Fits(k1, s1) && Fits(k2, s2) && CKey(k1, s1) == CKey(k2, s2)
    ensures k1 == k2 && s1.dev == s2.dev && s1.ino == s2.ino && s1.size == s2.size
    ensures s1.Micros() == s2.Micros()
  {
    Widths();
    KeyFields(k1, s1);
    KeyFields(k2, s2);
    hide LE, Pow256, CKey;
    LEInjective(k1, k2, 2);
    LEInjective(s1.dev, s2.dev, 4);
    LEInjective(s1.ino, s2.ino, 8);
    LEInjective(s1.size, s2.size, 8);
    LEInjective(s1.Micros(), s2.Micros(), 8);
  }
}
