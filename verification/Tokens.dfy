/** The twelve-byte tokens of the distcc protocol: a name and a number in hexadecimal. */
module Tokens {
  import opened Bytes

  datatype Error = Disconnected | InvalidToken | ValueError | UnsupportedVersion

  datatype Decoded = Decoded(name: seq<byte>, size: int) | Rejected(error: Error)

  const HEADER_LEN: nat := 12

  const UNDERSCORE: byte := 95
  const ZERO: byte := 48

  /* ---------- '{0}{1:08x}'.format(name, val) ---------- */

  function DigitByte(d: nat): byte
    requires d < 16
  {
    if d < 10 then 48 + d else 87 + d
  }

  /** As few lowercase digits as possible. */
  function HexDigits(n: nat): (s: seq<byte>)
    ensures |s| > 0
  {
    if n < 16 then [DigitByte(n)] else HexDigits(n / 16) + [DigitByte(n % 16)]
  }

  function PadZeros(s: seq<byte>, width: nat): seq<byte>
    decreases width - |s|
  {
    if |s| >= width then s else PadZeros([ZERO] + s, width)
  }

  /** The sign counts towards the width of eight. */
  function Format08x(v: int): seq<byte> {
    if v >= 0 then PadZeros(HexDigits(v), 8) else [45] + PadZeros(HexDigits(-v), 7)
  }

  function Encode(name: seq<byte>, v: int): seq<byte> {
    name + Format08x(v)
  }

  /* ---------- int(token, 16) ---------- */

  predicate IsSpace(c: byte) { c == 32 || 9 <= c <= 13 }

  function Strip(s: seq<byte>): seq<byte> {
    if s != [] && IsSpace(s[0]) then Strip(s[1..])
    else if s != [] && IsSpace(s[|s| - 1]) then Strip(s[..|s| - 1])
    else s
  }

  /** -1 for anything that is not a hexadecimal digit of either case. */
  function DigitOf(c: byte): int {
    if 48 <= c <= 57 then c - 48
    else if 97 <= c <= 102 then c - 87
    else if 65 <= c <= 70 then c - 55
    else -1
  }

  datatype Number = NotANumber | Number(value: int)

  /** Digits, with single underscores allowed between them. */
  function Digits(s: seq<byte>): Number
    decreases |s|
  {
    var n := |s|;
    if n == 0 || DigitOf(s[n - 1]) < 0 then NotANumber
    else if n == 1 then Number(DigitOf(s[0]))
    else
      var high := Digits(if s[n - 2] == UNDERSCORE then s[..n - 2] else s[..n - 1]);
      if high.NotANumber? then NotANumber else Number(16 * high.value + DigitOf(s[n - 1]))
  }

  /** An optional `0x`, which may be followed by one underscore. */
  function Unprefixed(s: seq<byte>): Number {
    if |s| >= 2 && s[0] == ZERO && s[1] in {88, 120} then
      Digits(if |s| >= 3 && s[2] == UNDERSCORE then s[3..] else s[2..])
    else Digits(s)
  }

  function ParseHex(s: seq<byte>): Number {
    var t := Strip(s);
    if t != [] && t[0] == 45 then
      var n := Unprefixed(t[1..]);
      if n.NotANumber? then n else Number(-n.value)
    else if t != [] && t[0] == 43 then Unprefixed(t[1..])
    else Unprefixed(t)
  }

  /** `dcc_decode`. */
  function Decode(token: seq<byte>): Decoded {
    if |token| != HEADER_LEN then Rejected(InvalidToken)
    else
      var n := ParseHex(token[4..]);
      if n.NotANumber? then Rejected(ValueError) else Decoded(token[..4], n.value)
  }

  /* ---------- the codec ---------- */

  function Pow16(k: nat): nat {
    if k == 0 then 1 else 16 * Pow16(k - 1)
  }

  predicate AllDigits(s: seq<byte>) {
    forall i :: 0 <= i < |s| ==> DigitOf(s[i]) >= 0 && s[i] != UNDERSCORE && s[i] !in {88, 120, 43, 45} && !IsSpace(s[i])
  }

  lemma DigitOk(d: nat)
    requires d < 16
    ensures AllDigits([DigitByte(d)]) && DigitOf(DigitByte(d)) == d
  {}

  lemma DigitsAppend(s: seq<byte>, t: seq<byte>)
    requires AllDigits(s) && AllDigits(t)
    ensures AllDigits(s + t)
  {
    hide DigitOf, IsSpace;
  }

  /** One digit more. */
  function Shifted(high: Number, c: byte): Number {
    if high.NotANumber? then NotANumber else Number(16 * high.value + DigitOf(c))
  }

  lemma DigitsMore(s: seq<byte>, c: byte)
    requires s != [] && s[|s| - 1] != UNDERSCORE && DigitOf(c) >= 0
    ensures Digits(s + [c]) == Shifted(Digits(s), c)
  {
    hide DigitOf, IsSpace;
    assert (s + [c])[..|s|] == s;
  }

  lemma {:induction false} HexDigitsValue(n: nat)
    ensures AllDigits(HexDigits(n)) && Digits(HexDigits(n)) == Number(n)
  {
    DigitOk(n % 16);
    if n >= 16 {
      HexDigitsValue(n / 16);
      hide AllDigits, Digits, DigitByte, DigitOf;
      DigitsAppend(HexDigits(n / 16), [DigitByte(n % 16)]);
      DigitsMore(HexDigits(n / 16), DigitByte(n % 16));
    }
  }

  lemma {:induction false} HexDigitsLength(n: nat, k: nat)
    requires k > 0
    ensures |HexDigits(n)| <= k <==> n < Pow16(k)
    decreases n
  {
    if n >= 16 {
      if k > 1 {
        HexDigitsLength(n / 16, k - 1);
      } else {
        assert Pow16(1) == 16;
      }
    } else {
      assert Pow16(k) >= 16 by { Pow16Grows(k - 1); }
    }
  }

  lemma {:induction false} Pow16Grows(k: nat)
    ensures Pow16(k) >= 1
  {
    if k > 0 {
      Pow16Grows(k - 1);
    }
  }

  lemma {:induction false} LeadingZero(s: seq<byte>)
    requires AllDigits(s) && s != []
    ensures AllDigits([ZERO] + s) && Digits([ZERO] + s) == Digits(s)
  {
    var n := |s| - 1;
    var front, last := s[..n], s[n];
    DigitOk(0);
    DigitsAppend([ZERO], s);
    assert s == front + [last] && [ZERO] + s == ([ZERO] + front) + [last];
    if n > 0 {
      LeadingZero(front);
      hide AllDigits, Digits, DigitOf;
      LastDigit(s);
      DigitsMore(front, last);
      DigitsMore([ZERO] + front, last);
    } else {
      assert [ZERO] + front == [ZERO] && s == [last];
      DigitsMore([ZERO], last);
      assert Digits([ZERO]) == Number(0);
    }
  }

  lemma LastDigit(s: seq<byte>)
    requires AllDigits(s) && s != []
    ensures DigitOf(s[|s| - 1]) >= 0 && AllDigits(s[..|s| - 1])
  {}

  lemma {:induction false} PadZerosValue(s: seq<byte>, width: nat)
    requires AllDigits(s) && s != []
    ensures AllDigits(PadZeros(s, width)) && Digits(PadZeros(s, width)) == Digits(s)
    ensures |PadZeros(s, width)| == if |s| >= width then |s| else width
    decreases width - |s|
  {
    if |s| < width {
      LeadingZero(s);
      PadZerosValue([ZERO] + s, width);
    }
  }

  lemma Widths16()
    ensures Pow16(7) == 0x1000_0000 && Pow16(8) == 0x1_0000_0000
  {
    assert Pow16(4) == 0x1_0000;
    assert Pow16(8) == 16 * (16 * (16 * (16 * Pow16(4))));
  }

  /** Digits, signed or not, mean what they say. */
  lemma ParsePlain(s: seq<byte>)
    requires AllDigits(s) && s != []
    ensures ParseHex(s) == Digits(s)
    ensures Digits(s).Number? ==> ParseHex([45] + s) == Number(-Digits(s).value)
    ensures Digits(s).NotANumber? ==> ParseHex([45] + s) == NotANumber
  {
    var t := [45] + s;
    assert t[|t| - 1] == s[|s| - 1];
    assert Strip(t) == t && t[1..] == s;
    assert Strip(s) == s;
    assert s[0] !in {43, 45};
  }

  /** The values a token can carry. */
  predicate Representable(v: int) {
    -0xfff_ffff <= v <= 0xffff_ffff
  }

  /** Decoding inverts encoding exactly for the representable values; any other value
      makes the token longer than twelve bytes, which decoding rejects. */
  lemma CodecRange(name: seq<byte>, v: int)
    requires |name| == 4
    ensures |Encode(name, v)| == HEADER_LEN <==> Representable(v)
    ensures Decode(Encode(name, v)) ==
            if Representable(v) then Decoded(name, v) else Rejected(InvalidToken)
  {
    var n, width := if v >= 0 then v else -v, if v >= 0 then 8 else 7;
    HexDigitsValue(n);
    HexDigitsLength(n, width);
    Widths16();
    hide Pow16, HexDigits, PadZeros, ParseHex, Digits;
    var s := PadZeros(HexDigits(n), width);
    PadZerosValue(HexDigits(n), width);
    ParsePlain(s);
    assert Encode(name, v)[..4] == name && Encode(name, v)[4..] == Format08x(v);
  }

  /* ---------- what exactly is written, and what else is read ---------- */

  predicate IsLowerDigit(c: byte) { '0' as int <= c <= '9' as int || 'a' as int <= c <= 'f' as int }

  lemma {:induction false} HexDigitsLower(n: nat)
    ensures forall i :: 0 <= i < |HexDigits(n)| ==> IsLowerDigit(HexDigits(n)[i])
  {
    if n >= 16 {
      HexDigitsLower(n / 16);
    }
  }

  lemma {:induction false} PadZerosLower(s: seq<byte>, width: nat)
    requires forall i :: 0 <= i < |s| ==> IsLowerDigit(s[i])
    ensures forall i :: 0 <= i < |PadZeros(s, width)| ==> IsLowerDigit(PadZeros(s, width)[i])
    decreases width - |s|
  {
    if |s| < width {
      PadZerosLower([ZERO] + s, width);
    }
  }

  /** Only lowercase digits are written, after a minus sign if the number is negative. */
  lemma WrittenLower(v: int)
    ensures var s := Format08x(v);
      && s != [] && (v < 0 <==> s[0] == '-' as int)
      && forall i :: (if v < 0 then 1 else 0) <= i < |s| ==> IsLowerDigit(s[i])
  {
    var n, width := if v >= 0 then v else -v, if v >= 0 then 8 else 7;
    HexDigitsLower(n);
    HexDigitsValue(n);
    PadZerosLower(HexDigits(n), width);
    PadZerosValue(HexDigits(n), width);
    hide HexDigits, PadZeros, Digits, AllDigits;
    var s := PadZeros(HexDigits(n), width);
    assert v < 0 ==> Format08x(v)[1..] == s;
  }

  /** Zeros are put in front. */
  lemma {:induction false} Padded(s: seq<byte>, zeros: seq<byte>)
    requires forall i :: 0 <= i < |zeros| ==> zeros[i] == ZERO
    ensures PadZeros(s, |zeros| + |s|) == zeros + s
    decreases |zeros|
  {
    if zeros != [] {
      var n := |zeros| - 1;
      Padded([ZERO] + s, zeros[..n]);
      assert zeros == zeros[..n] + [ZERO];
      assert zeros + s == zeros[..n] + ([ZERO] + s);
    }
  }

  /** The digits of both cases, and nothing else, have a value. */
  lemma DigitsOfBothCases(c: byte)
    ensures '0' as int <= c <= '9' as int ==> DigitOf(c) == c - '0' as int
    ensures 'a' as int <= c <= 'f' as int ==> DigitOf(c) == 10 + c - 'a' as int
    ensures 'A' as int <= c <= 'F' as int ==> DigitOf(c) == 10 + c - 'A' as int
    ensures DigitOf(c) >= 0 ==> IsLowerDigit(c) || 'A' as int <= c <= 'F' as int
  {}

  lemma {:induction false} StripLast(s: seq<byte>, c: byte)
    requires IsSpace(c)
    ensures Strip(s + [c]) == Strip(s)
  {
    var t := s + [c];
    if s == [] {
      assert t[1..] == [];
    } else if IsSpace(s[0]) {
      assert t[1..] == s[1..] + [c];
      StripLast(s[1..], c);
    } else {
      assert t[..|t| - 1] == s;
    }
  }

  /** Spaces, tabs and line breaks around a number are skipped. */
  lemma SpacesSkipped(s: seq<byte>, c: byte)
    requires c in {9, 10, 11, 12, 13, 32}
    ensures ParseHex([c] + s) == ParseHex(s) == ParseHex(s + [c])
  {
    StripLast(s, c);
    assert ([c] + s)[1..] == s;
  }

  /** A plus sign changes nothing, and neither does a prefix of either case. */
  lemma PlusSkipped(s: seq<byte>)
    requires AllDigits(s) && s != []
    ensures ParseHex(['+' as int] + s) == ParseHex(s)
  {
    ParsePlain(s);
    var plus := ['+' as int] + s;
    assert plus[|plus| - 1] == s[|s| - 1] && plus[1..] == s;
    assert Strip(plus) == plus && Unprefixed(s) == Digits(s);
  }

  lemma PrefixSkipped(s: seq<byte>, x: char)
    requires AllDigits(s) && s != [] && x in {'x', 'X'}
    ensures ParseHex(['0' as int, x as int] + s) == ParseHex(s)
    ensures ParseHex(['0' as int, x as int, '_' as int] + s) == ParseHex(s)
  {
    ParsePlain(s);
    var zero, under := ['0' as int, x as int] + s, ['0' as int, x as int, '_' as int] + s;
    assert zero[|zero| - 1] == s[|s| - 1] && zero[2..] == s && zero[2] == s[0];
    assert under[|under| - 1] == s[|s| - 1] && under[3..] == s;
    assert Strip(zero) == zero && Strip(under) == under;
    hide Digits, DigitOf, Strip;
  }

  /** So does a single underscore between digits. */
  lemma {:induction false} UnderscoreSkipped(a: seq<byte>, b: seq<byte>)
    requires AllDigits(a) && AllDigits(b) && a != [] && b != []
    ensures Digits(a + (['_' as int] + b)) == Digits(a + b)
    decreases |b|
  {
    var n := |b| - 1;
    var front, last := b[..n], b[n];
    assert b == front + [last];
    if n == 0 {
      assert [UNDERSCORE] + b == [UNDERSCORE, last];
      DigitsOver(a, last);
      DigitsMore(a, last);
    } else {
      UnderscoreSkipped(a, front);
      var s, t := a + ([UNDERSCORE] + front), a + front;
      assert s[|s| - 1] == t[|t| - 1] == front[n - 1];
      assert a + ([UNDERSCORE] + b) == s + [last] && a + b == t + [last];
      hide Digits, DigitOf;
      DigitsMore(s, last);
      DigitsMore(t, last);
    }
  }

  lemma DigitsOver(a: seq<byte>, c: byte)
    requires AllDigits(a) && a != [] && DigitOf(c) >= 0
    ensures Digits(a + [UNDERSCORE, c]) == Shifted(Digits(a), c)
  {
    hide DigitOf, AllDigits;
    var s := a + [UNDERSCORE, c];
    assert s[..|s| - 2] == a;
  }

  /** Underscores anywhere else are refused: at either end, or two in a row. */
  lemma UnderscoreMisplaced(a: seq<byte>, b: seq<byte>)
    ensures Digits(a + ['_' as int]).NotANumber?
    ensures Digits(['_' as int] + b).NotANumber?
    ensures Digits(a + ['_' as int, '_' as int] + b).NotANumber?
    decreases |b|
  {
    UnderscoreFirst(b);
    UnderscoreTwice(a, b);
  }

  lemma {:induction false} UnderscoreFirst(b: seq<byte>)
    ensures Digits(['_' as int] + b).NotANumber?
    decreases |b|
  {
    var s := [UNDERSCORE] + b;
    var n := |s|;
    if n > 1 && DigitOf(s[n - 1]) >= 0 {
      if s[n - 2] == UNDERSCORE {
        if n > 2 {
          assert s[..n - 2] == [UNDERSCORE] + b[..n - 3];
          UnderscoreFirst(b[..n - 3]);
        }
      } else {
        assert s[..n - 1] == [UNDERSCORE] + b[..n - 2];
        UnderscoreFirst(b[..n - 2]);
      }
    }
  }

  lemma {:induction false} UnderscoreTwice(a: seq<byte>, b: seq<byte>)
    ensures Digits(a + ['_' as int, '_' as int] + b).NotANumber?
    decreases |b|
  {
    var m, s := |b|, a + [UNDERSCORE, UNDERSCORE] + b;
    var n := |s|;
    if m == 0 {
      assert s[n - 1] == UNDERSCORE;
    } else if DigitOf(s[n - 1]) >= 0 {
      if s[n - 2] == UNDERSCORE {
        if m == 1 {
          assert s[..n - 2] == a + [UNDERSCORE];
        } else {
          assert s[..n - 2] == a + [UNDERSCORE, UNDERSCORE] + b[..m - 2];
          UnderscoreTwice(a, b[..m - 2]);
        }
      } else {
        assert s[..n - 1] == a + [UNDERSCORE, UNDERSCORE] + b[..m - 1];
        UnderscoreTwice(a, b[..m - 1]);
      }
    }
  }

  /** A byte that no number contains. */
  predicate Foreign(c: byte) {
    DigitOf(c) < 0 && c !in {9, 10, 11, 12, 13, 32, '_' as int, '+' as int, '-' as int, 'x' as int, 'X' as int}
  }

  lemma {:induction false} DigitsForeign(s: seq<byte>, i: nat)
    requires i < |s| && Foreign(s[i])
    ensures Digits(s).NotANumber?
    decreases |s|
  {
    var n := |s|;
    if n > 1 && DigitOf(s[n - 1]) >= 0 {
      if s[n - 2] == UNDERSCORE {
        DigitsForeign(s[..n - 2], i);
      } else {
        DigitsForeign(s[..n - 1], i);
      }
    }
  }

  lemma {:induction false} StripKeeps(s: seq<byte>, i: nat) returns (j: nat)
    requires i < |s| && Foreign(s[i])
    ensures j < |Strip(s)| && Strip(s)[j] == s[i]
  {
    if IsSpace(s[0]) {
      j := StripKeeps(s[1..], i - 1);
    } else if IsSpace(s[|s| - 1]) {
      j := StripKeeps(s[..|s| - 1], i);
    } else {
      j := i;
    }
  }

  /** Anything with a foreign byte in it is no number. */
  lemma ForeignRefused(s: seq<byte>, i: nat)
    requires i < |s| && Foreign(s[i])
    ensures ParseHex(s).NotANumber?
  {
    var j := StripKeeps(s, i);
    var t := Strip(s);
    var k: nat := if t[0] in {43, 45} then 1 else 0;
    UnprefixedForeign(t[k..], j - k);
  }

  lemma UnprefixedForeign(s: seq<byte>, i: nat)
    requires i < |s| && Foreign(s[i])
    ensures Unprefixed(s).NotANumber?
  {
    if |s| >= 2 && s[0] == ZERO && s[1] in {88, 120} {
      if |s| >= 3 && s[2] == UNDERSCORE {
        DigitsForeign(s[3..], i - 3);
      } else {
        DigitsForeign(s[2..], i - 2);
      }
    } else {
      DigitsForeign(s, i);
    }
  }

  /** Nothing, spaces only, or a sign alone are no numbers either. */
  lemma NothingRefused()
    ensures ParseHex([]).NotANumber? && ParseHex(['-' as int]).NotANumber?
    ensures ParseHex(['0' as int, 'x' as int]).NotANumber?
  {}
}
