/** Machine words, byte strings and the textual encodings used by the chain:
    fixed-width little- and big-endian integers, hexadecimal and decimal text. */
module Encoding {
  type Byte = x: int | 0 <= x < 0x100
  type Bytes = seq<Byte>
  type U64 = x: int | 0 <= x < 0x1_0000_0000_0000_0000
  type I64 = x: int | -0x8000_0000_0000_0000 <= x < 0x8000_0000_0000_0000

  /** Unsigned 64-bit wrap-around. */
  function Wrap(x: int): U64 { x % 0x1_0000_0000_0000_0000 }

  /** Wrapping an intermediate sum changes nothing. */
  lemma WrapAdd(x: int, y: int)
    ensures Wrap(Wrap(x) + y) == Wrap(x + y)
  {}

  lemma WrapSmall(x: U64)
    ensures Wrap(x) == x
  {}

  lemma WrapCancel(x: int, y: int)
    requires Wrap(x) == Wrap(y) && 0 <= y - x < 0x1_0000_0000_0000_0000
    ensures x == y
  {}

  /** The conversion uint64(int64): two's complement. */
  function TwosComplement(x: I64): (r: U64)
    ensures 0 <= x ==> r == x
    ensures x < 0 ==> r == x + 0x1_0000_0000_0000_0000
  {
    Wrap(x)
  }

  /** The low 64 bits of an integer as an int64. */
  function ToI64(x: int): I64 {
    if Wrap(x) < 0x8000_0000_0000_0000 then Wrap(x) else Wrap(x) - 0x1_0000_0000_0000_0000
  }

  lemma ToI64Exact(x: I64)
    ensures ToI64(x) == x
  {}

  /** Two integers are the same int64 exactly when they agree modulo 2^64. */
  lemma ToI64Modulo(x: int, y: int)
    ensures ToI64(x) == ToI64(y) <==> (x - y) % 0x1_0000_0000_0000_0000 == 0
  {}

  lemma ToI64Offset(x: int) returns (q: int)
    ensures ToI64(x) == x + q * 0x1_0000_0000_0000_0000
  {
    q := -(x / 0x1_0000_0000_0000_0000) - if Wrap(x) < 0x8000_0000_0000_0000 then 0 else 1;
  }

  lemma MultipleVanishes(q: int)
    ensures (q * 0x1_0000_0000_0000_0000) % 0x1_0000_0000_0000_0000 == 0
  {}

  lemma ToI64Difference(x: int, y: int)
    ensures ToI64(ToI64(x) - ToI64(y)) == ToI64(x - y)
  {
    hide ToI64;
    var q := ToI64Offset(x);
    var r := ToI64Offset(y);
    assert ToI64(x) - ToI64(y) - (x - y) == (q - r) * 0x1_0000_0000_0000_0000;
    MultipleVanishes(q - r);
    ToI64Modulo(ToI64(x) - ToI64(y), x - y);
  }

  ghost function Pow256(k: nat): (r: nat)
    ensures r >= 1
  {
    if k == 0 then 1 else 256 * Pow256(k - 1)
  }

  lemma Pow256Of8()
    ensures Pow256(8) == 0x1_0000_0000_0000_0000
  {
    assert Pow256(4) == 0x1_0000_0000;
    assert Pow256(8) == 256 * (256 * (256 * (256 * Pow256(4))));
  }

  // ---------- little-endian ----------

  function LittleEndian(n: nat, width: nat): (b: Bytes)
    ensures |b| == width
  {
    if width == 0 then [] else [n % 256] + LittleEndian(n / 256, width - 1)
  }

  lemma {:induction false} LittleEndianInjective(m: nat, n: nat, width: nat)
    requires m < Pow256(width) && n < Pow256(width)
    requires LittleEndian(m, width) == LittleEndian(n, width)
    ensures m == n
  {
    if width > 0 {
      var a, b := LittleEndian(m, width), LittleEndian(n, width);
      assert a[1..] == LittleEndian(m / 256, width - 1) && b[1..] == LittleEndian(n / 256, width - 1);
      assert a[0] == m % 256 && b[0] == n % 256;
      LittleEndianInjective(m / 256, n / 256, width - 1);
    }
  }

  /** binary.LittleEndian.PutUint64 into a fresh 8-byte buffer. */
  function LE64(n: U64): (b: Bytes)
    ensures |b| == 8
  {
    LittleEndian(n, 8)
  }

  lemma LE64Injective(m: U64, n: U64)
    requires LE64(m) == LE64(n)
    ensures m == n
  {
    Pow256Of8();
    LittleEndianInjective(m, n, 8);
  }

  /** What a little-endian string stands for: the first byte counts least. */
  function LittleEndianValue(b: Bytes): nat { if b == [] then 0 else b[0] + 256 * LittleEndianValue(b[1..]) }

  lemma {:induction false} LittleEndianRoundTrip(n: nat, width: nat)
    requires n < Pow256(width)
    ensures LittleEndianValue(LittleEndian(n, width)) == n
  {
    if width > 0 {
      var b := LittleEndian(n, width);
      assert b[1..] == LittleEndian(n / 256, width - 1) && b[0] == n % 256;
      QuotientBound(n, width);
      LittleEndianRoundTrip(n / 256, width - 1);
    }
  }

  lemma LE64RoundTrip(n: U64)
    ensures LittleEndianValue(LE64(n)) == n
  {
    Pow256Of8();
    LittleEndianRoundTrip(n, 8);
  }

  // ---------- big-endian ----------

  function BigEndian(n: nat, width: nat): (b: Bytes)
    ensures |b| == width
  {
    if width == 0 then [] else BigEndian(n / 256, width - 1) + [n % 256]
  }

  function BigEndianValue(b: Bytes): nat {
    if b == [] then 0 else 256 * BigEndianValue(b[..|b| - 1]) + b[|b| - 1]
  }

  lemma QuotientBound(n: nat, width: nat)
    requires width > 0 && n < Pow256(width)
    ensures n / 256 < Pow256(width - 1)
  {}

  lemma {:induction false} BigEndianRoundTrip(n: nat, width: nat)
    requires n < Pow256(width)
    ensures BigEndianValue(BigEndian(n, width)) == n
  {
    if width > 0 {
      var b := BigEndian(n, width);
      assert b[..|b| - 1] == BigEndian(n / 256, width - 1) && b[|b| - 1] == n % 256;
      QuotientBound(n, width);
      BigEndianRoundTrip(n / 256, width - 1);
    }
  }

  lemma {:induction false} BigEndianValueBound(b: Bytes)
    ensures BigEndianValue(b) < Pow256(|b|)
  {
    if b != [] {
      BigEndianValueBound(b[..|b| - 1]);
    }
  }

  /** binary.BigEndian.PutUint64. */
  function BE64(n: U64): (b: Bytes)
    ensures |b| == 8
  {
    BigEndian(n, 8)
  }

  /** binary.BigEndian.Uint64 on an 8-byte value. */
  function FromBE64(b: Bytes): (n: U64)
    requires |b| == 8
  {
    BigEndianValueBound(b); Pow256Of8();
    BigEndianValue(b)
  }

  lemma BE64RoundTrip(n: U64)
    ensures FromBE64(BE64(n)) == n
  {
    Pow256Of8();
    BigEndianRoundTrip(n, 8);
  }

  // ---------- text ----------

  function DigitChar(d: nat): (c: char)
    requires d < 10
  {
    "0123456789"[d]
  }

  function HexChar(d: nat): char
    requires d < 16
  {
    "0123456789abcdef"[d]
  }

  /** The %d rendering of an unsigned integer. */
  function Decimal(n: nat): (s: string)
    ensures s != [] && '0' <= s[0] <= '9'
  {
    if n < 10 then [DigitChar(n)] else Decimal(n / 10) + [DigitChar(n % 10)]
  }

  lemma {:induction false} DecimalInjective(m: nat, n: nat)
    requires Decimal(m) == Decimal(n)
    ensures m == n
  {
    var s, t := Decimal(m), Decimal(n);
    assert s[|s| - 1] == DigitChar(m % 10) && t[|t| - 1] == DigitChar(n % 10);
    assert m % 10 == n % 10;
    if m >= 10 && n >= 10 {
      assert s[..|s| - 1] == Decimal(m / 10) && t[..|t| - 1] == Decimal(n / 10);
      DecimalInjective(m / 10, n / 10);
    }
  }

  /** hex.EncodeToString: two digits a byte. */
  function Hex(b: Bytes): (s: string)
    ensures |s| == 2 * |b|
  {
    if b == [] then [] else [HexChar(b[0] / 16), HexChar(b[0] % 16)] + Hex(b[1..])
  }

  lemma HexCharInjective(c: nat, d: nat)
    requires c < 16 && d < 16 && HexChar(c) == HexChar(d)
    ensures c == d
  {}

  lemma HexStep(b: Bytes)
    requires b != []
    ensures Hex(b)[0] == HexChar(b[0] / 16) && Hex(b)[1] == HexChar(b[0] % 16)
    ensures Hex(b)[2..] == Hex(b[1..])
  {}

  lemma {:induction false} HexInjective(a: Bytes, b: Bytes)
    requires Hex(a) == Hex(b)
    ensures a == b
  {
    assert 2 * |a| == |Hex(a)| == |Hex(b)| == 2 * |b|;
    if a != [] {
      HexStep(a); HexStep(b);
      HexCharInjective(a[0] / 16, b[0] / 16);
      HexCharInjective(a[0] % 16, b[0] % 16);
      HexInjective(a[1..], b[1..]);
      assert a == [a[0]] + a[1..] && b == [b[0]] + b[1..];
    }
  }

  /** The encodings at work: byte order, digit order and letters. */
  lemma LittleEndianSpelled()
    ensures LE64(0x0102) == [2, 1, 0, 0, 0, 0, 0, 0]
  {
    assert LittleEndian(0, 2) == [0, 0];
    assert LittleEndian(0, 4) == [0, 0, 0, 0];
    assert LittleEndian(0, 6) == [0, 0, 0, 0, 0, 0];
    assert LittleEndian(1, 7) == [1, 0, 0, 0, 0, 0, 0];
  }

  lemma BigEndianSpelled()
    ensures BE64(0x0102) == [0, 0, 0, 0, 0, 0, 1, 2]
  {
    assert BigEndian(0, 2) == [0, 0];
    assert BigEndian(0, 4) == [0, 0, 0, 0];
    assert BigEndian(0, 6) == [0, 0, 0, 0, 0, 0];
    assert BigEndian(1, 7) == [0, 0, 0, 0, 0, 0, 1];
  }

  lemma TextSpelled()
    ensures Decimal(120) == "120" && Hex([0x0a, 0xf1]) == "0af1"
  {
    assert Decimal(1) == "1" && Decimal(12) == "12";
    assert Hex([]) == "" && [0xf1][1..] == [] && Hex([0xf1]) == "f1" && [0x0a, 0xf1][1..] == [0xf1];
  }
}
