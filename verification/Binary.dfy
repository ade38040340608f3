/** Bytes, and the numbers that firmware tables lay out in them. */
module Binary {
  type byte = n: int | 0 <= n < 256

  /** Little-endian words and double words. */
  function Le16(b: seq<byte>, i: nat): (n: nat)
    requires i + 2 <= |b|
    ensures n < 0x1_0000
  {
    (b[i] as int) + 0x100 * (b[i + 1] as int)
  }

  function Le32(b: seq<byte>, i: nat): (n: nat)
    requires i + 4 <= |b|
    ensures n < 0x1_0000_0000
  {
    Le16(b, i) + 0x1_0000 * Le16(b, i + 2)
  }

  function Be16(b: seq<byte>, i: nat): (n: nat)
    requires i + 2 <= |b|
    ensures n < 0x1_0000
  {
    (b[i + 1] as int) + 0x100 * (b[i] as int)
  }

  function Be32(b: seq<byte>, i: nat): (n: nat)
    requires i + 4 <= |b|
    ensures n < 0x1_0000_0000
  {
    Be16(b, i + 2) + 0x1_0000 * Be16(b, i)
  }

  function HexDigit(n: nat): char
    requires n < 16
  {
    "0123456789abcdef"[n]
  }

  /** The low `width` hexadecimal digits of n. */
  function Hex(n: nat, width: nat): (s: string)
    ensures |s| == width
  {
    if width == 0 then "" else Hex(n / 16, width - 1) + [HexDigit(n % 16)]
  }

  /** Digits of two numbers side by side. */
  lemma HexPair(a: nat, b: byte, width: nat)
    ensures Hex(0x100 * a + b, width + 2) == Hex(a, width) + Hex(b, 2)
  {
    var n := 0x100 * a + b;
    assert n / 16 == 16 * a + b / 16 && n % 16 == b % 16;
    assert (n / 16) / 16 == a && (n / 16) % 16 == b / 16;
    assert Hex(n, width + 2) == Hex(a, width) + [HexDigit(b / 16)] + [HexDigit(b % 16)];
    assert b / 16 / 16 == 0 && Hex(0, 0) == "";
    assert Hex(b, 2) == [HexDigit(b / 16)] + [HexDigit(b % 16)];
  }
}
