/** Bytes and the integers they carry, most significant byte first. */
module Bytes {
  import opened Common

  type byte = x: int | 0 <= x < 256

  const BYTES4 := 0x1_0000_0000
  const BYTES8 := 0x1_0000_0000_0000_0000

  type uint32 = x: int | 0 <= x < BYTES4
  type int64 = x: int | -0x8000_0000_0000_0000 <= x < 0x8000_0000_0000_0000

  function Range(n: nat): (r: nat)
    ensures r > 0
  {
    if n == 0 then 1 else 256 * Range(n - 1)
  }

  /** The low n bytes of a number. */
  function Be(x: nat, n: nat): (s: seq<byte>)
    ensures |s| == n
  {
    if n == 0 then [] else Be(x / 256, n - 1) + [x % 256]
  }

  function FromBe(s: seq<byte>): nat {
    if s == [] then 0 else 256 * FromBe(Front(s)) + Last(s)
  }

  lemma {:induction false} FromBeInRange(s: seq<byte>)
    ensures FromBe(s) < Range(|s|)
  {
    if s != [] {
      FromBeInRange(Front(s));
    }
  }

  lemma {:induction false} BeRoundTrip(x: nat, n: nat)
    requires x < Range(n)
    ensures FromBe(Be(x, n)) == x
  {
    if n > 0 {
      BeRoundTrip(x / 256, n - 1);
      assert Front(Be(x, n)) == Be(x / 256, n - 1);
    }
  }

  lemma LowByte(high: nat, low: byte)
    ensures (256 * high + low) / 256 == high && (256 * high + low) % 256 == low
  {
  }

  lemma {:induction false} FromBeRoundTrip(s: seq<byte>)
    ensures Be(FromBe(s), |s|) == s
  {
    if s != [] {
      FromBeRoundTrip(Front(s));
      LowByte(FromBe(Front(s)), Last(s));
      assert s == Front(s) + [Last(s)];
    }
  }

  function Zeros(n: nat): (s: seq<byte>)
    ensures |s| == n
  {
    seq(n, _ => 0)
  }

  lemma Ranges()
    ensures Range(1) == 256 && Range(2) == 65536 && Range(4) == BYTES4 && Range(8) == BYTES8
  {
    assert Range(3) == 16777216;
    assert Range(5) == 256 * BYTES4;
    assert Range(6) == 65536 * BYTES4;
    assert Range(7) == 16777216 * BYTES4;
  }

  // ----- Numbers byte by byte

  lemma TwoBytes(x: nat)
    requires x < 0x1_0000
    ensures Be(x, 2) == [x / 0x100, x % 0x100]
  {
    assert Be(x / 256, 1) == Be(x / 256 / 256, 0) + [x / 256 % 256];
  }

  lemma FourBytes(x: nat)
    requires x < 0x1_0000_0000
    ensures Be(x, 4) == [x / 0x100_0000, x / 0x1_0000 % 0x100, x / 0x100 % 0x100, x % 0x100]
  {
    assert x / 256 / 256 == x / 0x1_0000 && x / 0x1_0000 / 256 == x / 0x100_0000;
    TwoBytes(x / 0x1_0000);
    assert Be(x / 256, 3) == Be(x / 0x1_0000, 2) + [x / 256 % 256];
  }

  /** The two low bytes, and the two above them. */
  lemma LowBytes(high: nat, low: nat, n: nat)
    requires low < 0x1_0000
    ensures Be(0x1_0000 * high + low, n + 2) == Be(high, n) + [low / 0x100, low % 0x100]
  {
    var x := 0x1_0000 * high + low;
    assert x == 256 * (256 * high + low / 256) + low % 256;
    LowByte(256 * high + low / 256, low % 256);
    LowByte(high, low / 256);
    assert Be(x, n + 2) == Be(256 * high + low / 256, n + 1) + [low % 256];
  }

  lemma EightBytes(high: nat, low: nat)
    requires low < 0x1_0000_0000
    ensures Be(0x1_0000_0000 * high + low, 8) == Be(high, 4) + Be(low, 4)
  {
    var third, fourth := low / 0x1_0000, low % 0x1_0000;
    LowBytes(0x1_0000 * high + third, fourth, 6);
    LowBytes(high, third, 4);
    LowBytes(third, fourth, 2);
    LowBytes(0, third, 0);
    assert 0x1_0000_0000 * high + low == 0x1_0000 * (0x1_0000 * high + third) + fourth;
    TwoBytes(third);
  }

  // ----- Two's complement

  /** The number whose low bytes a value in two's complement is. */
  function Bits(i: int, range: int): (r: nat)
    requires range > 0
    ensures r < range
  {
    i % range
  }

  function Signed(x: nat, range: int): int {
    if 2 * x < range then x else x - range
  }

  lemma SignedRoundTrip(i: int, range: int)
    requires range == BYTES4 || range == BYTES8
    ensures Signed(Bits(i, range), range) == i <==> -range <= 2 * i < range
  {
    if range == BYTES4 {
      assert Signed(i % BYTES4, BYTES4) == i <==> -BYTES4 <= 2 * i < BYTES4;
    } else {
      assert Signed(i % BYTES8, BYTES8) == i <==> -BYTES8 <= 2 * i < BYTES8;
    }
  }

  /** A number read in two's complement and what was written of it are the same up to the range. */
  lemma Residue(x: nat, range: int)
    requires x < range && (range == 0x1_0000_0000 || range == 0x1_0000_0000_0000_0000)
    ensures Signed(x, range) % range == x && x % range == x
  {
    if range == 0x1_0000_0000 {
      assert (x - 0x1_0000_0000) % 0x1_0000_0000 == x;
    } else {
      assert (x - 0x1_0000_0000_0000_0000) % 0x1_0000_0000_0000_0000 == x;
    }
  }

  lemma TwoByteNumber(s: seq<byte>)
    requires |s| == 2
    ensures FromBe(s) == 256 * (s[0] as int) + s[1]
  {
    assert Front(Front(s)) == [] && FromBe(Front(s)) == s[0];
  }
}
