/** Decimal and hexadecimal text, as strconv and hex print and read it. */
module Decimal {
  import opened Common
  import opened Bytes

  const DIGITS := "0123456789abcdef"

  function Digit(d: nat): char
    requires d < 16
  {
    DIGITS[d]
  }

  function Natural(n: nat): string {
    (if n < 10 then [] else Natural(n / 10)) + [Digit(n % 10)]
  }

  /** strconv.FormatInt in base 10. */
  function FormatInt(n: int): string {
    if n < 0 then "-" + Natural(-n) else Natural(n)
  }

  // ----- Reading numbers

  predicate IsDecimal(s: string) {
    s != "" && forall c :: c in s ==> '0' <= c <= '9'
  }

  function FromDigits(s: string): nat
    requires forall c :: c in s ==> '0' <= c <= '9'
  {
    if s == "" then 0
    else
      assert Last(s) in s && forall c :: c in Front(s) ==> c in s;
      10 * FromDigits(Front(s)) + (Last(s) as int - '0' as int)
  }

  function Clamped(n: int): int64 {
    if n < -0x8000_0000_0000_0000 then -0x8000_0000_0000_0000
    else if n > 0x7fff_ffff_ffff_ffff then 0x7fff_ffff_ffff_ffff
    else n
  }

  /** strconv.Atoi without its error: zero for what is no number, the nearest number for what is too large. */
  function Atoi(s: string): int64 {
    if s != "" && (s[0] == '-' || s[0] == '+') then
      if IsDecimal(s[1..]) then Clamped(if s[0] == '-' then 0 - FromDigits(s[1..]) else FromDigits(s[1..])) else 0
    else if IsDecimal(s) then Clamped(FromDigits(s)) else 0
  }

  lemma OneMoreDigit(s: string, d: nat)
    requires d < 10 && (s == "" || IsDecimal(s))
    ensures IsDecimal(s + [Digit(d)]) && FromDigits(s + [Digit(d)]) == 10 * FromDigits(s) + d
  {
    var t := s + [Digit(d)];
    assert Front(t) == s && Last(t) == Digit(d);
    assert forall c :: c in t ==> c in s || c == Digit(d);
  }

  lemma {:induction false} NaturalIsDecimal(n: nat)
    ensures IsDecimal(Natural(n)) && FromDigits(Natural(n)) == n
  {
    if n >= 10 {
      NaturalIsDecimal(n / 10);
      OneMoreDigit(Natural(n / 10), n % 10);
    } else {
      OneMoreDigit("", n % 10);
    }
  }

  /** Digits are read as a number behind either sign or none, as far as 64 bits go. */
  lemma DigitsAreRead(s: string)
    requires IsDecimal(s)
    ensures Atoi(s) == Clamped(FromDigits(s)) && Atoi("+" + s) == Clamped(FromDigits(s))
    ensures Atoi("-" + s) == Clamped(0 - FromDigits(s))
  {
    assert ("+" + s)[1..] == s && ("-" + s)[1..] == s && s[0] in s;
  }

  lemma DecimalIsPlain(s: string)
    requires IsDecimal(s)
    ensures '\n' !in s && '\n' !in "-" + s
  {
  }

  lemma FormattedIsPlain(n: int)
    ensures FormatInt(n) != "" && '\n' !in FormatInt(n)
  {
    NaturalIsDecimal(if n < 0 then -n else n);
    DecimalIsPlain(Natural(if n < 0 then -n else n));
  }

  lemma NegativeIsRead(m: nat)
    ensures Atoi("-" + Natural(m)) == Clamped(0 - m)
  {
    NaturalIsDecimal(m);
    DigitsAreRead(Natural(m));
  }

  lemma NaturalIsRead(m: nat)
    ensures Atoi(Natural(m)) == Clamped(m)
  {
    NaturalIsDecimal(m);
    DigitsAreRead(Natural(m));
  }

  lemma FormattedIsRead(m: int)
    ensures Atoi(FormatInt(m)) == Clamped(m)
  {
    if m < 0 {
      NegativeIsRead(-m);
    } else {
      NaturalIsRead(m);
    }
  }

  lemma ClampedIsSame(n: int64)
    ensures Clamped(n) == n
  {
  }

  lemma AtoiUndoesFormatInt(n: int64)
    ensures Atoi(FormatInt(n)) == n && FormatInt(n) != "" && '\n' !in FormatInt(n)
  {
    FormattedIsPlain(n);
    FormattedIsRead(n);
    ClampedIsSame(n);
  }

  // ----- Hexadecimal

  function Hex(bytes: seq<byte>): string {
    if bytes == [] then "" else [Digit(bytes[0] / 16), Digit(bytes[0] % 16)] + Hex(bytes[1..])
  }

  function HexValue(c: char): Option<nat> {
    if '0' <= c <= '9' then Some(c as int - '0' as int)
    else if 'a' <= c <= 'f' then Some(c as int - 'a' as int + 10)
    else if 'A' <= c <= 'F' then Some(c as int - 'A' as int + 10)
    else None
  }

  /** hex.DecodeString without its error: the bytes up to the first that is not one. */
  function FromHex(s: string): seq<byte> {
    if |s| < 2 then []
    else match (HexValue(s[0]), HexValue(s[1]))
      case (Some(high), Some(low)) => if high < 16 && low < 16 then [16 * high + low] + FromHex(s[2..]) else []
      case _ => []
  }

  lemma HexDigit(d: nat)
    requires d < 16
    ensures HexValue(Digit(d)) == Some(d) && Digit(d) != '\n'
  {
  }

  lemma {:induction false} FromHexUndoesHex(bytes: seq<byte>)
    ensures FromHex(Hex(bytes)) == bytes && '\n' !in Hex(bytes) && |Hex(bytes)| == 2 * |bytes|
  {
    if bytes != [] {
      HexDigit(bytes[0] / 16);
      HexDigit(bytes[0] % 16);
      FromHexUndoesHex(bytes[1..]);
      assert Hex(bytes)[2..] == Hex(bytes[1..]);
    }
  }

  // ----- Digit by digit

  /** Decimal text: the digits from the highest on, without a leading zero, behind a minus for what is negative. */
  lemma FormatIntDigits(n: int)
    ensures 0 <= n < 10 ==> FormatInt(n) == ["0123456789"[n]]
    ensures n >= 10 ==> FormatInt(n) == FormatInt(n / 10) + ["0123456789"[n % 10]]
    ensures n < 0 ==> FormatInt(n) == "-" + FormatInt(-n)
  {
  }

  /** Hexadecimal text: two digits in lower case for each byte. */
  lemma {:induction false} HexAt(bytes: seq<byte>, i: nat)
    requires i < |bytes|
    ensures |Hex(bytes)| == 2 * |bytes|
    ensures Hex(bytes)[2 * i] == "0123456789abcdef"[bytes[i] / 16]
    ensures Hex(bytes)[2 * i + 1] == "0123456789abcdef"[bytes[i] % 16]
    decreases |bytes|
  {
    if |bytes| > 1 {
      HexAt(bytes[1..], if i == 0 then 0 else i - 1);
    }
  }

  /** Anything else is read as zero. */
  lemma OthersAreZero(s: string)
    requires !IsDecimal(s) && (s == "" || (s[0] != '-' && s[0] != '+') || !IsDecimal(s[1..]))
    ensures Atoi(s) == 0
  {
  }
}
