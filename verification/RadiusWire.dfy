/** The bytes of RADIUS attributes on the wire, position by position. */
module RadiusWire {
  import opened Common
  import opened Bytes
  import opened Streams
  import opened RadiusHiding
  import opened RadiusCodec
  import opened RadiusTheorems

  // ----- Attributes

  lemma OuterLayout(a: Avp, len: nat)
    requires 8 <= len <= 255 || (a.vendorId == 0 && len <= 255)
    ensures (if a.vendorId == 0 then [a.code, len % 256]
             else [VENDOR_SPECIFIC, len % 256] + Be(a.vendorId, 4) + [a.code, (len - 6) % 256]) ==
        if a.vendorId == 0 then [a.code, len]
        else
          [26, len, a.vendorId / 0x100_0000, a.vendorId / 0x1_0000 % 0x100, a.vendorId / 0x100 % 0x100,
           a.vendorId % 0x100, a.code, len - 6]
  {
    FourBytes(a.vendorId);
  }

  /** Code and size, behind code 26 and the vendor for an attribute of a vendor; then tag, salt and data. */
  lemma AttributeLayout(d: Dictionary, k: Keys, salt: Salt, a: Avp)
    requires Writable(d, a)
    ensures var len, it := Len(d, a), ItemOf(d, a);
      && 2 <= len <= 255 && (a.vendorId != 0 ==> len >= 8)
      && Encode(d, k, salt, a) ==
        (if a.vendorId == 0 then [a.code, len]
         else
           [26, len, a.vendorId / 0x100_0000, a.vendorId / 0x1_0000 % 0x100, a.vendorId / 0x100 % 0x100,
            a.vendorId % 0x100, a.code, len - 6])
        + (if it.tagged then [a.tag] else []) + (if it.salted then salt else []) + Data(it, a.value, k, salt)
      && (!it.kind.IntegerType? || !it.tagged || it.salted || it.encrypted ==> |Encode(d, k, salt, a)| == len)
  {
    EmitsWhatItCounts(d, k, salt, a);
    OuterLayout(a, Len(d, a));
  }

  /** The value before hiding, by type. A tagged integer has its high byte and then its low word in four bytes. */
  lemma PayloadBytes(it: Item, v: Value)
    requires Matches(it, v)
    ensures var p := Payload(it, v);
      match it.kind
      case TypeNone | OctetsType => v.Octets? && p == v.bytes
      case StringType => v.Text? && p == v.text
      case IntegerType =>
        v.Int? &&
        if it.tagged && !it.salted then
          0 <= v.i ==> p == [v.i / 0x1_0000 % 0x100, 0, 0, v.i / 0x100 % 0x100, v.i % 0x100]
        else
          var x := v.i % 0x1_0000_0000;
          p == [x / 0x100_0000, x / 0x1_0000 % 0x100, x / 0x100 % 0x100, x % 0x100]
      case Integer64Type =>
        && v.Int?
        && var x := v.i % 0x1_0000_0000_0000_0000;
        p == Be(x / 0x1_0000_0000, 4) + Be(x % 0x1_0000_0000, 4)
      case AddressType => v.Ip? && |v.address| >= 4 && p == v.address[|v.address| - 4..]
      case IPv6AddressType =>
        v.Ip? && p == if |v.address| == 16 then v.address else [0, 0, 0, 0, 0, 0, 0, 0, 0, 0, 255, 255] + v.address
      case TimeType =>
        && v.Moment?
        && var x := v.seconds % 0x1_0000_0000;
        p == [x / 0x100_0000, x / 0x1_0000 % 0x100, x / 0x100 % 0x100, x % 0x100]
      case IPv6PrefixType => v.Prefix? && p == [0, v.length] + v.network
      case InterfaceIdType => v.Octets? && p == v.bytes
  {
    match it.kind
    case IntegerType => IntegerBytes(it, v);
    case Integer64Type => LongBytes(it, v);
    case TimeType => FourBytes(v.seconds % 0x1_0000_0000);
    case AddressType =>
    case IPv6AddressType =>
    case TypeNone | OctetsType =>
    case StringType =>
    case IPv6PrefixType =>
    case InterfaceIdType =>
  }

  lemma LongBytes(it: Item, v: Value)
    requires Matches(it, v) && it.kind.Integer64Type?
    ensures var x := v.i % 0x1_0000_0000_0000_0000;
      Payload(it, v) == Be(x / 0x1_0000_0000, 4) + Be(x % 0x1_0000_0000, 4)
  {
    var x := v.i % 0x1_0000_0000_0000_0000;
    assert x == 0x1_0000_0000 * (x / 0x1_0000_0000) + x % 0x1_0000_0000;
    EightBytes(x / 0x1_0000_0000, x % 0x1_0000_0000);
  }

  /** The quotient and the remainder that a short integer is written as. */
  lemma ShortParts(i: nat)
    ensures Quotient(i, 65536) == i / 0x1_0000 && Remainder(i, 65536) == i % 0x1_0000
  {
  }

  lemma WordOf(i: nat)
    ensures i % 0x1_0000 / 0x100 == i / 0x100 % 0x100 && i % 0x1_0000 % 0x100 == i % 0x100
  {
    var high, middle, low := i / 0x1_0000, i % 0x1_0000 / 0x100, i % 0x1_0000 % 0x100;
    assert i == 256 * (256 * high + middle) + low;
    LowByte(256 * high + middle, low);
    LowByte(high, middle);
  }

  lemma LowWord(low: nat)
    requires low < 0x1_0000
    ensures Be(low, 4) == [0, 0, low / 0x100, low % 0x100]
  {
    LowBytes(0, low, 2);
    TwoBytes(0);
  }

  lemma ShortPayload(it: Item, v: Value)
    requires Matches(it, v) && it.kind.IntegerType? && it.tagged && !it.salted
    ensures Payload(it, v) ==
            [Quotient(v.i, 65536) % 0x100] + Be(Remainder(v.i, 65536) % 0x1_0000_0000, 4)
  {
  }

  lemma ShortBytes(it: Item, v: Value)
    requires Matches(it, v) && it.kind.IntegerType? && it.tagged && !it.salted && 0 <= v.i
    ensures Payload(it, v) == [v.i / 0x1_0000 % 0x100, 0, 0, v.i / 0x100 % 0x100, v.i % 0x100]
  {
    ShortPayload(it, v);
    ShortParts(v.i);
    LowWord(v.i % 0x1_0000);
    WordOf(v.i);
  }

  lemma IntegerBytes(it: Item, v: Value)
    requires Matches(it, v) && it.kind.IntegerType?
    ensures it.tagged && !it.salted && 0 <= v.i ==>
      Payload(it, v) == [v.i / 0x1_0000 % 0x100, 0, 0, v.i / 0x100 % 0x100, v.i % 0x100]
    ensures !it.tagged || it.salted ==>
      var x := v.i % 0x1_0000_0000;
      Payload(it, v) == [x / 0x100_0000, x / 0x1_0000 % 0x100, x / 0x100 % 0x100, x % 0x100]
  {
    if it.tagged && !it.salted {
      if 0 <= v.i {
        ShortBytes(it, v);
      }
    } else {
      FourBytes(v.i % 0x1_0000_0000);
    }
  }

  /** The data: the payload, or the payload behind its length if it carries one, hidden over authenticator and salt. */
  lemma DataBytes(it: Item, v: Value, k: Keys, salt: Salt)
    requires Matches(it, v)
    ensures var p := Payload(it, v);
      Data(it, v, k, salt) ==
      if it.encrypted || it.salted then
        Hide(k.md5, k.secret, k.authenticator + (if it.salted then salt else []),
             (if it.withLen then [|p| % 0x100] else []) + p)
      else p
  {
  }

  // ----- Reading any bytes

  /** Too few bytes for a header, or an inner size that does not fit the outer one. */
  predicate BadHeader(input: seq<byte>) {
    || |input| < 2
    || (input[0] == 26 && (|input| < 8 || (input[1] >= 6 && (input[7] as int) + 6 != input[1] as int)))
  }

  lemma BadOuterIsRejected(input: seq<byte>)
    requires BadHeader(input)
    ensures ReadOuter(input).None?
  {
  }

  /** Too few bytes for a header and an inner size that does not fit the outer one are errors. */
  lemma BadHeadersAreRejected(d: Dictionary, k: Keys, input: seq<byte>)
    requires BadHeader(input)
    ensures Decode(d, k, input).Failed?
  {
    BadOuterIsRejected(input);
    assert ReadHeader(d, input).None?;
  }

  /** The bytes that a value in the clear takes: as many as announced, or what its type takes whatever is announced. */
  function Width(kind: RadiusType, n: nat): nat {
    match kind
    case TypeNone | OctetsType | StringType => n
    case IntegerType | AddressType | TimeType => 4
    case IPv6AddressType => 16
    case IPv6PrefixType => 18
    case InterfaceIdType | Integer64Type => 8
  }

  /** Bytes are missing, or an address or an identifier has not the size of its type. */
  predicate Misfits(kind: RadiusType, n: nat, there: nat) {
    there < Width(kind, n) || (kind.AddressType? && n != 4) || (kind.IPv6AddressType? && n != 16)
    || (kind.InterfaceIdType? && n != 8)
  }

  lemma ClearDataReads(it: Item, h: Header, input: seq<byte>)
    requires !it.encrypted && !it.salted && !it.tagged
    ensures Misfits(it.kind, h.dataLen, |input|) ==> DecodeClear(it, h, input).Failed?
    ensures !Misfits(it.kind, h.dataLen, |input|) ==>
      var read, width := DecodeClear(it, h, input), Width(it.kind, h.dataLen);
      && read.Done? && read.count == width && read.rest == input[width..]
      && match it.kind
        case TypeNone | OctetsType | InterfaceIdType => read.value == Octets(input[..width])
        case AddressType | IPv6AddressType => read.value == Ip(input[..width])
        case TimeType => read.value == Moment(FromBe(input[..4]))
        case IPv6PrefixType => read.value == Prefix(input[1], input[2..18])
        case IntegerType => read.value == SignedOf(input[..4])
        case Integer64Type => read.value == SignedOf(input[..8])
        case StringType => read.value == Text(Trim(input[..width]))
  {
    match it.kind
    case InterfaceIdType =>
      if h.dataLen == 8 && |input| >= 8 {
        assert input[..8] + Zeros(0) == input[..8];
      }
    case IntegerType =>
    case Integer64Type =>
    case TypeNone | OctetsType =>
    case StringType =>
    case AddressType =>
    case IPv6AddressType =>
    case TimeType =>
    case IPv6PrefixType => assert !Misfits(it.kind, h.dataLen, |input|) ==> input[..18][2..] == input[2..18];
  }

  /** Four or eight bytes are read as a number in two's complement. */
  lemma NumberReads(s: seq<byte>)
    ensures |s| == 4 ==> SignedOf(s).Int? && Be(SignedOf(s).i % 0x1_0000_0000, 4) == s
    ensures |s| == 8 ==> SignedOf(s).Int? && Be(SignedOf(s).i % 0x1_0000_0000_0000_0000, 8) == s
  {
    Ranges();
    FromBeInRange(s);
    FromBeRoundTrip(s);
    if |s| == 4 {
      Residue(FromBe(s), 0x1_0000_0000);
    } else if |s| == 8 {
      Residue(FromBe(s), 0x1_0000_0000_0000_0000);
    }
  }

  function VendorOf(input: seq<byte>): uint32
    requires |input| >= 8
  {
    FromBeInRange(input[2..6]);
    Ranges();
    FromBe(input[2..6])
  }

  lemma OuterReads(input: seq<byte>, start: nat, vendor: uint32)
    requires |input| >= 2 && start == (if input[0] == 26 then 8 else 2) && start <= |input|
    requires input[start - 1] >= 2 && (start == 8 ==> input[1] as int == (input[7] as int) + 6)
    requires vendor == if start == 2 then 0 else VendorOf(input)
    ensures ReadOuter(input) == Some(Header(input[start - 2], vendor, 0, [0, 0], input[start - 1] - 2, start))
  {
  }

  /**
   Any bytes read as an attribute in the clear, of no vendor (code 26 is at the front of a vendor's): the header says
   code, vendor and size; no data, missing bytes and addresses of another size are errors.
   */
  lemma AnyBytesRead(d: Dictionary, k: Keys, input: seq<byte>, start: nat, vendor: uint32)
    requires |input| >= 2 && start == (if input[0] == 26 then 8 else 2) && start <= |input|
    requires input[start - 1] >= 2 && (start == 8 ==> input[1] as int == (input[7] as int) + 6)
    requires vendor == if start == 2 then 0 else VendorOf(input)
    requires var it := d(vendor, input[start - 2]); !it.encrypted && !it.salted && !it.tagged
    ensures var kind, n := d(vendor, input[start - 2]).kind, (input[start - 1] as int) - 2;
      && (n == 0 || Misfits(kind, n, |input| - start) ==> Decode(d, k, input).Failed?)
      && (n != 0 && !Misfits(kind, n, |input| - start) ==>
        var read := Decode(d, k, input);
        && read.Done? && read.count == start + Width(kind, n) && read.rest == input[start + Width(kind, n)..]
        && read.value.code == input[start - 2] && read.value.tag == 0 && read.value.vendorId == vendor)
  {
    OuterReads(input, start, vendor);
    var n := (input[start - 1] as int) - 2;
    var it, h := d(vendor, input[start - 2]), Header(input[start - 2], vendor, 0, [0, 0], n, start);
    assert ReadHeader(d, input) == Some(h);
    ClearDataReads(it, h, input[start..]);
    if n != 0 && !Misfits(it.kind, n, |input| - start) {
      assert input[start..][Width(it.kind, n)..] == input[start + Width(it.kind, n)..];
    }
  }
}
