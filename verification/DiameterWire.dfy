/** The bytes of Diameter messages and attributes on the wire, position by position. */
module DiameterWire {
  import opened Common
  import opened Bytes
  import opened Streams
  import opened DiameterCodec
  import opened DiameterMessages

  /** A number in four bytes, as they stand on the wire. */
  function Word(x: uint32): seq<byte> {
    [x / 0x100_0000, x / 0x1_0000 % 0x100, x / 0x100 % 0x100, x % 0x100]
  }

  lemma ThreeBytesAre(n: nat)
    ensures n < 65535 ==> ThreeBytes(n) == [0, n / 0x100, n % 0x100]
    ensures n >= 65535 ==> ThreeBytes(n) == [n / 65535 % 0x100, n % 65535 / 0x100, n % 65535 % 0x100]
  {
    TwoBytes(n % 65535);
  }

  lemma LenOfAvp(d: Dictionary, a: Avp)
    requires Writable(d, a)
    ensures Sized(d, a) && (TypeOf(d, a).Grouped? ==> forall b :: b in a.value.avps ==> Writable(d, b))
  {
    DiameterCodec.WritableIsSized(d, a);
  }

  /**
   Code, flags, size without padding, vendor if there is one, the value, and zeros up to a multiple of four bytes. The
   value of a group is its attributes one after the other.
   */
  lemma AvpLayout(d: Dictionary, a: Avp)
    requires Writable(d, a)
    ensures Sized(d, a)
    ensures var t := TypeOf(d, a);
      var value := if t.Grouped? then EncodeAll(d, a.value.avps) else EncodeLeaf(t, a.value);
      Encode(d, a) ==
        Word(a.code)
        + [(if a.vendorId > 0 then 128 else 0) + (if a.isMandatory then 64 else 0) + (if a.isProtected then 32 else 0)]
        + ThreeBytes(DataLen(d, a))
        + (if a.vendorId > 0 then Word(a.vendorId) else []) + value
        + (if DataLen(d, a) % 4 == 0 then []
           else if DataLen(d, a) % 4 == 3 then [0]
           else if DataLen(d, a) % 4 == 2 then [0, 0] else [0, 0, 0])
  {
    LenOfAvp(d, a);
    FourBytes(a.code);
    FourBytes(a.vendorId);
  }

  /** The value of an attribute that is no group, by type. */
  lemma LeafBytes(t: DiameterType, v: Value)
    requires !t.Grouped? && Matches(t, v)
    ensures var p := EncodeLeaf(t, v);
      match t
      case TypeNone | OctetString => v.Octets? && p == v.bytes
      case UTF8String | DiamIdent | DiameterURI | IPFilterRule => v.Text? && p == v.text
      case Integer32 | Unsigned32 | Enumerated => v.Int? && p == Word(v.i % 0x1_0000_0000)
      case Integer64 | Unsigned64 =>
        && v.Int?
        && var x := v.i % 0x1_0000_0000_0000_0000;
        p == Word(x / 0x1_0000_0000) + Word(x % 0x1_0000_0000)
      case Float32 | Float64 => v.Float? && p == v.raw
      case Address =>
        && v.Ip?
        && p ==
          if |v.address| == 4 then [0, 1] + v.address
          else if |v.address| == 16 && v.address[..12] == [0, 0, 0, 0, 0, 0, 0, 0, 0, 0, 255, 255] then
            [0, 1] + v.address[12..]
          else [0, 2] + if |v.address| == 16 then v.address else []
      case Time => v.Moment? && p == Word(v.seconds % 0x1_0000_0000)
      case IPv4Address =>
        && v.Ip?
        && p ==
          if |v.address| == 4 then v.address
          else if |v.address| == 16 && v.address[..12] == [0, 0, 0, 0, 0, 0, 0, 0, 0, 0, 255, 255] then
            v.address[12..]
          else []
      case IPv6Address =>
        && v.Ip?
        && p ==
          if |v.address| == 4 then [0, 0, 0, 0, 0, 0, 0, 0, 0, 0, 255, 255] + v.address
          else if |v.address| == 16 then v.address else []
      case IPv6Prefix => v.Prefix? && p == [0, v.length] + v.network
      case Grouped => true
  {
    match t
    case Integer32 | Unsigned32 | Enumerated => FourBytes(v.i % 0x1_0000_0000);
    case Integer64 | Unsigned64 => LongBytes(t, v);
    case Time => FourBytes(v.seconds % 0x1_0000_0000);
    case Address =>
      TwoBytes(1);
      TwoBytes(2);
    case TypeNone | OctetString =>
    case UTF8String | DiamIdent | DiameterURI | IPFilterRule =>
    case Float32 | Float64 =>
    case IPv4Address =>
    case IPv6Address =>
    case IPv6Prefix =>
  }

  lemma LongBytes(t: DiameterType, v: Value)
    requires (t.Integer64? || t.Unsigned64?) && Matches(t, v)
    ensures var x := v.i % 0x1_0000_0000_0000_0000;
      EncodeLeaf(t, v) == Word(x / 0x1_0000_0000) + Word(x % 0x1_0000_0000)
  {
    var x := v.i % 0x1_0000_0000_0000_0000;
    assert x == 0x1_0000_0000 * (x / 0x1_0000_0000) + x % 0x1_0000_0000;
    EightBytes(x / 0x1_0000_0000, x % 0x1_0000_0000);
    FourBytes(x / 0x1_0000_0000);
    FourBytes(x % 0x1_0000_0000);
  }

  /** The header of a message: version, size, flags, command, application, and the two identifiers end-to-end first. */
  lemma MessageLayout(d: Dictionary, m: DiameterMessage)
    requires SizedMessage(d, m) && WritableMessage(d, m)
    ensures EncodeMessage(d, m) ==
      [1] + ThreeBytes(20 + TotalLen(d, m.avps))
      + [(if m.isRequest then 128 else 0) + (if m.isProxyable then 64 else 0) + (if m.isError then 32 else 0)
         + (if m.isRetransmission then 16 else 0)]
      + ThreeBytes(m.commandCode) + Word(m.applicationId) + Word(m.e2eId) + Word(m.hopByHopId) + EncodeAll(d, m.avps)
  {
    FourBytes(m.applicationId);
    FourBytes(m.e2eId);
    FourBytes(m.hopByHopId);
  }

  // ----- Reading any bytes

  lemma WordReads(s: seq<byte>)
    requires |s| == 4
    ensures FromBe(s) < 0x1_0000_0000 && Word(FromBe(s)) == s
  {
    FromBeInRange(s);
    Ranges();
    FromBeRoundTrip(s);
    FourBytes(FromBe(s));
  }

  /** The header of an attribute: eight bytes, or twelve with a vendor, which the first flag says. */
  lemma HeaderReads(input: seq<byte>)
    ensures |input| < 8 || (input[4] >= 128 && |input| < 12) ==> ReadHeader(input).None?
    ensures |input| >= 8 && (input[4] >= 128 ==> |input| >= 12) ==>
      && ReadHeader(input).Some?
      && var h := ReadHeader(input).value;
      && Word(h.code) == input[..4] && h.flags == input[4] && h.size == (if input[4] >= 128 then 12 else 8)
      && h.avpLen == 65535 * (input[5] as int) + 256 * (input[6] as int) + input[7]
      && (if input[4] >= 128 then Word(h.vendorId) == input[8..12] else h.vendorId == 0)
  {
    if |input| >= 8 && (input[4] >= 128 ==> |input| >= 12) {
      WordReads(input[..4]);
      TwoByteNumber(input[6..8]);
      if input[4] >= 128 {
        WordReads(input[8..12]);
      }
    }
  }

  lemma FlagReads(flags: byte)
    ensures Bit(flags, 0x40) <==> 64 <= flags % 128
    ensures Bit(flags, 0x20) <==> 32 <= flags % 64
  {
  }

  lemma LowFlagReads(flags: byte)
    ensures Bit(flags, 0x10) <==> 16 <= flags % 32
  {
  }

  lemma LeafIsRead(d: Dictionary, h: Header, body: seq<byte>, leaf: Reading<Value>)
    requires !d(h.vendorId, h.code).Grouped?
    requires leaf == DecodeLeaf(d(h.vendorId, h.code), (h.avpLen - h.size) % 0x1_0000_0000, Pad(h.avpLen), body)
    ensures DecodeValue(d, h, body) == After(h.size, leaf)
  {
  }

  lemma ReadsBehindHeader(d: Dictionary, input: seq<byte>, h: Header, read: Reading<Value>)
    requires ReadHeader(input) == Some(h) && read == DecodeValue(d, h, input[h.size..])
    ensures Decode(d, input) ==
      match read
      case Done(v, n, rest) =>
        Done(Avp(h.code, 64 <= h.flags % 128, 32 <= h.flags % 64, h.vendorId, v), n, rest)
      case Failed => Failed
      case Panic => Panic
  {
    FlagReads(h.flags);
    assert Decode(d, input) == WithHeader(h, read);
    match read
    case Done(_, _, _) =>
    case Failed =>
    case Panic =>
  }

  /** An attribute that is no group is its header and a value behind it. */
  lemma ReadsAsLeaf(d: Dictionary, input: seq<byte>, h: Header, leaf: Reading<Value>)
    requires ReadHeader(input) == Some(h) && !d(h.vendorId, h.code).Grouped?
    requires leaf ==
      DecodeLeaf(d(h.vendorId, h.code), (h.avpLen - h.size) % 0x1_0000_0000, Pad(h.avpLen), input[h.size..])
    ensures Decode(d, input) ==
      match leaf
      case Done(v, n, rest) =>
        Done(Avp(h.code, 64 <= h.flags % 128, 32 <= h.flags % 64, h.vendorId, v), h.size + n, rest)
      case Failed => Failed
      case Panic => Panic
  {
    LeafIsRead(d, h, input[h.size..], leaf);
    ReadsBehindHeader(d, input, h, After(h.size, leaf));
  }

  lemma PaddedReads(n: nat, pad: nat, body: seq<byte>)
    requires n < 0x100_0000 && pad < 4
    ensures ReadPadded(n, pad, body) ==
            if |body| < n + pad then Failed else Done(body[..n], n + pad, body[n + pad..])
    ensures ReadWhole(n, pad, body) ==
            if |body| < n + pad then Failed else Done(Ip(body[..n + pad]), n + pad, body[n + pad..])
  {
    assert (n + pad) % 0x1_0000_0000 == n + pad;
  }

  lemma IntReads(n: nat, signed: bool, body: seq<byte>)
    requires n == 4 || (n == 8 && signed)
    ensures |body| < n ==> ReadInt(n, signed, body).Failed?
    ensures |body| >= n ==>
      var read := ReadInt(n, signed, body);
      && read.Done? && read.count == n && read.rest == body[n..] && read.value.Int?
      && Be(read.value.i % (if n == 8 then 0x1_0000_0000_0000_0000 else 0x1_0000_0000), n) == body[..n]
      && (!signed ==> 0 <= read.value.i < 0x1_0000_0000)
      && (signed && n == 4 ==> -0x8000_0000 <= read.value.i < 0x8000_0000)
  {
    if |body| >= n {
      Ranges();
      FromBeInRange(body[..n]);
      FromBeRoundTrip(body[..n]);
      if n == 8 {
        Residue(FromBe(body[..n]), 0x1_0000_0000_0000_0000);
      } else {
        Residue(FromBe(body[..n]), 0x1_0000_0000);
      }
    }
  }

  /** An address takes its family and four bytes for family 1, sixteen for any other, and two bytes of padding. */
  lemma AddressReads(body: seq<byte>)
    ensures |body| < 2 ==> ReadAddress(body).Failed?
    ensures |body| >= 2 && body[0] == 0 && body[1] == 1 ==>
      if |body| < 6 then ReadAddress(body).Failed?
      else ReadAddress(body) == Done(Ip(body[2..6]), 8, if |body| < 8 then [] else body[8..])
    ensures |body| >= 2 && !(body[0] == 0 && body[1] == 1) ==>
      if |body| < 18 then ReadAddress(body).Failed?
      else ReadAddress(body) == Done(Ip(body[2..18]), 20, if |body| < 20 then [] else body[20..])
  {
    if |body| >= 2 {
      TwoByteNumber(body[..2]);
    }
  }

  /** The bytes that a value takes, of `n` announced and `pad` of padding. */
  function Taken(t: DiameterType, n: nat, pad: nat): nat {
    match t
    case TypeNone | OctetString | UTF8String | DiamIdent | DiameterURI | IPFilterRule => n + pad
    case IPv4Address | IPv6Address => n + pad
    case Integer32 | Unsigned32 | Enumerated | Float32 | Time => 4
    case Integer64 | Unsigned64 | Float64 => 8
    case IPv6Prefix => 18
    case Address | Grouped => 0
  }

  /**
   Any bytes read as a value: an error exactly if some are missing. Octets and texts leave out their padding, which the
   two single address types take for a part of the address; numbers take what their type does, whatever is announced.
   */
  lemma LeafReads(t: DiameterType, n: uint32, pad: nat, body: seq<byte>)
    requires n < 0x100_0000 && pad < 4 && !t.Grouped? && !t.Address?
    ensures |body| < Taken(t, n, pad) ==> DecodeLeaf(t, n, pad, body).Failed?
    ensures |body| >= Taken(t, n, pad) ==>
      var read, taken := DecodeLeaf(t, n, pad, body), Taken(t, n, pad);
      && read.Done?
      && (!t.IPv6Prefix? ==> read.count == taken && read.rest == body[taken..])
      && match t
        case TypeNone | OctetString => read.value == Octets(body[..n])
        case UTF8String | DiamIdent | DiameterURI | IPFilterRule => read.value == Text(body[..n])
        case IPv4Address | IPv6Address => read.value == Ip(body[..n + pad])
        case Float32 | Float64 => read.value == Float(body[..taken])
        case Time => read.value.Moment? && 0 <= read.value.seconds && Be(read.value.seconds, 4) == body[..4]
        case IPv6Prefix =>
          && read.value == Prefix(body[1], body[2..18]) && read.count == 20
          && read.rest == if |body| < 20 then [] else body[20..]
        case Integer32 | Enumerated =>
          && read.value.Int? && -0x8000_0000 <= read.value.i < 0x8000_0000
          && Be(read.value.i % 0x1_0000_0000, 4) == body[..4]
        case Unsigned32 =>
          read.value.Int? && 0 <= read.value.i < 0x1_0000_0000 && Be(read.value.i % 0x1_0000_0000, 4) == body[..4]
        case Integer64 | Unsigned64 =>
          read.value.Int? && Be(read.value.i % 0x1_0000_0000_0000_0000, 8) == body[..8]
        case _ => true
  {
    match t
    case TypeNone | OctetString => PaddedReads(n, pad, body);
    case UTF8String | DiamIdent | DiameterURI | IPFilterRule => PaddedReads(n, pad, body);
    case IPv4Address | IPv6Address => PaddedReads(n, pad, body);
    case Integer32 | Enumerated => IntReads(4, true, body);
    case Unsigned32 => IntReads(4, false, body);
    case Integer64 | Unsigned64 => IntReads(8, true, body);
    case Time =>
      if |body| >= 4 {
        FromBeRoundTrip(body[..4]);
      }
    case Float32 =>
    case Float64 =>
    case IPv6Prefix =>
  }

  lemma MessageFlagsRead(flags: byte)
    ensures Bit(flags, 128) == (flags >= 128) && Bit(flags, 64) == (flags % 128 >= 64)
    ensures Bit(flags, 32) == (flags % 64 >= 32) && Bit(flags, 16) == (flags % 32 >= 16)
  {
    FlagReads(flags);
    LowFlagReads(flags);
  }

  lemma CommandReads(s: seq<byte>)
    requires |s| == 3
    ensures CommandOf(s) == 65535 * (s[0] as int) + 256 * (s[1] as int) + s[2]
  {
    TwoByteNumber(s[1..3]);
  }

  /** The header of a message: size, flags, command, application and identifiers where they stand. */
  lemma MessageHeaderReads(input: seq<byte>)
    requires |input| >= 20
    ensures var h := ReadMessageHeader(input);
      && h.len == 65535 * (input[1] as int) + 256 * (input[2] as int) + input[3]
      && h.message.isRequest == (input[4] >= 128) && h.message.isProxyable == (input[4] % 128 >= 64)
      && h.message.isError == (input[4] % 64 >= 32) && h.message.isRetransmission == (input[4] % 32 >= 16)
      && h.message.commandCode == 65535 * (input[5] as int) + 256 * (input[6] as int) + input[7]
      && Word(h.message.applicationId) == input[8..12] && Word(h.message.e2eId) == input[12..16]
      && Word(h.message.hopByHopId) == input[16..20]
  {
    MessageFlagsRead(input[4]);
    TwoByteNumber(input[2..4]);
    CommandReads(input[5..8]);
    WordReads(input[8..12]);
    WordReads(input[12..16]);
    WordReads(input[16..20]);
  }

  /**
   Any bytes read as a message: an error without a whole header or whole attributes; the process ends if the attributes
   end elsewhere than the message.
   */
  lemma MessageReads(d: Dictionary, input: seq<byte>, h: MessageHeader)
    requires |input| >= 20 ==> h == ReadMessageHeader(input)
    ensures |input| < 20 ==> DecodeMessage(d, input).Failed?
    ensures |input| >= 20 ==>
      DecodeMessage(d, input) ==
      match DecodeAll(d, input[20..], 20, h.len)
      case Done(avps, n, rest) => if n == h.len then Done(h.message.(avps := avps), h.len, rest) else Panic
      case Failed => Failed
      case Panic => Panic
  {
  }
}
