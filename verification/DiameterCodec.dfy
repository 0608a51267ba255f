/** Diameter attributes and messages, their bytes, and how the reader takes bytes apart again. */
module DiameterCodec {
  import opened Common
  import opened Bytes
  import opened Addresses
  import opened Streams

  datatype DiameterType =
    | TypeNone | OctetString | Integer32 | Integer64 | Unsigned32 | Unsigned64 | Float32 | Float64
    | Grouped | Address | Time | UTF8String | DiamIdent | DiameterURI | Enumerated | IPFilterRule
    | IPv4Address | IPv6Address | IPv6Prefix

  /**
   A value by its dynamic type. Floats are their bytes, a time is in seconds since 1900, a prefix is what its text says,
   and Nil is the value of a group read without members.
   */
  datatype Value =
    | Octets(bytes: seq<byte>)
    | Text(text: seq<byte>)
    | Int(i: int64)
    | Float(raw: seq<byte>)
    | Ip(address: seq<byte>)
    | Moment(seconds: int)
    | Prefix(length: byte, network: seq<byte>)
    | Group(avps: seq<Avp>)
    | Nil

  datatype Avp = Avp(code: uint32, isMandatory: bool, isProtected: bool, vendorId: uint32, value: Value)

  /** The type of an attribute by vendor and code. An attribute that is not there has no type. */
  type Dictionary = (uint32, uint32) -> DiameterType

  function TypeOf(d: Dictionary, a: Avp): DiameterType {
    d(a.vendorId, a.code)
  }

  // ----- Sizes

  /** Whether the value has the dynamic type that the writer asks for. */
  predicate Matches(t: DiameterType, v: Value) {
    match t
    case TypeNone | OctetString => v.Octets?
    case UTF8String | DiamIdent | DiameterURI | IPFilterRule => v.Text?
    case Integer32 | Integer64 | Unsigned32 | Unsigned64 | Enumerated => v.Int?
    case Float32 => v.Float? && |v.raw| == 4
    case Float64 => v.Float? && |v.raw| == 8
    case Grouped => v.Group?
    case Address | IPv4Address | IPv6Address => v.Ip?
    case Time => v.Moment?
    case IPv6Prefix => v.Prefix? && |v.network| == 16
  }

  /** The types whose size depends on the value: computing it ends the process when the value is of another type. */
  predicate SizedByValue(t: DiameterType) {
    match t
    case TypeNone | OctetString | UTF8String | DiamIdent | DiameterURI | IPFilterRule | Grouped | Address => true
    case Integer32 | Integer64 | Unsigned32 | Unsigned64 | Float32 | Float64 | Time | Enumerated => false
    case IPv4Address | IPv6Address | IPv6Prefix => false
  }

  /** Computing the size does not end the process. */
  predicate Sized(d: Dictionary, a: Avp) {
    var t := TypeOf(d, a);
    (SizedByValue(t) ==> Matches(t, a.value)) && (t.Grouped? ==> forall b :: b in a.value.avps ==> Sized(d, b))
  }

  /** Writing gives no error. */
  predicate Writable(d: Dictionary, a: Avp) {
    var t := TypeOf(d, a);
    Matches(t, a.value) && (t.Grouped? ==> forall b :: b in a.value.avps ==> Writable(d, b))
  }

  lemma {:induction false} WritableIsSized(d: Dictionary, a: Avp)
    requires Writable(d, a)
    ensures Sized(d, a)
    decreases a
  {
    if TypeOf(d, a).Grouped? {
      forall b | b in a.value.avps ensures Sized(d, b) {
        WritableIsSized(d, b);
      }
    }
  }

  function LeafLen(t: DiameterType, v: Value): nat
    requires !t.Grouped? && (SizedByValue(t) ==> Matches(t, v))
  {
    match t
    case TypeNone | OctetString => |v.bytes|
    case UTF8String | DiamIdent | DiameterURI | IPFilterRule => |v.text|
    case Integer32 | Unsigned32 | Float32 | Time | Enumerated | IPv4Address => 4
    case Integer64 | Unsigned64 | Float64 => 8
    case Address => if To4(v.address).Some? then 6 else 18
    case IPv6Address => 16
    case IPv6Prefix => 18
  }

  function HeaderLen(a: Avp): nat {
    if a.vendorId == 0 then 8 else 12
  }

  function Pad(n: nat): nat {
    if n % 4 == 0 then 0 else 4 - n % 4
  }

  /** The size without padding. */
  function DataLen(d: Dictionary, a: Avp): nat
    requires Sized(d, a)
    decreases a, 0
  {
    (if TypeOf(d, a).Grouped? then TotalLen(d, a.value.avps) else LeafLen(TypeOf(d, a), a.value)) + HeaderLen(a)
  }

  function Len(d: Dictionary, a: Avp): nat
    requires Sized(d, a)
    decreases a, 1
  {
    DataLen(d, a) + Pad(DataLen(d, a))
  }

  function TotalLen(d: Dictionary, avps: seq<Avp>): nat
    requires forall b :: b in avps ==> Sized(d, b)
    decreases avps
  {
    if avps == [] then 0 else Len(d, avps[0]) + TotalLen(d, avps[1..])
  }

  // ----- Writing

  const BASE := 65535

  function Flags(a: Avp): byte {
    (if a.vendorId > 0 then 0x80 else 0) + (if a.isMandatory then 0x40 else 0) + (if a.isProtected then 0x20 else 0)
  }

  /** The three bytes of a size or of a command code: a high byte and a low word, to base 65535. */
  function ThreeBytes(n: nat): (s: seq<byte>)
    ensures |s| == 3
  {
    [n / BASE % 256] + Be(n % BASE, 2)
  }

  function EncodeLeaf(t: DiameterType, v: Value): seq<byte>
    requires !t.Grouped? && Matches(t, v)
  {
    match t
    case TypeNone | OctetString => v.bytes
    case UTF8String | DiamIdent | DiameterURI | IPFilterRule => v.text
    case Integer32 | Unsigned32 | Enumerated => Be(Bits(v.i, BYTES4), 4)
    case Integer64 | Unsigned64 => Be(Bits(v.i, BYTES8), 8)
    case Float32 | Float64 => v.raw
    case Address => if To4(v.address).Some? then Be(1, 2) + From4(v.address) else Be(2, 2) + To16(v.address)
    case Time => Be(Bits(v.seconds, BYTES4), 4)
    case IPv4Address => From4(v.address)
    case IPv6Address => To16(v.address)
    case IPv6Prefix => [0, v.length] + v.network
  }

  function EncodeHeader(a: Avp, dataLen: nat): (s: seq<byte>)
    ensures |s| == HeaderLen(a)
  {
    Be(a.code, 4) + [Flags(a)] + ThreeBytes(dataLen) + if a.vendorId > 0 then Be(a.vendorId, 4) else []
  }

  function Encode(d: Dictionary, a: Avp): seq<byte>
    requires Writable(d, a)
    decreases a
  {
    WritableIsSized(d, a);
    var dataLen := DataLen(d, a);
    EncodeHeader(a, dataLen)
    + (if TypeOf(d, a).Grouped? then EncodeAll(d, a.value.avps) else EncodeLeaf(TypeOf(d, a), a.value))
    + Zeros(Pad(dataLen))
  }

  function EncodeAll(d: Dictionary, avps: seq<Avp>): seq<byte>
    requires forall b :: b in avps ==> Writable(d, b)
    decreases avps
  {
    if avps == [] then [] else Encode(d, avps[0]) + EncodeAll(d, avps[1..])
  }

  // ----- Reading

  function Drained(input: seq<byte>, n: nat): seq<byte> {
    if n <= |input| then input[n..] else []
  }

  /** A value of `dataLen` bytes read together with its padding, in the source's 32 bits. */
  function ReadPadded(dataLen: uint32, padLen: nat, body: seq<byte>): (r: Reading<seq<byte>>)
    ensures r.Done? ==> |r.rest| <= |body|
  {
    var total := (dataLen + padLen) % BYTES4;
    if dataLen > total then Panic
    else if |body| < total then Failed
    else Done(body[..dataLen], total, body[total..])
  }

  function ReadNumber(n: nat, body: seq<byte>): (r: Reading<nat>)
    ensures r.Done? ==> |r.rest| <= |body|
  {
    if |body| < n then Failed else Done(FromBe(body[..n]), n, body[n..])
  }

  function ReadAddress(body: seq<byte>): (r: Reading<Value>)
    ensures r.Done? ==> |r.rest| <= |body|
  {
    if |body| < 2 then Failed
    else if FromBe(body[..2]) == 1 then
      if |body| < 6 then Failed else Done(Ip(body[2..6]), 8, Drained(body, 8))
    else
      if |body| < 18 then Failed else Done(Ip(body[2..18]), 20, Drained(body, 20))
  }

  /** Unsigned 64-bit numbers are held in signed ones. */
  function IntOf(x: nat, range: int): Value
    requires 0 < range <= BYTES8 && x < range
  {
    Int(Signed(x, range))
  }

  function ReadInt(n: nat, signed: bool, body: seq<byte>): (r: Reading<Value>)
    requires n == 4 || (n == 8 && signed)
    ensures r.Done? ==> |r.rest| <= |body|
  {
    if |body| < n then Failed
    else
      var x := FromBe(body[..n]);
      FromBeInRange(body[..n]);
      Ranges();
      var v := if signed then IntOf(x, if n == 4 then BYTES4 else BYTES8) else Int(x);
      Done(v, n, body[n..])
  }

  function DecodeLeaf(t: DiameterType, dataLen: uint32, padLen: nat, body: seq<byte>): (r: Reading<Value>)
    requires !t.Grouped? && padLen < 4
    ensures r.Done? ==> |r.rest| <= |body|
  {
    match t
    case TypeNone | OctetString => Map(ReadPadded(dataLen, padLen, body), b => Octets(b))
    case UTF8String | DiamIdent | DiameterURI | IPFilterRule => Map(ReadPadded(dataLen, padLen, body), b => Text(b))
    case Integer32 | Enumerated => ReadInt(4, true, body)
    case Unsigned32 => ReadInt(4, false, body)
    case Integer64 | Unsigned64 => ReadInt(8, true, body)
    case Float32 => if |body| < 4 then Failed else Done(Float(body[..4]), 4, body[4..])
    case Float64 => if |body| < 8 then Failed else Done(Float(body[..8]), 8, body[8..])
    case Address => ReadAddress(body)
    case Time => Map(ReadNumber(4, body), s => Moment(s))
    case IPv4Address | IPv6Address => ReadWhole(dataLen, padLen, body)
    case IPv6Prefix => if |body| < 18 then Failed else Done(Prefix(body[1], body[2..18]), 20, Drained(body, 20))
  }

  /** The address types take the padding for a part of the address. */
  function ReadWhole(dataLen: uint32, padLen: nat, body: seq<byte>): (r: Reading<Value>)
    ensures r.Done? ==> |r.rest| <= |body|
  {
    var total := (dataLen + padLen) % BYTES4;
    if |body| < total then Failed else Done(Ip(body[..total]), total, body[total..])
  }

  function Bit(flags: byte, weight: nat): bool
    requires weight > 0
  {
    flags / weight % 2 == 1
  }

  /** The header of an attribute: its size on the wire says where the value begins. */
  datatype Header = Header(code: uint32, flags: byte, avpLen: nat, vendorId: uint32, size: nat)

  function ReadHeader(input: seq<byte>): (r: Option<Header>)
    ensures r.Some? ==> 8 <= r.value.size <= |input|
  {
    if |input| < 8 || (Bit(input[4], 0x80) && |input| < 12) then None
    else
      var size := if Bit(input[4], 0x80) then 12 else 8;
      Some(Header(FromBe4(input[..4]), input[4], input[5] * BASE + FromBe(input[6..8]), FromBe4(input[8..size]), size))
  }

  function FromBe4(s: seq<byte>): uint32
    requires |s| == 4 || |s| == 0
  {
    FromBeInRange(s);
    Ranges();
    FromBe(s)
  }

  function WithHeader(h: Header, read: Reading<Value>): Reading<Avp> {
    match read
    case Done(v, n, rest) => Done(Avp(h.code, Bit(h.flags, 0x40), Bit(h.flags, 0x20), h.vendorId, v), n, rest)
    case Failed => Failed
    case Panic => Panic
  }

  function After(size: nat, read: Reading<Value>): Reading<Value> {
    match read
    case Done(v, n, rest) => Done(v, size + n, rest)
    case Failed => Failed
    case Panic => Panic
  }

  function Prepend(a: Avp, read: Reading<seq<Avp>>): Reading<seq<Avp>> {
    match read
    case Done(avps, n, rest) => Done([a] + avps, n, rest)
    case Failed => Failed
    case Panic => Panic
  }

  /** A group without members has no value at all. */
  function AsGroup(read: Reading<seq<Avp>>): Reading<Value> {
    match read
    case Done(avps, n, rest) => Done(if avps == [] then Nil else Group(avps), n, rest)
    case Failed => Failed
    case Panic => Panic
  }

  function Decode(d: Dictionary, input: seq<byte>): (r: Reading<Avp>)
    ensures r.Done? ==> |r.rest| + 8 <= |input| && r.count >= 8
    decreases |input|, 0
  {
    match ReadHeader(input)
    case None => Failed
    case Some(h) => WithHeader(h, DecodeValue(d, h, input[h.size..]))
  }

  function DecodeValue(d: Dictionary, h: Header, input: seq<byte>): (r: Reading<Value>)
    ensures r.Done? ==> |r.rest| <= |input| && r.count >= h.size
    decreases |input|, 2
  {
    if d(h.vendorId, h.code).Grouped? then AsGroup(DecodeAll(d, input, h.size, h.avpLen + Pad(h.avpLen)))
    else After(h.size, DecodeLeaf(d(h.vendorId, h.code), (h.avpLen - h.size) % BYTES4, Pad(h.avpLen), input))
  }

  /** The attributes up to an index; the second result is the index reached. */
  function DecodeAll(d: Dictionary, input: seq<byte>, index: nat, end: nat): (r: Reading<seq<Avp>>)
    ensures r.Done? ==> |r.rest| <= |input| && r.count >= index
    decreases |input|, 1
  {
    if index >= end then Done([], index, input)
    else match Decode(d, input)
      case Done(a, n, rest) => Prepend(a, DecodeAll(d, rest, index + n, end))
      case Failed => Failed
      case Panic => Panic
  }
}
