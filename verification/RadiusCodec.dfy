/** RADIUS attributes and their bytes: plain, tagged, salted, hidden, with an inner length, vendor specific or not. */
module RadiusCodec {
  import opened Common
  import opened Bytes
  import opened Addresses
  import opened Streams
  import opened RadiusHiding

  datatype RadiusType =
    | TypeNone | StringType | OctetsType | AddressType | IntegerType | TimeType
    | IPv6AddressType | IPv6PrefixType | InterfaceIdType | Integer64Type

  datatype Item = Item(kind: RadiusType, encrypted: bool, tagged: bool, salted: bool, withLen: bool, concat: bool)

  /** The item of an attribute by vendor and code. An attribute that is not there has no type and no options. */
  type Dictionary = (uint32, byte) -> Item

  /** A value by its dynamic type. A time is in seconds since 1970, a prefix is what its text says. */
  datatype Value =
    | Octets(bytes: seq<byte>)
    | Text(text: seq<byte>)
    | Int(i: int64)
    | Ip(address: seq<byte>)
    | Moment(seconds: int)
    | Prefix(length: byte, network: seq<byte>)

  datatype Avp = Avp(code: byte, vendorId: uint32, tag: byte, value: Value)

  const NO_SALT: seq<byte> := [0, 0]

  type Salt = s: seq<byte> | |s| == 2 witness NO_SALT

  /** What hiding takes besides the payload. */
  datatype Keys = Keys(md5: Hash, secret: seq<byte>, authenticator: Digest)

  const VENDOR_SPECIFIC := 26

  function ItemOf(d: Dictionary, a: Avp): Item {
    d(a.vendorId, a.code)
  }

  predicate Hidden(it: Item) {
    it.encrypted || it.salted
  }

  /** A tagged integer leaves the first of its four bytes to the tag, unless it is salted. */
  predicate ShortInteger(it: Item) {
    it.kind.IntegerType? && it.tagged && !it.salted
  }

  /** The types whose size depends on the value. */
  predicate SizedByValue(it: Item) {
    it.kind.TypeNone? || it.kind.OctetsType? || it.kind.StringType?
  }

  /** Whether the value has the dynamic type, and the shape, that the writer asks for. */
  predicate Matches(it: Item, v: Value) {
    match it.kind
    case TypeNone | OctetsType => v.Octets?
    case StringType => v.Text?
    case IntegerType | Integer64Type => v.Int?
    case AddressType => v.Ip? && To4(v.address).Some?
    case IPv6AddressType => v.Ip? && To16(v.address) != []
    case TimeType => v.Moment?
    case IPv6PrefixType => v.Prefix? && |v.network| == 16
    case InterfaceIdType => v.Octets? && |v.bytes| == 8
  }

  /** Computing the size does not end the process. */
  predicate Sized(d: Dictionary, a: Avp) {
    SizedByValue(ItemOf(d, a)) ==> Matches(ItemOf(d, a), a.value)
  }

  // ----- Sizes

  function DataSize(it: Item, v: Value): nat
    requires SizedByValue(it) ==> Matches(it, v)
  {
    match it.kind
    case TypeNone | OctetsType => |v.bytes| + if it.withLen then 1 else 0
    case StringType => |v.text| + if it.withLen then 1 else 0
    case IntegerType | AddressType | TimeType => 4
    case IPv6AddressType => 16
    case IPv6PrefixType => 18
    case InterfaceIdType | Integer64Type => 8
  }

  function HeaderLen(a: Avp): nat {
    if a.vendorId == 0 then 2 else 8
  }

  /** The size that goes into the length byte. */
  function Len(d: Dictionary, a: Avp): nat
    requires Sized(d, a)
  {
    var it := ItemOf(d, a);
    var size := DataSize(it, a.value);
    HeaderLen(a) + (if Hidden(it) then PaddedLength(size) else size)
    + (if it.salted then 2 else 0) + (if it.tagged && !it.kind.IntegerType? then 1 else 0)
  }

  // ----- Writing

  /** Quotient and remainder of a division that truncates. */
  function Quotient(i: int, n: int): int
    requires n > 0
  {
    if i >= 0 then i / n else -(-i / n)
  }

  function Remainder(i: int, n: int): int
    requires n > 0
  {
    i - Quotient(i, n) * n
  }

  function Payload(it: Item, v: Value): seq<byte>
    requires Matches(it, v)
  {
    match it.kind
    case TypeNone | OctetsType | InterfaceIdType => v.bytes
    case StringType => v.text
    case IntegerType =>
      if ShortInteger(it) then [Bits(Quotient(v.i, 65536), 256)] + Be(Bits(Remainder(v.i, 65536), BYTES4), 4)
      else Be(Bits(v.i, BYTES4), 4)
    case Integer64Type => Be(Bits(v.i, BYTES8), 8)
    case AddressType => From4(v.address)
    case IPv6AddressType => To16(v.address)
    case TimeType => Be(Bits(v.seconds, BYTES4), 4)
    case IPv6PrefixType => [0, v.length] + v.network
  }

  /** What is hidden: the payload, behind its length if it carries one. */
  function Inner(it: Item, payload: seq<byte>): seq<byte> {
    (if it.withLen then [|payload| % 256] else []) + payload
  }

  function SeedOf(it: Item, k: Keys, salt: Salt): seq<byte> {
    k.authenticator + if it.salted then salt else []
  }

  function Data(it: Item, v: Value, k: Keys, salt: Salt): seq<byte>
    requires Matches(it, v)
  {
    if Hidden(it) then Hide(k.md5, k.secret, SeedOf(it, k, salt), Inner(it, Payload(it, v))) else Payload(it, v)
  }

  /** The bytes of data the writer counts, which for a short integer in the clear are not those it writes. */
  function CountedData(it: Item, v: Value): nat
    requires Matches(it, v)
  {
    if Hidden(it) then PaddedLength(|Inner(it, Payload(it, v))|)
    else if ShortInteger(it) then 3
    else |Payload(it, v)|
  }

  function Counted(d: Dictionary, a: Avp): nat
    requires Matches(ItemOf(d, a), a.value)
  {
    var it := ItemOf(d, a);
    HeaderLen(a) + (if it.tagged then 1 else 0) + (if it.salted then 2 else 0) + CountedData(it, a.value)
  }

  /** The writer appends bytes and reports no error; otherwise it fails, or ends the process. */
  predicate Writable(d: Dictionary, a: Avp) {
    Matches(ItemOf(d, a), a.value) && Len(d, a) <= 255 && Counted(d, a) == Len(d, a)
  }

  function EncodeHeader(d: Dictionary, a: Avp, salt: Salt, len: nat): seq<byte> {
    (if a.vendorId == 0 then [a.code, len % 256]
     else [VENDOR_SPECIFIC, len % 256] + Be(a.vendorId, 4) + [a.code, (len - 6) % 256])
    + (if ItemOf(d, a).tagged then [a.tag] else [])
    + (if ItemOf(d, a).salted then salt else [])
  }

  function Encode(d: Dictionary, k: Keys, salt: Salt, a: Avp): seq<byte>
    requires Matches(ItemOf(d, a), a.value)
  {
    EncodeHeader(d, a, salt, Len(d, a)) + Data(ItemOf(d, a), a.value, k, salt)
  }

  // ----- Reading

  function TrimLeft(s: seq<byte>): seq<byte> {
    if s != [] && s[0] == 0 then TrimLeft(s[1..]) else s
  }

  function TrimRight(s: seq<byte>): seq<byte> {
    if s != [] && Last(s) == 0 then TrimRight(Front(s)) else s
  }

  /** A text without the zeros at its ends. */
  function Trim(s: seq<byte>): seq<byte> {
    TrimRight(TrimLeft(s))
  }

  /** A difference in the source's eight bits. */
  function Less(b: int, n: int): byte {
    (b - n) % 256
  }

  /** Code, vendor, tag and salt, the length of the data and the size read so far. */
  datatype Header = Header(code: byte, vendorId: uint32, tag: byte, salt: Salt, dataLen: nat, size: nat)

  function ReadOuter(input: seq<byte>): (r: Option<Header>)
    ensures r.Some? ==> 2 <= r.value.size <= |input|
  {
    if |input| < 2 then None
    else if input[0] != VENDOR_SPECIFIC then Some(Header(input[0], 0, 0, NO_SALT, Less(input[1], 2), 2))
    else if |input| < 8 || input[7] != Less(input[1], 6) then None
    else
      FromBeInRange(input[2..6]);
      Ranges();
      Some(Header(input[6], FromBe(input[2..6]), 0, NO_SALT, Less(input[7], 2), 8))
  }

  function ReadTag(it: Item, h: Header, input: seq<byte>): (r: Option<Header>)
    requires h.size <= |input|
    ensures r.Some? ==> h.size <= r.value.size <= |input|
  {
    if !it.tagged then Some(h)
    else if |input| < h.size + 1 then None
    else Some(h.(tag := input[h.size], dataLen := Less(h.dataLen, 1), size := h.size + 1))
  }

  function ReadSalt(it: Item, h: Header, input: seq<byte>): (r: Option<Header>)
    requires h.size <= |input|
    ensures r.Some? ==> h.size <= r.value.size <= |input|
  {
    if !it.salted then Some(h)
    else if |input| < h.size + 2 then None
    else Some(h.(salt := input[h.size..h.size + 2], dataLen := Less(h.dataLen, 2), size := h.size + 2))
  }

  function ReadHeader(d: Dictionary, input: seq<byte>): (r: Option<Header>)
    ensures r.Some? ==> 2 <= r.value.size <= |input|
  {
    match ReadOuter(input)
    case None => None
    case Some(h) =>
      match ReadTag(d(h.vendorId, h.code), h, input)
      case None => None
      case Some(tagged) => ReadSalt(d(h.vendorId, h.code), tagged, input)
  }

  function SignedOf(s: seq<byte>): Value {
    if |s| == 4 then Int(Signed4(FromBe(s)))
    else if |s| == 8 then Int(Signed8(FromBe(s)))
    else Int(0)
  }

  function Signed4(x: nat): int64 {
    Signed(x % BYTES4, BYTES4)
  }

  function Signed8(x: nat): int64 {
    Signed(x % BYTES8, BYTES8)
  }

  /** The identifier goes into a buffer of the length on the wire, which for a hidden one is longer. */
  function ReadInterfaceId(payloadLen: nat, dataLen: nat, payload: seq<byte>): (r: Reading<Value>)
    ensures r.Done? ==> |r.rest| <= |payload|
  {
    if payloadLen != 8 || dataLen < 8 || |payload| < 8 then Failed
    else
      var n := if dataLen <= |payload| then dataLen else |payload|;
      Done(Octets(payload[..n] + Zeros(dataLen - n)), n, payload[n..])
  }

  /** The bytes a value takes off a payload. */
  function ReadSize(kind: RadiusType, payloadLen: nat): nat {
    match kind
    case TypeNone | OctetsType | StringType => payloadLen
    case IntegerType | AddressType | TimeType => 4
    case IPv6AddressType => 16
    case IPv6PrefixType => 18
    case InterfaceIdType | Integer64Type => 8
  }

  /** The value those bytes are. */
  function ValueOf(kind: RadiusType, s: seq<byte>): Value {
    match kind
    case TypeNone | OctetsType | InterfaceIdType => Octets(s)
    case StringType => Text(Trim(s))
    case IntegerType | Integer64Type => SignedOf(s)
    case AddressType | IPv6AddressType => Ip(s)
    case TimeType => Moment(FromBe(s))
    case IPv6PrefixType => if |s| >= 2 then Prefix(s[1], s[2..]) else Prefix(0, [])
  }

  /** Addresses are read only off a payload of their size. */
  predicate WrongSize(kind: RadiusType, payloadLen: nat) {
    (kind.AddressType? && payloadLen != 4) || (kind.IPv6AddressType? && payloadLen != 16)
  }

  /** A value off a payload. */
  function DecodeValue(kind: RadiusType, payloadLen: nat, dataLen: nat, payload: seq<byte>): (r: Reading<Value>)
    ensures r.Done? ==> |r.rest| <= |payload|
  {
    var n := ReadSize(kind, payloadLen);
    if kind.InterfaceIdType? then ReadInterfaceId(payloadLen, dataLen, payload)
    else if WrongSize(kind, payloadLen) || |payload| < n then Failed
    else Done(ValueOf(kind, payload[..n]), n, payload[n..])
  }

  /** A short integer: its high byte off the payload, its low word always off the stream. */
  function ShortOf(high: byte, low: seq<byte>): Value
    requires |low| == 2
  {
    FromBeInRange(low);
    Ranges();
    Int(65536 * high + FromBe(low))
  }

  /** A value in the clear: its bytes are counted as they are read. */
  function DecodeClear(it: Item, h: Header, input: seq<byte>): (r: Reading<Value>)
    ensures r.Done? ==> |r.rest| <= |input|
  {
    if ShortInteger(it) then
      if |input| < 3 then Failed else Done(ShortOf(input[0], input[1..3]), 3, input[3..])
    else DecodeValue(it.kind, h.dataLen, h.dataLen, input)
  }

  /** The payload behind an inner length. A length of 255 makes an empty range backwards. */
  function Unwrap(it: Item, shown: seq<byte>): Reading<seq<byte>> {
    if !it.withLen then Done(shown, 0, [])
    else if shown == [] || |shown| <= shown[0] then Failed
    else if shown[0] == 255 then Panic
    else Done(shown[1..1 + shown[0] as int], 0, [])
  }

  /** A hidden value: the bytes on the wire are counted at once. */
  function DecodeHidden(it: Item, h: Header, k: Keys, input: seq<byte>): (r: Reading<Value>)
    ensures r.Done? ==> |r.rest| <= |input|
  {
    if |input| < h.dataLen then Failed
    else
      var rest := input[h.dataLen..];
      match Unwrap(it, Show(k.md5, k.secret, SeedOf(it, k, h.salt), input[..h.dataLen]))
      case Failed => Failed
      case Panic => Panic
      case Done(payload, _, _) =>
        if ShortInteger(it) then
          if payload == [] || |rest| < 2 then Failed else Done(ShortOf(payload[0], rest[..2]), h.dataLen, rest[2..])
        else
          match DecodeValue(it.kind, if it.withLen then |payload| else h.dataLen, h.dataLen, payload)
          case Done(v, _, _) => Done(v, h.dataLen, rest)
          case Failed => Failed
          case Panic => Panic
  }

  function Decode(d: Dictionary, k: Keys, input: seq<byte>): (r: Reading<Avp>)
    ensures r.Done? ==> |r.rest| + 2 <= |input| && r.count >= 2
  {
    match ReadHeader(d, input)
    case None => Failed
    case Some(h) =>
      if h.dataLen == 0 then Failed
      else
        var it := d(h.vendorId, h.code);
        match if Hidden(it) then DecodeHidden(it, h, k, input[h.size..]) else DecodeClear(it, h, input[h.size..])
        case Done(v, n, rest) => Done(Avp(h.code, h.vendorId, h.tag, v), h.size + n, rest)
        case Failed => Failed
        case Panic => Panic
  }
}
