/** When a RADIUS attribute is written with the size it says, and when the reader makes it again. */
module RadiusTheorems {
  import opened Common
  import opened Bytes
  import opened Addresses
  import opened Streams
  import opened RadiusHiding
  import opened RadiusCodec

  // ----- Sizes

  /** The options for which size and writer agree. */
  predicate Consistent(it: Item) {
    if Hidden(it) then !(it.kind.IntegerType? && it.tagged) && !(it.kind.IPv6AddressType? && it.withLen)
    else !(it.withLen && SizedByValue(it))
  }

  lemma DataCountIff(it: Item, v: Value)
    requires Matches(it, v)
    ensures CountedData(it, v) + (if it.tagged then 1 else 0) ==
            (if Hidden(it) then PaddedLength(DataSize(it, v)) else DataSize(it, v)) +
                (if it.tagged && !it.kind.IntegerType? then 1 else 0)
            <==> Consistent(it)
  {
    if Hidden(it) {
      if it.withLen {} else {}
      match it.kind
      case TypeNone | OctetsType =>
      case StringType =>
      case IntegerType =>
      case AddressType =>
      case IPv6AddressType =>
      case TimeType =>
      case IPv6PrefixType =>
      case InterfaceIdType =>
      case Integer64Type =>
    } else {
      match it.kind
      case TypeNone | OctetsType =>
      case StringType =>
      case IntegerType => if it.tagged {} else {}
      case AddressType =>
      case IPv6AddressType =>
      case TimeType =>
      case IPv6PrefixType =>
      case InterfaceIdType =>
      case Integer64Type =>
    }
  }

  /**
   The writer's last check, that it counted the size it announced, ends the process exactly for the inconsistent
   options.
   */
  lemma CountsItsLenIff(d: Dictionary, a: Avp)
    requires Matches(ItemOf(d, a), a.value)
    ensures Counted(d, a) == Len(d, a) <==> Consistent(ItemOf(d, a))
  {
    DataCountIff(ItemOf(d, a), a.value);
  }

  function BoolSize(b: bool, n: nat): nat {
    if b then n else 0
  }

  function HeaderSize(d: Dictionary, a: Avp): nat {
    HeaderLen(a) + BoolSize(ItemOf(d, a).tagged, 1) + BoolSize(ItemOf(d, a).salted, 2)
  }

  lemma DataLength(it: Item, v: Value, k: Keys, salt: Salt)
    requires Matches(it, v)
    ensures |Data(it, v, k, salt)| == CountedData(it, v) + if ShortInteger(it) && !Hidden(it) then 2 else 0
  {
    if Hidden(it) {
      HideSize(k.md5, k.secret, SeedOf(it, k, salt), Inner(it, Payload(it, v)));
    }
  }

  /** The writer emits the bytes it counted, but for a short integer in the clear, which is two bytes longer. */
  lemma EmitsWhatItCounts(d: Dictionary, k: Keys, salt: Salt, a: Avp)
    requires Matches(ItemOf(d, a), a.value)
    ensures |Encode(d, k, salt, a)| ==
            Counted(d, a) + if ShortInteger(ItemOf(d, a)) && !Hidden(ItemOf(d, a)) then 2 else 0
  {
    DataLength(ItemOf(d, a), a.value, k, salt);
  }

  // ----- What comes back

  function NormalValue(it: Item, v: Value): Value
    requires Matches(it, v)
  {
    match it.kind
    case TypeNone | OctetsType => if Hidden(it) && !it.withLen then Octets(PadTo16(v.bytes)) else v
    case StringType => Text(Trim(v.text))
    case IntegerType => Int(Signed4(Bits(v.i, BYTES4)))
    case Integer64Type => Int(Signed8(Bits(v.i, BYTES8)))
    case AddressType => Ip(From4(v.address))
    case IPv6AddressType => Ip(To16(v.address))
    case TimeType => Moment(Bits(v.seconds, BYTES4))
    case IPv6PrefixType => v
    case InterfaceIdType => if Hidden(it) then Octets(v.bytes + Zeros(8)) else v
  }

  function Normal(d: Dictionary, a: Avp): Avp
    requires Matches(ItemOf(d, a), a.value)
  {
    a.(tag := if ItemOf(d, a).tagged then a.tag else 0, value := NormalValue(ItemOf(d, a), a.value))
  }

  /** The reader accepts what was written: there are data, and the fixed sizes it checks are not those of padding. */
  predicate Readable(it: Item, v: Value)
    requires Matches(it, v)
  {
    && (Payload(it, v) != [] || (Hidden(it) && it.withLen))
    && !(Hidden(it) && !it.withLen && (it.kind.AddressType? || it.kind.InterfaceIdType?))
  }

  // ----- Trimming

  lemma {:induction false} TrimLeftZeros(s: seq<byte>, n: nat)
    ensures TrimLeft(s + Zeros(n)) == if TrimLeft(s) == [] then [] else TrimLeft(s) + Zeros(n)
    decreases |s| + n
  {
    if s == [] {
      assert s + Zeros(n) == Zeros(n);
      if n > 0 {
        assert Zeros(n)[1..] == Zeros(n - 1) == [] + Zeros(n - 1);
        TrimLeftZeros(s, n - 1);
      }
    } else if s[0] == 0 {
      assert (s + Zeros(n))[1..] == s[1..] + Zeros(n);
      TrimLeftZeros(s[1..], n);
    }
  }

  lemma {:induction false} TrimRightZeros(s: seq<byte>, n: nat)
    ensures TrimRight(s + Zeros(n)) == TrimRight(s)
  {
    if n == 0 {
      assert s + Zeros(n) == s;
    } else {
      assert Front(s + Zeros(n)) == s + Zeros(n - 1);
      TrimRightZeros(s, n - 1);
    }
  }

  lemma TrimPadded(s: seq<byte>)
    ensures Trim(PadTo16(s)) == Trim(s)
  {
    var n := |PadTo16(s)| - |s|;
    assert PadTo16(s) == s + Zeros(n);
    TrimLeftZeros(s, n);
    if TrimLeft(s) != [] {
      TrimRightZeros(TrimLeft(s), n);
    }
  }

  // ----- Values

  lemma NumberComesBack(i: int, n: nat, range: int)
    requires (n == 4 && range == BYTES4) || (n == 8 && range == BYTES8)
    ensures FromBe(Be(Bits(i, range), n)) == Bits(i, range)
  {
    Ranges();
    BeRoundTrip(Bits(i, range), n);
  }

  /** A fixed-size value comes back from the front of whatever it stands in. */
  lemma FixedComesBack(it: Item, v: Value, payloadLen: nat, dataLen: nat, tail: seq<byte>)
    requires Matches(it, v) && !SizedByValue(it) && !it.kind.InterfaceIdType? && !ShortInteger(it)
    ensures var read := DecodeValue(it.kind, payloadLen, dataLen, Payload(it, v) + tail);
      read == if (it.kind.AddressType? && payloadLen != 4) || (it.kind.IPv6AddressType? && payloadLen != 16) then Failed
              else Done(NormalValue(it, v), |Payload(it, v)|, tail)
  {
    var payload := Payload(it, v);
    assert (payload + tail)[..|payload|] == payload && (payload + tail)[|payload|..] == tail;
    match it.kind
    case IntegerType => NumberComesBack(v.i, 4, BYTES4);
    case Integer64Type => NumberComesBack(v.i, 8, BYTES8);
    case AddressType =>
    case IPv6AddressType =>
    case TimeType => NumberComesBack(v.seconds, 4, BYTES4);
    case IPv6PrefixType => assert payload[2..] == v.network;
  }

  lemma ClearValueComesBack(it: Item, v: Value, rest: seq<byte>)
    requires Matches(it, v) && !Hidden(it) && !ShortInteger(it)
    ensures var n := |Payload(it, v)|;
      DecodeValue(it.kind, n, n, Payload(it, v) + rest) == Done(NormalValue(it, v), n, rest)
  {
    var payload := Payload(it, v);
    assert (payload + rest)[..|payload|] == payload && (payload + rest)[|payload|..] == rest;
    match it.kind
    case TypeNone | OctetsType =>
    case StringType =>
    case InterfaceIdType => assert payload + Zeros(0) == payload;
    case IntegerType => FixedComesBack(it, v, 4, 4, rest);
    case Integer64Type => FixedComesBack(it, v, 8, 8, rest);
    case AddressType => FixedComesBack(it, v, 4, 4, rest);
    case IPv6AddressType => FixedComesBack(it, v, 16, 16, rest);
    case TimeType => FixedComesBack(it, v, 4, 4, rest);
    case IPv6PrefixType => FixedComesBack(it, v, 18, 18, rest);
  }

  /** A hidden value behind its own length. */
  lemma WrappedValueComesBack(it: Item, v: Value)
    requires Matches(it, v) && Hidden(it) && it.withLen && Consistent(it)
    ensures var payload := Payload(it, v);
      var read := DecodeValue(it.kind, |payload|, |PadTo16(Inner(it, payload))|, payload);
      read.Done? && read.value == NormalValue(it, v)
  {
    var payload, dataLen := Payload(it, v), |PadTo16(Inner(it, Payload(it, v)))|;
    assert payload[..|payload|] == payload && payload + [] == payload;
    match it.kind
    case TypeNone | OctetsType =>
    case StringType =>
    case InterfaceIdType => assert dataLen == 16;
    case IntegerType => FixedComesBack(it, v, |payload|, dataLen, []);
    case Integer64Type => FixedComesBack(it, v, |payload|, dataLen, []);
    case AddressType => FixedComesBack(it, v, |payload|, dataLen, []);
    case TimeType => FixedComesBack(it, v, |payload|, dataLen, []);
    case IPv6PrefixType => FixedComesBack(it, v, |payload|, dataLen, []);
  }

  /** A hidden value that only padding follows. */
  lemma PaddedValueComesBack(it: Item, v: Value)
    requires Matches(it, v) && Hidden(it) && !it.withLen && Consistent(it)
    ensures var padded := PadTo16(Payload(it, v));
      var read := DecodeValue(it.kind, |padded|, |padded|, padded);
      if it.kind.AddressType? || it.kind.InterfaceIdType? then read.Failed?
      else read.Done? && read.value == NormalValue(it, v)
  {
    var payload, padded := Payload(it, v), PadTo16(Payload(it, v));
    var n := |padded|;
    var tail := Zeros(n - |payload|);
    assert padded == payload + tail;
    match it.kind
    case TypeNone | OctetsType => assert padded[..n] == padded;
    case StringType =>
      assert padded[..n] == padded;
      TrimPadded(v.text);
    case InterfaceIdType =>
    case IntegerType => FixedComesBack(it, v, n, n, tail);
    case Integer64Type => FixedComesBack(it, v, n, n, tail);
    case AddressType => FixedComesBack(it, v, n, n, tail);
    case IPv6AddressType => FixedComesBack(it, v, n, n, tail);
    case TimeType => FixedComesBack(it, v, n, n, tail);
    case IPv6PrefixType => FixedComesBack(it, v, n, n, tail);
  }

  // ----- Headers

  function HeaderOf(d: Dictionary, a: Avp, salt: Salt, dataLen: nat): Header {
    Header(a.code, a.vendorId, if ItemOf(d, a).tagged then a.tag else 0, if ItemOf(d, a).salted then salt else NO_SALT,
           dataLen, HeaderSize(d, a))
  }

  /** Code 26 in an attribute of no vendor announces a vendor. */
  predicate ProperCode(a: Avp) {
    a.vendorId == 0 ==> a.code != VENDOR_SPECIFIC
  }

  lemma OuterComesBack(a: Avp, len: nat, more: seq<byte>, input: seq<byte>)
    requires ProperCode(a) && HeaderLen(a) <= len <= 255
    requires input == (if a.vendorId == 0 then [a.code, len % 256]
                       else [VENDOR_SPECIFIC, len % 256] + Be(a.vendorId, 4) + [a.code, (len - 6) % 256]) + more
    ensures ReadOuter(input) == Some(Header(a.code, a.vendorId, 0, NO_SALT, len - HeaderLen(a), HeaderLen(a)))
    ensures input[HeaderLen(a)..] == more
  {
    if a.vendorId != 0 {
      Ranges();
      BeRoundTrip(a.vendorId, 4);
      assert input[2..6] == Be(a.vendorId, 4);
      assert input[6] == a.code && input[7] == len - 6;
    }
  }

  lemma OptionsComeBack(it: Item, h: Header, tag: byte, salt: Salt, input: seq<byte>, more: seq<byte>)
    requires h.size <= |input| && h.tag == 0 && h.salt == NO_SALT
    requires BoolSize(it.tagged, 1) + BoolSize(it.salted, 2) <= h.dataLen < 256
    requires input[h.size..] == (if it.tagged then [tag] else []) + (if it.salted then salt else []) + more
    ensures ReadTag(it, h, input).Some?
    ensures var size := h.size + BoolSize(it.tagged, 1) + BoolSize(it.salted, 2);
      && ReadSalt(it, ReadTag(it, h, input).value, input) ==
           Some(Header(h.code, h.vendorId, if it.tagged then tag else 0, if it.salted then salt else NO_SALT,
                       h.dataLen - (size - h.size), size))
      && size <= |input| && input[size..] == more
  {
    var tail := input[h.size..];
    if it.tagged {
      assert tail[0] == input[h.size];
      if it.salted {
        assert tail[1..3] == salt && input[h.size + 1..h.size + 3] == tail[1..3];
        assert input[h.size + 3..] == tail[3..] == more;
      } else {
        assert input[h.size + 1..] == tail[1..] == more;
      }
    } else if it.salted {
      assert tail[..2] == salt && input[h.size..h.size + 2] == tail[..2];
      assert input[h.size + 2..] == tail[2..] == more;
    } else {
      assert tail == more;
    }
  }

  lemma HeaderComesBack(d: Dictionary, a: Avp, salt: Salt, len: nat, more: seq<byte>)
    requires ProperCode(a) && HeaderSize(d, a) <= len <= 255
    ensures var input := EncodeHeader(d, a, salt, len) + more;
      ReadHeader(d, input) == Some(HeaderOf(d, a, salt, len - HeaderSize(d, a))) && input[HeaderSize(d, a)..] == more
  {
    var it := ItemOf(d, a);
    var input := EncodeHeader(d, a, salt, len) + more;
    var options := (if it.tagged then [a.tag] else []) + (if it.salted then salt else []) + more;
    var outer := if a.vendorId == 0 then [a.code, len % 256]
                 else [VENDOR_SPECIFIC, len % 256] + Be(a.vendorId, 4) + [a.code, (len - 6) % 256];
    assert input == outer + options;
    OuterComesBack(a, len, options, input);
    OptionsComeBack(it, Header(a.code, a.vendorId, 0, NO_SALT, len - HeaderLen(a), HeaderLen(a)), a.tag, salt, input,
        more);
  }

  // ----- Round trip

  lemma DecodeBehindHeader(d: Dictionary, k: Keys, salt: Salt, a: Avp, len: nat, more: seq<byte>, read: Reading<Value>)
    requires ProperCode(a) && HeaderSize(d, a) < len <= 255
    requires var h := HeaderOf(d, a, salt, len - HeaderSize(d, a));
      read ==
        if Hidden(ItemOf(d, a)) then DecodeHidden(ItemOf(d, a), h, k, more)
        else DecodeClear(ItemOf(d, a), h, more)
    requires !read.Panic?
    ensures Decode(d, k, EncodeHeader(d, a, salt, len) + more) ==
      if read.Failed? then Failed
      else Done(a.(tag := if ItemOf(d, a).tagged then a.tag else 0, value := read.value),
                HeaderSize(d, a) + read.count, read.rest)
  {
    HeaderComesBack(d, a, salt, len, more);
  }

  lemma EmptyIsRejected(d: Dictionary, k: Keys, salt: Salt, a: Avp, more: seq<byte>)
    requires ProperCode(a)
    ensures Decode(d, k, EncodeHeader(d, a, salt, HeaderSize(d, a)) + more).Failed?
  {
    HeaderComesBack(d, a, salt, HeaderSize(d, a), more);
  }

  lemma ClearDataComesBack(it: Item, v: Value, h: Header, rest: seq<byte>)
    requires Matches(it, v) && !Hidden(it) && !ShortInteger(it) && h.dataLen == |Payload(it, v)|
    ensures DecodeClear(it, h, Payload(it, v) + rest) == Done(NormalValue(it, v), h.dataLen, rest)
  {
    ClearValueComesBack(it, v, rest);
  }

  lemma UnwrapUndoesInner(it: Item, payload: seq<byte>)
    requires |payload| < 255
    ensures Unwrap(it, PadTo16(Inner(it, payload))) == Done(if it.withLen then payload else PadTo16(payload), 0, [])
  {
    var inner := Inner(it, payload);
    var shown := PadTo16(inner);
    if it.withLen {
      assert shown[..|inner|] == inner && inner[0] == |payload|;
      assert shown[0] == |payload| && shown[1..1 + |payload|] == inner[1..] == payload;
    } else {
      assert inner == payload;
    }
  }

  lemma HiddenDataComesBack(it: Item, v: Value, k: Keys, salt: Salt, h: Header, rest: seq<byte>)
    requires Matches(it, v) && Hidden(it) && Consistent(it) && |Payload(it, v)| < 255
    requires h.salt == (if it.salted then salt else NO_SALT) && h.dataLen == |Data(it, v, k, salt)|
    ensures var read := DecodeHidden(it, h, k, Data(it, v, k, salt) + rest);
      if !it.withLen && (it.kind.AddressType? || it.kind.InterfaceIdType?) then read.Failed?
      else read == Done(NormalValue(it, v), h.dataLen, rest)
  {
    var data, payload := Data(it, v, k, salt), Payload(it, v);
    var input := data + rest;
    assert input[..h.dataLen] == data && input[h.dataLen..] == rest;
    assert SeedOf(it, k, h.salt) == SeedOf(it, k, salt);
    ShowUndoesHide(k.md5, k.secret, SeedOf(it, k, salt), Inner(it, payload));
    HideSize(k.md5, k.secret, SeedOf(it, k, salt), Inner(it, payload));
    UnwrapUndoesInner(it, payload);
    if it.withLen {
      WrappedValueComesBack(it, v);
    } else {
      assert Inner(it, payload) == payload;
      PaddedValueComesBack(it, v);
    }
  }

  lemma SizeOfData(d: Dictionary, k: Keys, salt: Salt, a: Avp)
    requires Writable(d, a) && !ShortInteger(ItemOf(d, a))
    ensures Len(d, a) == HeaderSize(d, a) + |Data(ItemOf(d, a), a.value, k, salt)|
    ensures |Payload(ItemOf(d, a), a.value)| < 255
    ensures Consistent(ItemOf(d, a))
  {
    DataLength(ItemOf(d, a), a.value, k, salt);
    CountsItsLenIff(d, a);
  }

  lemma HiddenComesBack(d: Dictionary, k: Keys, salt: Salt, a: Avp, data: seq<byte>, rest: seq<byte>)
    requires Writable(d, a) && ProperCode(a) && Hidden(ItemOf(d, a)) && !ShortInteger(ItemOf(d, a))
    requires data == Data(ItemOf(d, a), a.value, k, salt) && data != []
    ensures Decode(d, k, EncodeHeader(d, a, salt, Len(d, a)) + (data + rest)) ==
      if Readable(ItemOf(d, a), a.value) then Done(Normal(d, a), Len(d, a), rest) else Failed
  {
    var it, v := ItemOf(d, a), a.value;
    var h := HeaderOf(d, a, salt, |data|);
    SizeOfData(d, k, salt, a);
    HiddenDataComesBack(it, v, k, salt, h, rest);
    DecodeBehindHeader(d, k, salt, a, Len(d, a), data + rest, DecodeHidden(it, h, k, data + rest));
    NoDataIsUnreadable(it, v, k, salt);
  }

  lemma ClearComesBack(d: Dictionary, k: Keys, salt: Salt, a: Avp, data: seq<byte>, rest: seq<byte>)
    requires Writable(d, a) && ProperCode(a) && !Hidden(ItemOf(d, a)) && !ShortInteger(ItemOf(d, a))
    requires data == Data(ItemOf(d, a), a.value, k, salt) && data != []
    ensures Decode(d, k, EncodeHeader(d, a, salt, Len(d, a)) + (data + rest)) == Done(Normal(d, a), Len(d, a), rest)
    ensures Readable(ItemOf(d, a), a.value)
  {
    var it, v := ItemOf(d, a), a.value;
    var h := HeaderOf(d, a, salt, |data|);
    SizeOfData(d, k, salt, a);
    ClearDataComesBack(it, v, h, rest);
    DecodeBehindHeader(d, k, salt, a, Len(d, a), data + rest, DecodeClear(it, h, data + rest));
  }

  /**
   The reader makes the attribute again, reports its size and leaves exactly what followed; or it reports an error,
   which is exactly when there are no data, or hidden addresses and interface identifiers without their length.
   */
  lemma DecodeUndoesEncode(d: Dictionary, k: Keys, salt: Salt, a: Avp, rest: seq<byte>)
    requires Writable(d, a) && ProperCode(a) && !ShortInteger(ItemOf(d, a))
    ensures Decode(d, k, Encode(d, k, salt, a) + rest) ==
      if Readable(ItemOf(d, a), a.value) then Done(Normal(d, a), Len(d, a), rest) else Failed
  {
    var data := Data(ItemOf(d, a), a.value, k, salt);
    SizeOfData(d, k, salt, a);
    Regroup(EncodeHeader(d, a, salt, Len(d, a)), data, rest);
    if data == [] {
      EmptyIsRejected(d, k, salt, a, data + rest);
      NoDataIsUnreadable(ItemOf(d, a), a.value, k, salt);
    } else if Hidden(ItemOf(d, a)) {
      HiddenComesBack(d, k, salt, a, data, rest);
    } else {
      ClearComesBack(d, k, salt, a, data, rest);
    }
  }

  lemma NoDataIsUnreadable(it: Item, v: Value, k: Keys, salt: Salt)
    requires Matches(it, v)
    ensures Data(it, v, k, salt) == [] <==> Payload(it, v) == [] && !(Hidden(it) && it.withLen)
  {
    if Hidden(it) {
      HideSize(k.md5, k.secret, SeedOf(it, k, salt), Inner(it, Payload(it, v)));
    }
  }

  // ----- When the attribute that comes back is the one written

  predicate CanonicalValue(it: Item, v: Value)
    requires Matches(it, v)
  {
    match it.kind
    case TypeNone | OctetsType => Hidden(it) && !it.withLen ==> |v.bytes| % BLOCK == 0
    case StringType => v.text != [] ==> v.text[0] != 0 && Last(v.text) != 0
    case IntegerType => -BYTES4 <= 2 * v.i < BYTES4
    case Integer64Type => true
    case AddressType => |v.address| == 4
    case IPv6AddressType => |v.address| == 16
    case TimeType => 0 <= v.seconds < BYTES4
    case IPv6PrefixType => true
    case InterfaceIdType => !Hidden(it)
  }

  lemma {:induction false} TrimLeftShortens(s: seq<byte>)
    ensures |TrimLeft(s)| <= |s| && (if s == [] || s[0] != 0 then TrimLeft(s) == s else |TrimLeft(s)| < |s|)
  {
    if s != [] && s[0] == 0 {
      TrimLeftShortens(s[1..]);
    }
  }

  lemma {:induction false} TrimRightShortens(s: seq<byte>)
    ensures |TrimRight(s)| <= |s| && (if s == [] || Last(s) != 0 then TrimRight(s) == s else |TrimRight(s)| < |s|)
  {
    if s != [] && Last(s) == 0 {
      TrimRightShortens(Front(s));
    }
  }

  lemma TrimIsSameIff(s: seq<byte>)
    ensures Trim(s) == s <==> (s != [] ==> s[0] != 0 && Last(s) != 0)
  {
    TrimLeftShortens(s);
    TrimRightShortens(TrimLeft(s));
    TrimRightShortens(s);
  }

  /**
   A value comes back unchanged exactly when it is canonical: in its range and form, and with no zeros at the ends of a
   text.
   */
  lemma NormalIsSameIff(it: Item, v: Value)
    requires Matches(it, v)
    ensures NormalValue(it, v) == v <==> CanonicalValue(it, v)
  {
    match it.kind
    case TypeNone | OctetsType =>
    case StringType => TrimIsSameIff(v.text);
    case IntegerType => SignedRoundTrip(v.i, BYTES4);
    case Integer64Type => SignedRoundTrip(v.i, BYTES8);
    case AddressType =>
    case IPv6AddressType =>
    case TimeType =>
    case IPv6PrefixType =>
    case InterfaceIdType => assert |v.bytes + Zeros(8)| == 16;
  }

  // ----- Short integers

  /** What stands behind the header of a tagged integer: its high byte, two zeros, and its low word. */
  lemma ShortPayload(it: Item, i: int64)
    requires ShortInteger(it) && 0 <= i < 0x100_0000
    ensures Payload(it, Int(i)) == [i / 65536, 0, 0] + Be(i % 65536, 2)
  {
    LowWord(i % 65536);
    assert Bits(i / 65536, 256) == i / 65536 && Bits(i % 65536, BYTES4) == i % 65536;
  }

  lemma ShortDataLosesItsLowWord(it: Item, h: Header, high: byte, more: seq<byte>)
    requires ShortInteger(it)
    ensures DecodeClear(it, h, [high, 0, 0] + more) == Done(Int(65536 * high), 3, more)
  {
    var input := [high, 0, 0] + more;
    assert input[1..3] == [0, 0] && input[3..] == more;
    assert FromBe([0, 0]) == 0 by { assert Front([0, 0]) == [0] && Front([0]) == []; }
  }

  lemma TaggedIntegerSizes(d: Dictionary, k: Keys, salt: Salt, a: Avp)
    requires ShortInteger(ItemOf(d, a)) && !Hidden(ItemOf(d, a)) && a.value.Int?
    ensures Writable(d, a) && |Encode(d, k, salt, a)| == Len(d, a) + 2 && Len(d, a) == HeaderSize(d, a) + 3
  {
    CountsItsLenIff(d, a);
    EmitsWhatItCounts(d, k, salt, a);
  }

  lemma ClearShape(d: Dictionary, k: Keys, salt: Salt, a: Avp, rest: seq<byte>, more: seq<byte>)
    requires Matches(ItemOf(d, a), a.value) && !Hidden(ItemOf(d, a)) && more == Payload(ItemOf(d, a), a.value) + rest
    ensures Encode(d, k, salt, a) + rest == EncodeHeader(d, a, salt, Len(d, a)) + more
  {
  }

  lemma ShortIntegerReads(d: Dictionary, k: Keys, salt: Salt, a: Avp, high: byte, low: seq<byte>)
    requires ShortInteger(ItemOf(d, a)) && !Hidden(ItemOf(d, a)) && ProperCode(a)
    ensures Decode(d, k, EncodeHeader(d, a, salt, HeaderSize(d, a) + 3) + ([high, 0, 0] + low)) ==
            Done(a.(value := Int(65536 * high)), HeaderSize(d, a) + 3, low)
  {
    ShortDataLosesItsLowWord(ItemOf(d, a), HeaderOf(d, a, salt, 3), high, low);
    DecodeBehindHeader(d, k, salt, a, HeaderSize(d, a) + 3, [high, 0, 0] + low, Done(Int(65536 * high), 3, low));
  }

  /**
   A tagged integer in the clear takes two bytes more than its length says; the reader loses its low word and stops
   before them.
   */
  lemma TaggedIntegerLosesItsLowWord(d: Dictionary, k: Keys, salt: Salt, a: Avp, rest: seq<byte>)
    requires ShortInteger(ItemOf(d, a)) && !Hidden(ItemOf(d, a)) && a.value.Int? && 0 <= a.value.i < 0x100_0000
    requires ProperCode(a)
    ensures Writable(d, a) && |Encode(d, k, salt, a)| == Len(d, a) + 2
    ensures Decode(d, k, Encode(d, k, salt, a) + rest) ==
      Done(a.(value := Int(65536 * (a.value.i / 65536))), Len(d, a), Be(a.value.i % 65536, 2) + rest)
  {
    var high: byte, low := a.value.i / 65536, Be(a.value.i % 65536, 2) + rest;
    TaggedIntegerSizes(d, k, salt, a);
    ShortPayload(ItemOf(d, a), a.value.i);
    ClearShape(d, k, salt, a, rest, [high, 0, 0] + low);
    ShortIntegerReads(d, k, salt, a, high, low);
  }

  lemma LowWord(x: nat)
    requires x < 65536
    ensures Be(x, 4) == [0, 0] + Be(x, 2)
  {
    var high, low := x / 256, x % 256;
    assert high / 256 == 0 && high < 256;
    assert Be(high, 1) == [high] && Be(0, 1) == [0];
    assert Be(x, 2) == [high] + [low];
    assert Be(0, 2) == [0] + [0];
    assert Be(high, 3) == Be(0, 2) + [high];
    assert Be(x, 4) == Be(high, 3) + [low];
  }
}
