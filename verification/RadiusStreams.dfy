/** The RADIUS codec as the program runs it: attributes off and onto streams, long ones split, short ones merged. */
module RadiusStreams {
  import opened Common
  import opened Bytes
  import opened Addresses
  import opened Streams
  import opened RadiusHiding
  import opened RadiusCodec
  import opened RadiusTheorems
  import opened RadiusPackets

  // ----- Writing an attribute

  /** Appends the value. The count of a short integer is two bytes below what is appended. */
  method WritePayload(it: Item, v: Value, payloadWriter: Buffer) returns (ok: bool, n: nat)
    modifies payloadWriter
    ensures ok <==> Matches(it, v)
    ensures ok ==> payloadWriter.bytes == old(payloadWriter.bytes) + Payload(it, v)
    ensures ok ==> n == if ShortInteger(it) then 3 else |Payload(it, v)|
  {
    ok, n := Matches(it, v), 0;
    if !ok {
      return;
    }
    match it.kind
    case TypeNone | OctetsType =>
      payloadWriter.Write(v.bytes);
      n := |v.bytes|;
    case StringType =>
      payloadWriter.Write(v.text);
      n := |v.text|;
    case IntegerType =>
      if !it.tagged || it.salted {
        payloadWriter.Write(Be(Bits(v.i, BYTES4), 4));
        n := 4;
      } else {
        ghost var before := payloadWriter.bytes;
        var highByte, lowByte := Quotient(v.i, 65536), Remainder(v.i, 65536);
        payloadWriter.Write([Bits(highByte, 256)]);
        payloadWriter.Write(Be(Bits(lowByte, BYTES4), 4));
        assert payloadWriter.bytes == before + ([Bits(highByte, 256)] + Be(Bits(lowByte, BYTES4), 4));
        n := 3;
      }
    case AddressType =>
      payloadWriter.Write(From4(v.address));
      n := 4;
    case IPv6AddressType =>
      payloadWriter.Write(To16(v.address));
      n := 16;
    case TimeType =>
      payloadWriter.Write(Be(Bits(v.seconds, BYTES4), 4));
      n := 4;
    case IPv6PrefixType =>
      payloadWriter.Write([0, v.length] + v.network);
      n := 18;
    case InterfaceIdType =>
      payloadWriter.Write(v.bytes);
      n := 8;
    case Integer64Type =>
      payloadWriter.Write(Be(Bits(v.i, BYTES8), 8));
      n := 8;
  }

  /** Hides the value in a buffer of its own, behind its length if it carries one, and appends the result. */
  method WriteHidden(it: Item, v: Value, k: Keys, salt: Salt, writer: Buffer) returns (ok: bool, n: nat)
    requires Hidden(it)
    modifies writer
    ensures ok <==> Matches(it, v)
    ensures ok ==> writer.bytes == old(writer.bytes) + Data(it, v, k, salt) && n == CountedData(it, v)
  {
    var encryptBuffer := new Buffer();
    ok, n := WritePayload(it, v, encryptBuffer);
    if !ok {
      return;
    }
    var octetsValue := encryptBuffer.bytes;
    assert octetsValue == Payload(it, v);
    if it.withLen {
      octetsValue := [|octetsValue| % 256] + octetsValue;
    }
    assert octetsValue == Inner(it, Payload(it, v));
    var encrypted := Encrypt1(k.md5, octetsValue, k.authenticator, k.secret, if it.salted then salt else []);
    HideSize(k.md5, k.secret, SeedOf(it, k, salt), octetsValue);
    writer.Write(encrypted);
    n := |encrypted|;
  }

  /** Appends type and length, around vendor, code and inner length if there is a vendor. */
  method WriteOuter(a: Avp, avpLen: nat, writer: Buffer) returns (n: nat)
    modifies writer
    ensures n == HeaderLen(a)
    ensures writer.bytes == old(writer.bytes) +
      if a.vendorId == 0 then [a.code, avpLen % 256]
      else [VENDOR_SPECIFIC, avpLen % 256] + Be(a.vendorId, 4) + [a.code, (avpLen - 6) % 256]
  {
    ghost var start := writer.bytes;
    if a.vendorId == 0 {
      writer.Write([a.code]);
      writer.Write([avpLen % 256]);
      n := 2;
      assert writer.bytes == start + [a.code, avpLen % 256];
    } else {
      writer.Write([VENDOR_SPECIFIC]);
      writer.Write([avpLen % 256]);
      writer.Write(Be(a.vendorId, 4));
      writer.Write([a.code]);
      writer.Write([(avpLen - 6) % 256]);
      n := 8;
      assert writer.bytes ==
             start + ([VENDOR_SPECIFIC, avpLen % 256] + Be(a.vendorId, 4) + [a.code, (avpLen - 6) % 256]);
    }
  }

  /** Appends the header of an attribute: type, length, vendor, tag and salt. */
  method WriteHeader(d: Dictionary, a: Avp, salt: Salt, avpLen: nat, writer: Buffer) returns (n: nat)
    modifies writer
    ensures writer.bytes == old(writer.bytes) + EncodeHeader(d, a, salt, avpLen) && n == HeaderSize(d, a)
  {
    n := WriteOuter(a, avpLen, writer);
    ghost var outer := writer.bytes;
    var it := d(a.vendorId, a.code);
    if it.tagged {
      writer.Write([a.tag]);
      n := n + 1;
    }
    if it.salted {
      writer.Write(salt);
      n := n + 2;
    }
    assert writer.bytes == outer + ((if it.tagged then [a.tag] else []) + (if it.salted then salt else []));
  }

  /** Appends header and data of an attribute that has a size, and counts what it appends. */
  method WriteSized(d: Dictionary, k: Keys, salt: Salt, a: Avp, writer: Buffer) returns (ok: bool, n: nat)
    requires Sized(d, a)
    modifies writer
    ensures ok <==> Matches(ItemOf(d, a), a.value)
    ensures ok ==> n == Counted(d, a) && writer.bytes == old(writer.bytes) + Encode(d, k, salt, a)
  {
    var it := d(a.vendorId, a.code);
    ghost var start := writer.bytes;
    var header := WriteHeader(d, a, salt, Len(d, a), writer);
    ghost var headed := writer.bytes;
    if it.encrypted || it.salted {
      ok, n := WriteHidden(it, a.value, k, salt, writer);
    } else {
      ok, n := WritePayload(it, a.value, writer);
    }
    if ok {
      assert writer.bytes == headed + Data(it, a.value, k, salt);
      assert writer.bytes == start + (EncodeHeader(d, a, salt, Len(d, a)) + Data(it, a.value, k, salt));
      n := header + n;
    }
  }

  /**
   Appends the attribute. It is an error if it is too long or of another type, and the end of the process if its size
   cannot be computed or is not the count of what was written.
   */
  method WriteAvp(d: Dictionary, k: Keys, salt: Salt, a: Avp, writer: Buffer) returns (r: Writing)
    modifies writer
    ensures r.Wrote? <==> Writable(d, a)
    ensures r.Wrote? ==> r.n == Len(d, a) && writer.bytes == old(writer.bytes) + Encode(d, k, salt, a)
    ensures r.WritePanic? <==>
              !Sized(d, a) || (Matches(ItemOf(d, a), a.value) && Len(d, a) <= 255 && !Consistent(ItemOf(d, a)))
  {
    var it := d(a.vendorId, a.code);
    if SizedByValue(it) && !Matches(it, a.value) {
      return WritePanic;
    }
    var avpLen := Len(d, a);
    if avpLen > 255 {
      return WriteError;
    }
    var ok, bytesWritten := WriteSized(d, k, salt, a, writer);
    if !ok {
      return WriteError;
    }
    CountsItsLenIff(d, a);
    if bytesWritten != avpLen {
      return WritePanic;
    }
    r := Wrote(bytesWritten);
  }

  // ----- Reading an attribute

  /** The value off a payload: the stream itself, or what was shown of a hidden one. */
  method ReadValue(kind: RadiusType, payloadLen: nat, dataLen: nat, reader: Reader) returns (r: ReadResult<Value>)
    modifies reader
    ensures Agrees(r, reader.left, DecodeValue(kind, payloadLen, dataLen, old(reader.left)))
  {
    if kind.InterfaceIdType? {
      r := ReadIdentifier(payloadLen, dataLen, reader);
      return;
    }
    if kind.AddressType? && payloadLen != 4 {
      return ReadError;
    }
    if kind.IPv6AddressType? && payloadLen != 16 {
      return ReadError;
    }
    var n := ReadSize(kind, payloadLen);
    var ok, bytes := reader.Read(n);
    r := if ok then ReadOk(ValueOf(kind, bytes), n) else ReadError;
  }

  method ReadIdentifier(payloadLen: nat, dataLen: nat, reader: Reader) returns (r: ReadResult<Value>)
    modifies reader
    ensures Agrees(r, reader.left, ReadInterfaceId(payloadLen, dataLen, old(reader.left)))
  {
    ghost var input := reader.left;
    if payloadLen != 8 || dataLen < 8 {
      return ReadError;
    }
    var ok, first := reader.Read(8);
    if !ok {
      return ReadError;
    }
    var more := if dataLen - 8 <= |reader.left| then dataLen - 8 else |reader.left|;
    var _, tail := reader.Read(more);
    assert first + tail == input[..8 + more] && reader.left == input[8 + more..];
    r := ReadOk(Octets(first + tail + Zeros(dataLen - 8 - more)), 8 + more);
  }

  method ReadClear(it: Item, h: Header, reader: Reader) returns (r: ReadResult<Value>)
    modifies reader
    ensures Agrees(r, reader.left, DecodeClear(it, h, old(reader.left)))
  {
    if it.kind.IntegerType? && it.tagged && !it.salted {
      ghost var input := reader.left;
      var okHigh, high := reader.Read(1);
      if !okHigh {
        return ReadError;
      }
      var okLow, low := reader.Read(2);
      if !okLow {
        return ReadError;
      }
      assert low == input[1..3] && reader.left == input[3..];
      r := ReadOk(ShortOf(high[0], low), 3);
    } else {
      r := ReadValue(it.kind, h.dataLen, h.dataLen, reader);
    }
  }

  /** Decrypts what is on the wire and reads the value from it. */
  method ReadHidden(it: Item, h: Header, k: Keys, reader: Reader) returns (r: ReadResult<Value>)
    modifies reader
    ensures Agrees(r, reader.left, DecodeHidden(it, h, k, old(reader.left)))
  {
    var ok, avpBytes := reader.Read(h.dataLen);
    if !ok {
      return ReadError;
    }
    var shown := Decrypt1(k.md5, avpBytes, k.authenticator, k.secret, if it.salted then h.salt else []);
    var payload := shown;
    if it.withLen {
      if shown == [] {
        return ReadError;
      }
      var size := shown[0];
      if |shown| <= size {
        return ReadError;
      }
      if size == 255 {
        return ReadPanic;
      }
      payload := shown[1..1 + size as int];
    }
    if it.kind.IntegerType? && it.tagged && !it.salted {
      if payload == [] {
        return ReadError;
      }
      var okLow, low := reader.Read(2);
      if !okLow {
        return ReadError;
      }
      return ReadOk(ShortOf(payload[0], low), h.dataLen);
    }
    var payloadReader := new Reader(payload);
    var v := ReadValue(it.kind, if it.withLen then |payload| else h.dataLen, h.dataLen, payloadReader);
    match v
    case ReadOk(value, _) => r := ReadOk(value, h.dataLen);
    case ReadError => r := ReadError;
    case ReadPanic => r := ReadPanic;
  }

  method ReadOuterHeader(reader: Reader) returns (h: Option<Header>)
    modifies reader
    ensures h == ReadOuter(old(reader.left))
    ensures h.Some? ==> reader.left == old(reader.left)[h.value.size..]
  {
    ghost var input := reader.left;
    var ok, first := reader.Read(2);
    if !ok {
      return None;
    }
    if first[0] != VENDOR_SPECIFIC {
      return Some(Header(first[0], 0, 0, NO_SALT, Less(first[1], 2), 2));
    }
    var okVendor, vendor := reader.Read(6);
    if !okVendor {
      return None;
    }
    assert vendor[..4] == input[2..6] && vendor[4] == input[6] && vendor[5] == input[7];
    if vendor[5] != Less(first[1], 6) {
      return None;
    }
    FromBeInRange(vendor[..4]);
    Ranges();
    h := Some(Header(vendor[4], FromBe(vendor[..4]), 0, NO_SALT, Less(vendor[5], 2), 8));
    assert reader.left == input[8..];
  }

  method ReadFullHeader(d: Dictionary, reader: Reader) returns (h: Option<Header>)
    modifies reader
    ensures h == ReadHeader(d, old(reader.left))
    ensures h.Some? ==> reader.left == old(reader.left)[h.value.size..]
  {
    ghost var input := reader.left;
    h := ReadOuterHeader(reader);
    if h.None? {
      return;
    }
    var it := d(h.value.vendorId, h.value.code);
    if it.tagged {
      var ok, tag := reader.Read(1);
      if !ok {
        return None;
      }
      assert tag[0] == input[h.value.size];
      h := Some(h.value.(tag := tag[0], dataLen := Less(h.value.dataLen, 1), size := h.value.size + 1));
      assert reader.left == input[h.value.size..];
    }
    if it.salted {
      var ok, salt := reader.Read(2);
      if !ok {
        return None;
      }
      assert salt == input[h.value.size..h.value.size + 2];
      h := Some(h.value.(salt := salt, dataLen := Less(h.value.dataLen, 2), size := h.value.size + 2));
      assert reader.left == input[h.value.size..];
    }
  }

  /** Reads one attribute off the stream. */
  method ReadAvp(d: Dictionary, k: Keys, reader: Reader) returns (r: ReadResult<Avp>)
    modifies reader
    ensures Agrees(r, reader.left, Decode(d, k, old(reader.left)))
  {
    var header := ReadFullHeader(d, reader);
    if header.None? {
      return ReadError;
    }
    var h := header.value;
    if h.dataLen == 0 {
      return ReadError;
    }
    var it := d(h.vendorId, h.code);
    var v;
    if it.encrypted || it.salted {
      v := ReadHidden(it, h, k, reader);
    } else {
      v := ReadClear(it, h, reader);
    }
    match v
    case ReadOk(value, n) => r := ReadOk(Avp(h.code, h.vendorId, h.tag, value), h.size + n);
    case ReadError => r := ReadError;
    case ReadPanic => r := ReadPanic;
  }

  // ----- Splitting

  /** The source's loop over the octets of a long attribute. */
  method SplitAvp(a: Avp, octetsValue: seq<byte>) returns (parts: seq<Avp>)
    ensures parts == Chunks(a, octetsValue)
  {
    parts := [];
    var valueIndex := 0;
    while valueIndex < |octetsValue|
      invariant valueIndex <= |octetsValue|
      invariant parts + Chunks(a, octetsValue[valueIndex..]) == Chunks(a, octetsValue)
    {
      ghost var left := octetsValue[valueIndex..];
      var lastIndex := valueIndex + CHUNK;
      if lastIndex > |octetsValue| {
        lastIndex := |octetsValue|;
      }
      var splitAvp := a.(value := Octets(octetsValue[valueIndex..lastIndex]));
      assert octetsValue[lastIndex..] == left[lastIndex - valueIndex..];
      assert octetsValue[valueIndex..lastIndex] == left[..lastIndex - valueIndex];
      if |left| <= CHUNK {
        assert octetsValue[valueIndex..lastIndex] == left && octetsValue[lastIndex..] == [];
      }
      assert Chunks(a, left) == [splitAvp] + Chunks(a, octetsValue[lastIndex..]);
      assert parts + ([splitAvp] + Chunks(a, octetsValue[lastIndex..])) ==
             parts + [splitAvp] + Chunks(a, octetsValue[lastIndex..]);
      parts := parts + [splitAvp];
      valueIndex := lastIndex;
    }
    assert parts + [] == parts;
  }

  predicate Splittable(d: Dictionary, a: Avp) {
    Sized(d, a) && (ItemOf(d, a).concat ==> ItemOf(d, a).kind.OctetsType?)
  }

  predicate AllSplittable(d: Dictionary, avps: seq<Avp>) {
    forall a :: a in avps ==> Splittable(d, a)
  }

  lemma {:induction false} SplitAppend(d: Dictionary, avps: seq<Avp>, a: Avp)
    requires AllSplittable(d, avps) && Splittable(d, a)
    ensures AllSplittable(d, avps + [a]) && Split(d, avps + [a]) == Split(d, avps) + SplitOne(d, a)
  {
    if avps == [] {
      assert [] + [a] == [a];
      assert [a][1..] == [];
      assert SplitOne(d, a) + [] == SplitOne(d, a);
    } else {
      assert (avps + [a])[1..] == avps[1..] + [a];
      assert Splittable(d, avps[0]);
      SplitAppend(d, avps[1..], a);
      SplitHead(d, avps);
      SplitHead(d, avps + [a]);
    }
  }

  lemma SplitHead(d: Dictionary, avps: seq<Avp>)
    requires avps != [] && AllSplittable(d, avps)
    ensures Splittable(d, avps[0]) && Split(d, avps) == SplitOne(d, avps[0]) + Split(d, avps[1..])
  {
  }

  lemma {:induction false} NothingToSplit(d: Dictionary, avps: seq<Avp>)
    requires AllSized(d, avps) && ConcatIsOctets(d, avps) && forall a :: a in avps ==> !TooLong(d, a)
    ensures Split(d, avps) == avps
  {
    if avps != [] {
      NothingToSplit(d, avps[1..]);
      assert avps == [avps[0]] + avps[1..];
    }
  }

  /** Whether an attribute is to be split; nothing when computing its size ends the process. */
  method CheckLong(d: Dictionary, a: Avp) returns (long: Option<bool>)
    requires ItemOf(d, a).concat ==> ItemOf(d, a).kind.OctetsType?
    ensures long.None? ==> !Sized(d, a)
    ensures long.Some? ==> (ItemOf(d, a).concat ==> Sized(d, a)) && (long.value <==> Sized(d, a) && TooLong(d, a))
  {
    var it := d(a.vendorId, a.code);
    if !it.concat {
      return Some(false);
    }
    if !Matches(it, a.value) {
      return None;
    }
    return Some(Len(d, a) > 255);
  }

  /** Whether any attribute is to be split. */
  method CheckSplit(d: Dictionary, avps: seq<Avp>) returns (doSplit: Option<bool>)
    requires ConcatIsOctets(d, avps)
    ensures doSplit.None? ==> !AllSized(d, avps)
    ensures doSplit == Some(false) ==> forall a :: a in avps && Sized(d, a) ==> !TooLong(d, a)
  {
    for i := 0 to |avps|
      invariant forall a :: a in avps[..i] && Sized(d, a) ==> !TooLong(d, a)
    {
      var long := CheckLong(d, avps[i]);
      assert avps[..i + 1] == avps[..i] + [avps[i]];
      if long != Some(false) {
        return long;
      }
    }
    assert avps[..|avps|] == avps;
    return Some(false);
  }

  /** Splits the long attributes, if there are any; nothing when computing a size ends the process. */
  method SplitAvps(d: Dictionary, avps: seq<Avp>) returns (parts: Option<seq<Avp>>)
    requires ConcatIsOctets(d, avps)
    ensures parts.None? ==> !AllSized(d, avps)
    ensures AllSized(d, avps) ==> parts == Some(Split(d, avps))
    ensures parts.Some? && AllSized(d, parts.value) ==> AllSized(d, avps)
  {
    var doSplit := CheckSplit(d, avps);
    if doSplit.None? {
      return None;
    }
    if !doSplit.value {
      if AllSized(d, avps) {
        NothingToSplit(d, avps);
      }
      return Some(avps);
    }
    var newAvps := [];
    for i := 0 to |avps|
      invariant AllSplittable(d, avps[..i]) ==> newAvps == Split(d, avps[..i])
      invariant forall a :: a in avps[..i] ==> Splittable(d, a) || a in newAvps
    {
      ghost var before := newAvps;
      assert avps[i] in avps;
      assert avps[..i + 1] == avps[..i] + [avps[i]];
      var long := CheckLong(d, avps[i]);
      if long.None? {
        return None;
      }
      if AllSplittable(d, avps[..i + 1]) {
        assert forall a :: a in avps[..i] ==> a in avps[..i + 1];
        assert avps[i] in avps[..i + 1];
        SplitAppend(d, avps[..i], avps[i]);
      }
      if long.value {
        var more := SplitAvp(avps[i], avps[i].value.bytes);
        newAvps := newAvps + more;
      } else {
        newAvps := newAvps + [avps[i]];
      }
    }
    assert avps[..|avps|] == avps;
    assert AllSized(d, avps) <==> AllSplittable(d, avps);
    parts := Some(newAvps);
  }

  // ----- Writing a packet

  /** The sum of the sizes; nothing when computing one ends the process. */
  method ComputeLen(d: Dictionary, avps: seq<Avp>) returns (size: Option<nat>)
    ensures size.Some? <==> AllSized(d, avps)
    ensures size.Some? ==> size.value == TotalLen(d, avps)
  {
    var n := 0;
    for i := 0 to |avps|
      invariant AllSized(d, avps[..i]) && n == TotalLen(d, avps[..i])
    {
      var it := d(avps[i].vendorId, avps[i].code);
      if SizedByValue(it) && !Matches(it, avps[i].value) {
        assert !Sized(d, avps[i]) && avps[i] in avps;
        return None;
      }
      assert avps[..i + 1] == avps[..i] + [avps[i]];
      assert Sizes(d, avps[..i + 1]) == Sizes(d, avps[..i]) + [Len(d, avps[i])];
      SumAppend(Sizes(d, avps[..i]), Len(d, avps[i]));
      n := n + Len(d, avps[i]);
    }
    assert avps[..|avps|] == avps;
    size := Some(n);
  }

  lemma {:induction false} SumAppend(sizes: seq<nat>, n: nat)
    ensures Sum(sizes + [n]) == Sum(sizes) + n
  {
    if sizes == [] {
      assert [] + [n] == [n];
      assert [n][1..] == [];
    } else {
      assert (sizes + [n])[1..] == sizes[1..] + [n];
      SumAppend(sizes[1..], n);
    }
  }

  lemma {:induction false} FlatAppend(pieces: seq<seq<byte>>, piece: seq<byte>)
    ensures Flat(pieces + [piece]) == Flat(pieces) + piece
  {
    if pieces == [] {
      assert [] + [piece] == [piece];
      assert [piece][1..] == [];
    } else {
      assert (pieces + [piece])[1..] == pieces[1..] + [piece];
      FlatAppend(pieces[1..], piece);
    }
  }

  lemma OneMoreWritten(d: Dictionary, k: Keys, salts: seq<Salt>, avps: seq<Avp>, i: nat)
    requires |salts| == |avps| && i < |avps| && AllWritable(d, avps[..i]) && AllSized(d, avps[..i])
    requires Writable(d, avps[i])
    ensures AllWritable(d, avps[..i + 1]) && AllSized(d, avps[..i + 1])
    ensures TotalLen(d, avps[..i + 1]) == TotalLen(d, avps[..i]) + Len(d, avps[i])
    ensures EncodeAll(d, k, salts[..i + 1], avps[..i + 1]) ==
            EncodeAll(d, k, salts[..i], avps[..i]) + Encode(d, k, salts[i], avps[i])
  {
    assert avps[..i + 1] == avps[..i] + [avps[i]];
    assert Sizes(d, avps[..i + 1]) == Sizes(d, avps[..i]) + [Len(d, avps[i])];
    SumAppend(Sizes(d, avps[..i]), Len(d, avps[i]));
    assert Pieces(d, k, salts[..i + 1], avps[..i + 1]) ==
           Pieces(d, k, salts[..i], avps[..i]) + [Encode(d, k, salts[i], avps[i])];
    FlatAppend(Pieces(d, k, salts[..i], avps[..i]), Encode(d, k, salts[i], avps[i]));
  }

  /** The loop over the attributes, each with a salt of its own. */
  method WriteAvps(d: Dictionary, k: Keys, salts: seq<Salt>, avps: seq<Avp>, writer: Buffer) returns (r: Writing)
    requires |salts| == |avps| && AllSized(d, avps)
    modifies writer
    ensures r.Wrote? <==> AllWritable(d, avps)
    ensures r.Wrote? ==> r.n == TotalLen(d, avps) && writer.bytes == old(writer.bytes) + EncodeAll(d, k, salts, avps)
  {
    var n := 0;
    for i := 0 to |avps|
      invariant AllWritable(d, avps[..i]) && AllSized(d, avps[..i]) && n == TotalLen(d, avps[..i])
      invariant writer.bytes == old(writer.bytes) + EncodeAll(d, k, salts[..i], avps[..i])
    {
      assert avps[i] in avps;
      r := WriteAvp(d, k, salts[i], avps[i], writer);
      if !r.Wrote? {
        return;
      }
      OneMoreWritten(d, k, salts, avps, i);
      Regroup(old(writer.bytes), EncodeAll(d, k, salts[..i], avps[..i]), Encode(d, k, salts[i], avps[i]));
      n := n + r.n;
    }
    assert avps[..|avps|] == avps && salts[..|avps|] == salts;
    r := Wrote(n);
  }

  /** Salts drawn one after the other. */
  function Drawn(salt: nat -> Salt, n: nat): (s: seq<Salt>)
    ensures |s| == n
  {
    seq(n, i requires 0 <= i < n => salt(i))
  }

  /** Only short integers take more bytes than they say, and never so many that sixteen bits would not show it. */
  lemma {:induction false} NoShortIntegersIff(d: Dictionary, k: Keys, salts: seq<Salt>, avps: seq<Avp>)
    requires |salts| == |avps| && AllWritable(d, avps) && AllSized(d, avps)
    ensures TotalLen(d, avps) <= |EncodeAll(d, k, salts, avps)|
    ensures 3 * |EncodeAll(d, k, salts, avps)| <= 4 * TotalLen(d, avps)
    ensures |EncodeAll(d, k, salts, avps)| == TotalLen(d, avps) <==> NoShortIntegers(d, avps)
    decreases |avps|
  {
    if avps != [] {
      var a := avps[0];
      assert Writable(d, a);
      EmitsWhatItCounts(d, k, salts[0], a);
      CountsItsLenIff(d, a);
      NoShortIntegersIff(d, k, salts[1..], avps[1..]);
      assert Pieces(d, k, salts, avps)[1..] == Pieces(d, k, salts[1..], avps[1..]);
      assert Sizes(d, avps)[1..] == Sizes(d, avps[1..]);
      assert forall x :: x in avps <==> x == a || x in avps[1..];
    }
  }

  lemma WritableIsSized(d: Dictionary, avps: seq<Avp>)
    requires AllWritable(d, avps)
    ensures AllSized(d, avps)
  {
    forall a | a in avps ensures Sized(d, a) {
      assert Writable(d, a);
    }
  }

  /** The authenticator to send; nothing where a packet put together first does not have the length it says. */
  method Seal(md5: Hash, secret: seq<byte>, p: RadiusPacket, start: seq<byte>, draft: Digest, body: seq<byte>,
        packetLen: nat)
    returns (auth: Option<Digest>)
    ensures auth.Some? <==> p.code == ACCESS_REQUEST || (HEADER_SIZE + |body|) % 65536 == packetLen
    ensures auth.Some? ==> auth.value == FinalAuthenticator(md5, secret, p, start, draft, body)
  {
    if p.code == ACCESS_REQUEST {
      return Some(draft);
    }
    if (HEADER_SIZE + |body|) % 65536 != packetLen {
      return None;
    }
    return Some(md5(start + draft + body + secret));
  }

  /**
   The attributes to send and the length of the packet in sixteen bits; nothing where computing a size ends the
   process.
   */
  method SplitAndSize(d: Dictionary, p: RadiusPacket) returns (r: Option<seq<Avp>>, packetLen: nat)
    requires ConcatIsOctets(d, p.avps)
    ensures r.None? ==> !WritablePacket(d, p)
    ensures r.Some? ==> AllSized(d, p.avps) && r.value == Split(d, p.avps) && AllSized(d, r.value)
    ensures r.Some? ==> packetLen == (HEADER_SIZE + TotalLen(d, r.value)) % 65536
  {
    packetLen := 0;
    r := SplitAvps(d, p.avps);
    if r.Some? {
      if WritablePacket(d, p) {
        WritableIsSized(d, r.value);
      }
      var size := ComputeLen(d, r.value);
      if size.None? {
        return None, 0;
      }
      packetLen := (HEADER_SIZE + size.value) % 65536;
    }
  }

  /** The bytes of the attributes; an end of the process where they do not count up to the length of the packet. */
  method WriteBody(d: Dictionary, k: Keys, salts: seq<Salt>, avps: seq<Avp>, packetLen: nat)
    returns (r: Writing, bytes: seq<byte>)
    requires |salts| == |avps| && AllSized(d, avps)
    ensures r.Wrote? <==> AllWritable(d, avps) && HEADER_SIZE + TotalLen(d, avps) == packetLen
    ensures r.Wrote? ==> bytes == EncodeAll(d, k, salts, avps)
    ensures r.Wrote? ==> (|bytes| == TotalLen(d, avps) <==> NoShortIntegers(d, avps))
    ensures r.Wrote? ==> TotalLen(d, avps) <= |bytes| && 3 * |bytes| <= 4 * TotalLen(d, avps)
  {
    bytes := [];
    var body := new Buffer();
    r := WriteAvps(d, k, salts, avps, body);
    if r.Wrote? {
      if HEADER_SIZE + r.n != packetLen {
        return WritePanic, [];
      }
      NoShortIntegersIff(d, k, salts, avps);
      bytes := body.bytes;
    }
  }

  /**
   Appends the packet and leaves it split and with its authenticator. An access request goes straight to the stream
   with a new authenticator; any other packet is put together first and sent with the digest in place of the
   authenticator.
   */
  method WritePacket(d: Dictionary, md5: Hash, secret: seq<byte>, p: RadiusPacket, id: byte, random: Digest,
        salt: nat -> Salt, outWriter: Buffer)
    returns (r: Writing, left: RadiusPacket)
    requires ConcatIsOctets(d, p.avps)
    modifies outWriter
    ensures r.Wrote? <==> WritablePacket(d, p)
    ensures r.Wrote? ==>
      var sent := EncodePacket(d, md5, secret, p, id, random, Drawn(salt, |Split(d, p.avps)|));
      && r.n == HEADER_SIZE + TotalLen(d, Split(d, p.avps))
      && outWriter.bytes == old(outWriter.bytes) + sent.bytes && left == sent.packet
  {
    left := p;
    var parts, packetLen := SplitAndSize(d, p);
    if parts.None? {
      return WritePanic, left;
    }
    var avps := parts.value;
    left := p.(avps := avps);
    var draft := DraftAuthenticator(p, random);
    var written, body := WriteBody(d, Keys(md5, secret, draft), Drawn(salt, |avps|), avps, packetLen);
    if !written.Wrote? {
      return written, left;
    }
    var start := Start(p, id, packetLen);
    var sealed := Seal(md5, secret, p, start, draft, body, packetLen);
    if sealed.None? {
      return WritePanic, left;
    }
    outWriter.Write(start + sealed.value + body);
    left := left.(authenticator := sealed.value);
    r := Wrote(packetLen);
  }

  // ----- Reading a packet

  /** What is still to be read, merged into what was read already. */
  function JoinedOnto(d: Dictionary, avps: seq<Avp>, read: Reading<seq<Avp>>): Reading<seq<Avp>> {
    match read
    case Done(more, n, rest) => Done(JoinedAll(d, avps, more), n, rest)
    case Failed => Failed
    case Panic => Panic
  }

  lemma JoinOneMore(d: Dictionary, avps: seq<Avp>, read: seq<byte> -> Reading<Avp>, input: seq<byte>, index: nat,
        end: nat)
    requires Shortens(read) && index < end
    ensures JoinedOnto(d, avps, ReadMany(read, input, index, end)) ==
      match read(input)
      case Done(a, n, rest) => JoinedOnto(d, Joined(d, avps, a), ReadMany(read, rest, index + n, end))
      case Failed => Failed
      case Panic => Panic
  {
    match read(input)
    case Done(a, n, rest) =>
      match ReadMany(read, rest, index + n, end) {
        case Done(more, _, _) => assert ([a] + more)[1..] == more;
        case Failed =>
        case Panic =>
      }
    case Failed =>
    case Panic =>
  }

  /** A name for the reader of attributes, used to reason about the loop without looking into it. */
  ghost predicate Decodes(d: Dictionary, k: Keys, read: seq<byte> -> Reading<Avp>) {
    Shortens(read) && forall input {:trigger Decode(d, k, input)} :: read(input) == Decode(d, k, input)
  }

  method ReadNext(d: Dictionary, k: Keys, ghost read: seq<byte> -> Reading<Avp>, reader: Reader)
      returns (r: ReadResult<Avp>)
    requires Decodes(d, k, read)
    modifies reader
    ensures read(old(reader.left)) == AsReading(r, reader.left)
  {
    ghost var before := reader.left;
    r := ReadAvp(d, k, reader);
    Agreed(r, reader.left, Decode(d, k, before));
  }

  /** The loop over the attributes, each appended to those before or merged into the last of them. */
  method ReadJoined(d: Dictionary, k: Keys, ghost read: seq<byte> -> Reading<Avp>, index: nat, end: nat, reader: Reader)
    returns (r: ReadResult<seq<Avp>>)
    requires Decodes(d, k, read)
    modifies reader
    ensures JoinedOnto(d, [], ReadMany(read, old(reader.left), index, end)) == AsReading(r, reader.left)
  {
    var avps: seq<Avp> := [];
    var currentIndex: nat := index;
    ghost var whole := JoinedOnto(d, [], ReadMany(read, reader.left, index, end));
    while currentIndex < end
      invariant JoinedOnto(d, avps, ReadMany(read, reader.left, currentIndex, end)) == whole
      decreases |reader.left|
    {
      JoinOneMore(d, avps, read, reader.left, currentIndex, end);
      var next := ReadNext(d, k, read, reader);
      match next {
        case ReadOk(avp, n) =>
          avps := Join(d, avps, avp);
          currentIndex := currentIndex + n;
        case ReadError => return ReadError;
        case ReadPanic => return ReadPanic;
      }
    }
    r := ReadOk(avps, currentIndex);
  }

  method ReadAvps(d: Dictionary, k: Keys, index: nat, end: nat, reader: Reader) returns (r: ReadResult<seq<Avp>>)
    modifies reader
    ensures JoinedOnto(d, [], DecodeAll(d, k, old(reader.left), index, end)) == AsReading(r, reader.left)
  {
    r := ReadJoined(d, k, Decoder(d, k), index, end, reader);
  }

  /** Appends an attribute, or its octets to those of the last one. */
  method Join(d: Dictionary, avps: seq<Avp>, next: Avp) returns (joined: seq<Avp>)
    ensures joined == Joined(d, avps, next)
  {
    if d(next.vendorId, next.code).concat && |avps| > 0 && Continues(d, avps[|avps| - 1], next) {
      var last := avps[|avps| - 1];
      joined := avps[..|avps| - 1] + [last.(value := Octets(last.value.bytes + next.value.bytes))];
    } else {
      joined := avps + [next];
    }
  }

  /** Reads a packet, a response with the authenticator of its request. */
  method ReadPacket(d: Dictionary, md5: Hash, secret: seq<byte>, ra: Digest, reader: Reader)
      returns (r: ReadResult<RadiusPacket>)
    modifies reader
    ensures Agrees(r, reader.left, DecodePacket(d, md5, secret, ra, old(reader.left)))
  {
    ghost var input := reader.left;
    var ok, head := reader.Read(HEADER_SIZE);
    if !ok {
      return ReadError;
    }
    assert head[2..4] == input[2..4] && head[4..20] == input[4..20] && head[0] == input[0] && head[1] == input[1];
    var packetLen := FromBe(head[2..4]);
    var received: Digest := head[4..20];
    var authenticator := if IsRequest(head[0]) then received else ra;
    var avps := ReadAvps(d, Keys(md5, secret, authenticator), HEADER_SIZE, packetLen, reader);
    match avps
    case ReadOk(read, n) =>
      if n != packetLen {
        return ReadPanic;
      }
      r := ReadOk(RadiusPacket(head[0], head[1], received, read), n);
    case ReadError => r := ReadError;
    case ReadPanic => r := ReadPanic;
  }

  // ----- Validation

  /** Compares the authenticator of a packet, byte by byte, with the digest over the given one. */
  method ValidateAuthenticator(md5: Hash, packetBytes: seq<byte>, requestAuthenticator: Digest, secret: seq<byte>)
      returns (ok: bool)
    requires |packetBytes| >= HEADER_SIZE
    ensures ok <==> Validates(md5, packetBytes, requestAuthenticator, secret)
  {
    var auth := md5(packetBytes[..4] + requestAuthenticator + packetBytes[20..] + secret);
    var received := packetBytes[4..20];
    for i := 0 to |received|
      invariant received[..i] == auth[..i]
    {
      if auth[i] != received[i] {
        assert received != auth;
        return false;
      }
      assert received[..i + 1] == received[..i] + [received[i]] == auth[..i + 1];
    }
    assert received[..16] == received && auth[..16] == auth;
    return true;
  }
}
