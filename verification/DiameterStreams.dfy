/** The codec as the program runs it: readers with a running index, writers that count what they append. */
module DiameterStreams {
  import opened Common
  import opened Bytes
  import opened Streams
  import opened DiameterCodec
  import opened DiameterMessages

  // ----- Sizes

  lemma {:induction false} TotalLenAppend(d: Dictionary, a: seq<Avp>, b: Avp)
    requires (forall x :: x in a ==> Sized(d, x)) && Sized(d, b)
    ensures TotalLen(d, a + [b]) == TotalLen(d, a) + Len(d, b)
  {
    if a == [] {
      assert [] + [b] == [b];
    } else {
      assert (a + [b])[1..] == a[1..] + [b];
      TotalLenAppend(d, a[1..], b);
    }
  }

  /** The size without padding, summed up over the members of a group; nothing when asking for it ends the process. */
  method ComputeDataLen(d: Dictionary, a: Avp) returns (size: Option<nat>)
    ensures size.Some? <==> Sized(d, a)
    ensures size.Some? ==> size.value == DataLen(d, a)
    decreases a
  {
    var t := d(a.vendorId, a.code);
    var dataSize := 0;
    if SizedByValue(t) && !Matches(t, a.value) {
      return None;
    }
    if t.Grouped? {
      var avps := a.value.avps;
      for i := 0 to |avps|
        invariant forall b :: b in avps[..i] ==> Sized(d, b)
        invariant dataSize == TotalLen(d, avps[..i])
      {
        var member := ComputeDataLen(d, avps[i]);
        if member.None? {
          return None;
        }
        assert avps[..i + 1] == avps[..i] + [avps[i]];
        TotalLenAppend(d, avps[..i], avps[i]);
        dataSize := dataSize + member.value + Pad(member.value);
      }
      assert avps[..|avps|] == avps;
    } else {
      dataSize := LeafLen(t, a.value);
    }
    return Some(dataSize + if a.vendorId == 0 then 8 else 12);
  }

  // ----- Writing

  lemma {:induction false} EncodeAllAppend(d: Dictionary, a: seq<Avp>, b: Avp)
    requires (forall x :: x in a ==> Writable(d, x)) && Writable(d, b)
    ensures EncodeAll(d, a + [b]) == EncodeAll(d, a) + Encode(d, b)
  {
    if a == [] {
      assert [] + [b] == [b];
    } else {
      assert (a + [b])[1..] == a[1..] + [b];
      EncodeAllAppend(d, a[1..], b);
    }
  }

  lemma OneMoreWritten(d: Dictionary, avps: seq<Avp>, i: nat)
    requires i < |avps| && (forall b :: b in avps[..i] ==> Writable(d, b) && Sized(d, b))
    requires Writable(d, avps[i]) && Sized(d, avps[i])
    ensures forall b :: b in avps[..i + 1] ==> Writable(d, b) && Sized(d, b)
    ensures TotalLen(d, avps[..i + 1]) == TotalLen(d, avps[..i]) + Len(d, avps[i])
    ensures EncodeAll(d, avps[..i + 1]) == EncodeAll(d, avps[..i]) + Encode(d, avps[i])
  {
    assert avps[..i + 1] == avps[..i] + [avps[i]];
    TotalLenAppend(d, avps[..i], avps[i]);
    EncodeAllAppend(d, avps[..i], avps[i]);
  }

  /** The bytes of the value of an attribute. */
  function DataOf(d: Dictionary, a: Avp): seq<byte>
    requires Writable(d, a)
  {
    if TypeOf(d, a).Grouped? then EncodeAll(d, a.value.avps) else EncodeLeaf(TypeOf(d, a), a.value)
  }

  method WriteData(d: Dictionary, a: Avp, buffer: Buffer) returns (r: Writing)
    requires Sized(d, a)
    modifies buffer
    ensures Writable(d, a) ==> r == Wrote(DataLen(d, a) - HeaderLen(a))
    ensures Writable(d, a) ==> buffer.bytes == old(buffer.bytes) + DataOf(d, a)
    ensures !Writable(d, a) ==> r.WriteError?
    decreases a, 1
  {
    var t := d(a.vendorId, a.code);
    if !Matches(t, a.value) {
      return WriteError;
    }
    if t.Grouped? {
      r := WriteAll(d, a.value.avps, buffer);
    } else {
      buffer.Write(EncodeLeaf(t, a.value));
      r := Wrote(LeafLen(t, a.value));
    }
  }

  /** Appends the attribute and its padding. The count of what was written is always the size computed before. */
  method WriteTo(d: Dictionary, a: Avp, buffer: Buffer) returns (r: Writing)
    modifies buffer
    ensures Writable(d, a) ==> Sized(d, a) && r == Wrote(Len(d, a)) && buffer.bytes == old(buffer.bytes) + Encode(d, a)
    ensures !Writable(d, a) && Sized(d, a) ==> r.WriteError?
    ensures !Sized(d, a) ==> r.WritePanic?
    decreases a, 2
  {
    var size := ComputeDataLen(d, a);
    if size.None? {
      if Writable(d, a) { WritableIsSized(d, a); }
      return WritePanic;
    }
    var avpLen := size.value;
    buffer.Write(EncodeHeader(a, avpLen));
    var bytesWritten := HeaderLen(a);
    r := WriteData(d, a, buffer);
    if !r.Wrote? {
      return;
    }
    bytesWritten := bytesWritten + r.n;
    assert bytesWritten == avpLen;
    buffer.Write(Zeros(Pad(avpLen)));
    r := Wrote(avpLen + Pad(avpLen));
  }

  /** The loop over the members of a group, or over the attributes of a message. */
  method WriteAll(d: Dictionary, avps: seq<Avp>, buffer: Buffer) returns (r: Writing)
    requires forall b :: b in avps ==> Sized(d, b)
    modifies buffer
    ensures (forall b :: b in avps ==> Writable(d, b)) ==>
              r == Wrote(TotalLen(d, avps)) && buffer.bytes == old(buffer.bytes) + EncodeAll(d, avps)
    ensures !(forall b :: b in avps ==> Writable(d, b)) ==> r.WriteError?
    decreases avps, 0
  {
    var n := 0;
    for i := 0 to |avps|
      invariant forall b :: b in avps[..i] ==> Writable(d, b) && Sized(d, b)
      invariant n == TotalLen(d, avps[..i])
      invariant buffer.bytes == old(buffer.bytes) + EncodeAll(d, avps[..i])
    {
      r := WriteTo(d, avps[i], buffer);
      if !r.Wrote? {
        return;
      }
      OneMoreWritten(d, avps, i);
      Regroup(old(buffer.bytes), EncodeAll(d, avps[..i]), Encode(d, avps[i]));
      n := n + r.n;
    }
    assert avps[..|avps|] == avps;
    r := Wrote(n);
  }

  /** The size of a message; nothing when asking for it ends the process. */
  method ComputeMessageLen(d: Dictionary, m: DiameterMessage) returns (size: Option<nat>)
    ensures size.Some? <==> SizedMessage(d, m)
    ensures size.Some? ==> size.value == MessageLen(d, m)
    ensures size.None? ==> !WritableMessage(d, m)
  {
    var messageLen := HEADER_SIZE;
    for i := 0 to |m.avps|
      invariant forall b :: b in m.avps[..i] ==> Sized(d, b)
      invariant messageLen == HEADER_SIZE + TotalLen(d, m.avps[..i])
    {
      var n := ComputeDataLen(d, m.avps[i]);
      if n.None? {
        if Writable(d, m.avps[i]) { WritableIsSized(d, m.avps[i]); }
        assert m.avps[i] in m.avps;
        return None;
      }
      assert m.avps[..i + 1] == m.avps[..i] + [m.avps[i]];
      TotalLenAppend(d, m.avps[..i], m.avps[i]);
      messageLen := messageLen + n.value + Pad(n.value);
    }
    assert m.avps[..|m.avps|] == m.avps;
    return Some(messageLen);
  }

  /** Appends the message. A request with attributes for a command that is not in the dictionary ends the process. */
  method WriteMessage(d: Dictionary, commands: Commands, m: DiameterMessage, buffer: Buffer) returns (r: Writing)
    modifies buffer
    ensures r.WritePanic? <==> !SizedMessage(d, m) || LooksIntoMissingCommand(commands, m)
    ensures r.Wrote? <==> WritableMessage(d, m) && !LooksIntoMissingCommand(commands, m)
    ensures r.Wrote? ==>
              SizedMessage(d, m) && r.n == MessageLen(d, m) && buffer.bytes == old(buffer.bytes) + EncodeMessage(d, m)
  {
    var size := ComputeMessageLen(d, m);
    if size.None? {
      return WritePanic;
    }
    var messageLen := size.value;
    buffer.Write(EncodeMessageHeader(m, messageLen));
    var command := commands(m.applicationId, m.commandCode);
    if |m.avps| > 0 && m.isRequest && !command {
      return WritePanic;
    }
    ghost var headed := buffer.bytes;
    r := WriteAll(d, m.avps, buffer);
    if r.Wrote? {
      assert buffer.bytes == headed + EncodeAll(d, m.avps) == old(buffer.bytes) + EncodeMessage(d, m);
      assert HEADER_SIZE + r.n == messageLen;
      r := Wrote(HEADER_SIZE + r.n);
    }
  }

  // ----- Reading

  /** Takes the two bytes after an address off the stream, as far as there are any. */
  method Drain(reader: Reader)
    modifies reader
    ensures reader.left == Drained(old(reader.left), 2)
  {
    var ok, padding := reader.Read(2);
  }

  method ReadBlock(dataLen: uint32, padLen: nat, reader: Reader) returns (r: ReadResult<seq<byte>>)
    modifies reader
    ensures Agrees(r, reader.left, ReadPadded(dataLen, padLen, old(reader.left)))
  {
    var total := (dataLen + padLen) % BYTES4;
    var ok, bytes := reader.Read(total);
    if dataLen > total {
      return ReadPanic;
    }
    if !ok {
      return ReadError;
    }
    assert bytes[..dataLen] == old(reader.left)[..dataLen];
    r := ReadOk(bytes[..dataLen], total);
  }

  method ReadWord(n: nat, signed: bool, reader: Reader) returns (r: ReadResult<Value>)
    requires n == 4 || (n == 8 && signed)
    modifies reader
    ensures Agrees(r, reader.left, ReadInt(n, signed, old(reader.left)))
  {
    var ok, bytes := reader.Read(n);
    if !ok {
      return ReadError;
    }
    FromBeInRange(bytes);
    Ranges();
    var x := FromBe(bytes);
    r := ReadOk(if signed then IntOf(x, if n == 4 then BYTES4 else BYTES8) else Int(x), n);
  }

  method ReadAddressValue(reader: Reader) returns (r: ReadResult<Value>)
    modifies reader
    ensures Agrees(r, reader.left, ReadAddress(old(reader.left)))
  {
    ghost var input := reader.left;
    var ok, addrType := reader.Read(2);
    if !ok {
      return ReadError;
    }
    if FromBe(addrType) == 1 {
      var ok4, ipv4Addr := reader.Read(4);
      if !ok4 {
        return ReadError;
      }
      assert ipv4Addr == input[2..6] && reader.left == input[6..];
      Drain(reader);
      assert reader.left == Drained(input, 8);
      r := ReadOk(Ip(ipv4Addr), 8);
    } else {
      var ok16, ipv6Addr := reader.Read(16);
      if !ok16 {
        return ReadError;
      }
      assert ipv6Addr == input[2..18] && reader.left == input[18..];
      Drain(reader);
      assert reader.left == Drained(input, 20);
      r := ReadOk(Ip(ipv6Addr), 20);
    }
  }

  method ReadPrefixValue(reader: Reader) returns (r: ReadResult<Value>)
    modifies reader
    ensures Agrees(r, reader.left, DecodeLeaf(IPv6Prefix, 0, 0, old(reader.left)))
  {
    ghost var input := reader.left;
    var ok, head := reader.Read(2);
    if !ok {
      return ReadError;
    }
    var okAddress, address := reader.Read(16);
    if !okAddress {
      return ReadError;
    }
    assert address == input[2..18] && reader.left == input[18..] && head[1] == input[1];
    Drain(reader);
    assert reader.left == Drained(input, 20);
    r := ReadOk(Prefix(head[1], address), 20);
  }

  method ReadFloat(n: nat, reader: Reader) returns (r: ReadResult<Value>)
    modifies reader
    ensures Agrees(r, reader.left,
                   if |old(reader.left)| < n then Failed
                   else Done(Float(old(reader.left)[..n]), n, old(reader.left)[n..]))
  {
    var ok, bytes := reader.Read(n);
    r := if ok then ReadOk(Float(bytes), n) else ReadError;
  }

  /** The value of any type but a group. */
  method ReadLeaf(t: DiameterType, dataLen: uint32, padLen: nat, reader: Reader) returns (r: ReadResult<Value>)
    requires !t.Grouped? && padLen < 4
    modifies reader
    ensures Agrees(r, reader.left, DecodeLeaf(t, dataLen, padLen, old(reader.left)))
  {
    match t
    case TypeNone | OctetString =>
      var block := ReadBlock(dataLen, padLen, reader);
      match block {
        case ReadOk(bytes, n) => r := ReadOk(Octets(bytes), n);
        case ReadError => r := ReadError;
        case ReadPanic => r := ReadPanic;
      }
    case UTF8String | DiamIdent | DiameterURI | IPFilterRule =>
      var block := ReadBlock(dataLen, padLen, reader);
      match block {
        case ReadOk(bytes, n) => r := ReadOk(Text(bytes), n);
        case ReadError => r := ReadError;
        case ReadPanic => r := ReadPanic;
      }
    case Integer32 | Enumerated => r := ReadWord(4, true, reader);
    case Unsigned32 => r := ReadWord(4, false, reader);
    case Integer64 | Unsigned64 => r := ReadWord(8, true, reader);
    case Float32 => r := ReadFloat(4, reader);
    case Float64 => r := ReadFloat(8, reader);
    case Address => r := ReadAddressValue(reader);
    case Time =>
      var ok, bytes := reader.Read(4);
      r := if ok then ReadOk(Moment(FromBe(bytes)), 4) else ReadError;
    case IPv4Address | IPv6Address =>
      var total := (dataLen + padLen) % BYTES4;
      var ok, bytes := reader.Read(total);
      r := if ok then ReadOk(Ip(bytes), total) else ReadError;
    case IPv6Prefix => r := ReadPrefixValue(reader);
  }

  method ReadAvpHeader(reader: Reader) returns (h: Option<Header>)
    modifies reader
    ensures h == ReadHeader(old(reader.left))
    ensures h.Some? ==> reader.left == old(reader.left)[h.value.size..]
  {
    ghost var input := reader.left;
    var ok, first := reader.Read(8);
    if !ok {
      return None;
    }
    assert first[..4] == input[..4] && first[6..8] == input[6..8];
    var flags := first[4];
    var avpLen := first[5] * BASE + FromBe(first[6..8]);
    if !Bit(flags, 0x80) {
      assert input[8..8] == [];
      return Some(Header(FromBe4(first[..4]), flags, avpLen, FromBe4([]), 8));
    }
    var okVendor, vendor := reader.Read(4);
    if !okVendor {
      return None;
    }
    assert vendor == input[8..12];
    h := Some(Header(FromBe4(first[..4]), flags, avpLen, FromBe4(vendor), 12));
  }

  /** What is still to be read, behind what was read already. */
  function Onto(avps: seq<Avp>, read: Reading<seq<Avp>>): Reading<seq<Avp>> {
    match read
    case Done(more, n, rest) => Done(avps + more, n, rest)
    case Failed => Failed
    case Panic => Panic
  }

  lemma OntoOneMore(d: Dictionary, avps: seq<Avp>, input: seq<byte>, index: nat, end: nat)
    requires index < end
    ensures Onto(avps, DecodeAll(d, input, index, end)) ==
      match Decode(d, input)
      case Done(a, n, rest) => Onto(avps + [a], DecodeAll(d, rest, index + n, end))
      case Failed => Failed
      case Panic => Panic
  {
    match Decode(d, input)
    case Done(a, n, rest) =>
      match DecodeAll(d, rest, index + n, end) {
        case Done(more, _, _) => Regroup(avps, [a], more);
        case Failed =>
        case Panic =>
      }
    case Failed =>
    case Panic =>
  }

  lemma OntoNothing(read: Reading<seq<Avp>>)
    ensures Onto([], read) == read
  {
    match read
    case Done(more, _, _) => assert [] + more == more;
    case Failed =>
    case Panic =>
  }

  /** The attributes read so far and what is still to be read make the whole. */
  ghost predicate Makes(d: Dictionary, avps: seq<Avp>, input: seq<byte>, index: nat, end: nat,
        whole: Reading<seq<Avp>>)
  {
    forall i {:trigger DecodeAll(d, i, index, end)} :: i == input ==> Onto(avps, DecodeAll(d, i, index, end)) == whole
  }

  lemma MakesAfterOne(d: Dictionary, avps: seq<Avp>, input: seq<byte>, index: nat, end: nat, whole: Reading<seq<Avp>>,
                      next: ReadResult<Avp>, left: seq<byte>)
    requires Makes(d, avps, input, index, end, whole) && index < end && Agrees(next, left, Decode(d, input))
    ensures match next
      case ReadOk(avp, n) => Makes(d, avps + [avp], left, index + n, end, whole)
      case ReadError => whole.Failed?
      case ReadPanic => whole.Panic?
  {
    OntoOneMore(d, avps, input, index, end);
    Agreed(next, left, Decode(d, input));
  }

  lemma MakesAtEnd(d: Dictionary, avps: seq<Avp>, input: seq<byte>, index: nat, end: nat, whole: Reading<seq<Avp>>)
    requires Makes(d, avps, input, index, end, whole) && index >= end
    ensures whole == Done(avps, index, input)
  {
    assert avps + [] == avps;
    assert DecodeAll(d, input, index, end) == Done([], index, input);
  }

  /** The loop over attributes, with the running index. */
  method ReadAll(d: Dictionary, index: nat, end: nat, reader: Reader) returns (r: ReadResult<seq<Avp>>)
    modifies reader
    ensures Agrees(r, reader.left, DecodeAll(d, old(reader.left), index, end))
    decreases |reader.left|, 1
  {
    var avps: seq<Avp> := [];
    var currentIndex: nat := index;
    ghost var whole := DecodeAll(d, reader.left, index, end);
    OntoNothing(whole);
    while currentIndex < end
      invariant |reader.left| <= |old(reader.left)|
      invariant Makes(d, avps, reader.left, currentIndex, end, whole)
      decreases |reader.left|
    {
      ghost var input := reader.left;
      var next := ReadFrom(d, reader);
      MakesAfterOne(d, avps, input, currentIndex, end, whole, next, reader.left);
      match next {
        case ReadOk(avp, n) =>
          avps := avps + [avp];
          currentIndex := currentIndex + n;
        case ReadError => return ReadError;
        case ReadPanic => return ReadPanic;
      }
    }
    MakesAtEnd(d, avps, reader.left, currentIndex, end, whole);
    r := ReadOk(avps, currentIndex);
  }

  /** The value behind a header. The count includes the header. */
  method ReadValue(d: Dictionary, h: Header, reader: Reader) returns (r: ReadResult<Value>)
    modifies reader
    ensures Agrees(r, reader.left, DecodeValue(d, h, old(reader.left)))
    decreases |reader.left|, 2
  {
    var padLen := Pad(h.avpLen);
    if d(h.vendorId, h.code).Grouped? {
      var members := ReadAll(d, h.size, h.avpLen + padLen, reader);
      match members
      case ReadOk(avps, n) => r := ReadOk(if avps == [] then Nil else Group(avps), n);
      case ReadError => r := ReadError;
      case ReadPanic => r := ReadPanic;
    } else {
      var leaf := ReadLeaf(d(h.vendorId, h.code), (h.avpLen - h.size) % BYTES4, padLen, reader);
      match leaf
      case ReadOk(value, n) => r := ReadOk(value, h.size + n);
      case ReadError => r := ReadError;
      case ReadPanic => r := ReadPanic;
    }
  }

  /** Reads one attribute off the stream. */
  method ReadFrom(d: Dictionary, reader: Reader) returns (r: ReadResult<Avp>)
    modifies reader
    ensures Agrees(r, reader.left, Decode(d, old(reader.left)))
    decreases |reader.left|, 0
  {
    var header := ReadAvpHeader(reader);
    if header.None? {
      return ReadError;
    }
    var h := header.value;
    var value := ReadValue(d, h, reader);
    match value
    case ReadOk(v, n) => r := ReadOk(Avp(h.code, Bit(h.flags, 0x40), Bit(h.flags, 0x20), h.vendorId, v), n);
    case ReadError => r := ReadError;
    case ReadPanic => r := ReadPanic;
  }

  /** Reads one message off the stream. */
  method ReadMessage(d: Dictionary, reader: Reader) returns (r: ReadResult<DiameterMessage>)
    modifies reader
    ensures Agrees(r, reader.left, DecodeMessage(d, old(reader.left)))
  {
    ghost var input := reader.left;
    var ok, bytes := reader.Read(HEADER_SIZE);
    if !ok {
      return ReadError;
    }
    assert forall i, j :: 0 <= i <= j <= HEADER_SIZE ==> bytes[i..j] == input[i..j];
    var h := ReadMessageHeader(bytes);
    assert h == ReadMessageHeader(input);
    var avps := ReadAll(d, HEADER_SIZE, h.len, reader);
    match avps {
      case ReadOk(read, n) =>
        if n != h.len {
          return ReadPanic;
        }
        r := ReadOk(h.message.(avps := read), n);
      case ReadError => r := ReadError;
      case ReadPanic => r := ReadPanic;
    }
  }
}
