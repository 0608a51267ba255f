/** The bytes of RADIUS packets on the wire, their authenticators, and how attributes are cut and merged. */
module RadiusPacketWire {
  import opened Common
  import opened Bytes
  import opened Streams
  import opened RadiusHiding
  import opened RadiusCodec
  import opened RadiusPackets
  import opened RadiusStreams

  // ----- Packets

  /** The first four bytes: code, identifier, given for a request and the packet's own for a response, and size. */
  lemma PacketBegins(d: Dictionary, md5: Hash, secret: seq<byte>, p: RadiusPacket, id: byte, random: Digest,
        salts: seq<Salt>)
    requires WritablePacket(d, p) && |salts| == |Split(d, p.avps)|
    ensures var bytes := EncodePacket(d, md5, secret, p, id, random, salts).bytes;
      && |bytes| >= 20 && bytes[0] == p.code
      && bytes[1] == (if p.code == 1 || p.code == 4 || p.code == 40 || p.code == 43 then id else p.identifier)
      && 256 * (bytes[2] as int) + bytes[3] == 20 + TotalLen(d, Split(d, p.avps))
  {
    PartsOfPacket(d, md5, secret, p, id, random, salts);
    TwoBytes(20 + TotalLen(d, Split(d, p.avps)));
    var bytes := EncodePacket(d, md5, secret, p, id, random, salts).bytes;
    var start := Start(p, id, 20 + TotalLen(d, Split(d, p.avps)));
    assert bytes[0] == start[0] && bytes[1] == start[1] && bytes[2] == start[2] && bytes[3] == start[3];
  }

  /** The size announced is the size sent, but for tagged integers in the clear that only an access request may have. */
  lemma PacketIsAsLongAsItSays(d: Dictionary, md5: Hash, secret: seq<byte>, p: RadiusPacket, id: byte, random: Digest,
        salts: seq<Salt>)
    requires WritablePacket(d, p) && |salts| == |Split(d, p.avps)|
    requires p.code == 1 ==> NoShortIntegers(d, Split(d, p.avps))
    ensures var bytes := EncodePacket(d, md5, secret, p, id, random, salts).bytes;
      |bytes| >= 4 && 256 * (bytes[2] as int) + bytes[3] == |bytes|
  {
    PacketBegins(d, md5, secret, p, id, random, salts);
    PartsOfPacket(d, md5, secret, p, id, random, salts);
    NoShortIntegersIff(d, Keys(md5, secret, DraftAuthenticator(p, random)), salts, Split(d, p.avps));
  }

  /**
   The authenticator: a new one for an access request; otherwise the digest of the packet and the secret, with sixteen
   zeros in its place for the other requests and the authenticator of its request for a response.
   */
  lemma PacketIsSigned(d: Dictionary, md5: Hash, secret: seq<byte>, p: RadiusPacket, id: byte, random: Digest,
        salts: seq<Salt>)
    requires WritablePacket(d, p) && |salts| == |Split(d, p.avps)|
    ensures var sent := EncodePacket(d, md5, secret, p, id, random, salts);
      && |sent.bytes| >= 20 && sent.packet.authenticator == sent.bytes[4..20]
      && sent.bytes[4..20] ==
        if p.code == 1 then random
        else if p.code == 4 || p.code == 40 || p.code == 43 then
          md5(sent.bytes[..4] + [0, 0, 0, 0, 0, 0, 0, 0, 0, 0, 0, 0, 0, 0, 0, 0] + sent.bytes[20..] + secret)
        else md5(sent.bytes[..4] + p.authenticator + sent.bytes[20..] + secret)
  {
    PartsOfPacket(d, md5, secret, p, id, random, salts);
  }

  /** What the attributes are hidden with: the same authenticator. */
  lemma PacketIsHidden(d: Dictionary, md5: Hash, secret: seq<byte>, p: RadiusPacket, id: byte, random: Digest,
        salts: seq<Salt>)
    requires WritablePacket(d, p) && |salts| == |Split(d, p.avps)|
    ensures var bytes := EncodePacket(d, md5, secret, p, id, random, salts).bytes;
      var authenticator :=
        if p.code == 1 then random
        else if p.code == 4 || p.code == 40 || p.code == 43 then [0, 0, 0, 0, 0, 0, 0, 0, 0, 0, 0, 0, 0, 0, 0, 0]
        else p.authenticator;
      |bytes| >= 20 && bytes[20..] == EncodeAll(d, Keys(md5, secret, authenticator), salts, Split(d, p.avps))
  {
    PartsOfPacket(d, md5, secret, p, id, random, salts);
  }

  /** Who checks a packet other than an access request or a response over sixteen zeros accepts it. */
  lemma SignedRequestsValidate(d: Dictionary, md5: Hash, secret: seq<byte>, p: RadiusPacket, id: byte, random: Digest,
        salts: seq<Salt>)
    requires WritablePacket(d, p) && |salts| == |Split(d, p.avps)| && p.code != 1
    ensures var bytes := EncodePacket(d, md5, secret, p, id, random, salts).bytes;
      && |bytes| >= 20
      && (p.code == 4 || p.code == 40 || p.code == 43 ==>
          Validates(md5, bytes, [0, 0, 0, 0, 0, 0, 0, 0, 0, 0, 0, 0, 0, 0, 0, 0], secret))
      && (p.code != 4 && p.code != 40 && p.code != 43 ==> Validates(md5, bytes, p.authenticator, secret))
  {
    PacketIsSigned(d, md5, secret, p, id, random, salts);
  }

  // ----- Splitting

  lemma {:induction false} ChunkAt(a: Avp, bytes: seq<byte>, i: nat)
    requires 240 * i < |bytes|
    ensures |Chunks(a, bytes)| == (|bytes| + 239) / 240 && i < |Chunks(a, bytes)|
    ensures Chunks(a, bytes)[i] ==
            a.(value := Octets(bytes[240 * i..if 240 * i + 240 < |bytes| then 240 * i + 240 else |bytes|]))
    decreases |bytes|
  {
    if |bytes| > 240 {
      var rest := bytes[240..];
      assert Chunks(a, bytes)[1..] == Chunks(a, rest);
      ChunkAt(a, rest, if i == 0 then 0 else i - 1);
      if i > 0 {
        var end := if 240 * i + 240 < |bytes| then 240 * i + 240 else |bytes|;
        assert rest[240 * (i - 1)..end - 240] == bytes[240 * i..end];
      }
    } else {
      assert bytes[0..|bytes|] == bytes;
    }
  }

  /** A concatenated attribute that does not fit its length byte is cut into pieces of 240 bytes; others stay whole. */
  lemma FragmentAt(d: Dictionary, a: Avp, i: nat)
    requires Sized(d, a) && (ItemOf(d, a).concat ==> ItemOf(d, a).kind.OctetsType?)
    ensures !ItemOf(d, a).concat || Len(d, a) <= 255 ==> SplitOne(d, a) == [a]
    ensures ItemOf(d, a).concat && Len(d, a) > 255 && 240 * i < |a.value.bytes| ==>
      && |SplitOne(d, a)| == (|a.value.bytes| + 239) / 240 && i < |SplitOne(d, a)|
      && SplitOne(d, a)[i] == a.(value := Octets(
        a.value.bytes[240 * i..if 240 * i + 240 < |a.value.bytes| then 240 * i + 240 else |a.value.bytes|]))
  {
    if ItemOf(d, a).concat && Len(d, a) > 255 && 240 * i < |a.value.bytes| {
      ChunkAt(a, a.value.bytes, i);
    }
  }

  // ----- Merging

  /** A received attribute is merged into the last one exactly if it is concatenated and has its code and its vendor. */
  lemma MergedIff(d: Dictionary, avps: seq<Avp>, a: Avp)
    requires d(a.vendorId, a.code).concat ==> a.value.Octets?
    requires forall b :: b in avps && d(b.vendorId, b.code).concat ==> b.value.Octets?
    ensures Joined(d, avps, a) ==
      if avps == [] then [a]
      else
        var last := avps[|avps| - 1];
        if d(a.vendorId, a.code).concat && last.code == a.code && last.vendorId == a.vendorId
        then avps[..|avps| - 1] + [last.(value := Octets(last.value.bytes + a.value.bytes))]
        else avps + [a]
  {
    if avps != [] {
      assert Last(avps) in avps;
    }
  }

  /** No attribute that a reader returns could be merged into the one before. */
  ghost predicate Apart(d: Dictionary, avps: seq<Avp>) {
    forall i :: 0 < i < |avps| && d(avps[i].vendorId, avps[i].code).concat ==>
      avps[i - 1].code != avps[i].code || avps[i - 1].vendorId != avps[i].vendorId
  }

  ghost predicate ConcatOctets(d: Dictionary, avps: seq<Avp>) {
    forall b :: b in avps && d(b.vendorId, b.code).concat ==> b.value.Octets?
  }

  lemma {:induction false} MergedStaysApart(d: Dictionary, avps: seq<Avp>, more: seq<Avp>)
    requires Apart(d, avps) && ConcatOctets(d, avps) && ConcatOctets(d, more)
    ensures Apart(d, JoinedAll(d, avps, more))
    decreases |more|
  {
    if more != [] {
      MergedIff(d, avps, more[0]);
      MergedStaysApart(d, Joined(d, avps, more[0]), more[1..]);
    }
  }

  lemma NothingLeftToMerge(d: Dictionary, avps: seq<Avp>)
    requires forall b :: b in avps && d(b.vendorId, b.code).concat ==> b.value.Octets?
    ensures var merged := Coalesce(d, avps);
      forall i :: 0 < i < |merged| && d(merged[i].vendorId, merged[i].code).concat ==>
        merged[i - 1].code != merged[i].code || merged[i - 1].vendorId != merged[i].vendorId
  {
    MergedStaysApart(d, [], avps);
  }

  // ----- Reading any bytes

  /**
   Any bytes read as a packet: an error without a whole header; what was received is the authenticator of codes 1, 4, 40
   and 43, the given one that of others; the process ends if the attributes end elsewhere than the packet.
   */
  lemma AnyPacketReads(d: Dictionary, md5: Hash, secret: seq<byte>, ra: Digest, input: seq<byte>)
    ensures |input| < 20 ==> DecodePacket(d, md5, secret, ra, input).Failed?
    ensures |input| >= 20 ==>
      var code, len, received := input[0], 256 * (input[2] as int) + input[3], input[4..20];
      var authenticator: Digest := if code == 1 || code == 4 || code == 40 || code == 43 then received else ra;
      var read := DecodePacket(d, md5, secret, ra, input);
      match DecodeAll(d, Keys(md5, secret, authenticator), input[20..], 20, len)
      case Done(avps, n, rest) =>
        read == if n == len then Done(RadiusPacket(code, input[1], received, Coalesce(d, avps)), len, rest) else Panic
      case Failed => read.Failed?
      case Panic => read.Panic?
  {
    if |input| >= 20 {
      TwoByteNumber(input[2..4]);
    }
  }
}
