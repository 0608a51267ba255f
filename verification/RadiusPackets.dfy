/** RADIUS packets: long attributes split and put together again, and authenticators that the other side accepts. */
module RadiusPackets {
  import opened Common
  import opened Bytes
  import opened Streams
  import opened RadiusHiding
  import opened RadiusCodec
  import opened RadiusTheorems

  const ACCESS_REQUEST: byte := 1
  const ACCOUNTING_REQUEST: byte := 4
  const DISCONNECT_REQUEST: byte := 40
  const COA_REQUEST: byte := 43

  const HEADER_SIZE := 20
  const CHUNK := 240

  datatype RadiusPacket = RadiusPacket(code: byte, identifier: byte, authenticator: Digest, avps: seq<Avp>)

  predicate IsRequest(code: byte) {
    code == ACCESS_REQUEST || code == ACCOUNTING_REQUEST || code == DISCONNECT_REQUEST || code == COA_REQUEST
  }

  /** A dictionary is loaded only if what it concatenates are octets. */
  predicate ConcatIsOctets(d: Dictionary, avps: seq<Avp>) {
    forall a :: a in avps && ItemOf(d, a).concat ==> ItemOf(d, a).kind.OctetsType?
  }

  predicate AllSized(d: Dictionary, avps: seq<Avp>) {
    forall a :: a in avps ==> Sized(d, a)
  }

  // ----- Splitting

  function Chunks(a: Avp, bytes: seq<byte>): seq<Avp>
    decreases |bytes|
  {
    if bytes == [] then []
    else if |bytes| <= CHUNK then [a.(value := Octets(bytes))]
    else [a.(value := Octets(bytes[..CHUNK]))] + Chunks(a, bytes[CHUNK..])
  }

  predicate TooLong(d: Dictionary, a: Avp)
    requires Sized(d, a)
  {
    ItemOf(d, a).concat && Len(d, a) > 255
  }

  function SplitOne(d: Dictionary, a: Avp): seq<Avp>
    requires Sized(d, a) && (ItemOf(d, a).concat ==> ItemOf(d, a).kind.OctetsType?)
  {
    if TooLong(d, a) then Chunks(a, a.value.bytes) else [a]
  }

  function Split(d: Dictionary, avps: seq<Avp>): seq<Avp>
    requires AllSized(d, avps) && ConcatIsOctets(d, avps)
  {
    if avps == [] then [] else SplitOne(d, avps[0]) + Split(d, avps[1..])
  }

  // ----- Writing

  function Sizes(d: Dictionary, avps: seq<Avp>): seq<nat>
    requires AllSized(d, avps)
  {
    seq(|avps|, i requires 0 <= i < |avps| => Len(d, avps[i]))
  }

  function TotalLen(d: Dictionary, avps: seq<Avp>): nat
    requires AllSized(d, avps)
  {
    Sum(Sizes(d, avps))
  }

  predicate AllWritable(d: Dictionary, avps: seq<Avp>) {
    forall a :: a in avps ==> Writable(d, a)
  }

  function Pieces(d: Dictionary, k: Keys, salts: seq<Salt>, avps: seq<Avp>): seq<seq<byte>>
    requires AllWritable(d, avps) && |salts| == |avps|
  {
    seq(|avps|, i requires 0 <= i < |avps| =>
      assert Writable(d, avps[i]);
      Encode(d, k, salts[i], avps[i]))
  }

  function EncodeAll(d: Dictionary, k: Keys, salts: seq<Salt>, avps: seq<Avp>): seq<byte>
    requires AllWritable(d, avps) && |salts| == |avps|
  {
    Flat(Pieces(d, k, salts, avps))
  }

  /** The authenticator that stands in the packet while it is put together. `random` is a new one. */
  function DraftAuthenticator(p: RadiusPacket, random: Digest): Digest {
    if p.code == ACCESS_REQUEST then random else if IsRequest(p.code) then NO_DIGEST else p.authenticator
  }

  function IdentifierOf(p: RadiusPacket, id: byte): byte {
    if IsRequest(p.code) then id else p.identifier
  }

  function Start(p: RadiusPacket, id: byte, len: nat): (s: seq<byte>)
    ensures |s| == 4
  {
    [p.code, IdentifierOf(p, id)] + Be(len, 2)
  }

  /** The authenticator sent: the new one of an access request, otherwise the digest of the draft and the secret. */
  function FinalAuthenticator(md5: Hash, secret: seq<byte>, p: RadiusPacket, start: seq<byte>, draft: Digest,
        body: seq<byte>): Digest
  {
    if p.code == ACCESS_REQUEST then draft else md5(start + draft + body + secret)
  }

  /** The packet can be written: it fits its sixteen-bit length, and what is written is what is counted. */
  predicate WritablePacket(d: Dictionary, p: RadiusPacket) {
    && AllSized(d, p.avps) && ConcatIsOctets(d, p.avps)
    && var avps := Split(d, p.avps);
    && AllWritable(d, avps)
    && HEADER_SIZE + TotalLen(d, avps) <= 65535
    && (p.code != ACCESS_REQUEST ==> NoShortIntegers(d, avps))
  }

  predicate NoShortIntegers(d: Dictionary, avps: seq<Avp>) {
    forall a :: a in avps ==> !ShortInteger(ItemOf(d, a))
  }

  datatype Sent = Sent(bytes: seq<byte>, packet: RadiusPacket)

  /** The bytes of the packet, and the packet as it is left: split, and with its authenticator. */
  function EncodePacket(d: Dictionary, md5: Hash, secret: seq<byte>, p: RadiusPacket, id: byte, random: Digest,
        salts: seq<Salt>): Sent
    requires WritablePacket(d, p) && |salts| == |Split(d, p.avps)|
  {
    var avps := Split(d, p.avps);
    var draft := DraftAuthenticator(p, random);
    var body := EncodeAll(d, Keys(md5, secret, draft), salts, avps);
    var start := Start(p, id, HEADER_SIZE + TotalLen(d, avps));
    var final := FinalAuthenticator(md5, secret, p, start, draft, body);
    Sent(start + final + body, p.(authenticator := final, avps := avps))
  }

  // ----- Authenticators

  /** What both validations compute, over a given request authenticator. */
  predicate Validates(md5: Hash, bytes: seq<byte>, requestAuthenticator: Digest, secret: seq<byte>)
    requires |bytes| >= HEADER_SIZE
  {
    bytes[4..20] == md5(bytes[..4] + requestAuthenticator + bytes[20..] + secret)
  }

  predicate ValidatesRequest(md5: Hash, bytes: seq<byte>, secret: seq<byte>)
    requires |bytes| >= HEADER_SIZE
  {
    Validates(md5, bytes, NO_DIGEST, secret)
  }

  lemma PartsOfPacket(d: Dictionary, md5: Hash, secret: seq<byte>, p: RadiusPacket, id: byte, random: Digest,
        salts: seq<Salt>)
    requires WritablePacket(d, p) && |salts| == |Split(d, p.avps)|
    ensures var avps := Split(d, p.avps);
      var draft := DraftAuthenticator(p, random);
      var body := EncodeAll(d, Keys(md5, secret, draft), salts, avps);
      var start := Start(p, id, HEADER_SIZE + TotalLen(d, avps));
      var bytes := EncodePacket(d, md5, secret, p, id, random, salts).bytes;
      |bytes| >= HEADER_SIZE && bytes[..4] == start
      && bytes[4..20] == FinalAuthenticator(md5, secret, p, start, draft, body) && bytes[20..] == body
  {
  }

  /** Every response passes the check of whoever holds the authenticator of its request and the secret, for any hash. */
  lemma ResponsesValidate(d: Dictionary, md5: Hash, secret: seq<byte>, p: RadiusPacket, id: byte, random: Digest,
        salts: seq<Salt>)
    requires WritablePacket(d, p) && |salts| == |Split(d, p.avps)| && !IsRequest(p.code)
    ensures var bytes := EncodePacket(d, md5, secret, p, id, random, salts).bytes;
      |bytes| >= HEADER_SIZE && Validates(md5, bytes, p.authenticator, secret)
  {
    PartsOfPacket(d, md5, secret, p, id, random, salts);
  }

  /** Every request but an access request passes the check of whoever holds the secret, for any hash. */
  lemma RequestsValidate(d: Dictionary, md5: Hash, secret: seq<byte>, p: RadiusPacket, id: byte, random: Digest,
        salts: seq<Salt>)
    requires WritablePacket(d, p) && |salts| == |Split(d, p.avps)| && IsRequest(p.code) && p.code != ACCESS_REQUEST
    ensures var bytes := EncodePacket(d, md5, secret, p, id, random, salts).bytes;
      |bytes| >= HEADER_SIZE && ValidatesRequest(md5, bytes, secret)
  {
    PartsOfPacket(d, md5, secret, p, id, random, salts);
  }

  // ----- Reading

  function Decoder(d: Dictionary, k: Keys): (read: seq<byte> -> Reading<Avp>)
    ensures Shortens(read)
  {
    input => Decode(d, k, input)
  }

  /** The attributes up to an index, before any is merged; the count is the index reached. */
  function DecodeAll(d: Dictionary, k: Keys, input: seq<byte>, index: nat, end: nat): Reading<seq<Avp>> {
    ReadMany(Decoder(d, k), input, index, end)
  }

  /** Whether an attribute continues the one before. */
  predicate Continues(d: Dictionary, last: Avp, a: Avp) {
    ItemOf(d, a).concat && last.code == a.code && last.vendorId == a.vendorId && last.value.Octets? && a.value.Octets?
  }

  function Joined(d: Dictionary, avps: seq<Avp>, a: Avp): seq<Avp> {
    if avps != [] && Continues(d, Last(avps), a) then
      Front(avps) + [Last(avps).(value := Octets(Last(avps).value.bytes + a.value.bytes))]
    else avps + [a]
  }

  /** Each attribute added to those before, or to the last of them. */
  function JoinedAll(d: Dictionary, avps: seq<Avp>, more: seq<Avp>): seq<Avp>
    decreases |more|
  {
    if more == [] then avps else JoinedAll(d, Joined(d, avps, more[0]), more[1..])
  }

  function Coalesce(d: Dictionary, avps: seq<Avp>): seq<Avp> {
    JoinedAll(d, [], avps)
  }

  /** `ra` is the authenticator of the request, which a response is read with. */
  function DecodePacket(d: Dictionary, md5: Hash, secret: seq<byte>, ra: Digest,
        input: seq<byte>): Reading<RadiusPacket>
  {
    if |input| < HEADER_SIZE then Failed
    else
      var len := FromBe(input[2..4]);
      var auth: Digest := input[4..20];
      var k := Keys(md5, secret, if IsRequest(input[0]) then auth else ra);
      match DecodeAll(d, k, input[20..], HEADER_SIZE, len)
      case Done(avps, n, rest) =>
        if n == len then Done(RadiusPacket(input[0], input[1], auth, Coalesce(d, avps)), n, rest) else Panic
      case Failed => Failed
      case Panic => Panic
  }

  // ----- Fragments

  /** The attributes that are split are in the clear and without an inner length: their chunks come back as they are. */
  predicate PlainSplits(d: Dictionary, avps: seq<Avp>) {
    forall a :: a in avps && Sized(d, a) && TooLong(d, a) ==> !Hidden(ItemOf(d, a)) && !ItemOf(d, a).withLen
  }

  lemma {:induction false} ChunksFit(d: Dictionary, a: Avp, bytes: seq<byte>)
    requires ItemOf(d, a).kind.OctetsType? && !Hidden(ItemOf(d, a)) && !ItemOf(d, a).withLen
    ensures forall c :: c in Chunks(a, bytes) ==>
      c == a.(value := c.value) && c.value.Octets? && 0 < |c.value.bytes| <= CHUNK && Len(d, c) <= 249
    decreases |bytes|
  {
    if |bytes| > CHUNK {
      ChunksFit(d, a, bytes[CHUNK..]);
    }
  }

  /** Every fragment of a plain attribute fits its length byte. */
  lemma {:induction false} FragmentsFit(d: Dictionary, avps: seq<Avp>)
    requires AllSized(d, avps) && ConcatIsOctets(d, avps) && PlainSplits(d, avps)
    ensures forall c :: c in Split(d, avps) && ItemOf(d, c).concat ==> Sized(d, c) && Len(d, c) <= 255
  {
    if avps != [] {
      FragmentsFit(d, avps[1..]);
      if TooLong(d, avps[0]) {
        ChunksFit(d, avps[0], avps[0].value.bytes);
      }
    }
  }

  // ----- Merging undoes splitting

  lemma {:induction false} JoinedAllConcat(d: Dictionary, avps: seq<Avp>, a: seq<Avp>, b: seq<Avp>)
    ensures JoinedAll(d, avps, a + b) == JoinedAll(d, JoinedAll(d, avps, a), b)
    decreases |a|
  {
    if a == [] {
      assert a + b == b;
    } else {
      assert (a + b)[1..] == a[1..] + b;
      JoinedAllConcat(d, Joined(d, avps, a[0]), a[1..], b);
    }
  }

  /** Joining the parts of a value one after the other is joining the value. */
  lemma JoinedInParts(d: Dictionary, avps: seq<Avp>, a: Avp, b: seq<byte>, c: seq<byte>)
    requires ItemOf(d, a).concat
    ensures Joined(d, Joined(d, avps, a.(value := Octets(b))), a.(value := Octets(c))) ==
            Joined(d, avps, a.(value := Octets(b + c)))
  {
    var first := a.(value := Octets(b));
    if avps != [] && Continues(d, Last(avps), first) {
      var last := Last(avps).value.bytes;
      assert last + b + c == last + (b + c);
    } else {
      assert Front(avps + [first]) == avps;
    }
  }

  lemma {:induction false} ChunksJoin(d: Dictionary, avps: seq<Avp>, a: Avp, bytes: seq<byte>)
    requires ItemOf(d, a).concat && bytes != []
    ensures JoinedAll(d, avps, Chunks(a, bytes)) == Joined(d, avps, a.(value := Octets(bytes)))
    decreases |bytes|
  {
    if |bytes| > CHUNK {
      var first, rest := bytes[..CHUNK], bytes[CHUNK..];
      ChunksJoin(d, Joined(d, avps, a.(value := Octets(first))), a, rest);
      assert Chunks(a, bytes)[1..] == Chunks(a, rest);
      JoinedInParts(d, avps, a, first, rest);
      assert first + rest == bytes;
    } else {
      assert Chunks(a, bytes)[1..] == [];
    }
  }

  /** Merging what was split gives what merging the packet as it was gives. */
  lemma {:induction false} JoiningUndoesSplitting(d: Dictionary, before: seq<Avp>, avps: seq<Avp>)
    requires AllSized(d, avps) && ConcatIsOctets(d, avps)
    ensures JoinedAll(d, before, Split(d, avps)) == JoinedAll(d, before, avps)
    decreases |avps|
  {
    if avps != [] {
      var a := avps[0];
      JoinedAllConcat(d, before, SplitOne(d, a), Split(d, avps[1..]));
      if TooLong(d, a) {
        assert a.value.bytes != [] by { assert Len(d, a) > 255; }
        ChunksJoin(d, before, a, a.value.bytes);
        assert a.(value := Octets(a.value.bytes)) == a;
      } else {
        assert JoinedAll(d, before, [a]) == Joined(d, before, a) by { assert [a][1..] == []; }
      }
      JoiningUndoesSplitting(d, Joined(d, before, a), avps[1..]);
    }
  }

  // ----- Round trip

  /** Nothing the reader rejects or reads otherwise: no tagged integers in the clear, no empty attributes. */
  predicate ReadableAvp(d: Dictionary, a: Avp) {
    var it := ItemOf(d, a);
    Matches(it, a.value) && Readable(it, a.value) && ProperCode(a) && !ShortInteger(it)
  }

  predicate AllReadable(d: Dictionary, avps: seq<Avp>) {
    forall a :: a in avps ==> ReadableAvp(d, a)
  }

  function NormalAll(d: Dictionary, avps: seq<Avp>): (r: seq<Avp>)
    requires AllReadable(d, avps)
    ensures |r| == |avps|
  {
    seq(|avps|, i requires 0 <= i < |avps| =>
      assert ReadableAvp(d, avps[i]);
      Normal(d, avps[i]))
  }

  lemma NormalAllConcat(d: Dictionary, a: seq<Avp>, b: seq<Avp>)
    requires AllReadable(d, a) && AllReadable(d, b)
    ensures AllReadable(d, a + b) && NormalAll(d, a + b) == NormalAll(d, a) + NormalAll(d, b)
  {
  }

  lemma {:induction false} ReadableChunks(d: Dictionary, a: Avp, bytes: seq<byte>)
    requires ReadableAvp(d, a) && ItemOf(d, a).kind.OctetsType? && !Hidden(ItemOf(d, a)) && !ItemOf(d, a).withLen
    ensures AllReadable(d, Chunks(a, bytes)) && NormalAll(d, Chunks(a, bytes)) == Chunks(Normal(d, a), bytes)
    decreases |bytes|
  {
    if |bytes| > CHUNK {
      ReadableChunks(d, a, bytes[CHUNK..]);
      assert Chunks(a, bytes)[1..] == Chunks(a, bytes[CHUNK..]);
    } else if bytes != [] {
      assert Chunks(a, bytes)[1..] == [];
    }
  }

  lemma ReadableSplitOne(d: Dictionary, before: seq<Avp>, a: Avp)
    requires ReadableAvp(d, a) && Sized(d, a) && ConcatIsOctets(d, [a]) && PlainSplits(d, [a])
    ensures AllReadable(d, SplitOne(d, a))
    ensures JoinedAll(d, before, NormalAll(d, SplitOne(d, a))) == Joined(d, before, Normal(d, a))
  {
    assert a in [a];
    if TooLong(d, a) {
      ReadableChunks(d, a, a.value.bytes);
      assert a.value.bytes != [] by { assert Len(d, a) > 255; }
      ChunksJoin(d, before, Normal(d, a), a.value.bytes);
      assert Normal(d, a).(value := Octets(a.value.bytes)) == Normal(d, a);
    } else {
      assert NormalAll(d, [a]) == [Normal(d, a)] by { assert [a][1..] == []; }
      assert [Normal(d, a)][1..] == [];
    }
  }

  /** What comes back of the fragments merges into what would come back of the whole attributes. */
  lemma {:induction false} NormalFragmentsJoin(d: Dictionary, before: seq<Avp>, avps: seq<Avp>)
    requires AllReadable(d, avps) && AllSized(d, avps) && ConcatIsOctets(d, avps) && PlainSplits(d, avps)
    ensures AllReadable(d, Split(d, avps))
    ensures JoinedAll(d, before, NormalAll(d, Split(d, avps))) == JoinedAll(d, before, NormalAll(d, avps))
    decreases |avps|
  {
    if avps != [] {
      var a, more := avps[0], avps[1..];
      assert ReadableAvp(d, a);
      ReadableSplitOne(d, before, a);
      NormalFragmentsJoin(d, Joined(d, before, Normal(d, a)), more);
      NormalAllConcat(d, SplitOne(d, a), Split(d, more));
      assert NormalAll(d, avps)[0] == Normal(d, a) && NormalAll(d, avps)[1..] == NormalAll(d, more);
      JoinedAllConcat(d, before, NormalAll(d, SplitOne(d, a)), NormalAll(d, Split(d, more)));
    }
  }

  lemma EachAvpReads(d: Dictionary, k: Keys, salts: seq<Salt>, avps: seq<Avp>, rest: seq<byte>)
    requires AllReadable(d, avps) && AllWritable(d, avps) && |salts| == |avps| && AllSized(d, avps)
    ensures EachReads(Decoder(d, k), Pieces(d, k, salts, avps), NormalAll(d, avps), Sizes(d, avps), rest)
  {
    var pieces := Pieces(d, k, salts, avps);
    forall i | 0 <= i < |avps|
      ensures Decoder(d, k)(pieces[i] + (Flat(pieces[i + 1..]) + rest)) ==
              Done(NormalAll(d, avps)[i], Sizes(d, avps)[i], Flat(pieces[i + 1..]) + rest)
    {
      assert ReadableAvp(d, avps[i]) && Writable(d, avps[i]);
      DecodeUndoesEncode(d, k, salts[i], avps[i], Flat(pieces[i + 1..]) + rest);
    }
  }

  lemma DecodeUndoesEncodeAll(d: Dictionary, k: Keys, salts: seq<Salt>, avps: seq<Avp>, rest: seq<byte>, index: nat,
        end: nat)
    requires AllReadable(d, avps) && AllWritable(d, avps) && |salts| == |avps| && AllSized(d, avps)
    requires end == index + TotalLen(d, avps)
    ensures DecodeAll(d, k, EncodeAll(d, k, salts, avps) + rest, index, end) == Done(NormalAll(d, avps), end, rest)
  {
    EachAvpReads(d, k, salts, avps, rest);
    ReadManyReadsEach(Decoder(d, k), Pieces(d, k, salts, avps), NormalAll(d, avps), Sizes(d, avps), rest, index, end);
  }

  predicate NoneHidden(d: Dictionary, avps: seq<Avp>) {
    forall a :: a in avps ==> !Hidden(ItemOf(d, a))
  }

  /** Attributes in the clear do not depend on the authenticator. */
  lemma ClearNeedsNoKeys(d: Dictionary, j: Keys, k: Keys, salts: seq<Salt>, avps: seq<Avp>)
    requires AllWritable(d, avps) && |salts| == |avps| && NoneHidden(d, avps)
    ensures EncodeAll(d, j, salts, avps) == EncodeAll(d, k, salts, avps)
  {
    forall i | 0 <= i < |avps| ensures Pieces(d, j, salts, avps)[i] == Pieces(d, k, salts, avps)[i] {
      assert Writable(d, avps[i]) && !Hidden(ItemOf(d, avps[i]));
    }
    assert Pieces(d, j, salts, avps) == Pieces(d, k, salts, avps);
  }

  lemma {:induction false} ClearFragments(d: Dictionary, avps: seq<Avp>)
    requires AllSized(d, avps) && ConcatIsOctets(d, avps) && PlainSplits(d, avps) && NoneHidden(d, avps)
    ensures NoneHidden(d, Split(d, avps))
  {
    if avps != [] {
      ClearFragments(d, avps[1..]);
      if TooLong(d, avps[0]) {
        ChunksFit(d, avps[0], avps[0].value.bytes);
      }
    }
  }

  /** The keys of the writer and of the reader give the same bytes: they differ only for requests that hide nothing. */
  lemma SameBody(d: Dictionary, md5: Hash, secret: seq<byte>, p: RadiusPacket, id: byte, random: Digest,
        salts: seq<Salt>, ra: Digest)
    requires WritablePacket(d, p) && |salts| == |Split(d, p.avps)| && PlainSplits(d, p.avps)
    requires !IsRequest(p.code) ==> ra == p.authenticator
    requires IsRequest(p.code) && p.code != ACCESS_REQUEST ==> NoneHidden(d, p.avps)
    ensures var sent := EncodePacket(d, md5, secret, p, id, random, salts);
      sent.bytes[20..] == EncodeAll(d, Keys(md5, secret, if IsRequest(p.code) then sent.packet.authenticator else ra),
          salts, Split(d, p.avps))
  {
    var sent := EncodePacket(d, md5, secret, p, id, random, salts);
    PartsOfPacket(d, md5, secret, p, id, random, salts);
    if IsRequest(p.code) && p.code != ACCESS_REQUEST {
      ClearFragments(d, p.avps);
      ClearNeedsNoKeys(d, Keys(md5, secret, NO_DIGEST), Keys(md5, secret, sent.packet.authenticator), salts,
          Split(d, p.avps));
    }
  }

  /** The keys the reader takes off a packet and the authenticator of its request. */
  function ReadersKeys(md5: Hash, secret: seq<byte>, p: RadiusPacket, auth: Digest, ra: Digest): Keys {
    Keys(md5, secret, if IsRequest(p.code) then auth else ra)
  }

  lemma BodyComesBack(d: Dictionary, k: Keys, salts: seq<Salt>, avps: seq<Avp>, body: seq<byte>, rest: seq<byte>,
        len: nat)
    requires AllReadable(d, avps) && AllSized(d, avps) && ConcatIsOctets(d, avps) && PlainSplits(d, avps)
    requires AllWritable(d, Split(d, avps)) && |salts| == |Split(d, avps)| && AllSized(d, Split(d, avps))
    requires body == EncodeAll(d, k, salts, Split(d, avps)) && len == HEADER_SIZE + TotalLen(d, Split(d, avps))
    ensures AllReadable(d, Split(d, avps))
    ensures DecodeAll(d, k, body + rest, HEADER_SIZE, len) == Done(NormalAll(d, Split(d, avps)), len, rest)
    ensures Coalesce(d, NormalAll(d, Split(d, avps))) == Coalesce(d, NormalAll(d, avps))
  {
    NormalFragmentsJoin(d, [], avps);
    DecodeUndoesEncodeAll(d, k, salts, Split(d, avps), rest, HEADER_SIZE, len);
  }

  lemma PacketShape(d: Dictionary, md5: Hash, secret: seq<byte>, p: RadiusPacket, id: byte, random: Digest,
        salts: seq<Salt>, rest: seq<byte>)
    requires WritablePacket(d, p) && |salts| == |Split(d, p.avps)|
    ensures var sent := EncodePacket(d, md5, secret, p, id, random, salts);
      sent.bytes + rest ==
      Start(p, id, HEADER_SIZE + TotalLen(d, Split(d, p.avps))) + sent.packet.authenticator + (sent.bytes[20..] + rest)
  {
    PartsOfPacket(d, md5, secret, p, id, random, salts);
    var sent := EncodePacket(d, md5, secret, p, id, random, salts);
    var start := Start(p, id, HEADER_SIZE + TotalLen(d, Split(d, p.avps)));
    Regroup(start + sent.packet.authenticator, sent.bytes[20..], rest);
  }

  /**
   The reader makes the packet again, with the attributes it would make of each whole attribute and with
   adjacent ones of the same concatenated kind merged; it reports the size and leaves what followed.
   */
  lemma DecodeUndoesEncodePacket(
      d: Dictionary, md5: Hash, secret: seq<byte>, p: RadiusPacket, id: byte, random: Digest,
      salts: seq<Salt>, ra: Digest, rest: seq<byte>)
    requires WritablePacket(d, p) && |salts| == |Split(d, p.avps)| && PlainSplits(d, p.avps) && AllReadable(d, p.avps)
    requires !IsRequest(p.code) ==> ra == p.authenticator
    requires IsRequest(p.code) && p.code != ACCESS_REQUEST ==> NoneHidden(d, p.avps)
    ensures var sent := EncodePacket(d, md5, secret, p, id, random, salts);
      DecodePacket(d, md5, secret, ra, sent.bytes + rest) ==
      Done(RadiusPacket(p.code, IdentifierOf(p, id), sent.packet.authenticator, Coalesce(d, NormalAll(d, p.avps))),
           HEADER_SIZE + TotalLen(d, Split(d, p.avps)), rest)
  {
    var sent := EncodePacket(d, md5, secret, p, id, random, salts);
    var len := HEADER_SIZE + TotalLen(d, Split(d, p.avps));
    var body := sent.bytes[20..];
    SameBody(d, md5, secret, p, id, random, salts, ra);
    BodyComesBack(d, ReadersKeys(md5, secret, p, sent.packet.authenticator, ra), salts, p.avps, body, rest, len);
    DecodeParts(d, md5, secret, ra, p, id, len, sent.packet.authenticator, body + rest,
                NormalAll(d, Split(d, p.avps)), rest);
    PacketShape(d, md5, secret, p, id, random, salts, rest);
  }

  lemma DecodeParts(d: Dictionary, md5: Hash, secret: seq<byte>, ra: Digest, p: RadiusPacket, id: byte, len: nat,
        auth: Digest,
                    more: seq<byte>, avps: seq<Avp>, rest: seq<byte>)
    requires HEADER_SIZE <= len <= 65535
    requires DecodeAll(d, ReadersKeys(md5, secret, p, auth, ra), more, HEADER_SIZE, len) == Done(avps, len, rest)
    ensures DecodePacket(d, md5, secret, ra, Start(p, id, len) + auth + more) ==
            Done(RadiusPacket(p.code, IdentifierOf(p, id), auth, Coalesce(d, avps)), len, rest)
  {
    var input := Start(p, id, len) + auth + more;
    assert input[2..4] == Be(len, 2);
    assert input[4..20] == auth && input[20..] == more;
    Ranges();
    BeRoundTrip(len, 2);
  }
}
