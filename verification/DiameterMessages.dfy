/** Diameter messages as bytes: a header, the attributes, and nothing lost or left over between messages of a stream. */
module DiameterMessages {
  import opened Common
  import opened Bytes
  import opened Streams
  import opened DiameterCodec
  import opened DiameterTheorems

  datatype DiameterMessage = DiameterMessage(
    isRequest: bool, isProxyable: bool, isError: bool, isRetransmission: bool,
    commandCode: uint32, applicationId: uint32, e2eId: uint32, hopByHopId: uint32,
    avps: seq<Avp>)

  /** Whether the dictionary has a command, by application and code. */
  type Commands = (uint32, uint32) -> bool

  const HEADER_SIZE := 20

  predicate SizedMessage(d: Dictionary, m: DiameterMessage) {
    forall a :: a in m.avps ==> Sized(d, a)
  }

  predicate WritableMessage(d: Dictionary, m: DiameterMessage) {
    forall a :: a in m.avps ==> Writable(d, a)
  }

  /** Enforcing the mandatory bit looks into the command exactly when there is none. */
  predicate LooksIntoMissingCommand(commands: Commands, m: DiameterMessage) {
    m.isRequest && !commands(m.applicationId, m.commandCode) && m.avps != []
  }

  function MessageLen(d: Dictionary, m: DiameterMessage): nat
    requires SizedMessage(d, m)
  {
    HEADER_SIZE + TotalLen(d, m.avps)
  }

  // ----- Writing

  function MessageFlags(m: DiameterMessage): byte {
    (if m.isRequest then 128 else 0) + (if m.isProxyable then 64 else 0)
    + (if m.isError then 32 else 0) + (if m.isRetransmission then 16 else 0)
  }

  function EncodeMessageHeader(m: DiameterMessage, len: nat): (s: seq<byte>)
    ensures |s| == HEADER_SIZE
  {
    [1] + ThreeBytes(len) + [MessageFlags(m)] + ThreeBytes(m.commandCode)
    + Be(m.applicationId, 4) + Be(m.e2eId, 4) + Be(m.hopByHopId, 4)
  }

  function EncodeMessage(d: Dictionary, m: DiameterMessage): seq<byte>
    requires SizedMessage(d, m) && WritableMessage(d, m)
  {
    EncodeMessageHeader(m, MessageLen(d, m)) + EncodeAll(d, m.avps)
  }

  // ----- Reading

  datatype MessageHeader = MessageHeader(len: nat, message: DiameterMessage)

  function ReadMessageHeader(input: seq<byte>): MessageHeader
    requires |input| >= HEADER_SIZE
  {
    var flags := input[4];
    MessageHeader(
      input[1] * BASE + FromBe(input[2..4]),
      DiameterMessage(
        Bit(flags, 128), Bit(flags, 64), Bit(flags, 32), Bit(flags, 16),
        CommandOf(input[5..8]), FromBe4(input[8..12]), FromBe4(input[12..16]), FromBe4(input[16..20]), []))
  }

  function CommandOf(s: seq<byte>): uint32
    requires |s| == 3
  {
    FromBeInRange(s[1..3]);
    Ranges();
    s[0] * BASE + FromBe(s[1..3])
  }

  /**
   Fewer bytes than the header, or than the attributes, are an error; attributes that do not end where the size says
   end the process.
   */
  function DecodeMessage(d: Dictionary, input: seq<byte>): Reading<DiameterMessage> {
    if |input| < HEADER_SIZE then Failed
    else
      var h := ReadMessageHeader(input);
      match DecodeAll(d, input[HEADER_SIZE..], HEADER_SIZE, h.len)
      case Done(avps, n, rest) => if n == h.len then Done(h.message.(avps := avps), n, rest) else Panic
      case Failed => Failed
      case Panic => Panic
  }

  // ----- Round trip

  function NormalMessage(d: Dictionary, m: DiameterMessage): DiameterMessage
    requires WritableMessage(d, m)
  {
    m.(avps := NormalAll(d, m.avps))
  }

  predicate ProperMessage(d: Dictionary, m: DiameterMessage)
    requires WritableMessage(d, m)
  {
    forall a :: a in m.avps ==> Proper(d, a)
  }

  /** The header takes twenty bytes and the attributes what they say, so the size written is the size announced. */
  lemma MessageEncodesItsLenIff(d: Dictionary, m: DiameterMessage)
    requires WritableMessage(d, m)
    ensures SizedMessage(d, m) && MessageLen(d, m) % 4 == 0
    ensures |EncodeMessage(d, m)| == MessageLen(d, m) <==> ProperMessage(d, m)
  {
    AllEncodeTheirLenIff(d, m.avps);
    ManyLens(d, m.avps);
  }

  lemma MessageFlagsComeBack(m: DiameterMessage)
    ensures var f := MessageFlags(m);
      && Bit(f, 128) == m.isRequest && Bit(f, 64) == m.isProxyable
      && Bit(f, 32) == m.isError && Bit(f, 16) == m.isRetransmission
  {
  }

  lemma WordsComeBack(m: DiameterMessage)
    ensures FromBe(Be(m.applicationId, 4)) == m.applicationId
    ensures FromBe(Be(m.e2eId, 4)) == m.e2eId && FromBe(Be(m.hopByHopId, 4)) == m.hopByHopId
  {
    Ranges();
    BeRoundTrip(m.applicationId, 4);
    BeRoundTrip(m.e2eId, 4);
    BeRoundTrip(m.hopByHopId, 4);
  }

  lemma MessageHeaderComesBack(m: DiameterMessage, len: nat, more: seq<byte>)
    requires len < LIMIT && m.commandCode < LIMIT
    ensures var input := EncodeMessageHeader(m, len) + more;
      ReadMessageHeader(input) == MessageHeader(len, m.(avps := [])) && input[HEADER_SIZE..] == more
  {
    var input := EncodeMessageHeader(m, len) + more;
    WordsComeBack(m);
    MessageFlagsComeBack(m);
    ThreeBytesComeBackIff(len);
    ThreeBytesComeBackIff(m.commandCode);
    assert input[1..4] == ThreeBytes(len) && input[2..4] == ThreeBytes(len)[1..3] && input[1] == ThreeBytes(len)[0];
    assert input[5..8] == ThreeBytes(m.commandCode);
    assert input[8..12] == Be(m.applicationId, 4);
    assert input[12..16] == Be(m.e2eId, 4);
    assert input[16..20] == Be(m.hopByHopId, 4);
  }

  /** The reader makes the message again and stops where it ends, whatever comes next in the stream. */
  lemma DecodeUndoesEncodeMessage(d: Dictionary, m: DiameterMessage, rest: seq<byte>)
    requires WritableMessage(d, m) && ProperMessage(d, m) && SizedMessage(d, m)
    requires MessageLen(d, m) < LIMIT && m.commandCode < LIMIT
    ensures DecodeMessage(d, EncodeMessage(d, m) + rest) == Done(NormalMessage(d, m), MessageLen(d, m), rest)
  {
    var len := MessageLen(d, m);
    var more := EncodeAll(d, m.avps) + rest;
    assert EncodeMessage(d, m) + rest == EncodeMessageHeader(m, len) + more;
    MessageHeaderComesBack(m, len, more);
    DecodeUndoesEncodeAll(d, m.avps, rest, HEADER_SIZE, len);
  }

  /**
   The header is the one of section 3 of RFC 6733 exactly for sizes and command codes below 65535 and equal identifiers:
   the standard has the hop-by-hop identifier first, here it comes last.
   */
  lemma HeaderMatchesRfcIff(m: DiameterMessage, len: nat)
    requires len < 0x100_0000 && m.commandCode < 0x100_0000
    ensures EncodeMessageHeader(m, len) ==
              [1] + Be(len, 3) + [MessageFlags(m)] + Be(m.commandCode, 3)
              + Be(m.applicationId, 4) + Be(m.hopByHopId, 4) + Be(m.e2eId, 4)
            <==> len < 65535 && m.commandCode < 65535 && m.hopByHopId == m.e2eId
  {
    ThreeBytesMatchRfcIff(len);
    ThreeBytesMatchRfcIff(m.commandCode);
    WordsComeBack(m);
    var ours := EncodeMessageHeader(m, len);
    var rfc := [1] + Be(len, 3) + [MessageFlags(m)] + Be(m.commandCode, 3)
      + Be(m.applicationId, 4) + Be(m.hopByHopId, 4) + Be(m.e2eId, 4);
    assert ours[1..4] == ThreeBytes(len) && ours[5..8] == ThreeBytes(m.commandCode);
    assert rfc[1..4] == Be(len, 3) && rfc[5..8] == Be(m.commandCode, 3);
    assert ours[12..16] == Be(m.e2eId, 4) && rfc[12..16] == Be(m.hopByHopId, 4);
  }

  // ----- Streams

  function EncodeStream(d: Dictionary, messages: seq<DiameterMessage>): seq<byte>
    requires forall m :: m in messages ==> WritableMessage(d, m) && SizedMessage(d, m)
  {
    if messages == [] then [] else EncodeMessage(d, messages[0]) + EncodeStream(d, messages[1..])
  }

  /** Reads messages until the stream is used up. */
  function DecodeStream(d: Dictionary, input: seq<byte>): Option<seq<DiameterMessage>>
    decreases |input|
  {
    if input == [] then Some([])
    else match DecodeMessage(d, input)
      case Done(m, _, rest) =>
        if |rest| >= |input| then None
        else (match DecodeStream(d, rest)
              case Some(more) => Some([m] + more)
              case None => None)
      case Failed => None
      case Panic => None
  }

  function NormalStream(d: Dictionary, messages: seq<DiameterMessage>): seq<DiameterMessage>
    requires forall m :: m in messages ==> WritableMessage(d, m)
  {
    if messages == [] then [] else [NormalMessage(d, messages[0])] + NormalStream(d, messages[1..])
  }

  /** Messages written one after the other are read as the same messages, however many they are. */
  lemma {:induction false} DecodeUndoesEncodeStream(d: Dictionary, messages: seq<DiameterMessage>)
    requires forall m :: m in messages ==> WritableMessage(d, m) && SizedMessage(d, m)
    requires forall m :: m in messages ==> ProperMessage(d, m) && MessageLen(d, m) < LIMIT && m.commandCode < LIMIT
    ensures DecodeStream(d, EncodeStream(d, messages)) == Some(NormalStream(d, messages))
  {
    if messages != [] {
      DecodeUndoesEncodeStream(d, messages[1..]);
      DecodeUndoesEncodeMessage(d, messages[0], EncodeStream(d, messages[1..]));
    }
  }
}
