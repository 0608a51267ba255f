/**
 The reader undoes the writer: whatever the depth of the groups and the padding, and whatever follows in the stream.
 */
module DiameterTheorems {
  import opened Common
  import opened Bytes
  import opened Streams
  import opened Addresses
  import opened DiameterCodec

  /** The sizes that three bytes to base 65535 can hold. */
  const LIMIT := 256 * BASE

  // ----- What comes back

  function NormalLeaf(t: DiameterType, v: Value): Value
    requires !t.Grouped? && Matches(t, v)
  {
    match t
    case TypeNone | OctetString | UTF8String | DiamIdent | DiameterURI | IPFilterRule | Float32 | Float64
        | IPv6Prefix =>
      v
    case Integer32 | Enumerated => IntOf(Bits(v.i, BYTES4), BYTES4)
    case Unsigned32 => Int(Bits(v.i, BYTES4))
    case Integer64 | Unsigned64 => IntOf(Bits(v.i, BYTES8), BYTES8)
    case Address => Ip(if To4(v.address).Some? then From4(v.address) else To16(v.address))
    case Time => Moment(Bits(v.seconds, BYTES4))
    case IPv4Address => Ip(From4(v.address))
    case IPv6Address => Ip(To16(v.address))
  }

  /** The attribute the reader makes of what the writer wrote. */
  function Normal(d: Dictionary, a: Avp): Avp
    requires Writable(d, a)
    decreases a
  {
    a.(value :=
      if !TypeOf(d, a).Grouped? then NormalLeaf(TypeOf(d, a), a.value)
      else if a.value.avps == [] then Nil
      else Group(NormalAll(d, a.value.avps)))
  }

  function NormalAll(d: Dictionary, avps: seq<Avp>): (r: seq<Avp>)
    requires forall b :: b in avps ==> Writable(d, b)
    ensures |r| == |avps|
    decreases avps
  {
    if avps == [] then [] else [Normal(d, avps[0])] + NormalAll(d, avps[1..])
  }

  /** Addresses have four or sixteen bytes, and an IPv4 one is one. */
  predicate ProperLeaf(t: DiameterType, v: Value)
    requires Matches(t, v)
  {
    match t
    case Address | IPv6Address => |v.address| == 4 || |v.address| == 16
    case IPv4Address => To4(v.address).Some?
    case TypeNone | OctetString | UTF8String | DiamIdent | DiameterURI | IPFilterRule | Float32 | Float64
        | IPv6Prefix =>
      true
    case Integer32 | Integer64 | Unsigned32 | Unsigned64 | Enumerated | Time | Grouped => true
  }

  predicate Proper(d: Dictionary, a: Avp)
    requires Writable(d, a)
    decreases a
  {
    if TypeOf(d, a).Grouped? then forall b :: b in a.value.avps ==> Proper(d, b)
    else ProperLeaf(TypeOf(d, a), a.value)
  }

  // ----- Leaves

  lemma CutAt(a: seq<byte>, b: seq<byte>, c: seq<byte>)
    ensures (a + b + c)[..|a|] == a && (a + b + c)[|a| + |b|..] == c
  {
    assert a + b + c == a + (b + c);
    assert (a + b + c)[..|a| + |b|] == a + b;
  }

  lemma TaggedCut(tag: seq<byte>, body: seq<byte>, pad: seq<byte>, rest: seq<byte>)
    ensures var input := tag + body + pad + rest;
      && input[..|tag|] == tag && input[|tag|..|tag| + |body|] == body && input[|tag| + |body| + |pad|..] == rest
  {
    CutAt(tag + body, pad, rest);
    var input := tag + body + pad + rest;
    assert input[|tag|..|tag| + |body|] == (tag + body)[|tag|..] == body;
  }

  lemma BitsComeBack(i: int, n: nat, range: int)
    requires (n == 4 && range == BYTES4) || (n == 8 && range == BYTES8)
    ensures |Be(Bits(i, range), n)| == n && FromBe(Be(Bits(i, range), n)) == Bits(i, range)
  {
    Ranges();
    BeRoundTrip(Bits(i, range), n);
  }

  lemma ShortAddressComesBack(v: Value, rest: seq<byte>)
    requires v.Ip? && ProperLeaf(Address, v) && To4(v.address).Some?
    ensures var body := EncodeLeaf(Address, v);
      |body| == 6 && ReadAddress(body + Zeros(2) + rest) == Done(NormalLeaf(Address, v), 8, rest)
  {
    var body := EncodeLeaf(Address, v);
    var input := body + Zeros(2) + rest;
    Ranges();
    BeRoundTrip(1, 2);
    TaggedCut(Be(1, 2), From4(v.address), Zeros(2), rest);
  }

  lemma LongAddressComesBack(v: Value, rest: seq<byte>)
    requires v.Ip? && ProperLeaf(Address, v) && To4(v.address).None?
    ensures var body := EncodeLeaf(Address, v);
      |body| == 18 && ReadAddress(body + Zeros(2) + rest) == Done(NormalLeaf(Address, v), 20, rest)
  {
    var body := EncodeLeaf(Address, v);
    var input := body + Zeros(2) + rest;
    Ranges();
    BeRoundTrip(2, 2);
    TaggedCut(Be(2, 2), To16(v.address), Zeros(2), rest);
  }

  lemma AddressComesBack(v: Value, rest: seq<byte>)
    requires v.Ip? && ProperLeaf(Address, v)
    ensures var body := EncodeLeaf(Address, v);
      && |body| == LeafLen(Address, v)
      && ReadAddress(body + Zeros(Pad(|body|)) + rest) == Done(NormalLeaf(Address, v), |body| + Pad(|body|), rest)
  {
    if To4(v.address).Some? {
      ShortAddressComesBack(v, rest);
    } else {
      LongAddressComesBack(v, rest);
    }
  }

  lemma PrefixComesBack(v: Value, rest: seq<byte>)
    requires v.Prefix? && Matches(IPv6Prefix, v)
    ensures var body := EncodeLeaf(IPv6Prefix, v);
      && |body| == LeafLen(IPv6Prefix, v)
      && DecodeLeaf(IPv6Prefix, |body|, Pad(|body|), body + Zeros(Pad(|body|)) + rest) ==
         Done(v, |body| + Pad(|body|), rest)
  {
    var body := EncodeLeaf(IPv6Prefix, v);
    var input := body + Zeros(Pad(|body|)) + rest;
    assert input[1] == v.length;
    assert input[2..18] == v.network;
    assert input[20..] == rest;
  }

  /** A leaf comes back, with its size and with nothing of what follows. */
  lemma LeafComesBack(t: DiameterType, v: Value, rest: seq<byte>)
    requires !t.Grouped? && Matches(t, v) && ProperLeaf(t, v) && |EncodeLeaf(t, v)| < LIMIT
    ensures var body := EncodeLeaf(t, v);
      && |body| == LeafLen(t, v)
      && DecodeLeaf(t, |body|, Pad(|body|), body + Zeros(Pad(|body|)) + rest) ==
         Done(NormalLeaf(t, v), |body| + Pad(|body|), rest)
  {
    var body := EncodeLeaf(t, v);
    CutAt(body, Zeros(Pad(|body|)), rest);
    match t
    case TypeNone | OctetString =>
    case UTF8String | DiamIdent | DiameterURI | IPFilterRule =>
    case Integer32 | Enumerated => BitsComeBack(v.i, 4, BYTES4);
    case Unsigned32 => BitsComeBack(v.i, 4, BYTES4);
    case Integer64 | Unsigned64 => BitsComeBack(v.i, 8, BYTES8);
    case Float32 =>
    case Float64 =>
    case Address => AddressComesBack(v, rest);
    case Time => BitsComeBack(v.seconds, 4, BYTES4);
    case IPv4Address =>
    case IPv6Address =>
    case IPv6Prefix => PrefixComesBack(v, rest);
  }

  // ----- Headers

  /** Three bytes to base 65535 hold a size exactly below 256 times 65535. */
  lemma ThreeBytesComeBackIff(n: nat)
    ensures var s := ThreeBytes(n); s[0] * BASE + FromBe(s[1..3]) == n <==> n < LIMIT
  {
    Ranges();
    BeRoundTrip(n % BASE, 2);
    assert ThreeBytes(n)[1..3] == Be(n % BASE, 2);
    if n < LIMIT {
      assert n / BASE < 256;
    }
  }

  lemma ThreeBytesValue(n: nat, q: nat, r: nat)
    requires n == q * BASE + r && r < BASE
    ensures FromBe(ThreeBytes(n)) == q % 256 * 65536 + r
  {
    Ranges();
    assert n / BASE == q && n % BASE == r;
    BeRoundTrip(r, 2);
    FromBeOfThree(ThreeBytes(n));
    assert ThreeBytes(n)[1..3] == Be(r, 2);
  }

  /** The size field is the 24-bit one of section 4.1 of RFC 6733 exactly for sizes below 65535. */
  lemma ThreeBytesMatchRfcIff(n: nat)
    requires n < 0x100_0000
    ensures ThreeBytes(n) == Be(n, 3) <==> n < BASE
  {
    var q, r := n / BASE, n % BASE;
    ThreeBytesValue(n, q, r);
    assert Range(3) == 0x100_0000;
    BeRoundTrip(n, 3);
    FromBeRoundTrip(ThreeBytes(n));
    DifferentWeights(n, q, r);
  }

  lemma DifferentWeights(n: nat, q: nat, r: nat)
    requires n == q * BASE + r && r < BASE && n < 0x100_0000
    ensures q % 256 * 65536 + r == n <==> n < BASE
  {
    if q == 0 {
    } else if q < 256 {
      assert q % 256 * 65536 + r == n + q;
    } else {
      assert q == 256;
    }
  }

  lemma FromBeOfThree(s: seq<byte>)
    requires |s| == 3
    ensures FromBe(s) == s[0] * 65536 + FromBe(s[1..3])
  {
    var front := Front(s);
    assert front == [s[0], s[1]] && Front(front) == [s[0]] && Front([s[0]]) == [];
    assert s[1..3] == [s[1], s[2]] && Front([s[1], s[2]]) == [s[1]] && Front([s[1]]) == [];
    assert FromBe([s[0]]) == s[0] && FromBe([s[1]]) == s[1];
  }

  function HeaderOf(a: Avp, dataLen: nat): Header {
    Header(a.code, Flags(a), dataLen, a.vendorId, HeaderLen(a))
  }

  lemma HeaderComesBack(a: Avp, dataLen: nat, more: seq<byte>)
    requires dataLen < LIMIT
    ensures var input := EncodeHeader(a, dataLen) + more;
      ReadHeader(input) == Some(HeaderOf(a, dataLen)) && input[HeaderLen(a)..] == more
  {
    var input := EncodeHeader(a, dataLen) + more;
    Ranges();
    FlagsComeBack(a);
    BeRoundTrip(a.code, 4);
    BeRoundTrip(a.vendorId, 4);
    ThreeBytesComeBackIff(dataLen);
    assert input[..4] == Be(a.code, 4);
    assert input[5..8] == ThreeBytes(dataLen);
    assert input[6..8] == ThreeBytes(dataLen)[1..3];
    if a.vendorId > 0 {
      assert input[8..12] == Be(a.vendorId, 4);
    } else {
      assert input[8..8] == [];
    }
  }

  lemma FlagsComeBack(a: Avp)
    ensures Bit(Flags(a), 0x80) <==> a.vendorId > 0
    ensures Bit(Flags(a), 0x40) == a.isMandatory && Bit(Flags(a), 0x20) == a.isProtected
  {
  }

  // ----- Sizes

  lemma {:induction false} ManyLens(d: Dictionary, avps: seq<Avp>)
    requires forall b :: b in avps ==> Sized(d, b)
    ensures TotalLen(d, avps) % 4 == 0
    ensures forall b :: b in avps ==> Len(d, b) <= TotalLen(d, avps)
  {
    if avps != [] {
      ManyLens(d, avps[1..]);
    }
  }

  /** The writer emits as many bytes as it says, a multiple of four, exactly when all addresses are proper. */
  lemma {:induction false} EncodesItsLenIff(d: Dictionary, a: Avp)
    requires Writable(d, a)
    ensures Sized(d, a) && Len(d, a) % 4 == 0
    ensures |Encode(d, a)| <= Len(d, a) && (|Encode(d, a)| == Len(d, a) <==> Proper(d, a))
    decreases a, 0
  {
    WritableIsSized(d, a);
    if TypeOf(d, a).Grouped? {
      AllEncodeTheirLenIff(d, a.value.avps);
    } else {
      LeafSize(TypeOf(d, a), a.value);
    }
  }

  lemma LeafSize(t: DiameterType, v: Value)
    requires !t.Grouped? && Matches(t, v)
    ensures |EncodeLeaf(t, v)| <= LeafLen(t, v) && (|EncodeLeaf(t, v)| == LeafLen(t, v) <==> ProperLeaf(t, v))
  {
    match t
    case TypeNone | OctetString =>
    case UTF8String | DiamIdent | DiameterURI | IPFilterRule =>
    case Integer32 | Enumerated | Unsigned32 =>
    case Integer64 | Unsigned64 =>
    case Float32 =>
    case Float64 =>
    case Address =>
    case Time =>
    case IPv4Address =>
    case IPv6Address =>
    case IPv6Prefix =>
  }

  lemma {:induction false} AllEncodeTheirLenIff(d: Dictionary, avps: seq<Avp>)
    requires forall b :: b in avps ==> Writable(d, b)
    ensures forall b :: b in avps ==> Sized(d, b)
    ensures |EncodeAll(d, avps)| <= TotalLen(d, avps)
    ensures |EncodeAll(d, avps)| == TotalLen(d, avps) <==> forall b :: b in avps ==> Proper(d, b)
    decreases avps, 1
  {
    if avps != [] {
      EncodesItsLenIff(d, avps[0]);
      AllEncodeTheirLenIff(d, avps[1..]);
      assert forall b :: b in avps <==> b == avps[0] || b in avps[1..];
    }
  }

  // ----- Round trip

  /** What the reader makes of a header and of what it reads behind it. */
  lemma DecodeBehindHeader(d: Dictionary, a: Avp, n: nat, more: seq<byte>, read: Reading<Value>)
    requires n < LIMIT && read.Done? && read == DecodeValue(d, HeaderOf(a, n), more)
    ensures Decode(d, EncodeHeader(a, n) + more) == Done(a.(value := read.value), read.count, read.rest)
  {
    HeaderComesBack(a, n, more);
    FlagsComeBack(a);
  }

  lemma LeafShape(d: Dictionary, a: Avp, rest: seq<byte>)
    requires !TypeOf(d, a).Grouped? && Writable(d, a) && Sized(d, a)
    ensures var n := DataLen(d, a);
      Encode(d, a) + rest == EncodeHeader(a, n) + (EncodeLeaf(TypeOf(d, a), a.value) + Zeros(Pad(n)) + rest)
  {
  }

  lemma GroupShape(d: Dictionary, a: Avp, rest: seq<byte>)
    requires TypeOf(d, a).Grouped? && Writable(d, a) && Sized(d, a)
    ensures var n := DataLen(d, a);
      Pad(n) == 0 && Encode(d, a) + rest == EncodeHeader(a, n) + (EncodeAll(d, a.value.avps) + rest)
  {
    ManyLens(d, a.value.avps);
  }

  lemma DecodeValueAsLeaf(d: Dictionary, a: Avp, n: nat, more: seq<byte>, leaf: Reading<Value>)
    requires !TypeOf(d, a).Grouped? && HeaderLen(a) <= n < LIMIT && leaf.Done?
    requires leaf == DecodeLeaf(TypeOf(d, a), n - HeaderLen(a), Pad(n), more)
    ensures DecodeValue(d, HeaderOf(a, n), more) == Done(leaf.value, HeaderLen(a) + leaf.count, leaf.rest)
  {
    var h := HeaderOf(a, n);
    assert h.size == HeaderLen(a) && h.avpLen == n;
    assert (h.avpLen - h.size) % BYTES4 == n - HeaderLen(a);
  }

  lemma DecodeLeafValue(d: Dictionary, a: Avp, rest: seq<byte>, more: seq<byte>)
    requires !TypeOf(d, a).Grouped? && Writable(d, a) && Proper(d, a) && Sized(d, a) && DataLen(d, a) < LIMIT
    requires more == EncodeLeaf(TypeOf(d, a), a.value) + Zeros(Pad(DataLen(d, a))) + rest
    ensures DecodeValue(d, HeaderOf(a, DataLen(d, a)), more) == Done(NormalLeaf(TypeOf(d, a), a.value), Len(d, a), rest)
  {
    var t, n, h := TypeOf(d, a), DataLen(d, a), HeaderLen(a);
    LeafSize(t, a.value);
    assert Pad(n) == Pad(n - h);
    LeafComesBack(t, a.value, rest);
    DecodeValueAsLeaf(d, a, n, more, Done(NormalLeaf(t, a.value), n - h + Pad(n), rest));
  }

  lemma DecodeLeafAvp(d: Dictionary, a: Avp, rest: seq<byte>)
    requires !TypeOf(d, a).Grouped? && Writable(d, a) && Proper(d, a) && Sized(d, a) && DataLen(d, a) < LIMIT
    ensures Decode(d, Encode(d, a) + rest) == Done(Normal(d, a), Len(d, a), rest)
  {
    var more := EncodeLeaf(TypeOf(d, a), a.value) + Zeros(Pad(DataLen(d, a))) + rest;
    DecodeLeafValue(d, a, rest, more);
    DecodeBehindHeader(d, a, DataLen(d, a), more, Done(NormalLeaf(TypeOf(d, a), a.value), Len(d, a), rest));
    LeafShape(d, a, rest);
  }

  lemma DecodeGroupAvp(d: Dictionary, a: Avp, rest: seq<byte>)
    requires TypeOf(d, a).Grouped? && Writable(d, a) && Proper(d, a) && Sized(d, a) && DataLen(d, a) < LIMIT
    requires DecodeAll(d, EncodeAll(d, a.value.avps) + rest, HeaderLen(a), DataLen(d, a)) ==
             Done(NormalAll(d, a.value.avps), DataLen(d, a), rest)
    ensures Decode(d, Encode(d, a) + rest) == Done(Normal(d, a), Len(d, a), rest)
  {
    var more := EncodeAll(d, a.value.avps) + rest;
    GroupShape(d, a, rest);
    assert DecodeValue(d, HeaderOf(a, DataLen(d, a)), more) == Done(Normal(d, a).value, Len(d, a), rest);
    DecodeBehindHeader(d, a, DataLen(d, a), more, Done(Normal(d, a).value, Len(d, a), rest));
  }

  /** What the reader makes of an input; said so that the proofs about lists need not look into the reader. */
  ghost predicate ReadsAs(d: Dictionary, input: seq<byte>, r: Reading<Avp>) {
    forall i {:trigger Decode(d, i)} :: i == input ==> Decode(d, i) == r
  }

  ghost predicate ReadsAllAs(d: Dictionary, input: seq<byte>, index: nat, end: nat, r: Reading<seq<Avp>>) {
    forall i {:trigger DecodeAll(d, i, index, end)} :: i == input ==> DecodeAll(d, i, index, end) == r
  }

  /** The reader makes the attribute again, reports its size and leaves exactly what followed. */
  ghost predicate ComesBack(d: Dictionary, a: Avp, rest: seq<byte>)
    requires Writable(d, a) && Sized(d, a)
  {
    ReadsAs(d, Encode(d, a) + rest, Done(Normal(d, a), Len(d, a), rest))
  }

  /** The same for a list that starts at a position and goes up to another one. */
  ghost predicate ListComesBack(d: Dictionary, avps: seq<Avp>, rest: seq<byte>, index: nat, end: nat)
    requires forall b :: b in avps ==> Writable(d, b) && Sized(d, b)
  {
    ReadsAllAs(d, EncodeAll(d, avps) + rest, index, end, Done(NormalAll(d, avps), end, rest))
  }

  lemma DecodeOneMore(d: Dictionary, input: seq<byte>, index: nat, end: nat, first: Reading<Avp>,
        more: Reading<seq<Avp>>)
    requires index < end && ReadsAs(d, input, first) && first.Done?
    requires ReadsAllAs(d, first.rest, index + first.count, end, more) && more.Done?
    ensures ReadsAllAs(d, input, index, end, Done([first.value] + more.value, more.count, more.rest))
  {
    assert DecodeAll(d, input, index, end) == Done([first.value] + more.value, more.count, more.rest) by {
      assert Decode(d, input) == first;
      assert DecodeAll(d, first.rest, index + first.count, end) == more;
    }
  }

  lemma ManyShape(d: Dictionary, avps: seq<Avp>, rest: seq<byte>)
    requires avps != [] && forall b :: b in avps ==> Writable(d, b)
    ensures EncodeAll(d, avps) + rest == Encode(d, avps[0]) + (EncodeAll(d, avps[1..]) + rest)
  {
    Regroup(Encode(d, avps[0]), EncodeAll(d, avps[1..]), rest);
  }

  lemma OneMoreComesBack(d: Dictionary, avps: seq<Avp>, rest: seq<byte>, index: nat, end: nat, tail: seq<byte>)
    requires avps != [] && (forall b :: b in avps ==> Writable(d, b) && Sized(d, b)) && index < end
    requires tail == EncodeAll(d, avps[1..]) + rest
    requires ComesBack(d, avps[0], tail)
    requires ListComesBack(d, avps[1..], rest, index + Len(d, avps[0]), end)
    ensures ListComesBack(d, avps, rest, index, end)
  {
    ManyShape(d, avps, rest);
    DecodeOneMore(d, Encode(d, avps[0]) + tail, index, end,
                  Done(Normal(d, avps[0]), Len(d, avps[0]), tail), Done(NormalAll(d, avps[1..]), end, rest));
  }

  lemma NoneComeBack(d: Dictionary, rest: seq<byte>, index: nat)
    ensures ListComesBack(d, [], rest, index, index)
  {
    assert EncodeAll(d, []) + rest == rest;
  }

  lemma SplitLens(d: Dictionary, avps: seq<Avp>)
    requires avps != [] && forall b :: b in avps ==> Sized(d, b)
    ensures TotalLen(d, avps) == Len(d, avps[0]) + TotalLen(d, avps[1..])
    ensures 8 <= DataLen(d, avps[0]) <= Len(d, avps[0])
  {
  }

  /** Every attribute comes back from where it stands in the list. */
  ghost predicate AllComeBack(d: Dictionary, avps: seq<Avp>, rest: seq<byte>)
    requires forall b :: b in avps ==> Writable(d, b) && Sized(d, b)
  {
    forall i :: 0 <= i < |avps| ==> ComesBack(d, avps[i], EncodeAll(d, avps[i + 1..]) + rest)
  }

  lemma TailComesBack(d: Dictionary, avps: seq<Avp>, rest: seq<byte>)
    requires avps != [] && (forall b :: b in avps ==> Writable(d, b) && Sized(d, b)) && AllComeBack(d, avps, rest)
    ensures AllComeBack(d, avps[1..], rest)
  {
    var more := avps[1..];
    forall i | 0 <= i < |more| ensures ComesBack(d, more[i], EncodeAll(d, more[i + 1..]) + rest) {
      assert more[i] == avps[i + 1] && more[i + 1..] == avps[i + 2..];
    }
  }

  lemma {:induction false} DecodeEach(d: Dictionary, avps: seq<Avp>, rest: seq<byte>, index: nat, end: nat)
    requires (forall b :: b in avps ==> Writable(d, b) && Sized(d, b)) && end == index + TotalLen(d, avps)
    requires AllComeBack(d, avps, rest)
    ensures ListComesBack(d, avps, rest, index, end)
    decreases avps
  {
    if avps == [] {
      NoneComeBack(d, rest, index);
    } else {
      SplitLens(d, avps);
      TailComesBack(d, avps, rest);
      DecodeEach(d, avps[1..], rest, index + Len(d, avps[0]), end);
      assert ComesBack(d, avps[0], EncodeAll(d, avps[1..]) + rest);
      OneMoreComesBack(d, avps, rest, index, end, EncodeAll(d, avps[1..]) + rest);
    }
  }

  /** Whatever follows an attribute, the reader undoes the writer. */
  lemma {:induction false} DecodeUndoesEncode(d: Dictionary, a: Avp, rest: seq<byte>)
    requires Writable(d, a) && Proper(d, a) && Sized(d, a) && DataLen(d, a) < LIMIT
    ensures Decode(d, Encode(d, a) + rest) == Done(Normal(d, a), Len(d, a), rest)
    decreases a
  {
    if TypeOf(d, a).Grouped? {
      var avps := a.value.avps;
      ManyLens(d, avps);
      forall i | 0 <= i < |avps| ensures ComesBack(d, avps[i], EncodeAll(d, avps[i + 1..]) + rest) {
        assert DataLen(d, avps[i]) <= Len(d, avps[i]) <= TotalLen(d, avps);
        DecodeUndoesEncode(d, avps[i], EncodeAll(d, avps[i + 1..]) + rest);
      }
      DecodeEach(d, avps, rest, HeaderLen(a), DataLen(d, a));
      DecodeGroupAvp(d, a, rest);
    } else {
      DecodeLeafAvp(d, a, rest);
    }
  }

  lemma DecodeUndoesEncodeAll(d: Dictionary, avps: seq<Avp>, rest: seq<byte>, index: nat, end: nat)
    requires forall b :: b in avps ==> Writable(d, b) && Proper(d, b) && Sized(d, b)
    requires TotalLen(d, avps) < LIMIT && end == index + TotalLen(d, avps)
    ensures DecodeAll(d, EncodeAll(d, avps) + rest, index, end) == Done(NormalAll(d, avps), end, rest)
  {
    ManyLens(d, avps);
    forall i | 0 <= i < |avps| ensures ComesBack(d, avps[i], EncodeAll(d, avps[i + 1..]) + rest) {
      assert DataLen(d, avps[i]) <= Len(d, avps[i]) <= TotalLen(d, avps);
      DecodeUndoesEncode(d, avps[i], EncodeAll(d, avps[i + 1..]) + rest);
    }
    DecodeEach(d, avps, rest, index, end);
  }

  // ----- When the attribute that comes back is the one written

  predicate CanonicalLeaf(t: DiameterType, v: Value)
    requires !t.Grouped? && Matches(t, v)
  {
    match t
    case TypeNone | OctetString | UTF8String | DiamIdent | DiameterURI | IPFilterRule | Float32 | Float64
        | IPv6Prefix =>
      true
    case Integer32 | Enumerated => -BYTES4 <= 2 * v.i < BYTES4
    case Unsigned32 => 0 <= v.i < BYTES4
    case Integer64 | Unsigned64 => true
    case Address => To4(v.address).Some? ==> |v.address| == 4
    case Time => 0 <= v.seconds < BYTES4
    case IPv4Address => |v.address| == 4
    case IPv6Address => |v.address| == 16
  }

  /** Numbers fit their width, addresses are held in their short or long form, and no group is empty. */
  predicate Canonical(d: Dictionary, a: Avp)
    requires Writable(d, a)
    decreases a
  {
    if TypeOf(d, a).Grouped? then a.value.avps != [] && forall b :: b in a.value.avps ==> Canonical(d, b)
    else CanonicalLeaf(TypeOf(d, a), a.value)
  }

  lemma NormalLeafIsSameIff(t: DiameterType, v: Value)
    requires !t.Grouped? && Matches(t, v) && ProperLeaf(t, v)
    ensures NormalLeaf(t, v) == v <==> CanonicalLeaf(t, v)
  {
    match t
    case TypeNone | OctetString | UTF8String | DiamIdent | DiameterURI | IPFilterRule | Float32 | Float64
        | IPv6Prefix =>
    case Integer32 | Enumerated => SignedRoundTrip(v.i, BYTES4);
    case Unsigned32 =>
    case Integer64 | Unsigned64 => SignedRoundTrip(v.i, BYTES8);
    case Address =>
    case Time =>
    case IPv4Address =>
    case IPv6Address =>
  }

  /** The attribute comes back unchanged exactly when it is canonical. */
  lemma {:induction false} NormalIsSameIff(d: Dictionary, a: Avp)
    requires Writable(d, a) && Proper(d, a)
    ensures Normal(d, a) == a <==> Canonical(d, a)
    decreases a, 0
  {
    if TypeOf(d, a).Grouped? {
      if a.value.avps != [] {
        NormalAllIsSameIff(d, a.value.avps);
        assert Normal(d, a).value == Group(NormalAll(d, a.value.avps));
      }
    } else {
      NormalLeafIsSameIff(TypeOf(d, a), a.value);
    }
  }

  lemma {:induction false} NormalAllIsSameIff(d: Dictionary, avps: seq<Avp>)
    requires forall b :: b in avps ==> Writable(d, b) && Proper(d, b)
    ensures NormalAll(d, avps) == avps <==> forall b :: b in avps ==> Canonical(d, b)
    decreases avps, 1
  {
    if avps != [] {
      NormalIsSameIff(d, avps[0]);
      NormalAllIsSameIff(d, avps[1..]);
      assert forall b :: b in avps <==> b == avps[0] || b in avps[1..];
      assert avps == [avps[0]] + avps[1..];
    }
  }

  /** Whatever its form, an address that comes back is the same address. */
  lemma AddressesStay(t: DiameterType, v: Value)
    requires (t.Address? || t.IPv4Address? || t.IPv6Address?) && Matches(t, v) && ProperLeaf(t, v)
    ensures To16(NormalLeaf(t, v).address) == To16(v.address)
  {
    if |v.address| == 16 {
      assert v.address == v.address[..12] + v.address[12..];
    }
  }

  // ----- Writing what was read

  predicate NoEmptyGroup(d: Dictionary, a: Avp)
    requires Writable(d, a)
    decreases a
  {
    TypeOf(d, a).Grouped? ==> a.value.avps != [] && forall b :: b in a.value.avps ==> NoEmptyGroup(d, b)
  }

  lemma NormalLeafMatches(t: DiameterType, v: Value)
    requires !t.Grouped? && Matches(t, v)
    ensures Matches(t, NormalLeaf(t, v))
  {
    match t
    case TypeNone | OctetString | UTF8String | DiamIdent | DiameterURI | IPFilterRule | Float32 | Float64
        | IPv6Prefix =>
    case Integer32 | Enumerated | Unsigned32 =>
    case Integer64 | Unsigned64 =>
    case Address =>
    case Time =>
    case IPv4Address =>
    case IPv6Address =>
  }

  /**
   An attribute that was read can be written again, or ends the process when it is: that one exactly if it holds an
   empty group.
   */
  lemma {:induction false} WritableAgainIff(d: Dictionary, a: Avp)
    requires Writable(d, a)
    ensures Sized(d, Normal(d, a)) <==> NoEmptyGroup(d, a)
    ensures Writable(d, Normal(d, a)) <==> NoEmptyGroup(d, a)
    decreases a, 0
  {
    var b := Normal(d, a);
    assert TypeOf(d, b) == TypeOf(d, a);
    if TypeOf(d, a).Grouped? {
      if a.value.avps != [] {
        AllWritableAgainIff(d, a.value.avps);
        assert b.value == Group(NormalAll(d, a.value.avps));
      }
    } else {
      NormalLeafMatches(TypeOf(d, a), a.value);
    }
  }

  lemma {:induction false} AllWritableAgainIff(d: Dictionary, avps: seq<Avp>)
    requires forall b :: b in avps ==> Writable(d, b)
    ensures (forall b :: b in NormalAll(d, avps) ==> Sized(d, b)) <==> forall b :: b in avps ==> NoEmptyGroup(d, b)
    ensures (forall b :: b in NormalAll(d, avps) ==> Writable(d, b)) <==> forall b :: b in avps ==> NoEmptyGroup(d, b)
    decreases avps, 1
  {
    if avps != [] {
      WritableAgainIff(d, avps[0]);
      AllWritableAgainIff(d, avps[1..]);
      assert forall b :: b in avps <==> b == avps[0] || b in avps[1..];
      assert forall b :: b in NormalAll(d, avps) <==> b == Normal(d, avps[0]) || b in NormalAll(d, avps[1..]);
    }
  }
}
