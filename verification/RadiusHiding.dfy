/** How RADIUS hides attributes: each block of sixteen bytes is masked with a digest of the one before. */
module RadiusHiding {
  import opened Bytes

  const BLOCK := 16

  const NO_DIGEST: seq<byte> := [0, 0, 0, 0, 0, 0, 0, 0, 0, 0, 0, 0, 0, 0, 0, 0]

  /** Sixteen bytes: a block, a digest or an authenticator. */
  type Digest = s: seq<byte> | |s| == BLOCK witness NO_DIGEST

  /** Any hash function with an output of sixteen bytes. */
  type Hash = seq<byte> -> Digest

  // ----- Exclusive or

  /** Exclusive or of the low n bits. */
  function XorBits(a: nat, b: nat, n: nat): nat {
    if n == 0 then 0 else (a + b) % 2 + 2 * XorBits(a / 2, b / 2, n - 1)
  }

  function Power2(n: nat): nat {
    if n == 0 then 1 else 2 * Power2(n - 1)
  }

  lemma {:induction false} XorBitsInRange(a: nat, b: nat, n: nat)
    ensures XorBits(a, b, n) < Power2(n)
  {
    if n > 0 {
      XorBitsInRange(a / 2, b / 2, n - 1);
    }
  }

  /** The low bit of a number and the rest of it. */
  lemma LowBit(x: nat, bit: nat, rest: nat)
    requires x == bit + 2 * rest && bit < 2
    ensures x % 2 == bit && x / 2 == rest
  {
  }

  lemma BitTwice(a: nat, b: nat, x: nat)
    ensures (a + ((a + b) % 2 + 2 * x)) % 2 == b % 2
  {
    var p, q := a % 2, b % 2;
    assert (a + b) % 2 == (p + q) % 2;
    assert (a + ((a + b) % 2 + 2 * x)) % 2 == (p + (p + q) % 2) % 2;
  }

  lemma {:induction false} XorBitsTwice(a: nat, b: nat, n: nat)
    requires b < Power2(n)
    ensures XorBits(a, XorBits(a, b, n), n) == b
  {
    if n > 0 {
      var x, y := XorBits(a / 2, b / 2, n - 1), XorBits(a, b, n);
      XorBitsTwice(a / 2, b / 2, n - 1);
      LowBit(y, (a + b) % 2, x);
      BitTwice(a, b, x);
    }
  }

  lemma {:induction false} XorBitsZero(a: nat, n: nat)
    requires a < Power2(n)
    ensures XorBits(a, 0, n) == a
  {
    if n > 0 {
      XorBitsZero(a / 2, n - 1);
    }
  }

  function Xor(a: byte, b: byte): byte {
    XorBitsInRange(a, b, 8);
    assert Power2(4) == 16;
    XorBits(a, b, 8)
  }

  lemma XorTwice(a: byte, b: byte)
    ensures Xor(a, Xor(a, b)) == b && Xor(a, 0) == a
  {
    assert Power2(4) == 16;
    XorBitsTwice(a, b, 8);
    XorBitsZero(a, 8);
  }

  // ----- Blocks

  function PadTo16(s: seq<byte>): (r: seq<byte>)
    ensures |r| % BLOCK == 0 && |s| <= |r| < |s| + BLOCK && r[..|s|] == s
  {
    if |s| % BLOCK == 0 then s else s + Zeros(BLOCK - |s| % BLOCK)
  }

  /** The first block of a payload, filled up with zeros. */
  function FirstBlock(payload: seq<byte>): Digest {
    if |payload| >= BLOCK then payload[..BLOCK] else payload + Zeros(BLOCK - |payload|)
  }

  function Later(payload: seq<byte>): seq<byte> {
    if |payload| >= BLOCK then payload[BLOCK..] else []
  }

  function XorBlock(a: Digest, b: Digest): Digest {
    seq(BLOCK, i requires 0 <= i < BLOCK => Xor(a[i], b[i]))
  }

  lemma XorBlockTwice(a: Digest, b: Digest)
    ensures XorBlock(a, XorBlock(a, b)) == b
  {
    forall i | 0 <= i < BLOCK ensures XorBlock(a, XorBlock(a, b))[i] == b[i] {
      XorTwice(a[i], b[i]);
    }
  }

  /** Hides a payload. `seed` is what the first digest takes: authenticator and salt, or the block before. */
  function Hide(md5: Hash, secret: seq<byte>, seed: seq<byte>, payload: seq<byte>): seq<byte>
    decreases |payload|
  {
    if payload == [] then []
    else
      var c := XorBlock(md5(secret + seed), FirstBlock(payload));
      c + Hide(md5, secret, c, Later(payload))
  }

  function Show(md5: Hash, secret: seq<byte>, seed: seq<byte>, hidden: seq<byte>): seq<byte>
    decreases |hidden|
  {
    if hidden == [] then []
    else XorBlock(md5(secret + seed), FirstBlock(hidden)) + Show(md5, secret, FirstBlock(hidden), Later(hidden))
  }

  lemma {:induction false} HideSize(md5: Hash, secret: seq<byte>, seed: seq<byte>, payload: seq<byte>)
    ensures |Hide(md5, secret, seed, payload)| == |PadTo16(payload)|
    decreases |payload|
  {
    if payload != [] {
      var c := XorBlock(md5(secret + seed), FirstBlock(payload));
      HideSize(md5, secret, c, Later(payload));
    }
  }

  lemma PadToBlocks(payload: seq<byte>)
    requires payload != []
    ensures PadTo16(payload) == FirstBlock(payload) + PadTo16(Later(payload))
  {
    if |payload| >= BLOCK {
      assert payload == payload[..BLOCK] + payload[BLOCK..];
      assert |payload| % BLOCK == |payload[BLOCK..]| % BLOCK;
    }
  }

  /**
   Whatever the hash, the secret and the seed, what was hidden is shown again, filled up with zeros to whole blocks.
   */
  lemma {:induction false} ShowUndoesHide(md5: Hash, secret: seq<byte>, seed: seq<byte>, payload: seq<byte>)
    ensures Show(md5, secret, seed, Hide(md5, secret, seed, payload)) == PadTo16(payload)
    decreases |payload|
  {
    if payload != [] {
      var b := md5(secret + seed);
      var c := XorBlock(b, FirstBlock(payload));
      var hidden := Hide(md5, secret, seed, payload);
      assert hidden[..BLOCK] == c && hidden[BLOCK..] == Hide(md5, secret, c, Later(payload));
      ShowUndoesHide(md5, secret, c, Later(payload));
      XorBlockTwice(b, FirstBlock(payload));
      PadToBlocks(payload);
    }
  }

  lemma SameBit(a: nat, b: nat, x: nat)
    ensures (a + x) % 2 == (b + x) % 2 ==> a % 2 == b % 2
  {
  }

  lemma {:induction false} XorBitsCancel(a: nat, b: nat, x: nat, n: nat)
    requires a < Power2(n) && b < Power2(n)
    ensures XorBits(a, x, n) == XorBits(b, x, n) ==> a == b
  {
    if n > 0 {
      var u, v := XorBits(a / 2, x / 2, n - 1), XorBits(b / 2, x / 2, n - 1);
      XorBitsCancel(a / 2, b / 2, x / 2, n - 1);
      LowBit(XorBits(a, x, n), (a + x) % 2, u);
      LowBit(XorBits(b, x, n), (b + x) % 2, v);
      SameBit(a, b, x);
    }
  }

  lemma XorBlockCancels(a: Digest, b: Digest, x: Digest)
    ensures XorBlock(a, XorBlock(b, x)) == x <==> a == b
  {
    XorBlockTwice(a, x);
    if XorBlock(a, XorBlock(b, x)) == x {
      XorBlockTwice(a, XorBlock(b, x));
      assert Power2(4) == 16;
      forall i | 0 <= i < BLOCK ensures a[i] == b[i] {
        assert Xor(a[i], x[i]) == XorBlock(a, x)[i] == XorBlock(b, x)[i] == Xor(b[i], x[i]);
        XorBitsCancel(a[i], b[i], x[i], 8);
      }
    }
  }

  /**
   Shown with another seed a payload comes back exactly when the two first digests are the same, or there is nothing to
   show.
   */
  lemma OtherSeedShowsIff(md5: Hash, secret: seq<byte>, seed: seq<byte>, other: seq<byte>, payload: seq<byte>)
    ensures Show(md5, secret, other, Hide(md5, secret, seed, payload)) == PadTo16(payload) <==>
            payload == [] || md5(secret + other) == md5(secret + seed)
  {
    if payload != [] {
      var first := FirstBlock(payload);
      var c := XorBlock(md5(secret + seed), first);
      var hidden := Hide(md5, secret, seed, payload);
      assert hidden[..BLOCK] == c && hidden[BLOCK..] == Hide(md5, secret, c, Later(payload));
      ShowUndoesHide(md5, secret, c, Later(payload));
      PadToBlocks(payload);
      var shown := Show(md5, secret, other, hidden);
      assert shown[..BLOCK] == XorBlock(md5(secret + other), c) && shown[BLOCK..] == PadTo16(Later(payload));
      assert PadTo16(payload)[..BLOCK] == first;
      XorBlockCancels(md5(secret + other), md5(secret + seed), first);
      if shown[..BLOCK] == first {
        assert shown == shown[..BLOCK] + shown[BLOCK..];
      }
    }
  }

  // ----- The loops

  /** What is left of a payload from a position on. */
  function From(payload: seq<byte>, i: nat): seq<byte> {
    if i <= |payload| then payload[i..] else []
  }

  function PaddedLength(n: nat): nat {
    if n % BLOCK == 0 then n else n + (BLOCK - n % BLOCK)
  }

  /** One block masked with a digest. Past the end of the payload there are zeros. */
  method MaskBlock(b: Digest, payload: seq<byte>, i: nat) returns (c: Digest)
    ensures c == XorBlock(b, FirstBlock(From(payload, i)))
  {
    var block := new byte[BLOCK];
    ghost var first := FirstBlock(From(payload, i));
    for j := 0 to BLOCK
      invariant forall k :: 0 <= k < j ==> block[k] == Xor(b[k], first[k])
    {
      XorTwice(b[j], 0);
      if i + j < |payload| {
        assert first[j] == payload[i + j];
        block[j] := Xor(b[j], payload[i + j]);
      } else {
        assert first[j] == 0;
        block[j] := b[j];
      }
    }
    c := block[..];
  }

  lemma NextBlock(payload: seq<byte>, i: nat)
    ensures Later(From(payload, i)) == From(payload, i + BLOCK)
  {
  }

  /** Goes forward, block by block. */
  method Encrypt1(md5: Hash, payload: seq<byte>, authenticator: Digest, secret: seq<byte>, salt: seq<byte>)
      returns (encrypted: seq<byte>)
    ensures encrypted == Hide(md5, secret, authenticator + salt, payload)
  {
    var pLen := PaddedLength(|payload|);
    var c: seq<byte> := authenticator + salt;
    encrypted := [];
    var i := 0;
    while i < pLen
      invariant i % BLOCK == 0 && i <= pLen
      invariant encrypted + Hide(md5, secret, c, From(payload, i)) == Hide(md5, secret, authenticator + salt, payload)
    {
      NextBlock(payload, i);
      ghost var left := From(payload, i);
      ghost var whole := encrypted + Hide(md5, secret, c, left);
      var b := md5(secret + c);
      c := MaskBlock(b, payload, i);
      assert left != [];
      assert whole == encrypted + (c + Hide(md5, secret, c, Later(left)));
      encrypted := encrypted + c;
      i := i + BLOCK;
    }
  }

  /** What the digest of the block at a position takes. */
  function Seed(hidden: seq<byte>, i: nat, first: seq<byte>): seq<byte>
    requires i <= PaddedLength(|hidden|)
  {
    if i < BLOCK then first
    else if i <= |hidden| then hidden[i - BLOCK..i]
    else []
  }

  lemma SeedIsBlockBefore(hidden: seq<byte>, i: nat, first: seq<byte>)
    requires i + BLOCK <= PaddedLength(|hidden|)
    ensures From(hidden, i + BLOCK) == [] || Seed(hidden, i + BLOCK, first) == FirstBlock(From(hidden, i))
  {
  }

  lemma ShowOneMore(md5: Hash, secret: seq<byte>, hidden: seq<byte>, i: nat, first: seq<byte>, seed: seq<byte>)
    requires i < |hidden| && i + BLOCK <= PaddedLength(|hidden|) && seed == Seed(hidden, i, first)
    ensures Show(md5, secret, seed, From(hidden, i)) ==
            XorBlock(md5(secret + seed), FirstBlock(From(hidden, i))) +
            Show(md5, secret, Seed(hidden, i + BLOCK, first), From(hidden, i + BLOCK))
  {
    assert From(hidden, i) != [];
    NextBlock(hidden, i);
    SeedIsBlockBefore(hidden, i, first);
  }

  lemma BlockIsInside(n: nat, i: nat)
    requires i % BLOCK == 0 && i + BLOCK <= PaddedLength(n)
    ensures i < n
  {
  }

  /** Goes backward, from the last block to the first. */
  method Decrypt1(md5: Hash, payload: seq<byte>, authenticator: Digest, secret: seq<byte>, salt: seq<byte>)
      returns (decrypted: seq<byte>)
    ensures decrypted == Show(md5, secret, authenticator + salt, payload)
  {
    var pLen := PaddedLength(|payload|);
    ghost var first := authenticator + salt;
    decrypted := [];
    var i := pLen - BLOCK;
    while i >= 0
      invariant i % BLOCK == 0 && -BLOCK <= i <= pLen - BLOCK
      invariant decrypted == Show(md5, secret, Seed(payload, i + BLOCK, first), From(payload, i + BLOCK))
    {
      var seed: seq<byte> := if i == 0 then authenticator + salt else payload[i - BLOCK..i];
      BlockIsInside(|payload|, i);
      ShowOneMore(md5, secret, payload, i, first, seed);
      var b := md5(secret + seed);
      var c := MaskBlock(b, payload, i);
      decrypted := c + decrypted;
      i := i - BLOCK;
    }
    assert From(payload, 0) == payload && Seed(payload, 0, first) == first;
  }
}
