/** Hidden RADIUS attributes bit by bit and byte by byte. */
module HidingBytes {
  import opened Bytes
  import opened RadiusHiding

  /** The bits of a byte. */
  function BitOf(x: nat, i: nat): nat {
    if i == 0 then x % 2 else BitOf(x / 2, i - 1)
  }

  lemma {:induction false} XorBitsAt(a: nat, b: nat, n: nat, i: nat)
    requires i < n
    ensures BitOf(XorBits(a, b, n), i) == if BitOf(a, i) == BitOf(b, i) then 0 else 1
  {
    var rest := XorBits(a / 2, b / 2, n - 1);
    LowBit(XorBits(a, b, n), (a + b) % 2, rest);
    if i > 0 {
      XorBitsAt(a / 2, b / 2, n - 1, i - 1);
    }
  }

  /** A bit of the exclusive or is set exactly if it is set in one of the two bytes. */
  lemma XorAt(a: byte, b: byte, i: nat)
    requires i < 8
    ensures BitOf(Xor(a, b), i) == if BitOf(a, i) == BitOf(b, i) then 0 else 1
  {
    XorBitsAt(a, b, 8, i);
  }

  lemma LaterSlice(payload: seq<byte>, i: nat)
    requires 16 <= i < |payload|
    ensures i - 16 < |Later(payload)| && Later(payload)[i - 16..] == payload[i..]
  {
  }

  /** What the digest of a block is taken of besides the secret: the seed, or the sixteen bytes hidden before. */
  function Mask(hidden: seq<byte>, seed: seq<byte>, i: nat): seq<byte>
    requires i <= |hidden|
  {
    if i < 16 then seed else hidden[i - 16..i]
  }

  lemma BehindFirst(c: Digest, rest: seq<byte>, seed: seq<byte>, i: nat)
    requires 16 <= i <= |rest| && (i == 16 || 32 <= i)
    ensures (c + rest)[i..i + 16] == rest[i - 16..i]
    ensures Mask(c + rest, seed, i) == Mask(rest, c, i - 16)
  {
    if i == 16 {
      assert (c + rest)[0..16] == c;
    } else {
      assert (c + rest)[i - 16..i] == rest[i - 32..i - 16];
    }
  }

  /** The sixteen bytes hidden from a multiple of sixteen on. */
  lemma {:induction false} HiddenBlock(md5: Hash, secret: seq<byte>, seed: seq<byte>, payload: seq<byte>, n: nat)
    requires 16 * n < |payload|
    ensures var hidden := Hide(md5, secret, seed, payload);
      && 16 * n + 16 <= |hidden|
      && hidden[16 * n..16 * n + 16] ==
         XorBlock(md5(secret + Mask(hidden, seed, 16 * n)), FirstBlock(payload[16 * n..]))
    decreases n
  {
    var c: Digest := XorBlock(md5(secret + seed), FirstBlock(payload));
    var rest := Hide(md5, secret, c, Later(payload));
    assert Hide(md5, secret, seed, payload) == c + rest;
    if n == 0 {
      assert payload[0..] == payload && (c + rest)[0..16] == c;
    } else {
      LaterSlice(payload, 16 * n);
      HiddenBlock(md5, secret, c, Later(payload), n - 1);
      BehindFirst(c, rest, seed, 16 * n);
    }
  }

  /**
   Each byte hidden is the exclusive or of the byte of the payload, or of zero behind its end, with that of a digest: of
   the secret and the seed for the first sixteen bytes, of the secret and the sixteen bytes hidden before for others.
   */
  lemma HiddenAt(md5: Hash, secret: seq<byte>, seed: seq<byte>, payload: seq<byte>, n: nat, i: nat, j: nat)
    requires i == 16 * n && i < |payload| && j < 16
    ensures var hidden := Hide(md5, secret, seed, payload);
      && i + 16 <= |hidden|
      && hidden[i + j] == Xor(md5(secret + if i < 16 then seed else hidden[i - 16..i])[j],
                              if i + j < |payload| then payload[i + j] else 0)
  {
    var hidden := Hide(md5, secret, seed, payload);
    HiddenBlock(md5, secret, seed, payload, n);
    assert hidden[i + j] == hidden[i..i + 16][j];
    assert FirstBlock(payload[i..])[j] == if i + j < |payload| then payload[i + j] else 0;
  }
}
