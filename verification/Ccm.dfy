module Ccm {
  // Counter with CBC-MAC over an arbitrary block function (NIST SP 800-38C, RFC 3610): the functions
  // that define it, the methods that compute it, and what makes it sound.

  import opened Bytes

  type Block = s: seq<byte> | |s| == 16 witness Repeat(0, 16)

  function Repeat(b: byte, n: nat): (s: seq<byte>)
    ensures |s| == n && forall i :: 0 <= i < n ==> s[i] == b
  {
    if n == 0 then [] else [b] + Repeat(b, n - 1)
  }

  // ---------------------------------------------------------------------- exclusive or

  /** Exclusive or of the low n bits. */
  function XorBits(a: nat, b: nat, n: nat): (r: nat)
    requires a < Power2(n) && b < Power2(n)
    ensures r < Power2(n)
  {
    if n == 0 then 0 else (a + b) % 2 + 2 * XorBits(a / 2, b / 2, n - 1)
  }

  function Power2(n: nat): nat {
    if n == 0 then 1 else 2 * Power2(n - 1)
  }

  lemma {:induction false} XorBitsTwice(a: nat, b: nat, n: nat)
    requires a < Power2(n) && b < Power2(n)
    ensures XorBits(XorBits(a, b, n), b, n) == a
  {
    hide XorBits, Power2;
    if n > 0 {
      var r := XorBits(a, b, n);
      Half(a, n);
      Half(b, n);
      XorStep(a, b, n);
      XorStep(r, b, n);
      XorBitsTwice(a / 2, b / 2, n - 1);
      BitTwice(a, b, r);
      SameHalves(XorBits(r, b, n), a);
    } else {
      NoBits(a, b);
    }
  }

  lemma NoBits(a: nat, b: nat)
    requires a < Power2(0) && b < Power2(0)
    ensures a == 0 && b == 0 && XorBits(a, b, 0) == 0
  {
  }

  lemma SameHalves(x: nat, y: nat)
    requires x % 2 == y % 2 && x / 2 == y / 2
    ensures x == y
  {
  }

  lemma Half(a: nat, n: nat)
    requires n > 0 && a < Power2(n)
    ensures a / 2 < Power2(n - 1)
  {
  }

  /** The lowest bit and the others. */
  lemma XorStep(a: nat, b: nat, n: nat)
    requires n > 0 && a < Power2(n) && b < Power2(n)
    ensures a / 2 < Power2(n - 1) && b / 2 < Power2(n - 1)
    ensures XorBits(a, b, n) % 2 == (a + b) % 2 && XorBits(a, b, n) / 2 == XorBits(a / 2, b / 2, n - 1)
  {
    Half(a, n);
    Half(b, n);
    LowBit((a + b) % 2, XorBits(a / 2, b / 2, n - 1));
  }

  lemma LowBit(bit: nat, rest: nat)
    requires bit < 2
    ensures (bit + 2 * rest) % 2 == bit && (bit + 2 * rest) / 2 == rest
  {
  }

  lemma BitTwice(a: nat, b: nat, r: nat)
    requires r % 2 == (a + b) % 2
    ensures (r + b) % 2 == a % 2
  {
  }

  function Xor(a: byte, b: byte): byte {
    assert Power2(8) == 0x100;
    XorBits(a, b, 8)
  }

  lemma XorTwice(a: byte, b: byte)
    ensures Xor(Xor(a, b), b) == a
  {
    assert Power2(8) == 0x100;
    XorBitsTwice(a, b, 8);
  }

  /** The bit of weight 2^k. */
  function Bit(v: nat, k: nat): nat { if k == 0 then v % 2 else Bit(v / 2, k - 1) }

  lemma BitStep(v: nat, k: nat)
    ensures Bit(v, k) == if k == 0 then v % 2 else Bit(v / 2, k - 1)
  {
  }

  lemma Parity(a: nat, b: nat)
    ensures (a + b) % 2 == (a % 2 + b % 2) % 2
  {
  }

  lemma {:induction false} XorBitsAt(a: nat, b: nat, n: nat, k: nat)
    requires a < Power2(n) && b < Power2(n) && k < n
    ensures Bit(XorBits(a, b, n), k) == (Bit(a, k) + Bit(b, k)) % 2
  {
    hide XorBits, Power2, Bit;
    XorStep(a, b, n);
    BitStep(a, k);
    BitStep(b, k);
    BitStep(XorBits(a, b, n), k);
    if k > 0 { XorBitsAt(a / 2, b / 2, n - 1, k - 1); } else { Parity(a, b); }
  }

  /** Bit by bit, a byte of the result is one where exactly one of the two is. */
  lemma XorIsBitwise(a: byte, b: byte, k: nat)
    requires k < 8
    ensures Bit(Xor(a, b), k) == if Bit(a, k) == Bit(b, k) then 0 else 1
  {
    assert Power2(8) == 0x100;
    XorBitsAt(a, b, 8, k);
    BitIsBit(a, k);
    BitIsBit(b, k);
  }

  lemma {:induction false} BitIsBit(v: nat, k: nat)
    ensures Bit(v, k) < 2
  {
    if k > 0 { BitIsBit(v / 2, k - 1); }
  }

  lemma {:induction false} XorBitsCommutes(a: nat, b: nat, n: nat)
    requires a < Power2(n) && b < Power2(n)
    ensures XorBits(a, b, n) == XorBits(b, a, n)
  {
    hide Power2;
    if n > 0 {
      Half(a, n);
      Half(b, n);
      XorBitsCommutes(a / 2, b / 2, n - 1);
    }
  }

  /** Either side can be cancelled. */
  lemma XorCancels(a: byte, b: byte, c: byte)
    requires Xor(a, b) == Xor(a, c) || Xor(b, a) == Xor(c, a)
    ensures b == c
  {
    assert Power2(8) == 0x100;
    XorBitsCommutes(a, b, 8);
    XorBitsCommutes(a, c, 8);
    XorTwice(b, a);
    XorTwice(c, a);
  }

  function XorSeq(a: seq<byte>, b: seq<byte>): (r: seq<byte>)
    requires |a| <= |b|
    ensures |r| == |a| && forall i :: 0 <= i < |r| ==> r[i] == Xor(a[i], b[i])
  {
    if a == [] then [] else [Xor(a[0], b[0])] + XorSeq(a[1..], b[1..])
  }

  lemma {:induction false} XorSeqTwice(a: seq<byte>, b: seq<byte>)
    requires |a| <= |b|
    ensures XorSeq(XorSeq(a, b), b) == a
  {
    forall i | 0 <= i < |a| ensures XorSeq(XorSeq(a, b), b)[i] == a[i] {
      XorTwice(a[i], b[i]);
    }
  }

  // ---------------------------------------------------------------------- big-endian numbers

  /** The low n bytes of v, most significant first. */
  function Be(v: nat, n: nat): (s: seq<byte>)
    ensures |s| == n
  {
    if n == 0 then [] else Be(v / 0x100, n - 1) + [v % 0x100]
  }

  lemma {:induction false} BeInjective(v: nat, w: nat, n: nat)
    requires v < Range(n) && w < Range(n) && Be(v, n) == Be(w, n)
    ensures v == w
  {
    if n > 0 {
      var a, b := Be(v / 0x100, n - 1), Be(w / 0x100, n - 1);
      assert a == Be(v, n)[..n - 1] && b == Be(w, n)[..n - 1];
      assert v % 0x100 == Be(v, n)[n - 1] == Be(w, n)[n - 1] == w % 0x100;
      BeInjective(v / 0x100, w / 0x100, n - 1);
    }
  }

  // ---------------------------------------------------------------------- the mode

  /** Nonce and tag lengths and the keyed block function. */
  datatype Mode = Mode(nonceLen: nat, tagLen: nat, encrypt: Block -> Block) {
    predicate Valid() {
      7 <= nonceLen <= 13 && 4 <= tagLen <= 16 && tagLen % 2 == 0
    }

    /** Bytes of the length field. */
    function L(): (l: nat)
      requires Valid()
      ensures 2 <= l <= 8
    {
      15 - nonceLen
    }

    function MaxPayload(): nat
      requires Valid()
    {
      Range(L()) - 1
    }

    predicate NonceFits(nonce: seq<byte>) { |nonce| == nonceLen }

    /** What the length fields can express. */
    predicate Fits(nonce: seq<byte>, aad: seq<byte>, plaintext: seq<byte>)
      requires Valid()
    {
      |nonce| == nonceLen && |aad| < 0xFF00 && |plaintext| <= MaxPayload()
    }
  }

  /** The first block of the MAC: flags, nonce, plaintext length. */
  function B0(m: Mode, nonce: seq<byte>, aadPresent: bool, length: nat): (b: Block)
    requires m.Valid() && m.NonceFits(nonce)
  {
    var flags := (m.L() - 1) + 8 * ((m.tagLen - 2) / 2) + (if aadPresent then 0x40 else 0);
    [flags] + nonce + Be(length, m.L())
  }

  /** Counter block i. */
  function A(m: Mode, nonce: seq<byte>, i: nat): (b: Block)
    requires m.Valid() && m.NonceFits(nonce)
  {
    [m.L() - 1] + nonce + Be(i, m.L())
  }

  /** A region cut into blocks, the last one padded with zeros. */
  function Blocks(s: seq<byte>): (b: seq<Block>)
    ensures |b| == (|s| + 15) / 16
  {
    if s == [] then []
    else if |s| <= 16 then [s + Repeat(0, 16 - |s|)]
    else [s[..16]] + Blocks(s[16..])
  }

  function AadRegion(aad: seq<byte>): seq<byte>
    requires |aad| < 0x1_0000
  {
    if aad == [] then [] else Be(|aad|, 2) + aad
  }

  /** All blocks that go into the MAC. */
  function MacBlocks(m: Mode, nonce: seq<byte>, aad: seq<byte>, plaintext: seq<byte>): seq<Block>
    requires m.Valid() && m.NonceFits(nonce) && |aad| < 0x1_0000
  {
    [B0(m, nonce, aad != [], |plaintext|)] + Blocks(AadRegion(aad)) + Blocks(plaintext)
  }

  /** Cipher block chaining from the chaining value x. */
  function Chain(m: Mode, x: Block, blocks: seq<Block>): Block
    decreases |blocks|
  {
    if blocks == [] then x
    else Chain(m, m.encrypt(XorSeq(x, blocks[0])), blocks[1..])
  }

  const ZERO_BLOCK: Block := Repeat(0, 16)

  function Mac(m: Mode, nonce: seq<byte>, aad: seq<byte>, plaintext: seq<byte>): (t: seq<byte>)
    requires m.Valid() && m.NonceFits(nonce) && |aad| < 0x1_0000
    ensures |t| == m.tagLen
  {
    Chain(m, ZERO_BLOCK, MacBlocks(m, nonce, aad, plaintext))[..m.tagLen]
  }

  function MaskedTag(m: Mode, nonce: seq<byte>, aad: seq<byte>, plaintext: seq<byte>): (t: seq<byte>)
    requires m.Valid() && m.NonceFits(nonce) && |aad| < 0x1_0000
    ensures |t| == m.tagLen
  {
    XorSeq(Mac(m, nonce, aad, plaintext), m.encrypt(A(m, nonce, 0)))
  }

  /** Counter mode from counter block i on. */
  function Ctr(m: Mode, nonce: seq<byte>, i: nat, src: seq<byte>): (r: seq<byte>)
    requires m.Valid() && m.NonceFits(nonce)
    ensures |r| == |src|
    decreases |src|
  {
    var s := m.encrypt(A(m, nonce, i));
    if |src| <= 16 then XorSeq(src, s)
    else XorSeq(src[..16], s) + Ctr(m, nonce, i + 1, src[16..])
  }

  function Seal(m: Mode, nonce: seq<byte>, plaintext: seq<byte>, aad: seq<byte>): (c: seq<byte>)
    requires m.Valid() && m.Fits(nonce, aad, plaintext)
    ensures |c| == |plaintext| + m.tagLen
  {
    Ctr(m, nonce, 1, plaintext) + MaskedTag(m, nonce, aad, plaintext)
  }

  datatype OpenError = NonceLength | TooShort | AadTooLarge | AuthenticationFailed

  function Open(m: Mode, nonce: seq<byte>, ciphertext: seq<byte>, aad: seq<byte>): Result<seq<byte>, OpenError>
    requires m.Valid()
  {
    if !m.NonceFits(nonce) then Err(NonceLength)
    else if |ciphertext| < m.tagLen then Err(TooShort)
    else if |aad| >= 0xFF00 then Err(AadTooLarge)
    else
      var n := |ciphertext| - m.tagLen;
      var plaintext := Ctr(m, nonce, 1, ciphertext[..n]);
      if MaskedTag(m, nonce, aad, plaintext) == ciphertext[n..] then Ok(plaintext) else Err(AuthenticationFailed)
  }

  // ---------------------------------------------------------------------- opening inverts sealing

  lemma {:induction false} CtrTwice(m: Mode, nonce: seq<byte>, i: nat, src: seq<byte>)
    requires m.Valid() && m.NonceFits(nonce)
    ensures Ctr(m, nonce, i, Ctr(m, nonce, i, src)) == src
    decreases |src|
  {
    var s := m.encrypt(A(m, nonce, i));
    if |src| <= 16 {
      XorSeqTwice(src, s);
    } else {
      var head, tail := XorSeq(src[..16], s), Ctr(m, nonce, i + 1, src[16..]);
      assert (head + tail)[..16] == head && (head + tail)[16..] == tail;
      XorSeqTwice(src[..16], s);
      CtrTwice(m, nonce, i + 1, src[16..]);
      assert src[..16] + src[16..] == src;
    }
  }

  /** What was sealed is opened to the same plaintext, whatever the block function. */
  lemma OpenSeal(m: Mode, nonce: seq<byte>, plaintext: seq<byte>, aad: seq<byte>)
    requires m.Valid() && m.Fits(nonce, aad, plaintext)
    ensures Open(m, nonce, Seal(m, nonce, plaintext, aad), aad) == Ok(plaintext)
  {
    var c := Seal(m, nonce, plaintext, aad);
    CtrTwice(m, nonce, 1, plaintext);
    assert c[..|plaintext|] == Ctr(m, nonce, 1, plaintext);
    assert c[|plaintext|..] == MaskedTag(m, nonce, aad, plaintext);
  }

  /** Nothing else is accepted: a ciphertext that opens is the sealing of the plaintext it opens to. */
  lemma OpenedWasSealed(m: Mode, nonce: seq<byte>, ciphertext: seq<byte>, aad: seq<byte>)
    requires m.Valid() && |ciphertext| <= m.MaxPayload() + m.tagLen
    requires Open(m, nonce, ciphertext, aad).Ok?
    ensures var plaintext := Open(m, nonce, ciphertext, aad).value;
            m.Fits(nonce, aad, plaintext) && ciphertext == Seal(m, nonce, plaintext, aad)
  {
    hide Ctr, MaskedTag;
    var n := |ciphertext| - m.tagLen;
    CtrTwice(m, nonce, 1, ciphertext[..n]);
    assert ciphertext == ciphertext[..n] + ciphertext[n..];
  }

  // ---------------------------------------------------------------------- what sealing writes

  /** Every byte of the plaintext is combined with its own byte of the key stream, from the counter 1 on. */
  lemma {:induction false} CtrAt(m: Mode, nonce: seq<byte>, i: nat, src: seq<byte>, k: nat)
    requires m.Valid() && m.NonceFits(nonce) && k < |src|
    ensures Ctr(m, nonce, i, src)[k] == Xor(src[k], m.encrypt(A(m, nonce, i + k / 16))[k % 16])
    decreases |src|
  {
    hide Xor, A;
    if k >= 16 {
      CtrAt(m, nonce, i + 1, src[16..], k - 16);
      assert (k - 16) / 16 + 1 == k / 16 && (k - 16) % 16 == k % 16;
    } else {
      assert k / 16 == 0 && k % 16 == k;
    }
  }

  lemma SealedByte(m: Mode, nonce: seq<byte>, plaintext: seq<byte>, aad: seq<byte>, k: nat)
    requires m.Valid() && m.Fits(nonce, aad, plaintext) && k < |plaintext|
    ensures var counter: Block := [14 - m.nonceLen] + nonce + Be(1 + k / 16, 15 - m.nonceLen);
            Seal(m, nonce, plaintext, aad)[k] == Xor(plaintext[k], m.encrypt(counter)[k % 16])
  {
    hide Ctr, Xor, MaskedTag;
    CtrAt(m, nonce, 1, plaintext, k);
  }

  /** The input of the MAC: flags, nonce and length, then the data with their length and the plaintext, each padded. */
  lemma TagIsChain(m: Mode, nonce: seq<byte>, plaintext: seq<byte>, aad: seq<byte>)
    requires m.Valid() && m.Fits(nonce, aad, plaintext)
    ensures var flags := (14 - m.nonceLen) + 4 * (m.tagLen - 2) + (if aad == [] then 0 else 0x40);
            var first: Block := [flags] + nonce + Be(|plaintext|, 15 - m.nonceLen);
            var data := if aad == [] then [] else Blocks(Be(|aad|, 2) + aad);
            var mask: Block := [14 - m.nonceLen] + nonce + Be(0, 15 - m.nonceLen);
            XorSeq(Seal(m, nonce, plaintext, aad)[|plaintext|..], m.encrypt(mask)) ==
            Chain(m, ZERO_BLOCK, [first] + data + Blocks(plaintext))[..m.tagLen]
  {
    hide Chain, Ctr, XorSeq, Be, Blocks, A, B0;
    FormatIs(m, nonce, aad, |plaintext|);
    var mac, mask := Mac(m, nonce, aad, plaintext), m.encrypt(A(m, nonce, 0));
    XorSeqTwice(mac, mask);
    Behind(Ctr(m, nonce, 1, plaintext), MaskedTag(m, nonce, aad, plaintext));
  }

  lemma Behind(a: seq<byte>, b: seq<byte>)
    ensures (a + b)[..|a|] == a && (a + b)[|a|..] == b
  {
  }

  lemma FormatIs(m: Mode, nonce: seq<byte>, aad: seq<byte>, length: nat)
    requires m.Valid() && m.NonceFits(nonce) && |aad| < 0xFF00
    ensures B0(m, nonce, aad != [], length) ==
            [(14 - m.nonceLen) + 4 * (m.tagLen - 2) + (if aad == [] then 0 else 0x40)] + nonce + Be(length, 15 - m.nonceLen)
    ensures A(m, nonce, 0) == [14 - m.nonceLen] + nonce + Be(0, 15 - m.nonceLen)
    ensures Blocks(AadRegion(aad)) == if aad == [] then [] else Blocks(Be(|aad|, 2) + aad)
  {
    hide Be;
  }

  /** A padded region holds the bytes of the region and zeros. */
  lemma {:induction false} BlocksAt(s: seq<byte>, k: nat)
    requires k < 16 * |Blocks(s)|
    ensures Blocks(s)[k / 16][k % 16] == if k < |s| then s[k] else 0
    decreases |s|
  {
    if |s| > 16 && k >= 16 {
      BlocksAt(s[16..], k - 16);
      assert (k - 16) / 16 + 1 == k / 16 && (k - 16) % 16 == k % 16;
    } else {
      assert k / 16 == 0 && k % 16 == k;
    }
  }

  /** Chaining starts from the value given and enciphers it with each block in turn. */
  lemma ChainIsCbc(m: Mode, x: Block, blocks: seq<Block>, b: Block)
    ensures Chain(m, x, []) == x
    ensures Chain(m, x, blocks + [b]) == m.encrypt(XorSeq(Chain(m, x, blocks), b))
  {
    hide XorSeq;
    var c := Chain(m, x, blocks);
    ChainAppend(m, x, blocks, [b]);
    assert [b][1..] == [];
    assert Chain(m, c, [b]) == Chain(m, m.encrypt(XorSeq(c, b)), []);
  }

  // ---------------------------------------------------------------------- changes that are noticed

  /**
   * What opens under other additional data than it was sealed with has a chain that collides in the bytes of the
   * tag, although neither of the two inputs of the MAC is the beginning of the other.
   */
  lemma OtherDataMeansCollision(m: Mode, nonce: seq<byte>, plaintext: seq<byte>, aad: seq<byte>, other: seq<byte>)
    requires m.Valid() && m.Fits(nonce, aad, plaintext) && |other| < 0xFF00 && aad != other
    requires Open(m, nonce, Seal(m, nonce, plaintext, aad), other).Ok?
    ensures Open(m, nonce, Seal(m, nonce, plaintext, aad), other) == Ok(plaintext)
    ensures var x, y := MacBlocks(m, nonce, aad, plaintext), MacBlocks(m, nonce, other, plaintext);
            && Chain(m, ZERO_BLOCK, x)[..m.tagLen] == Chain(m, ZERO_BLOCK, y)[..m.tagLen]
            && !(x <= y) && !(y <= x)
  {
    hide Chain, Ctr, XorSeq, MacBlocks;
    var c, mask := Seal(m, nonce, plaintext, aad), m.encrypt(A(m, nonce, 0));
    CtrTwice(m, nonce, 1, plaintext);
    assert c[..|plaintext|] == Ctr(m, nonce, 1, plaintext) && c[|plaintext|..] == MaskedTag(m, nonce, aad, plaintext);
    XorSeqTwice(Mac(m, nonce, aad, plaintext), mask);
    XorSeqTwice(Mac(m, nonce, other, plaintext), mask);
    if MacBlocks(m, nonce, aad, plaintext) <= MacBlocks(m, nonce, other, plaintext) {
      MacBlocksPrefixFree(m, nonce, aad, plaintext, nonce, other, plaintext);
    }
    if MacBlocks(m, nonce, other, plaintext) <= MacBlocks(m, nonce, aad, plaintext) {
      MacBlocksPrefixFree(m, nonce, other, plaintext, nonce, aad, plaintext);
    }
  }

  ghost predicate Permutes(m: Mode) { forall x, y :: m.encrypt(x) == m.encrypt(y) ==> x == y }

  /** The two sequences differ in one block. */
  predicate OneApart<T(==)>(x: seq<T>, y: seq<T>, k: nat) {
    |x| == |y| && k < |x| && x[k] != y[k] && x[..k] == y[..k] && x[k + 1..] == y[k + 1..]
  }

  lemma XorSeqCancels(x: Block, y: Block, b: Block)
    requires XorSeq(x, b) == XorSeq(y, b) || XorSeq(b, x) == XorSeq(b, y)
    ensures x == y
  {
    hide Xor;
    forall i | 0 <= i < 16 ensures x[i] == y[i] {
      if XorSeq(x, b) == XorSeq(y, b) {
        assert Xor(x[i], b[i]) == XorSeq(x, b)[i] == XorSeq(y, b)[i] == Xor(y[i], b[i]);
      } else {
        assert Xor(b[i], x[i]) == XorSeq(b, x)[i] == XorSeq(b, y)[i] == Xor(b[i], y[i]);
      }
      XorCancels(b[i], x[i], y[i]);
    }
  }

  lemma {:induction false} ApartStaysApart(m: Mode, x: Block, y: Block, blocks: seq<Block>)
    requires Permutes(m) && x != y
    ensures Chain(m, x, blocks) != Chain(m, y, blocks)
    decreases |blocks|
  {
    hide XorSeq;
    if blocks != [] {
      if XorSeq(x, blocks[0]) == XorSeq(y, blocks[0]) { XorSeqCancels(x, y, blocks[0]); }
      ApartStaysApart(m, m.encrypt(XorSeq(x, blocks[0])), m.encrypt(XorSeq(y, blocks[0])), blocks[1..]);
    }
  }

  /** Under a permutation a change in one block always changes the chain. */
  lemma {:induction false} OneBlockTells(m: Mode, x: Block, a: seq<Block>, b: seq<Block>, k: nat)
    requires Permutes(m) && OneApart(a, b, k)
    ensures Chain(m, x, a) != Chain(m, x, b)
    decreases k
  {
    hide XorSeq;
    if k == 0 {
      if XorSeq(x, a[0]) == XorSeq(x, b[0]) { XorSeqCancels(a[0], b[0], x); }
      ApartStaysApart(m, m.encrypt(XorSeq(x, a[0])), m.encrypt(XorSeq(x, b[0])), a[1..]);
    } else {
      assert a[0] == a[..k][0] == b[..k][0] == b[0];
      assert a[1..][..k - 1] == a[..k][1..] && b[1..][..k - 1] == b[..k][1..];
      assert a[1..][k..] == a[k + 1..] && b[1..][k..] == b[k + 1..];
      OneBlockTells(m, m.encrypt(XorSeq(x, a[0])), a[1..], b[1..], k - 1);
    }
  }

  /** Where whole blocks are the tag, inputs of the MAC that differ in one block are told apart. */
  lemma TagTells(m: Mode, nonce: seq<byte>, aad: seq<byte>, p: seq<byte>, other: seq<byte>, q: seq<byte>, k: nat)
    requires m.Valid() && m.tagLen == 16 && Permutes(m) && m.Fits(nonce, aad, p) && m.Fits(nonce, other, q)
    requires OneApart(MacBlocks(m, nonce, aad, p), MacBlocks(m, nonce, other, q), k)
    ensures MaskedTag(m, nonce, aad, p) != MaskedTag(m, nonce, other, q)
  {
    hide Chain, XorSeq, MacBlocks, OneApart, A, Permutes;
    var x, y := MacBlocks(m, nonce, aad, p), MacBlocks(m, nonce, other, q);
    OneBlockTells(m, ZERO_BLOCK, x, y, k);
    assert Mac(m, nonce, aad, p) == Chain(m, ZERO_BLOCK, x) && Mac(m, nonce, other, q) == Chain(m, ZERO_BLOCK, y);
    if MaskedTag(m, nonce, aad, p) == MaskedTag(m, nonce, other, q) {
      XorSeqCancels(Mac(m, nonce, aad, p), Mac(m, nonce, other, q), m.encrypt(A(m, nonce, 0)));
    }
  }

  /** A region with one byte changed differs in the block of that byte. */
  lemma {:induction false} OneByteOneBlock(s: seq<byte>, i: nat, x: byte)
    requires i < |s| && s[i] != x
    ensures OneApart(Blocks(s), Blocks(s[i := x]), i / 16)
    decreases |s|
  {
    var t := s[i := x];
    if |s| <= 16 {
      assert Blocks(s)[0][i] == s[i] && Blocks(t)[0][i] == x;
      assert i / 16 == 0;
    } else if i < 16 {
      assert t[16..] == s[16..] && t[..16][i] == x && s[..16][i] == s[i];
      assert i / 16 == 0;
    } else {
      assert t[16..] == s[16..][i - 16 := x] && t[..16] == s[..16];
      OneByteOneBlock(s[16..], i - 16, x);
      assert i / 16 == 1 + (i - 16) / 16;
      Prepended(s[..16], Blocks(s[16..]), Blocks(t[16..]), (i - 16) / 16);
    }
  }

  lemma Prepended(b: Block, x: seq<Block>, y: seq<Block>, k: nat)
    requires OneApart(x, y, k)
    ensures OneApart([b] + x, [b] + y, k + 1)
  {
    assert ([b] + x)[..k + 1] == [b] + x[..k] && ([b] + y)[..k + 1] == [b] + y[..k];
    assert ([b] + x)[k + 2..] == x[k + 1..] && ([b] + y)[k + 2..] == y[k + 1..];
  }

  lemma Between(a: seq<Block>, x: seq<Block>, y: seq<Block>, c: seq<Block>, k: nat)
    requires OneApart(x, y, k)
    ensures OneApart(a + x + c, a + y + c, |a| + k)
  {
    var s, t, n := a + x + c, a + y + c, |a| + k;
    assert s[..n] == a + x[..k] && t[..n] == a + y[..k];
    assert s[n + 1..] == x[k + 1..] + c && t[n + 1..] == y[k + 1..] + c;
  }

  /** A message whose additional data were changed in one byte is never accepted. */
  lemma ChangedDataIsNoticed(m: Mode, nonce: seq<byte>, plaintext: seq<byte>, aad: seq<byte>, i: nat, x: byte)
    requires m.Valid() && m.tagLen == 16 && Permutes(m) && m.Fits(nonce, aad, plaintext) && i < |aad| && aad[i] != x
    ensures Open(m, nonce, Seal(m, nonce, plaintext, aad), aad[i := x]) == Err(AuthenticationFailed)
  {
    hide Ctr, XorSeq, Chain, Blocks, MaskedTag, B0, Permutes, OneApart;
    var other, region := aad[i := x], AadRegion(aad);
    assert AadRegion(other) == region[i + 2 := x];
    OneByteOneBlock(region, i + 2, x);
    var first := [B0(m, nonce, true, |plaintext|)];
    Between(first, Blocks(region), Blocks(AadRegion(other)), Blocks(plaintext), (i + 2) / 16);
    TagTells(m, nonce, aad, plaintext, other, plaintext, 1 + (i + 2) / 16);
    var c := Seal(m, nonce, plaintext, aad);
    CtrTwice(m, nonce, 1, plaintext);
    assert c[..|plaintext|] == Ctr(m, nonce, 1, plaintext) && c[|plaintext|..] == MaskedTag(m, nonce, aad, plaintext);
  }

  lemma CtrOfChanged(m: Mode, nonce: seq<byte>, src: seq<byte>, i: nat, x: byte)
    requires m.Valid() && m.NonceFits(nonce) && i < |src| && src[i] != x
    ensures var p, q := Ctr(m, nonce, 1, src), Ctr(m, nonce, 1, src[i := x]); p[i] != q[i] && q == p[i := q[i]]
  {
    hide Ctr, Xor, A;
    var t := src[i := x];
    var p, q := Ctr(m, nonce, 1, src), Ctr(m, nonce, 1, t);
    forall k | 0 <= k < |src| ensures k == i <==> p[k] != q[k] {
      CtrAt(m, nonce, 1, src, k);
      CtrAt(m, nonce, 1, t, k);
      if p[k] == q[k] { XorCancels(m.encrypt(A(m, nonce, 1 + k / 16))[k % 16], src[k], t[k]); }
    }
  }

  /** Neither is one with a changed byte of the ciphertext, be it in the message or in the tag. */
  lemma ChangedByteIsNoticed(m: Mode, nonce: seq<byte>, plaintext: seq<byte>, aad: seq<byte>, i: nat, x: byte)
    requires m.Valid() && m.tagLen == 16 && Permutes(m) && m.Fits(nonce, aad, plaintext)
    requires var c := Seal(m, nonce, plaintext, aad); i < |c| && c[i] != x
    ensures Open(m, nonce, Seal(m, nonce, plaintext, aad)[i := x], aad) == Err(AuthenticationFailed)
  {
    hide Ctr, XorSeq, Chain, Blocks, MaskedTag, B0, Permutes, OneApart;
    var c, n := Seal(m, nonce, plaintext, aad), |plaintext|;
    var head, tag := Ctr(m, nonce, 1, plaintext), MaskedTag(m, nonce, aad, plaintext);
    assert c[..n] == head && c[n..] == tag;
    var d := c[i := x];
    CtrTwice(m, nonce, 1, plaintext);
    if i < n {
      assert d[..n] == head[i := x] && d[n..] == tag;
      CtrOfChanged(m, nonce, head, i, x);
      var q := Ctr(m, nonce, 1, d[..n]);
      OneByteOneBlock(plaintext, i, q[i]);
      var front := [B0(m, nonce, aad != [], n)] + Blocks(AadRegion(aad));
      Between(front, Blocks(plaintext), Blocks(q), [], i / 16);
      assert front + Blocks(plaintext) + [] == MacBlocks(m, nonce, aad, plaintext);
      assert front + Blocks(q) + [] == MacBlocks(m, nonce, aad, q);
      TagTells(m, nonce, aad, plaintext, aad, q, |front| + i / 16);
    } else {
      assert d[..n] == head && d[n..][i - n] == x;
    }
  }

  // ---------------------------------------------------------------------- formatting

  /** Equal padded blocks of equally long regions come from equal regions. */
  lemma {:induction false} BlocksInjective(s: seq<byte>, t: seq<byte>)
    requires |s| == |t| && Blocks(s) == Blocks(t)
    ensures s == t
    decreases |s|
  {
    if s == [] {
    } else if |s| <= 16 {
      assert Blocks(s)[0][..|s|] == s && Blocks(t)[0][..|t|] == t;
    } else {
      assert Blocks(s)[0] == s[..16] && Blocks(t)[0] == t[..16];
      assert Blocks(s)[1..] == Blocks(s[16..]) && Blocks(t)[1..] == Blocks(t[16..]);
      BlocksInjective(s[16..], t[16..]);
      assert s == s[..16] + s[16..] && t == t[..16] + t[16..];
    }
  }

  lemma FirstBytes(s: seq<byte>, i: nat)
    requires i < |s| && i < 16
    ensures Blocks(s)[0][i] == s[i]
  {
  }

  lemma B0Injective(m: Mode, n: seq<byte>, p: bool, l: nat, n': seq<byte>, p': bool, l': nat)
    requires m.Valid() && m.NonceFits(n) && m.NonceFits(n')
    requires l <= m.MaxPayload() && l' <= m.MaxPayload()
    requires B0(m, n, p, l) == B0(m, n', p', l')
    ensures n == n' && p == p' && l == l'
  {
    var b, b' := B0(m, n, p, l), B0(m, n', p', l');
    assert b[0] == b'[0];
    assert n == b[1..1 + m.nonceLen] == b'[1..1 + m.nonceLen] == n';
    assert Be(l, m.L()) == b[1 + m.nonceLen..] == b'[1 + m.nonceLen..] == Be(l', m.L());
    BeInjective(l, l', m.L());
  }

  /**
   * The formatting is prefix-free and injective, as CBC-MAC needs: if the blocks of one input are
   * a prefix of the blocks of another, the inputs are the same.
   */
  lemma MacBlocksPrefixFree(m: Mode, n: seq<byte>, a: seq<byte>, p: seq<byte>, n': seq<byte>, a': seq<byte>, p': seq<byte>)
    requires m.Valid() && m.Fits(n, a, p) && m.Fits(n', a', p')
    requires MacBlocks(m, n, a, p) <= MacBlocks(m, n', a', p')
    ensures n == n' && a == a' && p == p'
  {
    var x, y := MacBlocks(m, n, a, p), MacBlocks(m, n', a', p');
    assert x[0] == y[0];
    B0Injective(m, n, a != [], |p|, n', a' != [], |p'|);
    if a != [] {
      SameAadLength(m, n, a, p, n', a', p');
    }
    var k := 1 + |Blocks(AadRegion(a))|;
    assert Blocks(AadRegion(a)) == x[1..k] == y[1..k] == Blocks(AadRegion(a'));
    assert Blocks(p) == x[k..] == y[k..] == Blocks(p');
    BlocksInjective(AadRegion(a), AadRegion(a'));
    BlocksInjective(p, p');
    if a != [] { assert a == AadRegion(a)[2..] == AadRegion(a')[2..] == a'; }
  }

  lemma SameAadLength(m: Mode, n: seq<byte>, a: seq<byte>, p: seq<byte>, n': seq<byte>, a': seq<byte>, p': seq<byte>)
    requires m.Valid() && m.Fits(n, a, p) && m.Fits(n', a', p') && a != [] && a' != []
    requires MacBlocks(m, n, a, p) <= MacBlocks(m, n', a', p')
    ensures |a| == |a'|
  {
    var r, r' := AadRegion(a), AadRegion(a');
    assert Blocks(r)[0] == MacBlocks(m, n, a, p)[1] == MacBlocks(m, n', a', p')[1] == Blocks(r')[0];
    FirstBytes(r, 0);
    FirstBytes(r, 1);
    FirstBytes(r', 0);
    FirstBytes(r', 1);
    assert Be(|a|, 2) == [r[0], r[1]] == [r'[0], r'[1]] == Be(|a'|, 2);
    Ranges();
    BeInjective(|a|, |a'|, 2);
  }

  /** The keystream blocks of a message that fits. */
  function CounterBlocks(plaintext: seq<byte>): nat { (|plaintext| + 15) / 16 }

  /** Counter blocks do not repeat within a message and are never the first MAC block. */
  lemma CounterBlocksDistinct(m: Mode, nonce: seq<byte>, plaintext: seq<byte>, i: nat, k: nat)
    requires m.Valid() && m.NonceFits(nonce) && |plaintext| <= m.MaxPayload()
    requires i <= CounterBlocks(plaintext) && k <= CounterBlocks(plaintext)
    ensures A(m, nonce, i) == A(m, nonce, k) ==> i == k
    ensures forall n: seq<byte>, aadPresent: bool, length: nat ::
              m.NonceFits(n) ==> A(m, nonce, i) != B0(m, n, aadPresent, length)
  {
    assert Range(m.L()) > 1 by { assert Range(m.L()) == 0x100 * Range(m.L() - 1); }
    if A(m, nonce, i) == A(m, nonce, k) {
      assert Be(i, m.L()) == A(m, nonce, i)[1 + m.nonceLen..] == A(m, nonce, k)[1 + m.nonceLen..] == Be(k, m.L());
      BeInjective(i, k, m.L());
    }
    forall n: seq<byte>, aadPresent: bool, length: nat | m.NonceFits(n)
      ensures A(m, nonce, i) != B0(m, n, aadPresent, length)
    {
      assert A(m, nonce, i)[0] < 8 <= B0(m, n, aadPresent, length)[0];
    }
  }

  // ---------------------------------------------------------------------- the computation

  class Aead {
    const m: Mode

    constructor (m: Mode)
      requires m.Valid()
      ensures this.m == m
    {
      this.m := m;
    }

    /** Adds a block to the chaining value and encrypts it in place. */
    method MacBlock(x: array<byte>, blk: Block)
      requires x.Length == 16
      modifies x
      ensures x[..] == m.encrypt(XorSeq(old(x[..]), blk))
    {
      for i := 0 to 16
        invariant forall k :: 0 <= k < i ==> x[k] == Xor(old(x[k]), blk[k])
        invariant forall k :: i <= k < 16 ==> x[k] == old(x[k])
      {
        x[i] := Xor(x[i], blk[i]);
      }
      assert x[..] == XorSeq(old(x[..]), blk);
      var y := m.encrypt(x[..]);
      for i := 0 to 16
        invariant forall k :: 0 <= k < i ==> x[k] == y[k]
      {
        x[i] := y[i];
      }
      assert x[..] == y;
    }

    /** Feeds a region block by block, padding the last block. */
    method MacRegion(x: array<byte>, buf: seq<byte>)
      requires x.Length == 16
      modifies x
      ensures x[..] == Chain(m, old(x[..]), Blocks(buf))
    {
      var i := 0;
      ghost var left := Blocks(buf);
      while i < |buf|
        invariant 0 <= i && left == Blocks(Rest(buf, i))
        invariant Chain(m, x[..], left) == Chain(m, old(x[..]), Blocks(buf))
      {
        var end := if |buf| - i > 16 then i + 16 else |buf|;
        var blk := buf[i..end] + Repeat(0, 16 - (end - i));
        NextBlock(buf, i, end);
        MacBlock(x, blk);
        left := left[1..];
        i := i + 16;
      }
    }

    /** The first block: flags, nonce and the plaintext length in big-endian order. */
    method FirstBlock(nonce: seq<byte>, aad: seq<byte>, length: nat) returns (b0: Block)
      requires m.Valid() && m.NonceFits(nonce)
      ensures b0 == B0(m, nonce, aad != [], length)
    {
      var flags: byte := m.L() - 1;
      flags := flags + 8 * ((m.tagLen - 2) / 2);
      if |aad| > 0 { flags := flags + 0x40; }
      b0 := [flags] + nonce + Be(length, m.L());
    }

    method ComputeMac(nonce: seq<byte>, aad: seq<byte>, plaintext: seq<byte>) returns (t: seq<byte>)
      requires m.Valid() && m.NonceFits(nonce) && |aad| < 0x1_0000
      ensures t == Mac(m, nonce, aad, plaintext)
    {
      hide Chain, Blocks, Be, Repeat, B0, XorSeq;
      var x := new byte[16](_ => 0);
      ZeroBlock(x[..]);
      var b0 := FirstBlock(nonce, aad, |plaintext|);
      MacBlock(x, b0);
      if |aad| > 0 {
        var prefix := Be(|aad|, 2);
        MacRegion(x, prefix + aad);
      } else {
        EmptyRegion(m, x[..]);
      }
      MacRegion(x, plaintext);
      ChainRegions(m, b0, Blocks(AadRegion(aad)), Blocks(plaintext));
      t := x[..m.tagLen];
    }

    /** Writes the exclusive or of part and s into dst at i. */
    method XorInto(dst: array<byte>, i: nat, part: seq<byte>, s: Block)
      requires |part| <= 16 && i + |part| <= dst.Length
      modifies dst
      ensures dst[..i + |part|] == old(dst[..i]) + XorSeq(part, s)
    {
      for j := 0 to |part|
        invariant dst[..i] == old(dst[..i])
        invariant forall k :: 0 <= k < j ==> dst[i + k] == Xor(part[k], s[k])
      {
        dst[i + j] := Xor(part[j], s[j]);
      }
      assert dst[..i + |part|] == dst[..i] + dst[i..i + |part|];
      assert dst[i..i + |part|] == XorSeq(part, s);
    }

    /** Counter mode into dst, one keystream block after the other. */
    method CtrInto(nonce: seq<byte>, start: nat, dst: array<byte>, src: seq<byte>)
      requires m.Valid() && m.NonceFits(nonce) && |src| == dst.Length
      modifies dst
      ensures dst[..] == Ctr(m, nonce, start, src)
    {
      hide A, Ctr, XorSeq;
      var counter, i := start, 0;
      assert dst[..0] + Ctr(m, nonce, start, src) == Ctr(m, nonce, start, src) && src[0..] == src;
      while i < |src|
        invariant 0 <= i <= |src|
        invariant dst[..i] + Ctr(m, nonce, counter, src[i..]) == Ctr(m, nonce, start, src)
      {
        var s := m.encrypt(A(m, nonce, counter));
        var n := if |src| - i > 16 then 16 else |src| - i;
        ghost var before := dst[..i];
        XorInto(dst, i, src[i..i + n], s);
        CtrStep(m, nonce, counter, src[i..]);
        assert src[i..][..n] == src[i..i + n] && src[i..][n..] == src[i + n..];
        Join(before, XorSeq(src[i..i + n], s), Ctr(m, nonce, counter + 1, src[i + n..]));
        counter := counter + 1;
        i := i + n;
      }
      assert dst[..] == dst[..i];
      assert dst[..i] + Ctr(m, nonce, counter, src[i..]) == dst[..i];
    }

    method SealTo(nonce: seq<byte>, plaintext: seq<byte>, aad: seq<byte>) returns (c: seq<byte>)
      requires m.Valid() && m.Fits(nonce, aad, plaintext)
      ensures c == Seal(m, nonce, plaintext, aad)
    {
      hide Ctr, Mac, XorSeq, A;
      var tag := ComputeMac(nonce, aad, plaintext);
      var s0 := m.encrypt(A(m, nonce, 0));
      tag := XorSeq(tag, s0);
      var out := new byte[|plaintext|](_ => 0);
      CtrInto(nonce, 1, out, plaintext);
      c := out[..] + tag;
    }

    method OpenFrom(nonce: seq<byte>, ciphertext: seq<byte>, aad: seq<byte>) returns (r: Result<seq<byte>, OpenError>)
      requires m.Valid()
      ensures r == Open(m, nonce, ciphertext, aad)
    {
      hide Ctr, Mac, XorSeq, A;
      if |nonce| != m.nonceLen { return Err(NonceLength); }
      if |ciphertext| < m.tagLen { return Err(TooShort); }
      if |aad| >= 0xFF00 { return Err(AadTooLarge); }
      var n := |ciphertext| - m.tagLen;
      var plaintext := new byte[n](_ => 0);
      CtrInto(nonce, 1, plaintext, ciphertext[..n]);
      var tag := ComputeMac(nonce, aad, plaintext[..]);
      var s0 := m.encrypt(A(m, nonce, 0));
      tag := XorSeq(tag, s0);
      if tag != ciphertext[n..] { return Err(AuthenticationFailed); }
      return Ok(plaintext[..]);
    }
  }

  lemma Join(a: seq<byte>, b: seq<byte>, c: seq<byte>)
    ensures a + b + c == a + (b + c)
  {
  }

  lemma ZeroBlock(s: seq<byte>)
    requires |s| == 16 && forall i :: 0 <= i < 16 ==> s[i] == 0
    ensures s == ZERO_BLOCK
  {
  }

  lemma EmptyRegion(m: Mode, x: Block)
    ensures Chain(m, x, Blocks(AadRegion([]))) == x
  {
  }

  /** One keystream block of counter mode. */
  lemma CtrStep(m: Mode, nonce: seq<byte>, i: nat, src: seq<byte>)
    requires m.Valid() && m.NonceFits(nonce) && src != []
    ensures var n := if |src| > 16 then 16 else |src|;
            Ctr(m, nonce, i, src) == XorSeq(src[..n], m.encrypt(A(m, nonce, i))) + Ctr(m, nonce, i + 1, src[n..])
  {
    if |src| <= 16 { assert src[..|src|] == src; }
  }

  /** Feeding the first block and the two regions one after the other chains all their blocks. */
  lemma ChainRegions(m: Mode, b0: Block, a: seq<Block>, p: seq<Block>)
    ensures Chain(m, ZERO_BLOCK, [b0] + a + p) == Chain(m, Chain(m, m.encrypt(XorSeq(ZERO_BLOCK, b0)), a), p)
  {
    var first: seq<Block> := [b0] + a;
    ChainAppend(m, ZERO_BLOCK, first, p);
    assert first[1..] == a;
  }

  function Rest(s: seq<byte>, i: nat): seq<byte> {
    if i <= |s| then s[i..] else []
  }

  lemma NextBlock(s: seq<byte>, i: nat, end: nat)
    requires i < |s| && end == (if |s| - i > 16 then i + 16 else |s|)
    ensures var b := Blocks(Rest(s, i));
            b != [] && b[0] == s[i..end] + Repeat(0, 16 - (end - i)) && b[1..] == Blocks(Rest(s, i + 16))
  {
    BlocksStep(s[i..]);
    assert s[i..][..end - i] == s[i..end] && s[i..][end - i..] == s[end..];
    assert Rest(s, i + 16) == s[end..];
  }

  lemma {:induction false} BlocksStep(s: seq<byte>)
    requires s != []
    ensures var n := if |s| > 16 then 16 else |s|;
            Blocks(s) == [s[..n] + Repeat(0, 16 - n)] + Blocks(s[n..])
  {
    if |s| <= 16 { assert s[..|s|] == s; }
    if |s| > 16 { assert s[..16] + Repeat(0, 0) == s[..16]; }
  }

  lemma {:induction false} ChainAppend(m: Mode, x: Block, b: seq<Block>, c: seq<Block>)
    ensures Chain(m, x, b + c) == Chain(m, Chain(m, x, b), c)
    decreases |b|
  {
    if b == [] {
      assert b + c == c;
    } else {
      assert (b + c)[1..] == b[1..] + c;
      ChainAppend(m, m.encrypt(XorSeq(x, b[0])), b[1..], c);
    }
  }
}
