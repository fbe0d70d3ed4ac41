/** AES-CMAC as RFC 4493 defines it (sections 2.3 and 2.4), and its form for messages that are bit
    strings.  The block cipher under the key in use is a parameter. */
module Cmac {
  import opened MixColumns

  const ZERO_BLOCK: seq<bv8> := [0, 0, 0, 0, 0, 0, 0, 0, 0, 0, 0, 0, 0, 0, 0, 0]

  type Block = b: seq<bv8> | |b| == 16 witness [0, 0, 0, 0, 0, 0, 0, 0, 0, 0, 0, 0, 0, 0, 0, 0]

  /** AES encryption of one block under a fixed key. */
  type Cipher = Block -> Block

  // ---------- subkeys ----------

  /** The bits set in the constant 0x87 of RFC 4493 section 2.3. */
  predicate InReduction(i: nat) { i == 120 || i == 125 || i == 126 || i == 127 }

  /** A 128-bit string shifted left by one, and reduced when a one bit falls out. */
  function DoubleBits(b: seq<bool>): (r: seq<bool>)
    requires |b| == 128
    ensures |r| == 128
  {
    seq(128, i requires 0 <= i < 128 => (i < 127 && b[i + 1]) != (b[0] && InReduction(i)))
  }

  /** Multiplication by x in GF(2^128). */
  function Double(b: Block): Block { Pack(DoubleBits(Expand(b))) }

  function K1(aes: Cipher): Block { Double(aes(ZERO_BLOCK)) }

  function K2(aes: Cipher): Block { Double(K1(aes)) }

  // ---------- the chain of blocks ----------

  function XorBlock(a: Block, b: Block): Block {
    seq(16, i requires 0 <= i < 16 => Xor(a[i], b[i]))
  }

  /** The chaining value after the blocks of `m`. */
  function Chain(aes: Cipher, m: seq<bv8>): Block
    requires |m| % 16 == 0
  {
    if m == [] then ZERO_BLOCK
    else aes(XorBlock(Chain(aes, m[..|m| - 16]), m[|m| - 16..]))
  }

  /** The last block is masked with a subkey before it enters the chain. */
  function Finish(aes: Cipher, m: seq<bv8>, k: Block): Block
    requires |m| > 0 && |m| % 16 == 0
  {
    aes(XorBlock(XorBlock(m[|m| - 16..], k), Chain(aes, m[..|m| - 16])))
  }

  function Zeros(n: nat): (z: seq<bv8>)
    ensures |z| == n
  {
    seq(n, i requires 0 <= i < n => 0)
  }

  /** `m` followed by zero bytes up to a whole number of blocks. */
  function Aligned(m: seq<bv8>): (r: seq<bv8>)
    ensures |r| % 16 == 0 && |m| <= |r| < |m| + 16 && m <= r
  {
    m + Zeros((16 - |m| % 16) % 16)
  }

  /** AES-CMAC of a byte string: RFC 4493 section 2.4. */
  function OfBytes(aes: Cipher, m: seq<bv8>): Block {
    if |m| > 0 && |m| % 16 == 0 then Finish(aes, m, K1(aes))
    else Finish(aes, Aligned(m + [0x80]), K2(aes))
  }

  // ---------- bit strings, most significant bit first ----------

  function BitMask(j: nat): bv8
    requires j < 8
  {
    if j == 0 then 0x80 else if j == 1 then 0x40 else if j == 2 then 0x20 else if j == 3 then 0x10
    else if j == 4 then 0x08 else if j == 5 then 0x04 else if j == 6 then 0x02 else 0x01
  }

  function SetBit(x: bv8, j: nat, b: bool): bv8
    requires j < 8
  {
    if b then x | BitMask(j) else x
  }

  /** Up to eight bits as one byte; missing bits are zero. */
  function PackByte(b: seq<bool>): bv8
    requires |b| <= 8
  {
    if b == [] then 0 else SetBit(PackByte(b[..|b| - 1]), |b| - 1, b[|b| - 1])
  }

  function Octet(b: seq<bool>, k: nat): seq<bool>
    requires 8 * k <= |b|
  {
    if 8 * k + 8 <= |b| then b[8 * k..8 * k + 8] else b[8 * k..]
  }

  function Pack(b: seq<bool>): (r: seq<bv8>)
    ensures |r| == (|b| + 7) / 8
  {
    seq((|b| + 7) / 8, k requires 0 <= k < (|b| + 7) / 8 => PackByte(Octet(b, k)))
  }

  function BitsOf(x: bv8): (b: seq<bool>)
    ensures |b| == 8
  {
    [x & 0x80 != 0, x & 0x40 != 0, x & 0x20 != 0, x & 0x10 != 0,
     x & 0x08 != 0, x & 0x04 != 0, x & 0x02 != 0, x & 0x01 != 0]
  }

  function Expand(m: seq<bv8>): (b: seq<bool>)
    ensures |b| == 8 * |m|
  {
    seq(8 * |m|, i requires 0 <= i < 8 * |m| => BitsOf(m[i / 8])[i % 8])
  }

  /** CMAC of a bit string: the padding is a single one bit, then zeros. */
  function OfBits(aes: Cipher, b: seq<bool>): Block {
    if |b| > 0 && |b| % 128 == 0 then Finish(aes, Pack(b), K1(aes))
    else Finish(aes, Aligned(Pack(b + [true])), K2(aes))
  }

  // ---------- the two forms agree ----------

  lemma PackPrefix(b: seq<bool>, j: nat)
    requires j < |b| && j < 8
    ensures PackByte(b[..j + 1]) == SetBit(PackByte(b[..j]), j, b[j])
  {
    assert b[..j + 1][..j] == b[..j];
  }

  lemma OrWords(x: bv8, p0: bv8, p1: bv8, p2: bv8, p3: bv8, p4: bv8, p5: bv8, p6: bv8, p7: bv8)
    requires p0 == (if x & 0x80 != 0 then 0x80 else 0)
    requires p1 == (if x & 0x40 != 0 then p0 | 0x40 else p0)
    requires p2 == (if x & 0x20 != 0 then p1 | 0x20 else p1)
    requires p3 == (if x & 0x10 != 0 then p2 | 0x10 else p2)
    requires p4 == (if x & 0x08 != 0 then p3 | 0x08 else p3)
    requires p5 == (if x & 0x04 != 0 then p4 | 0x04 else p4)
    requires p6 == (if x & 0x02 != 0 then p5 | 0x02 else p5)
    requires p7 == (if x & 0x01 != 0 then p6 | 0x01 else p6)
    ensures p7 == x
  {
  }

  lemma PackBitsOf(x: bv8)
    ensures PackByte(BitsOf(x)) == x
  {
    hide PackByte;
    var b := BitsOf(x);
    PackNothing();
    assert b[..0] == [];
    PackPrefix(b, 0);
    PackPrefix(b, 1);
    PackPrefix(b, 2);
    PackPrefix(b, 3);
    PackPrefix(b, 4);
    PackPrefix(b, 5);
    PackPrefix(b, 6);
    PackPrefix(b, 7);
    OrWords(x, PackByte(b[..1]), PackByte(b[..2]), PackByte(b[..3]), PackByte(b[..4]),
            PackByte(b[..5]), PackByte(b[..6]), PackByte(b[..7]), PackByte(b[..8]));
    assert b[..8] == b;
  }

  lemma PackNothing()
    ensures PackByte([]) == 0
  {
  }

  lemma OctetsAfterBytes(m: seq<bv8>, b: seq<bool>, k: nat)
    requires 8 * k <= 8 * |m| + |b|
    ensures k < |m| ==> Octet(Expand(m) + b, k) == BitsOf(m[k])
    ensures k >= |m| ==> Octet(Expand(m) + b, k) == Octet(b, k - |m|)
  {
    hide BitsOf;
    var e := Expand(m) + b;
    if k < |m| {
      forall i | 0 <= i < 8
        ensures Octet(e, k)[i] == BitsOf(m[k])[i]
      {
        assert e[8 * k + i] == Expand(m)[8 * k + i];
        assert (8 * k + i) / 8 == k && (8 * k + i) % 8 == i;
      }
    } else {
      hide Expand;
      OctetBehind(Expand(m), b, |m|, k);
    }
  }

  lemma OctetBehind(a: seq<bool>, b: seq<bool>, n: nat, k: nat)
    requires |a| == 8 * n && n <= k && 8 * k <= |a| + |b|
    ensures Octet(a + b, k) == Octet(b, k - n)
  {
    var j := k - n;
    assert 8 * k == |a| + 8 * j;
    assert (a + b)[|a| + 8 * j..] == b[8 * j..];
    if 8 * j + 8 <= |b| {
      assert (a + b)[|a| + 8 * j..|a| + 8 * j + 8] == b[8 * j..8 * j + 8];
    }
  }

  lemma PackAfterBytes(m: seq<bv8>, b: seq<bool>)
    ensures Pack(Expand(m) + b) == m + Pack(b)
  {
    hide PackByte, BitsOf, Octet, Expand;
    var e := Expand(m) + b;
    forall k | 0 <= k < |Pack(e)|
      ensures Pack(e)[k] == (m + Pack(b))[k]
    {
      OctetsAfterBytes(m, b, k);
      if k < |m| {
        PackBitsOf(m[k]);
      }
    }
  }

  lemma ExpandConcat(h: seq<bv8>, m: seq<bv8>)
    ensures Expand(h + m) == Expand(h) + Expand(m)
  {
    hide BitsOf;
    forall i | 0 <= i < 8 * |h + m|
      ensures Expand(h + m)[i] == (Expand(h) + Expand(m))[i]
    {
      if i >= 8 * |h| {
        var j := i - 8 * |h|;
        assert i / 8 == |h| + j / 8 && i % 8 == j % 8;
        assert Expand(m)[j] == BitsOf(m[j / 8])[j % 8];
      } else {
        assert Expand(h)[i] == BitsOf(h[i / 8])[i % 8];
      }
    }
  }

  lemma PackOneBit()
    ensures Pack([true]) == [0x80]
  {
    assert Octet([true], 0) == [true];
    assert [true][..0] == [];
    PackNothing();
  }

  /** On whole bytes the bit-string CMAC is the RFC 4493 one. */
  lemma FormsAgree(aes: Cipher, m: seq<bv8>)
    ensures OfBits(aes, Expand(m)) == OfBytes(aes, m)
  {
    hide Finish, K1, K2, Pack, Expand;
    PackAfterBytes(m, []);
    assert Expand(m) + [] == Expand(m);
    assert Pack([]) == [];
    PackAfterBytes(m, [true]);
    PackOneBit();
    assert |Expand(m)| == 8 * |m|;
    assert m + Pack([]) == m;
  }

  // ---------- doubling byte by byte ----------

  /** One byte of a block shifted left by one bit; the next byte hands up its top bit. */
  function CarryByte(a: bv8, next: bv8): bv8 { (a << 1) | ((next >> 7) & 0x01) }

  function LastByte(a: bv8, first: bv8): bv8 {
    if first & 0x80 != 0 then (a << 1) ^ 0x87 else a << 1
  }

  lemma CarryBits(a: bv8, next: bv8)
    ensures BitsOf(CarryByte(a, next)) == BitsOf(a)[1..] + [BitsOf(next)[0]]
  {
  }

  lemma LastWords(a: bv8, first: bv8, r: bv8)
    requires r == if first & 0x80 != 0 then (a << 1) ^ 0x87 else a << 1
    ensures (r & 0x80 != 0) == ((a & 0x40 != 0) != (first & 0x80 != 0))
    ensures (r & 0x40 != 0) == (a & 0x20 != 0)
    ensures (r & 0x20 != 0) == (a & 0x10 != 0)
    ensures (r & 0x10 != 0) == (a & 0x08 != 0)
    ensures (r & 0x08 != 0) == (a & 0x04 != 0)
    ensures (r & 0x04 != 0) == ((a & 0x02 != 0) != (first & 0x80 != 0))
    ensures (r & 0x02 != 0) == ((a & 0x01 != 0) != (first & 0x80 != 0))
    ensures (r & 0x01 != 0) == (first & 0x80 != 0)
  {
  }

  lemma LastOpened(a: bv8, first: bv8, r: bv8)
    requires r == LastByte(a, first)
    ensures r == if first & 0x80 != 0 then (a << 1) ^ 0x87 else a << 1
  {
  }

  lemma LastFacts(a: bv8, first: bv8, r: bv8)
    requires r == LastByte(a, first)
    ensures (r & 0x80 != 0) == ((a & 0x40 != 0) != (first & 0x80 != 0))
    ensures (r & 0x40 != 0) == (a & 0x20 != 0) && (r & 0x20 != 0) == (a & 0x10 != 0)
    ensures (r & 0x10 != 0) == (a & 0x08 != 0) && (r & 0x08 != 0) == (a & 0x04 != 0)
    ensures (r & 0x04 != 0) == ((a & 0x02 != 0) != (first & 0x80 != 0))
    ensures (r & 0x02 != 0) == ((a & 0x01 != 0) != (first & 0x80 != 0))
    ensures (r & 0x01 != 0) == (first & 0x80 != 0)
  {
    hide LastByte;
    LastOpened(a, first, r);
    LastWords(a, first, r);
  }

  lemma LastBits(a: bv8, first: bv8, i: nat)
    requires i < 8
    ensures BitsOf(LastByte(a, first))[i] == ((i < 7 && BitsOf(a)[i + 1]) != (BitsOf(first)[0] && InReduction(120 + i)))
  {
    hide LastByte, BitsOf;
    var r := LastByte(a, first);
    LastFacts(a, first, r);
    BitsFacts(r);
    BitsFacts(a);
    BitsFacts(first);
  }

  lemma BitsFacts(x: bv8)
    ensures var b := BitsOf(x);
            && b[0] == (x & 0x80 != 0) && b[1] == (x & 0x40 != 0) && b[2] == (x & 0x20 != 0) && b[3] == (x & 0x10 != 0)
            && b[4] == (x & 0x08 != 0) && b[5] == (x & 0x04 != 0) && b[6] == (x & 0x02 != 0) && b[7] == (x & 0x01 != 0)
  {
  }

  /** `k` is `l` doubled byte by byte, as the subkey loops compute it. */
  predicate DoubledBytes(l: Block, k: Block) {
    (forall i :: 0 <= i < 15 ==> k[i] == CarryByte(l[i], l[i + 1])) && k[15] == LastByte(l[15], l[0])
  }

  lemma ExpandAt(m: seq<bv8>, q: nat, r: nat)
    requires q < |m| && r < 8
    ensures Expand(m)[8 * q + r] == BitsOf(m[q])[r]
  {
    assert (8 * q + r) / 8 == q && (8 * q + r) % 8 == r;
  }

  lemma BytesDouble(l: Block, k: Block)
    requires DoubledBytes(l, k)
    ensures k == Double(l)
  {
    hide BitsOf, CarryByte, LastByte, Expand, Pack, PackByte;
    var d := DoubleBits(Expand(l));
    ExpandAt(l, 0, 0);
    forall i | 0 <= i < 128
      ensures Expand(k)[i] == d[i]
    {
      BitDoubled(l, k, i / 8, i % 8);
    }
    assert Expand(k) == d;
    PackExpanded(k);
  }

  lemma BitDoubled(l: Block, k: Block, q: nat, r: nat)
    requires DoubledBytes(l, k) && q < 16 && r < 8
    ensures Expand(k)[8 * q + r] == DoubleBits(Expand(l))[8 * q + r]
  {
    hide BitsOf, CarryByte, LastByte, Expand;
    ExpandAt(k, q, r);
    ExpandAt(l, 0, 0);
    if q < 15 {
      CarryBits(l[q], l[q + 1]);
      if r < 7 {
        ExpandAt(l, q, r + 1);
      } else {
        ExpandAt(l, q + 1, 0);
      }
    } else {
      LastBits(l[15], l[0], r);
      if r < 7 {
        ExpandAt(l, 15, r + 1);
      }
    }
  }

  lemma PackExpanded(m: seq<bv8>)
    ensures Pack(Expand(m)) == m
  {
    hide PackByte, Expand;
    PackAfterBytes(m, []);
    assert Expand(m) + [] == Expand(m) && Pack([]) == [] && m + [] == m;
  }
}
