/** The codes of 128-EIA2 in numbers, under a block cipher that can be worked out by hand: it adds a constant
    block and moves the last four bytes to the front.  Eight bytes make one whole block with the header and
    take the first subkey, 58 bits are padded and take the second, and 24 bytes make two blocks. */
module Eia2Examples {
  import opened MixColumns
  import opened Cmac
  import opened Eia2

  const CONSTANT: Block := [0x13, 0x29, 0x15, 0xd3, 0x60, 0x52, 0x11, 0xb5,
                            0xe5, 0xdf, 0x86, 0x32, 0x9b, 0x71, 0xf2, 0x99]

  ghost function Turned(x: Block): Block { x[12..] + x[..12] }

  ghost function Simple(): Cipher { (x: Block) => Turned(XorBlock(x, CONSTANT)) }

  lemma SimpleIs(x: Block)
    ensures Simple()(x) == Turned(XorBlock(x, CONSTANT))
  {
    hide XorBlock, Turned;
  }

  // ---------- four bytes at a time ----------

  /** Quarter `q` of a block. */
  predicate Quarter(b: Block, q: nat, b0: bv8, b1: bv8, b2: bv8, b3: bv8)
    requires q < 4
  {
    b[4 * q] == b0 && b[4 * q + 1] == b1 && b[4 * q + 2] == b2 && b[4 * q + 3] == b3
  }

  lemma XorAt(a: Block, b: Block, i: nat)
    requires i < 16
    ensures XorBlock(a, b)[i] == Xor(a[i], b[i])
  {
    hide Xor;
  }

  lemma Added(m: Block, k: Block, q: nat, m0: bv8, m1: bv8, m2: bv8, m3: bv8, k0: bv8, k1: bv8, k2: bv8, k3: bv8)
    requires q < 4 && Quarter(m, q, m0, m1, m2, m3) && Quarter(k, q, k0, k1, k2, k3)
    ensures Quarter(XorBlock(m, k), q, Xor(m0, k0), Xor(m1, k1), Xor(m2, k2), Xor(m3, k3))
  {
    hide Xor;
    XorAt(m, k, 4 * q); XorAt(m, k, 4 * q + 1); XorAt(m, k, 4 * q + 2); XorAt(m, k, 4 * q + 3);
  }

  lemma ConstantIs()
    ensures Quarter(CONSTANT, 2, 0xe5, 0xdf, 0x86, 0x32) && Quarter(CONSTANT, 3, 0x9b, 0x71, 0xf2, 0x99)
  {
  }

  /** The last quarter of a block comes out first. */
  lemma LastComesFirst(x: Block, x0: bv8, x1: bv8, x2: bv8, x3: bv8)
    requires Quarter(x, 3, x0, x1, x2, x3)
    ensures Quarter(Simple()(x), 0, Xor(x0, 0x9b), Xor(x1, 0x71), Xor(x2, 0xf2), Xor(x3, 0x99))
  {
    hide XorBlock, Xor;
    SimpleIs(x);
    ConstantIs();
    Added(x, CONSTANT, 3, x0, x1, x2, x3, 0x9b, 0x71, 0xf2, 0x99);
  }

  /** The third quarter comes out last. */
  lemma ThirdComesLast(x: Block, x0: bv8, x1: bv8, x2: bv8, x3: bv8)
    requires Quarter(x, 2, x0, x1, x2, x3)
    ensures Quarter(Simple()(x), 3, Xor(x0, 0xe5), Xor(x1, 0xdf), Xor(x2, 0x86), Xor(x3, 0x32))
  {
    hide XorBlock, Xor;
    SimpleIs(x);
    ConstantIs();
    Added(x, CONSTANT, 2, x0, x1, x2, x3, 0xe5, 0xdf, 0x86, 0x32);
  }

  lemma FirstFour(b: Block, b0: bv8, b1: bv8, b2: bv8, b3: bv8)
    requires Quarter(b, 0, b0, b1, b2, b3)
    ensures b[..4] == [b0, b1, b2, b3]
  {
  }

  // ---------- one block and two ----------

  lemma XorZero(x: bv8)
    ensures Xor(x, 0) == x && Xor(0, x) == x
  {
  }

  lemma ZeroAdded(x: Block)
    ensures XorBlock(x, ZERO_BLOCK) == x && XorBlock(ZERO_BLOCK, x) == x
  {
    hide Xor, XorBlock;
    forall i | 0 <= i < 16
      ensures XorBlock(x, ZERO_BLOCK)[i] == x[i] && XorBlock(ZERO_BLOCK, x)[i] == x[i]
    {
      XorAt(x, ZERO_BLOCK, i);
      XorAt(ZERO_BLOCK, x, i);
      XorZero(x[i]);
    }
  }

  lemma OneBlock(aes: Cipher, m: Block, k: Block)
    ensures Finish(aes, m, k) == aes(XorBlock(m, k))
  {
    hide XorBlock;
    assert m[0..] == m && m[..0] == [];
    ZeroAdded(XorBlock(m, k));
  }

  lemma TwoBlocks(aes: Cipher, m: Block, n: Block, k: Block)
    ensures |m + n| == 32 && Finish(aes, m + n, k) == aes(XorBlock(XorBlock(n, k), aes(m)))
  {
    hide XorBlock;
    var b := m + n;
    assert b[16..] == n && b[..16] == m;
    assert m[0..] == m && m[..0] == [];
    assert Chain(aes, m) == aes(XorBlock(ZERO_BLOCK, m));
    ZeroAdded(m);
  }

  // ---------- the subkeys ----------

  lemma ZeroEncrypted(l: Block)
    requires l == [0x9b, 0x71, 0xf2, 0x99, 0x13, 0x29, 0x15, 0xd3,
                   0x60, 0x52, 0x11, 0xb5, 0xe5, 0xdf, 0x86, 0x32]
    ensures Simple()(ZERO_BLOCK) == l
  {
    hide XorBlock;
    SimpleIs(ZERO_BLOCK);
    ZeroAdded(CONSTANT);
    TurnedBack(l);
  }

  lemma TurnedBack(l: Block)
    requires l == [0x9b, 0x71, 0xf2, 0x99, 0x13, 0x29, 0x15, 0xd3,
                   0x60, 0x52, 0x11, 0xb5, 0xe5, 0xdf, 0x86, 0x32]
    ensures CONSTANT == l[4..] + l[..4] && Turned(CONSTANT) == l
  {
    var c := l[4..] + l[..4];
    assert c[12..] + c[..12] == l;
  }

  lemma FirstDoubled(l: Block, k: Block)
    requires l == [0x9b, 0x71, 0xf2, 0x99, 0x13, 0x29, 0x15, 0xd3,
                   0x60, 0x52, 0x11, 0xb5, 0xe5, 0xdf, 0x86, 0x32]
    requires k == [0x36, 0xe3, 0xe5, 0x32, 0x26, 0x52, 0x2b, 0xa6,
                   0xc0, 0xa4, 0x23, 0x6b, 0xcb, 0xbf, 0x0c, 0xe3]
    ensures k == Double(l)
  {
    BytesDouble(l, k);
  }

  lemma SecondDoubled(l: Block, k: Block)
    requires l == [0x36, 0xe3, 0xe5, 0x32, 0x26, 0x52, 0x2b, 0xa6,
                   0xc0, 0xa4, 0x23, 0x6b, 0xcb, 0xbf, 0x0c, 0xe3]
    requires k == [0x6d, 0xc7, 0xca, 0x64, 0x4c, 0xa4, 0x57, 0x4d,
                   0x81, 0x48, 0x46, 0xd7, 0x97, 0x7e, 0x19, 0xc6]
    ensures k == Double(l)
  {
    BytesDouble(l, k);
  }

  lemma Subkeys()
    ensures Quarter(K1(Simple()), 3, 0xcb, 0xbf, 0x0c, 0xe3)
    ensures Quarter(K2(Simple()), 3, 0x97, 0x7e, 0x19, 0xc6)
  {
    hide Double, XorBlock, Simple;
    var l: Block := [0x9b, 0x71, 0xf2, 0x99, 0x13, 0x29, 0x15, 0xd3,
                     0x60, 0x52, 0x11, 0xb5, 0xe5, 0xdf, 0x86, 0x32];
    var k1: Block := [0x36, 0xe3, 0xe5, 0x32, 0x26, 0x52, 0x2b, 0xa6,
                      0xc0, 0xa4, 0x23, 0x6b, 0xcb, 0xbf, 0x0c, 0xe3];
    var k2: Block := [0x6d, 0xc7, 0xca, 0x64, 0x4c, 0xa4, 0x57, 0x4d,
                      0x81, 0x48, 0x46, 0xd7, 0x97, 0x7e, 0x19, 0xc6];
    ZeroEncrypted(l);
    FirstDoubled(l, k1);
    SecondDoubled(k1, k2);
  }

  // ---------- the codes ----------

  lemma EndOf(h: seq<bv8>, m: seq<bv8>, b0: bv8, b1: bv8, b2: bv8, b3: bv8)
    requires |h| == 8 && |m| == 8 && m[4..] == [b0, b1, b2, b3]
    ensures Quarter(h + m, 3, b0, b1, b2, b3)
  {
    var e := m[4..];
    assert e[0] == m[4] && e[1] == m[5] && e[2] == m[6] && e[3] == m[7];
  }

  lemma MiddleOf(h: seq<bv8>, m: seq<bv8>, b0: bv8, b1: bv8, b2: bv8, b3: bv8)
    requires |h| == 8 && |m| == 8 && m[..4] == [b0, b1, b2, b3]
    ensures Quarter(h + m, 2, b0, b1, b2, b3)
  {
    var e := m[..4];
    assert e[0] == m[0] && e[1] == m[1] && e[2] == m[2] && e[3] == m[3];
  }

  lemma NothingToAlign(b: Block)
    ensures Aligned(b) == b
  {
  }

  lemma EightBytes(h: seq<bv8>, msg: seq<bv8>)
    requires |h| == 8 && |msg| == 8 && msg[4..] == [0xaf, 0xe0, 0x82, 0xae]
    ensures MacOfBytes(Simple(), h, msg) == [0xff, 0x2e, 0x7c, 0xd4]
  {
    hide K1, K2, Finish, Simple, XorBlock, Quarter;
    var block := h + msg;
    EndOf(h, msg, 0xaf, 0xe0, 0x82, 0xae);
    Subkeys();
    var k := K1(Simple());
    OneBlock(Simple(), block, k);
    Added(block, k, 3, 0xaf, 0xe0, 0x82, 0xae, 0xcb, 0xbf, 0x0c, 0xe3);
    LastComesFirst(XorBlock(block, k), 0x64, 0x5f, 0x8e, 0x4d);
    FirstFour(OfBytes(Simple(), block), 0xff, 0x2e, 0x7c, 0xd4);
  }

  /** 58 bits behind the header with their padding. */
  lemma PaddedBits(h: seq<bv8>, m: seq<bv8>, b: seq<bool>)
    requires |h| == 8 && |m| == 7 && b == Expand(m) + [false, true]
    ensures |Expand(h) + b| == 122 && Pack(Expand(h) + b + [true]) == h + m + [0x60]
  {
    var tail := [false, true, true];
    assert Expand(h) + b + [true] == Expand(h) + (Expand(m) + tail);
    TailByte();
    hide Expand, Pack;
    PackAfterBytes(m, tail);
    PackAfterBytes(h, Expand(m) + tail);
    assert h + (m + [0x60]) == h + m + [0x60];
  }

  lemma TailByte()
    ensures Pack([false, true, true]) == [0x60]
  {
    var b := [false, true, true];
    assert Octet(b, 0) == b;
    assert b[..2] == [false, true] && [false, true][..1] == [false] && [false][..0] == [];
    assert PackByte([]) == 0 && PackByte([false]) == 0 && PackByte([false, true]) == 0x40;
  }

  lemma FiftyEightBits(h: seq<bv8>, m: seq<bv8>)
    requires |h| == 8 && |m| == 7 && m[4..] == [0x63, 0x39, 0x38]
    ensures MacOfBits(Simple(), h, Expand(m) + [false, true]) == [0x6f, 0x36, 0xd3, 0x3f]
  {
    hide K1, K2, Finish, Simple, XorBlock, Expand, Pack, Quarter, Aligned;
    var block := h + m + [0x60];
    assert block == h + (m + [0x60]) && (m + [0x60])[4..] == m[4..] + [0x60];
    EndOf(h, m + [0x60], 0x63, 0x39, 0x38, 0x60);
    NothingToAlign(block);
    PaddedBits(h, m, Expand(m) + [false, true]);
    Subkeys();
    var k := K2(Simple());
    OneBlock(Simple(), block, k);
    Added(block, k, 3, 0x63, 0x39, 0x38, 0x60, 0x97, 0x7e, 0x19, 0xc6);
    LastComesFirst(XorBlock(block, k), 0xf4, 0x47, 0x21, 0xa6);
    FirstFour(OfBits(Simple(), Expand(h) + (Expand(m) + [false, true])), 0x6f, 0x36, 0xd3, 0x3f);
  }

  lemma TwentyFourBytes(h: seq<bv8>, a: seq<bv8>, n: Block)
    requires |h| == 8 && |a| == 8 && a[..4] == [0x10, 0x11, 0x12, 0x13] && n[12..] == [0x24, 0x25, 0x26, 0x27]
    ensures MacOfBytes(Simple(), h, a + n) == [0x81, 0x25, 0x4c, 0x7c]
  {
    hide K1, K2, Finish, Simple, XorBlock, Quarter;
    var m: Block := h + a;
    assert h + (a + n) == m + n;
    MiddleOf(h, a, 0x10, 0x11, 0x12, 0x13);
    assert n == n[..8] + n[8..] && n[8..][4..] == n[12..];
    EndOf(n[..8], n[8..], 0x24, 0x25, 0x26, 0x27);
    Subkeys();
    var k := K1(Simple());
    TwoBlocks(Simple(), m, n, k);
    Added(n, k, 3, 0x24, 0x25, 0x26, 0x27, 0xcb, 0xbf, 0x0c, 0xe3);
    ThirdComesLast(m, 0x10, 0x11, 0x12, 0x13);
    var t := Simple()(m);
    Added(XorBlock(n, k), t, 3, 0xef, 0x9a, 0x2a, 0xc4, 0xf5, 0xce, 0x94, 0x21);
    LastComesFirst(XorBlock(XorBlock(n, k), t), 0x1a, 0x54, 0xbe, 0xe5);
    FirstFour(OfBytes(Simple(), m + n), 0x81, 0x25, 0x4c, 0x7c);
  }
}
