/** The integrity algorithm 128-EIA2 (both `liblte_security_128_eia2` overloads in
    lib/src/common/liblte_security.cc; TS 33.401 Annex B.2.3).

    The MAC is the first four bytes of the CMAC of an 8-byte COUNT/BEARER/DIRECTION header followed
    by the message.  One overload takes the message as bytes, the other as an array of bits; both
    share the subkey generation and the chain, so those are methods of their own here.  AES is a
    parameter.  The number of blocks is computed in single precision, which is
    exact while the length in the quotient stays within 2^24. */
module Eia2 {
  import opened MixColumns
  import opened Cmac

  const FLOAT_EXACT: nat := 0x1000000

  function LowByte(w: bv32): bv8 { (w & 0xFF) as bv8 }

  function Header(count: bv32, bearer: bv8, direction: bv8): (h: seq<bv8>)
    ensures |h| == 8
  {
    [LowByte(count >> 24), LowByte(count >> 16), LowByte(count >> 8), LowByte(count),
     (bearer << 3) | (direction << 2), 0, 0, 0]
  }

  function MacOfBytes(aes: Cipher, header: seq<bv8>, msg: seq<bv8>): seq<bv8> {
    OfBytes(aes, header + msg)[..4]
  }

  function MacOfBits(aes: Cipher, header: seq<bv8>, bits: seq<bool>): seq<bv8> {
    OfBits(aes, Expand(header) + bits)[..4]
  }

  /** The two overloads return the same MAC on the same message. */
  lemma OverloadsAgree(aes: Cipher, header: seq<bv8>, msg: seq<bv8>)
    ensures MacOfBits(aes, header, Expand(msg)) == MacOfBytes(aes, header, msg)
  {
    hide OfBits, OfBytes, Expand;
    ExpandConcat(header, msg);
    FormsAgree(aes, header + msg);
  }

  // ---------- the header as the standard lays it out ----------

  predicate Bit(w: bv32, k: nat)
    requires k < 32
  {
    (w >> k) & 1 == 1
  }

  /** The 32 bits of the count, the most significant first. */
  function CountBits(count: bv32): (b: seq<bool>)
    ensures |b| == 32
  {
    seq(32, i requires 0 <= i < 32 => Bit(count, 31 - i))
  }

  /** Five bits of the bearer, the most significant first, the direction and two zeros. */
  function BearerBits(bearer: bv8, direction: bv8): (b: seq<bool>)
    ensures |b| == 8
  {
    [(bearer >> 4) & 1 == 1, (bearer >> 3) & 1 == 1, (bearer >> 2) & 1 == 1, (bearer >> 1) & 1 == 1, bearer & 1 == 1,
     direction & 1 == 1, false, false]
  }

  function ZeroBits(n: nat): (b: seq<bool>)
    ensures |b| == n
  {
    seq(n, i => false)
  }

  /** The 64 bits before the message in Annex B.2.3 of TS 33.401: COUNT, BEARER, DIRECTION and 26 zeros. */
  function Layout(count: bv32, bearer: bv8, direction: bv8): (b: seq<bool>)
    ensures |b| == 64
  {
    CountBits(count) + BearerBits(bearer, direction) + ZeroBits(24)
  }

  /** Octet `q` of `e` is `b`. */
  ghost predicate OctetIs(e: seq<bool>, q: nat, b: seq<bool>)
    requires |e| >= 8 * q + 8 && |b| == 8
  {
    forall r :: 0 <= r < 8 ==> b[r] == e[8 * q + r]
  }

  lemma CountByte0(count: bv32)
    ensures var b := BitsOf(LowByte(count >> 24));
            && b[0] == Bit(count, 31) && b[1] == Bit(count, 30) && b[2] == Bit(count, 29) && b[3] == Bit(count, 28)
            && b[4] == Bit(count, 27) && b[5] == Bit(count, 26) && b[6] == Bit(count, 25) && b[7] == Bit(count, 24)
  {
  }

  lemma CountByte1(count: bv32)
    ensures var b := BitsOf(LowByte(count >> 16));
            && b[0] == Bit(count, 23) && b[1] == Bit(count, 22) && b[2] == Bit(count, 21) && b[3] == Bit(count, 20)
            && b[4] == Bit(count, 19) && b[5] == Bit(count, 18) && b[6] == Bit(count, 17) && b[7] == Bit(count, 16)
  {
  }

  lemma CountByte2(count: bv32)
    ensures var b := BitsOf(LowByte(count >> 8));
            && b[0] == Bit(count, 15) && b[1] == Bit(count, 14) && b[2] == Bit(count, 13) && b[3] == Bit(count, 12)
            && b[4] == Bit(count, 11) && b[5] == Bit(count, 10) && b[6] == Bit(count, 9) && b[7] == Bit(count, 8)
  {
  }

  lemma CountByte3(count: bv32)
    ensures var b := BitsOf(LowByte(count));
            && b[0] == Bit(count, 7) && b[1] == Bit(count, 6) && b[2] == Bit(count, 5) && b[3] == Bit(count, 4)
            && b[4] == Bit(count, 3) && b[5] == Bit(count, 2) && b[6] == Bit(count, 1) && b[7] == Bit(count, 0)
  {
  }

  lemma OctetFrom(count: bv32, q: nat, b: seq<bool>)
    requires |b| == 8 && q < 4
    requires b[0] == Bit(count, 31 - 8 * q) && b[1] == Bit(count, 30 - 8 * q)
    requires b[2] == Bit(count, 29 - 8 * q) && b[3] == Bit(count, 28 - 8 * q)
    requires b[4] == Bit(count, 27 - 8 * q) && b[5] == Bit(count, 26 - 8 * q)
    requires b[6] == Bit(count, 25 - 8 * q) && b[7] == Bit(count, 24 - 8 * q)
    ensures OctetIs(CountBits(count), q, b)
  {
    hide Bit;
    forall r | 0 <= r < 8
      ensures b[r] == CountBits(count)[8 * q + r]
    {
      assert CountBits(count)[8 * q + r] == Bit(count, 31 - (8 * q + r));
    }
  }

  lemma CountOctets(count: bv32, bearer: bv8, direction: bv8, q: nat)
    requires q < 4
    ensures OctetIs(CountBits(count), q, BitsOf(Header(count, bearer, direction)[q]))
  {
    hide BitsOf, Bit, OctetIs, CountBits, LowByte;
    var h := Header(count, bearer, direction);
    if q == 0 {
      CountByte0(count);
      OctetFrom(count, 0, BitsOf(h[0]));
    } else if q == 1 {
      CountByte1(count);
      OctetFrom(count, 1, BitsOf(h[1]));
    } else if q == 2 {
      CountByte2(count);
      OctetFrom(count, 2, BitsOf(h[2]));
    } else {
      CountByte3(count);
      OctetFrom(count, 3, BitsOf(h[3]));
    }
  }

  /** No bit of the direction above the lowest falls on a zero bit of the bearer. */
  predicate DirectionFits(bearer: bv8, direction: bv8) { (direction >> 1) & 0x1F & !bearer == 0 }

  lemma BearerByte(bearer: bv8, direction: bv8)
    ensures BitsOf((bearer << 3) | (direction << 2)) == BearerBits(bearer, direction)
            <==> DirectionFits(bearer, direction)
  {
  }

  lemma HeaderSplits(count: bv32, bearer: bv8, direction: bv8)
    ensures Expand(Header(count, bearer, direction))
            == CountBits(count) + BitsOf((bearer << 3) | (direction << 2)) + ZeroBits(24)
  {
    var h := Header(count, bearer, direction);
    var c, b := CountBits(count), BitsOf((bearer << 3) | (direction << 2));
    forall q | 0 <= q < 4
      ensures OctetIs(c, q, BitsOf(h[q]))
    {
      CountOctets(count, bearer, direction, q);
    }
    ZeroByte();
    assert h[4] == (bearer << 3) | (direction << 2) && h[5] == 0 && h[6] == 0 && h[7] == 0;
    hide *;
    EightOctets(h, c, b);
  }

  lemma ZeroByte()
    ensures BitsOf(0) == ZeroBits(8)
  {
  }

  lemma EightOctets(h: seq<bv8>, c: seq<bool>, b: seq<bool>)
    requires |h| == 8 && |c| == 32 && |b| == 8
    requires forall q :: 0 <= q < 4 ==> OctetIs(c, q, BitsOf(h[q]))
    requires BitsOf(h[4]) == b
    requires BitsOf(h[5]) == ZeroBits(8) && BitsOf(h[6]) == ZeroBits(8) && BitsOf(h[7]) == ZeroBits(8)
    ensures Expand(h) == c + b + ZeroBits(24)
  {
    hide BitsOf, Expand;
    var e := c + b + ZeroBits(24);
    forall i | 0 <= i < 64
      ensures Expand(h)[i] == e[i]
    {
      var q, r := i / 8, i % 8;
      ExpandAt(h, q, r);
      if q < 4 {
        assert OctetIs(c, q, BitsOf(h[q]));
        assert e[i] == c[8 * q + r];
      } else if q == 4 {
        assert e[i] == b[r];
      }
    }
  }

  /** The header is laid out as the standard says exactly when no higher bit of the direction gets in the way. */
  lemma HeaderIsTheLayout(count: bv32, bearer: bv8, direction: bv8)
    ensures Expand(Header(count, bearer, direction)) == Layout(count, bearer, direction)
            <==> DirectionFits(bearer, direction)
    ensures direction < 2 ==> DirectionFits(bearer, direction)
  {
    HeaderSplits(count, bearer, direction);
    BearerByte(bearer, direction);
    OneBitFits(bearer, direction);
    hide BitsOf, Expand, Header, CountBits, BearerBits, DirectionFits;
    SameMiddle(CountBits(count), BitsOf((bearer << 3) | (direction << 2)), BearerBits(bearer, direction), ZeroBits(24));
  }

  lemma OneBitFits(bearer: bv8, direction: bv8)
    ensures direction < 2 ==> DirectionFits(bearer, direction)
  {
  }

  lemma SameMiddle(a: seq<bool>, b: seq<bool>, b': seq<bool>, c: seq<bool>)
    requires |b| == |b'|
    ensures a + b + c == a + b' + c <==> b == b'
  {
    assert (a + b + c)[|a|..|a| + |b|] == b;
    assert (a + b' + c)[|a|..|a| + |b|] == b';
  }

  /** A direction is safe with every bearer exactly when bits 1 to 5 are clear; the code masks none of them. */
  lemma DirectionIsNotMasked(direction: bv8)
    ensures (forall bearer: bv8 :: DirectionFits(bearer, direction)) <==> direction & 0x3E == 0
    ensures Header(0, 0, 2) == Header(0, 1, 0)
  {
    if direction & 0x3E != 0 {
      assert !DirectionFits(0, direction);
    }
  }

  /** The MAC of both overloads is the first four bytes of the CMAC of the standard's bit string. */
  lemma MacIsOfTheLayout(aes: Cipher, count: bv32, bearer: bv8, direction: bv8, msg: seq<bv8>, bits: seq<bool>)
    requires DirectionFits(bearer, direction)
    ensures MacOfBits(aes, Header(count, bearer, direction), bits)
            == OfBits(aes, Layout(count, bearer, direction) + bits)[..4]
    ensures MacOfBytes(aes, Header(count, bearer, direction), msg)
            == OfBits(aes, Layout(count, bearer, direction) + Expand(msg))[..4]
  {
    hide OfBits, OfBytes, Expand, Header, Layout, DirectionFits;
    HeaderIsTheLayout(count, bearer, direction);
    OverloadsAgree(aes, Header(count, bearer, direction), msg);
  }

  // ---------- subkeys ----------

  /** One of the two subkey loops. */
  method Subkey(l: Block) returns (k: array<bv8>)
    ensures fresh(k) && k.Length == 16 && k[..] == Double(l)
  {
    hide CarryByte, LastByte, Double;
    k := new bv8[16];
    for i := 0 to 15
      invariant forall j :: 0 <= j < i ==> k[j] == CarryByte(l[j], l[j + 1])
    {
      k[i] := CarryByte(l[i], l[i + 1]);
    }
    k[15] := LastByte(l[15], l[0]);
    BytesDouble(l, k[..]);
  }

  // ---------- the chain ----------

  method Absorb(aes: Cipher, t: Block, m: array<bv8>, i: nat) returns (r: Block)
    requires 16 * i + 16 <= m.Length
    ensures r == aes(XorBlock(t, m[16 * i..16 * i + 16]))
  {
    hide Xor;
    var tmp := new bv8[16];
    for j := 0 to 16
      invariant forall k :: 0 <= k < j ==> tmp[k] == Xor(t[k], m[16 * i + k])
    {
      tmp[j] := Xor(t[j], m[16 * i + j]);
    }
    assert tmp[..] == XorBlock(t, m[16 * i..16 * i + 16]);
    r := aes(tmp[..]);
  }

  lemma XorTurned(t: bv8, k: bv8, m: bv8)
    ensures Xor(Xor(t, k), m) == Xor(Xor(m, k), t)
  {
  }

  method AbsorbLast(aes: Cipher, t: Block, k: array<bv8>, m: array<bv8>, i: nat) returns (r: Block)
    requires 16 * i + 16 <= m.Length && k.Length == 16
    ensures r == aes(XorBlock(XorBlock(m[16 * i..16 * i + 16], k[..]), t))
  {
    hide Xor;
    var tmp := new bv8[16];
    for j := 0 to 16
      invariant forall c :: 0 <= c < j ==> tmp[c] == Xor(Xor(m[16 * i + c], k[c]), t[c])
    {
      tmp[j] := Xor(Xor(t[j], k[j]), m[16 * i + j]);
      XorTurned(t[j], k[j], m[16 * i + j]);
    }
    assert tmp[..] == XorBlock(XorBlock(m[16 * i..16 * i + 16], k[..]), t);
    r := aes(tmp[..]);
  }

  method AbsorbBlocks(aes: Cipher, m: array<bv8>, n: nat) returns (t: Block)
    requires 16 * n <= m.Length
    ensures t == Chain(aes, m[..16 * n])
  {
    hide XorBlock;
    t := ZERO_BLOCK;
    for i := 0 to n
      invariant t == Chain(aes, m[..16 * i])
    {
      ghost var done := m[..16 * i + 16];
      assert done[..|done| - 16] == m[..16 * i] && done[|done| - 16..] == m[16 * i..16 * i + 16];
      t := Absorb(aes, t, m, i);
    }
  }

  // ---------- padding ----------

  lemma ShiftIsMask(s: nat)
    requires s < 8
    ensures (1 as bv8) << s == BitMask(7 - s)
  {
  }

  /** The one bit lands right after the message. */
  lemma PadPosition(total: nat, n: nat, pad: nat)
    requires total % 128 != 0 && n == (total + 127) / 128 && pad == 128 - total % 128 - 1
    ensures (n - 1) * 16 + (15 - pad / 8) == total / 8
    ensures pad % 8 == 7 - total % 8
    ensures total / 8 < 16 * n
  {
    var q, r := total / 128, total % 128;
    assert total == 128 * q + r && n == q + 1;
    assert total / 8 == 16 * q + r / 8 && total % 8 == r % 8;
    assert pad / 8 == 15 - r / 8;
  }

  lemma PackWithOneBit(b: seq<bool>, k: nat)
    requires k <= |b| / 8
    ensures k < |b| / 8 ==> Pack(b + [true])[k] == Pack(b)[k]
    ensures k == |b| / 8 ==> Pack(b + [true])[k] == SetBit(if |b| % 8 == 0 then 0 else Pack(b)[k], |b| % 8, true)
  {
    hide SetBit;
    var e := b + [true];
    if k < |b| / 8 {
      assert Octet(e, k) == Octet(b, k);
    } else {
      var o := Octet(e, k);
      assert o == b[8 * k..] + [true];
      assert o[..|o| - 1] == b[8 * k..];
      if |b| % 8 != 0 {
        assert Octet(b, k) == b[8 * k..];
      } else {
        assert b[8 * k..] == [];
        PackNothing();
      }
    }
  }

  /** `m` holds the message bits, with zeros after them. */
  ghost predicate Holds(m: seq<bv8>, b: seq<bool>) {
    |Pack(b)| <= |m| && m == Pack(b) + Zeros(|m| - |Pack(b)|)
  }

  lemma HeldByte(m: seq<bv8>, b: seq<bool>, k: nat)
    requires Holds(m, b) && k < |m|
    ensures m[k] == if k < |Pack(b)| then Pack(b)[k] else 0
  {
    hide Pack;
  }

  lemma AlignedByte(x: seq<bv8>, k: nat)
    requires k < |Aligned(x)|
    ensures Aligned(x)[k] == if k < |x| then x[k] else 0
  {
  }

  lemma PadArithmetic(t: nat, n: nat)
    requires t % 128 != 0 && n == (t + 127) / 128
    ensures (t + 1 + 7) / 8 == t / 8 + 1 && (t + 7) / 8 == t / 8 + (if t % 8 == 0 then 0 else 1)
    ensures 16 * (n - 1) < t / 8 + 1 <= 16 * n
  {
    var q, r := t / 128, t % 128;
    assert t == 128 * q + r && n == q + 1;
    assert t / 8 == 16 * q + r / 8;
  }

  lemma AlignedLength(m: seq<bv8>, n: nat)
    requires 16 * (n - 1) < |m| <= 16 * n
    ensures |Aligned(m)| == 16 * n
  {
  }

  lemma PaddedLength(b: seq<bool>, n: nat)
    requires |b| % 128 != 0 && n == (|b| + 127) / 128
    ensures |Pack(b + [true])| == |b| / 8 + 1 && |Aligned(Pack(b + [true]))| == 16 * n
    ensures |Pack(b)| == |b| / 8 + if |b| % 8 == 0 then 0 else 1
  {
    hide Pack, Aligned;
    PadArithmetic(|b|, n);
    AlignedLength(Pack(b + [true]), n);
  }

  lemma PaddedByte(m: seq<bv8>, b: seq<bool>, n: nat, k: nat)
    requires Holds(m, b) && |b| % 128 != 0 && n == (|b| + 127) / 128 && k < 16 * n <= |m|
    ensures |Aligned(Pack(b + [true]))| == 16 * n
    ensures Aligned(Pack(b + [true]))[k] == if k == |b| / 8 then SetBit(m[k], |b| % 8, true) else m[k]
  {
    hide SetBit, Pack, Holds, Aligned;
    PaddedLength(b, n);
    HeldByte(m, b, k);
    AlignedByte(Pack(b + [true]), k);
    if k <= |b| / 8 {
      PackWithOneBit(b, k);
    }
  }

  /** Setting one bit turns the buffer into the padded message. */
  method PadBuffer(m: array<bv8>, total: nat, n: nat, ghost b: seq<bool>)
    requires total == |b| && total % 128 != 0 && n == (total + 127) / 128 && 16 * n <= m.Length && Holds(m[..], b)
    modifies m
    ensures m[..16 * n] == Aligned(Pack(b + [true]))
    ensures m[..16 * (n - 1)] == old(m[..16 * (n - 1)])
  {
    hide SetBit, Pack, Holds, Aligned;
    var pad := (128 - total % 128) - 1;
    PadPosition(total, n, pad);
    ghost var before := m[..];
    SetBitInPlace(m, (n - 1) * 16 + (15 - pad / 8), pad % 8);
    forall k | 0 <= k < 16 * n
      ensures |Aligned(Pack(b + [true]))| == 16 * n && m[k] == Aligned(Pack(b + [true]))[k]
    {
      PaddedByte(before, b, n, k);
    }
    PaddedByte(before, b, n, 0);
  }

  // ---------- the MAC ----------

  /** The part both overloads share: chain the blocks of the buffer, mask and pad the last one. */
  method Generate(aes: Cipher, m: array<bv8>, total: nat, ghost b: seq<bool>) returns (t: Block)
    requires 0 < total == |b| && m.Length >= 16 * ((total + 127) / 128) && Holds(m[..], b)
    modifies m
    ensures t == OfBits(aes, b)
  {
    hide Pack, XorBlock, Chain, Double, Aligned, Finish, Holds;
    var l := aes(ZERO_BLOCK);
    var k1 := Subkey(l);
    var k2 := Subkey(k1[..]);
    var n := (total + 127) / 128;
    t := AbsorbBlocks(aes, m, n - 1);
    if total % 128 == 0 {
      WholeBlocks(m[..], b, n);
      t := AbsorbLast(aes, t, k1, m, n - 1);
      FinishInBuffer(aes, m[..], n, k1[..]);
    } else {
      PadBuffer(m, total, n, b);
      t := AbsorbLast(aes, t, k2, m, n - 1);
      FinishInBuffer(aes, m[..], n, k2[..]);
    }
  }

  lemma WholeBlocks(m: seq<bv8>, b: seq<bool>, n: nat)
    requires Holds(m, b) && |b| == 128 * n
    ensures 16 * n <= |m| && m[..16 * n] == Pack(b)
  {
    hide Pack;
    assert |Pack(b)| == 16 * n;
  }

  lemma FinishInBuffer(aes: Cipher, m: seq<bv8>, n: nat, k: Block)
    requires 0 < n && 16 * n <= |m|
    ensures Finish(aes, m[..16 * n], k)
            == aes(XorBlock(XorBlock(m[16 * (n - 1)..16 * (n - 1) + 16], k), Chain(aes, m[..16 * (n - 1)])))
  {
    hide XorBlock, Chain;
    var a := m[..16 * n];
    assert a[..|a| - 16] == m[..16 * (n - 1)] && a[|a| - 16..] == m[16 * (n - 1)..16 * (n - 1) + 16];
  }

  method SetBitInPlace(m: array<bv8>, i: nat, s: nat)
    requires i < m.Length && s < 8
    modifies m
    ensures m[..] == old(m[..])[i := SetBit(old(m[i]), 7 - s, true)]
  {
    hide BitMask;
    ShiftIsMask(s);
    m[i] := m[i] | ((1 as bv8) << s);
  }

  /** AES itself: a block cipher for each 128-bit key. */
  type CipherFamily = Block -> Cipher

  /** The overload on bytes. */
  method ByteMac(aes: CipherFamily, key: array?<bv8>, count: bv32, bearer: bv8, direction: bv8,
                 msg: array?<bv8>, len: nat, mac: array?<bv8>) returns (ok: bool)
    requires len + 8 <= FLOAT_EXACT
    requires key != null ==> key.Length == 16
    requires msg != null ==> len <= msg.Length
    requires mac != null ==> 4 <= mac.Length
    modifies mac
    ensures ok <==> key != null && msg != null && mac != null
    ensures ok ==> mac[..4] == MacOfBytes(aes(old(key[..])), Header(count, bearer, direction), old(msg[..len]))
    ensures mac != null ==> mac[4..] == old(mac[4..]) && (!ok ==> mac[..4] == old(mac[..4]))
  {
    if key == null || msg == null || mac == null {
      return false;
    }
    hide Header, OfBytes, OfBits, Expand;
    var h := Header(count, bearer, direction);
    var m := new bv8[len + 8 + 16](_ => 0);
    FillBytes(m, h, msg, len);
    ghost var text := h + msg[..len];
    BytesHeld(m[..], text);
    var t := Generate(aes(key[..]), m, 8 * len + 64, Expand(text));
    FormsAgree(aes(key[..]), text);
    CopyMac(t, mac);
    ok := true;
  }

  method FillHeader(m: array<bv8>, h: seq<bv8>)
    requires |h| == 8 <= m.Length
    requires forall k :: 0 <= k < m.Length ==> m[k] == 0
    modifies m
    ensures forall k :: 0 <= k < 8 ==> m[k] == h[k]
    ensures forall k :: 8 <= k < m.Length ==> m[k] == 0
  {
    for i := 0 to 8
      invariant forall k :: 0 <= k < i ==> m[k] == h[k]
      invariant forall k :: 8 <= k < m.Length ==> m[k] == 0
    {
      m[i] := h[i];
    }
  }

  method FillBytes(m: array<bv8>, h: seq<bv8>, msg: array<bv8>, len: nat)
    requires |h| == 8 && m.Length == len + 8 + 16 && len <= msg.Length && m != msg
    requires forall k :: 0 <= k < m.Length ==> m[k] == 0
    modifies m
    ensures m[..] == h + msg[..len] + Zeros(16)
  {
    FillHeader(m, h);
    for i := 0 to len
      invariant forall k :: 0 <= k < 8 ==> m[k] == h[k]
      invariant forall k :: 0 <= k < i ==> m[8 + k] == msg[k]
      invariant forall k :: 8 + i <= k < m.Length ==> m[k] == 0
    {
      m[8 + i] := msg[i];
    }
    forall k | 0 <= k < m.Length
      ensures m[k] == (h + msg[..len] + Zeros(16))[k]
    {
      assert 8 <= k < 8 + len ==> m[8 + (k - 8)] == msg[k - 8];
    }
  }

  lemma BytesHeld(m: seq<bv8>, text: seq<bv8>)
    requires |text| <= |m| && m == text + Zeros(|m| - |text|)
    ensures Holds(m, Expand(text))
  {
    hide Pack, Expand;
    PackAfterBytes(text, []);
    assert Expand(text) + [] == Expand(text) && text + Pack([]) == text;
  }

  method CopyMac(t: Block, mac: array<bv8>)
    requires 4 <= mac.Length
    modifies mac
    ensures mac[..4] == t[..4] && mac[4..] == old(mac[4..])
  {
    for i := 0 to 4
      invariant forall k :: 0 <= k < i ==> mac[k] == t[k]
      invariant forall k :: 4 <= k < mac.Length ==> mac[k] == old(mac[k])
    {
      mac[i] := t[i];
    }
  }

  // ---------- the overload on bits ----------

  /** A bit array as the message holds it, one bit per byte. */
  ghost predicate IsBitArray(s: seq<bv8>) { forall i :: 0 <= i < |s| ==> s[i] == 0 || s[i] == 1 }

  function ToBools(s: seq<bv8>): (b: seq<bool>)
    ensures |b| == |s|
  {
    seq(|s|, i requires 0 <= i < |s| => s[i] == 1)
  }

  function WithBit(x: bv8, v: bv8, j: nat): bv8
    requires j < 8
  {
    x | (v << (7 - j))
  }

  lemma BitShifted(x: bv8, v: bv8, j: nat)
    requires j < 8 && (v == 0 || v == 1)
    ensures WithBit(x, v, j) == SetBit(x, j, v == 1)
  {
    ShiftIsMask(7 - j);
    if v == 0 {
      assert (0 as bv8) << (7 - j) == 0;
    }
  }

  /** The inner loops: up to eight bits of the message collected into byte `at` of the buffer. */
  method CollectByte(m: array<bv8>, at: nat, msg: array<bv8>, from: nat, count: nat)
    requires at < m.Length && from + count <= msg.Length && count <= 8 && m != msg && IsBitArray(msg[..])
    modifies m
    ensures m[..] == old(m[..])[at := PackByte(ToBools(msg[from..from + count]))]
  {
    hide SetBit, PackByte, WithBit;
    var b := ToBools(msg[from..from + count]);
    PackNothing();
    assert b[..0] == [];
    m[at] := 0;
    for j := 0 to count
      invariant m[at] == PackByte(b[..j])
      invariant forall k :: 0 <= k < m.Length && k != at ==> m[k] == old(m[k])
    {
      PackPrefix(b, j);
      assert msg[..][from + j] == msg[from + j];
      BitShifted(m[at], msg[from + j], j);
      m[at] := WithBit(m[at], msg[from + j], j);
    }
    assert b[..count] == b;
  }

  lemma WholeOctet(msg: seq<bv8>, n: nat, i: nat)
    requires 8 * i + 8 <= n <= |msg|
    ensures Octet(ToBools(msg[..n]), i) == ToBools(msg[8 * i..8 * i + 8])
  {
  }

  lemma LastOctet(msg: seq<bv8>, n: nat)
    requires n <= |msg| && n % 8 != 0
    ensures Octet(ToBools(msg[..n]), n / 8) == ToBools(msg[8 * (n / 8)..8 * (n / 8) + n % 8])
  {
    assert n == 8 * (n / 8) + n % 8;
  }

  lemma PackAt(b: seq<bool>, k: nat)
    requires k < |Pack(b)|
    ensures 8 * k <= |b| && Pack(b)[k] == PackByte(Octet(b, k))
  {
    hide PackByte, Octet;
  }

  method FillBits(m: array<bv8>, h: seq<bv8>, msg: array<bv8>, n: nat)
    requires |h| == 8 && m.Length == 8 * n + 8 + 16 && n <= msg.Length && m != msg && IsBitArray(msg[..])
    requires forall k :: 0 <= k < m.Length ==> m[k] == 0
    modifies m
    ensures Holds(m[..], Expand(h) + ToBools(msg[..n]))
  {
    hide PackByte, Expand, Pack, Octet, ToBools, Holds;
    ghost var all := msg[..];
    ghost var b := ToBools(all[..n]);
    assert msg[..n] == all[..n];
    FillHeader(m, h);
    for i := 0 to n / 8
      invariant forall k :: 0 <= k < 8 ==> m[k] == h[k]
      invariant forall k :: 0 <= k < i ==> m[8 + k] == Pack(b)[k]
      invariant forall k :: 8 + i <= k < m.Length ==> m[k] == 0
    {
      WholeOctet(all, n, i);
      PackAt(b, i);
      assert msg[8 * i..8 * i + 8] == all[8 * i..8 * i + 8];
      CollectByte(m, 8 + i, msg, 8 * i, 8);
    }
    if n % 8 != 0 {
      LastOctet(all, n);
      PackAt(b, n / 8);
      assert msg[8 * (n / 8)..8 * (n / 8) + n % 8] == all[8 * (n / 8)..8 * (n / 8) + n % 8];
      CollectByte(m, 8 + n / 8, msg, 8 * (n / 8), n % 8);
    }
    BitsHeld(m[..], h, b);
  }

  lemma BitsHeld(m: seq<bv8>, h: seq<bv8>, b: seq<bool>)
    requires |h| == 8 && 8 + |Pack(b)| <= |m|
    requires forall k :: 0 <= k < 8 ==> m[k] == h[k]
    requires forall k :: 0 <= k < |Pack(b)| ==> m[8 + k] == Pack(b)[k]
    requires forall k :: 8 + |Pack(b)| <= k < |m| ==> m[k] == 0
    ensures Holds(m, Expand(h) + b)
  {
    hide Pack, Expand;
    PackAfterBytes(h, b);
    var r := h + Pack(b) + Zeros(|m| - 8 - |Pack(b)|);
    forall k | 0 <= k < |m|
      ensures m[k] == r[k]
    {
      assert 8 <= k < 8 + |Pack(b)| ==> m[8 + (k - 8)] == Pack(b)[k - 8];
    }
    assert m == r;
  }

  method BitMac(aes: CipherFamily, key: array?<bv8>, count: bv32, bearer: bv8, direction: bv8,
                msg: array<bv8>, n: nat, mac: array?<bv8>) returns (ok: bool)
    requires n + 64 <= FLOAT_EXACT && n <= msg.Length && IsBitArray(msg[..])
    requires key != null ==> key.Length == 16
    requires mac != null ==> 4 <= mac.Length
    modifies mac
    ensures ok <==> key != null && mac != null
    ensures ok ==> mac[..4] == MacOfBits(aes(old(key[..])), Header(count, bearer, direction), ToBools(old(msg[..n])))
    ensures mac != null ==> mac[4..] == old(mac[4..]) && (!ok ==> mac[..4] == old(mac[..4]))
  {
    if key == null || mac == null {
      return false;
    }
    hide Header, OfBits, Expand;
    var h := Header(count, bearer, direction);
    var m := new bv8[8 * n + 8 + 16](_ => 0);
    FillBits(m, h, msg, n);
    var t := Generate(aes(key[..]), m, n + 64, Expand(h) + ToBools(msg[..n]));
    CopyMac(t, mac);
    ok := true;
  }
}
