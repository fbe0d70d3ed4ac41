/** The first published test set through the whole cipher (lib/test/common/test_eea1.cc): 253 bits, in
    literal bytes. */
module Eea1TestSet {
  import opened MixColumns
  import opened Snow3G
  import opened Eea1
  import Set = Snow3GTestSet

  const KEY_BYTES: seq<bv8> :=
    [0xd3, 0xc5, 0xd5, 0x92, 0x32, 0x7f, 0xb1, 0x1c,
     0x40, 0x35, 0xc6, 0x68, 0x0a, 0xf8, 0xc6, 0xd1]

  const MESSAGE: seq<bv8> :=
    [0x98, 0x1b, 0xa6, 0x82, 0x4c, 0x1b, 0xfb, 0x1a,
     0xb4, 0x85, 0x47, 0x20, 0x29, 0xb7, 0x1d, 0x80,
     0x8c, 0xe3, 0x3e, 0x2c, 0xc3, 0xc0, 0xb5, 0xfc,
     0x1f, 0x3d, 0xe8, 0xa6, 0xdc, 0x66, 0xb1, 0xf0]

  const PUBLISHED: seq<bv8> :=
    [0x5d, 0x5b, 0xfe, 0x75, 0xeb, 0x04, 0xf6, 0x8c,
     0xe0, 0xa1, 0x23, 0x77, 0xea, 0x00, 0xb3, 0x7d,
     0x47, 0xc6, 0xa0, 0xba, 0x06, 0x30, 0x91, 0x55,
     0x08, 0x6a, 0x85, 0x9c, 0x43, 0x41, 0xb3, 0x78]

  lemma KeyIs()
    ensures KeyWords(KEY_BYTES) == Set.KEY
  {
  }

  lemma VectorIs()
    ensures Vector(0x398a59b4, 0x15, 1) == Set.VECTOR
  {
  }

  lemma StreamWords(key: seq<bv8>, count: bv32, bearer: bv8, direction: bv8)
    requires key == KEY_BYTES && count == 0x398a59b4 && bearer == 0x15 && direction == 1
    ensures Keystream(Start(key, count, bearer, direction), 8) == [
              0xc54058f7, 0xa71f0d96, 0x54246457, 0xc3b7aefd,
              0xcb259e96, 0xc5f024a9, 0x17576d3a, 0x9f27028c]
  {
    KeyIs();
    VectorIs();
    hide Initialized, Keystream, KeyWords, Vector;
    Set.PublishedKeystream();
  }

  lemma Lengths()
    ensures BytesFor(253) == 32 && TailMask(Unused(253)) == 0xf8
  {
    TailMaskTable(3);
  }

  predicate FourAgree(c: seq<bv8>, d: seq<bv8>, q: nat)
    requires q < 8
  {
    && |c| == 32 && |d| == 32
    && c[4 * q] == d[4 * q] && c[4 * q + 1] == d[4 * q + 1]
    && c[4 * q + 2] == d[4 * q + 2] && c[4 * q + 3] == d[4 * q + 3]
  }

  lemma AllAgree(c: seq<bv8>, d: seq<bv8>)
    requires FourAgree(c, d, 0) && FourAgree(c, d, 1) && FourAgree(c, d, 2) && FourAgree(c, d, 3)
    requires FourAgree(c, d, 4) && FourAgree(c, d, 5) && FourAgree(c, d, 6) && FourAgree(c, d, 7)
    ensures c == d
  {
  }

  /** Byte `4 * q + r`, from the word it takes its keystream from. */
  lemma ByteOf(s: State, msg: seq<bv8>, q: nat, r: nat, w: bv32)
    requires s.Valid() && |msg| == 32 && q < 8 && r < 4 && Keystream(s, 8)[q] == w
    ensures BytesFor(253) == 32
    ensures var x := Xor(msg[4 * q + r], WordByte(w, r));
            Encrypted(s, msg, 253)[4 * q + r] == if 4 * q + r == 31 then Masked(x, 0xf8) else x
  {
    hide Keystream, Encrypted, StreamByte, Xor, WordByte, Masked, TailMask;
    Lengths();
    EncryptedAt(s, msg, 253, 4 * q + r);
    StreamAt(s, 8, q, r);
  }

  lemma Bytes0(s: State)
    requires s.Valid() && Keystream(s, 8)[0] == 0xc54058f7
    ensures FourAgree(Encrypted(s, MESSAGE, 253), PUBLISHED, 0)
  {
    hide Encrypted, Keystream;
    Lengths();
    ByteOf(s, MESSAGE, 0, 0, 0xc54058f7);
    ByteOf(s, MESSAGE, 0, 1, 0xc54058f7);
    ByteOf(s, MESSAGE, 0, 2, 0xc54058f7);
    ByteOf(s, MESSAGE, 0, 3, 0xc54058f7);
    var c := Encrypted(s, MESSAGE, 253);
    assert c[0] == 0x5d && c[1] == 0x5b && c[2] == 0xfe && c[3] == 0x75;
  }

  lemma Bytes1(s: State)
    requires s.Valid() && Keystream(s, 8)[1] == 0xa71f0d96
    ensures FourAgree(Encrypted(s, MESSAGE, 253), PUBLISHED, 1)
  {
    hide Encrypted, Keystream;
    Lengths();
    ByteOf(s, MESSAGE, 1, 0, 0xa71f0d96);
    ByteOf(s, MESSAGE, 1, 1, 0xa71f0d96);
    ByteOf(s, MESSAGE, 1, 2, 0xa71f0d96);
    ByteOf(s, MESSAGE, 1, 3, 0xa71f0d96);
    var c := Encrypted(s, MESSAGE, 253);
    assert c[4] == 0xeb && c[5] == 0x04 && c[6] == 0xf6 && c[7] == 0x8c;
  }

  lemma Bytes2(s: State)
    requires s.Valid() && Keystream(s, 8)[2] == 0x54246457
    ensures FourAgree(Encrypted(s, MESSAGE, 253), PUBLISHED, 2)
  {
    hide Encrypted, Keystream;
    Lengths();
    ByteOf(s, MESSAGE, 2, 0, 0x54246457);
    ByteOf(s, MESSAGE, 2, 1, 0x54246457);
    ByteOf(s, MESSAGE, 2, 2, 0x54246457);
    ByteOf(s, MESSAGE, 2, 3, 0x54246457);
    var c := Encrypted(s, MESSAGE, 253);
    assert c[8] == 0xe0 && c[9] == 0xa1 && c[10] == 0x23 && c[11] == 0x77;
  }

  lemma Bytes3(s: State)
    requires s.Valid() && Keystream(s, 8)[3] == 0xc3b7aefd
    ensures FourAgree(Encrypted(s, MESSAGE, 253), PUBLISHED, 3)
  {
    hide Encrypted, Keystream;
    Lengths();
    ByteOf(s, MESSAGE, 3, 0, 0xc3b7aefd);
    ByteOf(s, MESSAGE, 3, 1, 0xc3b7aefd);
    ByteOf(s, MESSAGE, 3, 2, 0xc3b7aefd);
    ByteOf(s, MESSAGE, 3, 3, 0xc3b7aefd);
    var c := Encrypted(s, MESSAGE, 253);
    assert c[12] == 0xea && c[13] == 0x00 && c[14] == 0xb3 && c[15] == 0x7d;
  }

  lemma Bytes4(s: State)
    requires s.Valid() && Keystream(s, 8)[4] == 0xcb259e96
    ensures FourAgree(Encrypted(s, MESSAGE, 253), PUBLISHED, 4)
  {
    hide Encrypted, Keystream;
    Lengths();
    ByteOf(s, MESSAGE, 4, 0, 0xcb259e96);
    ByteOf(s, MESSAGE, 4, 1, 0xcb259e96);
    ByteOf(s, MESSAGE, 4, 2, 0xcb259e96);
    ByteOf(s, MESSAGE, 4, 3, 0xcb259e96);
    var c := Encrypted(s, MESSAGE, 253);
    assert c[16] == 0x47 && c[17] == 0xc6 && c[18] == 0xa0 && c[19] == 0xba;
  }

  lemma Bytes5(s: State)
    requires s.Valid() && Keystream(s, 8)[5] == 0xc5f024a9
    ensures FourAgree(Encrypted(s, MESSAGE, 253), PUBLISHED, 5)
  {
    hide Encrypted, Keystream;
    Lengths();
    ByteOf(s, MESSAGE, 5, 0, 0xc5f024a9);
    ByteOf(s, MESSAGE, 5, 1, 0xc5f024a9);
    ByteOf(s, MESSAGE, 5, 2, 0xc5f024a9);
    ByteOf(s, MESSAGE, 5, 3, 0xc5f024a9);
    var c := Encrypted(s, MESSAGE, 253);
    assert c[20] == 0x06 && c[21] == 0x30 && c[22] == 0x91 && c[23] == 0x55;
  }

  lemma Bytes6(s: State)
    requires s.Valid() && Keystream(s, 8)[6] == 0x17576d3a
    ensures FourAgree(Encrypted(s, MESSAGE, 253), PUBLISHED, 6)
  {
    hide Encrypted, Keystream;
    Lengths();
    ByteOf(s, MESSAGE, 6, 0, 0x17576d3a);
    ByteOf(s, MESSAGE, 6, 1, 0x17576d3a);
    ByteOf(s, MESSAGE, 6, 2, 0x17576d3a);
    ByteOf(s, MESSAGE, 6, 3, 0x17576d3a);
    var c := Encrypted(s, MESSAGE, 253);
    assert c[24] == 0x08 && c[25] == 0x6a && c[26] == 0x85 && c[27] == 0x9c;
  }

  lemma Bytes7(s: State)
    requires s.Valid() && Keystream(s, 8)[7] == 0x9f27028c
    ensures FourAgree(Encrypted(s, MESSAGE, 253), PUBLISHED, 7)
  {
    hide Encrypted, Keystream;
    Lengths();
    ByteOf(s, MESSAGE, 7, 0, 0x9f27028c);
    ByteOf(s, MESSAGE, 7, 1, 0x9f27028c);
    ByteOf(s, MESSAGE, 7, 2, 0x9f27028c);
    ByteOf(s, MESSAGE, 7, 3, 0x9f27028c);
    var c := Encrypted(s, MESSAGE, 253);
    assert c[28] == 0x43 && c[29] == 0x41 && c[30] == 0xb3 && c[31] == 0x78;
  }

  lemma FromWords(s: State)
    requires s.Valid() && Keystream(s, 8) == [
               0xc54058f7, 0xa71f0d96, 0x54246457, 0xc3b7aefd,
               0xcb259e96, 0xc5f024a9, 0x17576d3a, 0x9f27028c]
    ensures Encrypted(s, MESSAGE, 253) == PUBLISHED
  {
    hide FourAgree, Encrypted, Keystream;
    Bytes0(s); Bytes1(s); Bytes2(s); Bytes3(s); Bytes4(s); Bytes5(s); Bytes6(s); Bytes7(s);
    AllAgree(Encrypted(s, MESSAGE, 253), PUBLISHED);
  }

  /** The published ciphertext: key, count, bearer, direction and message in, 253 bits out. */
  lemma PublishedCiphertext(key: seq<bv8>, count: bv32, bearer: bv8, direction: bv8, msg: seq<bv8>, c: seq<bv8>)
    requires |key| == 16 && |msg| == 32 && c == Encrypted(Start(key, count, bearer, direction), msg, 253)
    requires key == KEY_BYTES && count == 0x398a59b4 && bearer == 0x15 && direction == 1 && msg == MESSAGE
    ensures c == PUBLISHED
  {
    hide Start, Encrypted, Keystream, Vector, KeyWords, Initialized;
    StreamWords(key, count, bearer, direction);
    FromWords(Start(key, count, bearer, direction));
  }
}
