/** The confidentiality algorithm 128-EEA1 (`liblte_security_encryption_eea1` and
    `zero_tailing_bits` in lib/src/common/liblte_security.cc; TS 33.401 Annex B.1.2).

    A message of `bits` bits is combined with the SNOW 3G keystream in two loops, one over whole
    words and one over the last bytes, and the bits past the end of the message are cleared.
    Applying the algorithm twice gives back the message with those bits cleared, and a shorter
    encryption is a prefix of a longer one. */
module Eea1 {
  import opened MixColumns
  import opened AlphaField
  import opened Snow3G

  // ---------- specification ----------

  function BytesFor(bits: nat): nat { (bits + 7) / 8 }

  /** `k[i]` holds the key bytes 4 (3 - i) .. 4 (3 - i) + 3, most significant first. */
  function KeyWords(key: seq<bv8>): (k: seq<bv32>)
    requires |key| == 16
    ensures |k| == 4
  {
    seq(4, i requires 0 <= i < 4 =>
      Join(key[4 * (3 - i)], key[4 * (3 - i) + 1], key[4 * (3 - i) + 2], key[4 * (3 - i) + 3]))
  }

  function Vector(count: bv32, bearer: bv8, direction: bv8): (iv: seq<bv32>)
    ensures |iv| == 4
  {
    var id := Header(bearer, direction);
    [id, count, id, count]
  }

  /** Byte `j` of a keystream word, most significant first: the word shifted down by 8 (3 - j). */
  function WordByte(w: bv32, j: nat): bv8
    requires j < 4
  {
    if j == 0 then ((w >> 24) & 0xFF) as bv8
    else if j == 1 then ((w >> 16) & 0xFF) as bv8
    else if j == 2 then ((w >> 8) & 0xFF) as bv8
    else (w & 0xFF) as bv8
  }

  function StreamByte(s: State, i: nat): bv8
    requires s.Valid()
  {
    WordByte(KeyWord(KeyClocks(s, i / 4 + 1)), i % 4)
  }

  /** The mask that keeps the bits of the last byte; `unused` of them lie past the message. */
  function TailMask(unused: nat): bv8
    requires unused < 8
  {
    0xFF << unused
  }

  function Unused(bits: nat): (u: nat)
    ensures u < 8
  {
    (8 - bits % 8) % 8
  }

  function Masked(b: bv8, m: bv8): bv8 { b & m }

  /** `zero_tailing_bits`: the bits past `bits` in the last byte become zero. */
  function ClearTail(data: seq<bv8>, bits: nat): (r: seq<bv8>)
    requires bits > 0 && |data| == BytesFor(bits)
    ensures |r| == |data|
  {
    data[BytesFor(bits) - 1 := Masked(data[BytesFor(bits) - 1], TailMask(Unused(bits)))]
  }

  /** The message bytes combined with the keystream that follows the state `s`. */
  function Combined(s: State, msg: seq<bv8>, n: nat): (r: seq<bv8>)
    requires s.Valid() && n <= |msg|
    ensures |r| == n
  {
    seq(n, i requires 0 <= i < n => Xor(msg[i], StreamByte(s, i)))
  }

  function Start(key: seq<bv8>, count: bv32, bearer: bv8, direction: bv8): (s: State)
    requires |key| == 16
    ensures s.Valid()
  {
    Initialized(KeyWords(key), Vector(count, bearer, direction))
  }

  function Encrypted(s: State, msg: seq<bv8>, bits: nat): (r: seq<bv8>)
    requires s.Valid() && bits > 0 && |msg| >= BytesFor(bits)
    ensures |r| == BytesFor(bits)
  {
    ClearTail(Combined(s, msg, BytesFor(bits)), bits)
  }

  // ---------- properties ----------

  lemma XorTwiceBytes(b: bv8, k: bv8)
    ensures Xor(Xor(b, k), k) == b
  {
  }

  lemma MaskedXorTwice(b: bv8, k: bv8, m: bv8, r: bv8)
    requires r == Masked(Xor(Masked(Xor(b, k), m), k), m)
    ensures r == Masked(b, m)
  {
  }

  /** Decrypting an encryption gives the message, with the bits past its length cleared. */
  lemma EncryptionIsItsOwnInverse(s: State, msg: seq<bv8>, bits: nat)
    requires s.Valid() && bits > 0 && |msg| >= BytesFor(bits)
    ensures Encrypted(s, Encrypted(s, msg, bits), bits) == ClearTail(msg[..BytesFor(bits)], bits)
  {
    hide Xor, Masked, StreamByte, TailMask;
    var n := BytesFor(bits);
    var m := TailMask(Unused(bits));
    var once := Encrypted(s, msg, bits);
    var twice := Encrypted(s, once, bits);
    forall i | 0 <= i < n
      ensures twice[i] == ClearTail(msg[..n], bits)[i]
    {
      var k := StreamByte(s, i);
      XorTwiceBytes(msg[i], k);
      MaskedXorTwice(msg[i], k, m, Masked(Xor(Masked(Xor(msg[i], k), m), k), m));
    }
  }

  lemma MaskTwice(b: bv8, u: nat, v: nat)
    requires v <= u < 8
    ensures Masked(Masked(b, TailMask(v)), TailMask(u)) == Masked(b, TailMask(u))
  {
    TailMaskTable(u);
    TailMaskTable(v);
  }

  lemma TailMaskTable(u: nat)
    requires u < 8
    ensures TailMask(u) == if u == 0 then 0xFF else if u == 1 then 0xFE else if u == 2 then 0xFC
                           else if u == 3 then 0xF8 else if u == 4 then 0xF0 else if u == 5 then 0xE0
                           else if u == 6 then 0xC0 else 0x80
  {
  }

  /** The encryption of a prefix is the prefix of the encryption. */
  lemma EncryptionIsPrefixStable(s: State, msg: seq<bv8>, short: nat, long: nat)
    requires s.Valid() && 0 < short <= long && |msg| >= BytesFor(long)
    ensures BytesFor(short) <= BytesFor(long)
    ensures Encrypted(s, msg, short) == ClearTail(Encrypted(s, msg, long)[..BytesFor(short)], short)
  {
    ShorterIsNotLonger(short, long);
    hide *;
    var n := BytesFor(short);
    var a, c := Encrypted(s, msg, short), ClearTail(Encrypted(s, msg, long)[..n], short);
    forall i | 0 <= i < n
      ensures a[i] == c[i]
    {
      PrefixByte(s, msg, short, long, i);
    }
  }

  lemma PrefixByte(s: State, msg: seq<bv8>, short: nat, long: nat, i: nat)
    requires s.Valid() && 0 < short <= long && |msg| >= BytesFor(long) >= BytesFor(short) > i
    ensures Encrypted(s, msg, short)[i] == ClearTail(Encrypted(s, msg, long)[..BytesFor(short)], short)[i]
  {
    ShorterIsNotLonger(short, long);
    hide *;
    var n := BytesFor(short);
    EncryptedAt(s, msg, short, i);
    EncryptedAt(s, msg, long, i);
    ClearTailAt(Encrypted(s, msg, long)[..n], short, i);
    if i == n - 1 && n == BytesFor(long) {
      MaskTwice(Xor(msg[i], StreamByte(s, i)), Unused(short), Unused(long));
    }
  }

  lemma ShorterIsNotLonger(short: nat, long: nat)
    requires 0 < short <= long
    ensures 0 < BytesFor(short) <= BytesFor(long)
    ensures BytesFor(short) == BytesFor(long) ==> Unused(long) <= Unused(short)
  {
    UnusedIsTheRest(short);
    UnusedIsTheRest(long);
    hide Unused;
  }

  lemma UnusedIsTheRest(bits: nat)
    ensures Unused(bits) == 8 * BytesFor(bits) - bits
  {
    var q, r := bits / 8, bits % 8;
    assert bits == 8 * q + r;
    assert BytesFor(bits) == q + (r + 7) / 8;
  }

  lemma ClearTailAt(data: seq<bv8>, bits: nat, i: nat)
    requires bits > 0 && |data| == BytesFor(bits) && i < |data|
    ensures ClearTail(data, bits)[i] == if i == |data| - 1 then Masked(data[i], TailMask(Unused(bits))) else data[i]
  {
    hide Masked, TailMask;
  }

  /** The bytes of an encryption: message and keystream combined, the last one masked. */
  lemma EncryptedAt(s: State, msg: seq<bv8>, bits: nat, i: nat)
    requires s.Valid() && bits > 0 && |msg| >= BytesFor(bits) && i < BytesFor(bits)
    ensures var x := Xor(msg[i], StreamByte(s, i));
            Encrypted(s, msg, bits)[i] == if i == BytesFor(bits) - 1 then Masked(x, TailMask(Unused(bits))) else x
  {
    hide Xor, Masked, StreamByte, TailMask;
  }

  // ---------- distinct security contexts ----------

  function Header(bearer: bv8, direction: bv8): bv32 {
    (((bearer & 0x1F) as bv32) << 27) | (((direction & 0x01) as bv32) << 26)
  }

  lemma HeaderIsInjective(b: bv8, d: bv8, b': bv8, d': bv8)
    requires Header(b, d) == Header(b', d')
    ensures b & 0x1F == b' & 0x1F && d & 0x01 == d' & 0x01
  {
  }

  lemma KeyWordsAreInjective(key: seq<bv8>, key': seq<bv8>)
    requires |key| == 16 && |key'| == 16 && KeyWords(key) == KeyWords(key')
    ensures key == key'
  {
    hide Split, KeyWords;
    forall b | 0 <= b < 16
      ensures key[b] == key'[b]
    {
      KeyBytes(key, 3 - b / 4);
      KeyBytes(key', 3 - b / 4);
    }
  }

  lemma KeyBytes(key: seq<bv8>, i: nat)
    requires |key| == 16 && i < 4
    ensures Split(KeyWords(key)[i]) == Quad(key[12 - 4 * i], key[13 - 4 * i], key[14 - 4 * i], key[15 - 4 * i])
  {
    hide Split, Join;
    SplitJoined(Quad(key[12 - 4 * i], key[13 - 4 * i], key[14 - 4 * i], key[15 - 4 * i]));
  }

  /** Two contexts that differ in key, count, bearer or direction never share a generator state. */
  lemma ContextsNeverCollide(key: seq<bv8>, count: bv32, bearer: bv8, direction: bv8,
                             key': seq<bv8>, count': bv32, bearer': bv8, direction': bv8, n: nat)
    requires |key| == 16 && |key'| == 16
    ensures KeyClocks(Start(key, count, bearer, direction), n) == KeyClocks(Start(key', count', bearer', direction'), n)
            <==> key == key' && count == count' && bearer & 0x1F == bearer' & 0x1F && direction & 1 == direction' & 1
  {
    hide Initialized, KeyClocks, KeyWords, Header;
    var k, iv := KeyWords(key), Vector(count, bearer, direction);
    var k', iv' := KeyWords(key'), Vector(count', bearer', direction');
    if key == key' && count == count' && bearer & 0x1F == bearer' & 0x1F && direction & 1 == direction' & 1 {
      SameHeader(bearer, direction, bearer', direction');
    }
    if (k, iv) != (k', iv') {
      StatesNeverMerge(k, iv, k', iv', n);
    } else {
      KeyWordsAreInjective(key, key');
      assert iv[1] == iv'[1] && iv[0] == iv'[0];
      HeaderIsInjective(bearer, direction, bearer', direction');
    }
  }

  lemma SameHeader(b: bv8, d: bv8, b': bv8, d': bv8)
    requires b & 0x1F == b' & 0x1F && d & 0x01 == d' & 0x01
    ensures Header(b, d) == Header(b', d')
  {
  }

  // ---------- the algorithm in place ----------

  /** `zero_tailing_bits`. */
  method ZeroTailingBits(data: array<bv8>, bits: nat)
    requires bits > 0 && data.Length >= BytesFor(bits)
    modifies data
    ensures data[..BytesFor(bits)] == ClearTail(old(data[..BytesFor(bits)]), bits)
    ensures data[BytesFor(bits)..] == old(data[BytesFor(bits)..])
  {
    hide Masked, TailMask;
    var unused := (8 - bits % 8) % 8;
    var last := (bits + 7) / 8 - 1;
    data[last] := Masked(data[last], TailMask(unused));
  }

  /** `liblte_security_encryption_eea1`; decryption is the same call.  The output may be the
      message buffer itself.  The length must be positive and leave room for `msg_len + 31`. */
  method Encrypt(key: array?<bv8>, count: bv32, bearer: bv8, direction: bv8,
                 msg: array?<bv8>, bits: nat, out: array?<bv8>) returns (ok: bool)
    requires 0 < bits <= 0xFFFFFFE0
    requires key != null ==> key.Length == 16 && key != out
    requires msg != null ==> msg.Length >= BytesFor(bits)
    requires out != null ==> out.Length >= BytesFor(bits)
    modifies out
    ensures ok <==> key != null && msg != null && out != null
    ensures ok ==> out[..BytesFor(bits)]
                   == Encrypted(Start(old(key[..]), count, bearer, direction), old(msg[..]), bits)
    ensures out != null ==> out[BytesFor(bits)..] == old(out[BytesFor(bits)..])
    ensures !ok && out != null ==> out[..] == old(out[..])
  {
    if key == null || msg == null || out == null {
      return false;
    }
    hide Encrypted, Start;
    var z := KeystreamFor(key[..], count, bearer, direction, (bits + 31) / 32);
    Combine(msg, bits, out, z, Start(key[..], count, bearer, direction));
    ok := true;
  }

  method KeystreamFor(key: seq<bv8>, count: bv32, bearer: bv8, direction: bv8, words: nat) returns (z: seq<bv32>)
    requires |key| == 16
    ensures z == Keystream(Start(key, count, bearer, direction), words)
  {
    hide KeyWords, Vector, Initialized, KeyClocks, Keystream;
    var machine := new Machine(KeyWords(key), Vector(count, bearer, direction));
    var ks := new bv32[words];
    machine.GenerateKeystream(words, ks);
    z := ks[..];
  }

  method Combine(msg: array<bv8>, bits: nat, out: array<bv8>, z: seq<bv32>, ghost start: State)
    requires bits > 0 && msg.Length >= BytesFor(bits) && out.Length >= BytesFor(bits)
    requires start.Valid() && z == Keystream(start, (bits + 31) / 32)
    modifies out
    ensures out[..BytesFor(bits)] == Encrypted(start, old(msg[..]), bits)
    ensures out[BytesFor(bits)..] == old(out[BytesFor(bits)..])
  {
    hide Keystream, Combined, ClearTail;
    var bytes, words := (bits + 7) / 8, (bits + 31) / 32;
    ghost var text := msg[..];
    CombineWords(msg, out, z, words, bytes, start);
    CombineLastBytes(msg, out, z, words, bytes, start, text);
    ZeroTailingBits(out, bits);
  }

  /** The loop over all words but the last. */
  method CombineWords(msg: array<bv8>, out: array<bv8>, z: seq<bv32>, words: nat, bytes: nat, ghost start: State)
    requires start.Valid() && z == Keystream(start, words)
    requires words > 0 && 4 * (words - 1) <= bytes <= msg.Length && bytes <= out.Length
    modifies out
    ensures forall j :: 0 <= j < 4 * (words - 1) ==> out[j] == Xor(old(msg[j]), StreamByte(start, j))
    ensures forall j :: 4 * (words - 1) <= j < out.Length ==> out[j] == old(out[j])
  {
    hide Xor, WordByte, StreamByte, Keystream;
    for i := 0 to words - 1
      invariant forall j :: 0 <= j < 4 * i ==> out[j] == Xor(old(msg[j]), StreamByte(start, j))
      invariant forall j :: 4 * i <= j < out.Length ==> out[j] == old(out[j])
      invariant forall j :: 4 * i <= j < msg.Length ==> msg[j] == old(msg[j])
    {
      CombineWord(msg, out, z[i], i);
      forall j | 4 * i <= j < 4 * i + 4
        ensures out[j] == Xor(old(msg[j]), StreamByte(start, j))
      {
        StreamAt(start, words, i, j - 4 * i);
      }
    }
  }

  /** The four bytes of one word. */
  method CombineWord(msg: array<bv8>, out: array<bv8>, w: bv32, i: nat)
    requires 4 * i + 4 <= msg.Length && 4 * i + 4 <= out.Length
    modifies out
    ensures forall j :: 4 * i <= j < 4 * i + 4 ==> out[j] == Xor(old(msg[j]), WordByte(w, j - 4 * i))
    ensures forall j :: 0 <= j < out.Length && !(4 * i <= j < 4 * i + 4) ==> out[j] == old(out[j])
  {
    hide Xor, WordByte;
    out[4 * i] := Xor(msg[4 * i], WordByte(w, 0));
    out[4 * i + 1] := Xor(msg[4 * i + 1], WordByte(w, 1));
    out[4 * i + 2] := Xor(msg[4 * i + 2], WordByte(w, 2));
    out[4 * i + 3] := Xor(msg[4 * i + 3], WordByte(w, 3));
  }

  lemma StreamAt(start: State, words: nat, i: nat, r: nat)
    requires start.Valid() && i < words && r < 4
    ensures StreamByte(start, 4 * i + r) == WordByte(Keystream(start, words)[i], r)
  {
    hide WordByte, KeyWord, KeyClocks;
    assert (4 * i + r) / 4 == i && (4 * i + r) % 4 == r;
  }

  /** The loop over the bytes of the last word. */
  method CombineLastBytes(msg: array<bv8>, out: array<bv8>, z: seq<bv32>, words: nat, bytes: nat,
                          ghost start: State, ghost text: seq<bv8>)
    requires start.Valid() && z == Keystream(start, words)
    requires words > 0 && 4 * (words - 1) < bytes <= 4 * words && bytes <= msg.Length && bytes <= out.Length
    requires |text| == msg.Length
    requires forall j :: 4 * (words - 1) <= j < bytes ==> msg[j] == text[j]
    requires forall j :: 0 <= j < 4 * (words - 1) ==> out[j] == Xor(text[j], StreamByte(start, j))
    modifies out
    ensures out[..bytes] == Combined(start, text, bytes)
    ensures out[bytes..] == old(out[bytes..])
  {
    hide Xor, WordByte, StreamByte, Keystream;
    for i := 4 * (words - 1) to bytes
      invariant forall j :: 0 <= j < i ==> out[j] == Xor(text[j], StreamByte(start, j))
      invariant forall j :: i <= j < out.Length ==> out[j] == old(out[j])
      invariant forall j :: i <= j < bytes ==> msg[j] == text[j]
    {
      StreamAt(start, words, i / 4, i % 4);
      out[i] := Xor(msg[i], WordByte(z[i / 4], i % 4));
    }
  }
}
