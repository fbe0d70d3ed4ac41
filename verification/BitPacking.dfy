/** Conversion between values, bit arrays and byte arrays: `liblte_value_2_bits`,
    `liblte_bits_2_value`, `liblte_pack` and `liblte_unpack` in lib/src/asn1/liblte_common.cc.

    A bit array holds one bit per byte, most significant bit first.  Shifts are written as products
    and quotients of powers of two; a bit or-ed into a position that is still clear is added.
    Packing undoes unpacking for every length; unpacking undoes packing exactly for whole bytes,
    because a remainder of bits is packed right-aligned. */
module BitPacking {

  function Pow2(n: nat): (p: nat)
    ensures p > 0
  {
    if n == 0 then 1 else 2 * Pow2(n - 1)
  }

  ghost predicate AreBits(b: seq<nat>) { forall i :: 0 <= i < |b| ==> b[i] < 2 }

  // ---------- one value ----------

  /** The low `n` bits of `v`, most significant first. */
  function ValueBits(v: nat, n: nat): (b: seq<nat>)
    ensures |b| == n
  {
    if n == 0 then [] else ValueBits(v / 2, n - 1) + [v % 2]
  }

  function BitsValue(b: seq<nat>): nat {
    if b == [] then 0 else 2 * BitsValue(b[..|b| - 1]) + b[|b| - 1]
  }

  lemma {:induction false} ValueBitsAreBits(v: nat, n: nat)
    ensures AreBits(ValueBits(v, n))
  {
    if n > 0 {
      ValueBitsAreBits(v / 2, n - 1);
    }
  }

  lemma {:induction false} BitsValueIsSmall(b: seq<nat>)
    requires AreBits(b)
    ensures BitsValue(b) < Pow2(|b|)
  {
    if b != [] {
      BitsValueIsSmall(b[..|b| - 1]);
    }
  }

  /** Value to bits and back: the value modulo 2^n. */
  lemma {:induction false} BitsOfValue(v: nat, n: nat)
    ensures BitsValue(ValueBits(v, n)) == v % Pow2(n)
  {
    if n > 0 {
      var b := ValueBits(v, n);
      assert b[..n - 1] == ValueBits(v / 2, n - 1);
      BitsOfValue(v / 2, n - 1);
      HalvedRemainder(v, Pow2(n - 1));
    }
  }

  lemma HalvedRemainder(v: nat, p: nat)
    requires p > 0
    ensures v % (2 * p) == 2 * ((v / 2) % p) + v % 2
  {
    var q, r := (v / 2) / p, (v / 2) % p;
    assert v / 2 == q * p + r;
    assert v == 2 * (v / 2) + v % 2;
    assert v == q * (2 * p) + (2 * r + v % 2);
    UniqueRemainder(v, 2 * p, q, 2 * r + v % 2);
  }

  lemma UniqueRemainder(v: nat, d: nat, q: nat, r: nat)
    requires d > 0 && v == q * d + r && r < d
    ensures v % d == r && v / d == q
  {
    var q', r' := v / d, v % d;
    assert v == q' * d + r';
    if q < q' {
      Scaled(q + 1, q', d);
    } else if q' < q {
      Scaled(q' + 1, q, d);
    }
  }

  lemma Scaled(a: nat, b: nat, d: nat)
    requires a <= b
    ensures a * d <= b * d
  {
  }

  /** Bits to value and back: the same bits. */
  lemma {:induction false} ValueOfBits(b: seq<nat>)
    requires AreBits(b)
    ensures ValueBits(BitsValue(b), |b|) == b
  {
    if b != [] {
      var n := |b| - 1;
      ValueOfBits(b[..n]);
      assert BitsValue(b) / 2 == BitsValue(b[..n]) && BitsValue(b) % 2 == b[n];
      assert b == b[..n] + [b[n]];
    }
  }

  /** Bit `i` of the array is bit n - 1 - i of the value. */
  lemma {:induction false} ValueBitAt(v: nat, n: nat, i: nat)
    requires i < n
    ensures ValueBits(v, n)[i] == (v / Pow2(n - 1 - i)) % 2
  {
    if i < n - 1 {
      ValueBitAt(v / 2, n - 1, i);
      DivideTwice(v, Pow2(n - 2 - i));
    }
  }

  lemma DivideTwice(v: nat, p: nat)
    requires p > 0
    ensures (v / 2) / p == v / (2 * p)
  {
    var q, r := (v / 2) / p, (v / 2) % p;
    assert v / 2 == q * p + r;
    assert v == q * (2 * p) + (2 * r + v % 2);
    UniqueRemainder(v, 2 * p, q, 2 * r + v % 2);
  }

  /** `liblte_value_2_bits`; the cursor advances by `n`. */
  method Value2Bits(value: nat, bits: array<nat>, from: nat, n: nat) returns (next: nat)
    requires n <= 32 && from + n <= bits.Length
    modifies bits
    ensures next == from + n
    ensures bits[..] == old(bits[..from]) + ValueBits(value, n) + old(bits[from + n..])
  {
    for i := 0 to n
      invariant forall k :: 0 <= k < i ==> bits[from + k] == ValueBits(value, n)[k]
      invariant forall k :: 0 <= k < bits.Length && !(from <= k < from + i) ==> bits[k] == old(bits[k])
    {
      ValueBitAt(value, n, i);
      bits[from + i] := (value / Pow2(n - i - 1)) % 2;
    }
    next := from + n;
  }

  /** `liblte_bits_2_value`. */
  method Bits2Value(bits: array<nat>, from: nat, n: nat) returns (value: nat, next: nat)
    requires n <= 32 && from + n <= bits.Length && AreBits(bits[from..from + n])
    ensures value == BitsValue(bits[from..from + n]) && next == from + n
  {
    hide BitsValue;
    value := 0;
    var b := bits[from..from + n];
    NoBits();
    assert b[..0] == [];
    for i := 0 to n
      invariant value == BitsValue(b[..i]) * Pow2(n - i)
    {
      ValueStep(b, i, n);
      value := value + bits[from + i] * Pow2(n - i - 1);
    }
    assert b[..n] == b;
    next := from + n;
  }

  lemma NoBits()
    ensures BitsValue([]) == 0 && Pow2(0) == 1
  {
  }

  lemma ValueStep(b: seq<nat>, i: nat, n: nat)
    requires i < n && n <= |b|
    ensures BitsValue(b[..i]) * Pow2(n - i) + b[i] * Pow2(n - i - 1) == BitsValue(b[..i + 1]) * Pow2(n - i - 1)
  {
    assert b[..i + 1][..i] == b[..i];
    Shifted(BitsValue(b[..i]), b[i], Pow2(n - i - 1));
  }

  lemma Shifted(x: nat, y: nat, p: nat)
    ensures x * (2 * p) + y * p == (2 * x + y) * p
  {
  }

  // ---------- byte arrays ----------

  /** `liblte_unpack`: eight bits for every byte. */
  function Unpacked(bytes: seq<nat>): (b: seq<nat>)
    ensures |b| == 8 * |bytes|
  {
    if bytes == [] then [] else Unpacked(bytes[..|bytes| - 1]) + ValueBits(bytes[|bytes| - 1], 8)
  }

  /** The bits that go into byte `k`. */
  function Chunk(b: seq<nat>, k: nat): (r: seq<nat>)
    requires 8 * k <= |b|
    ensures |r| <= 8
  {
    if 8 * k + 8 <= |b| then b[8 * k..8 * k + 8] else b[8 * k..]
  }

  /** `liblte_pack`: whole bytes first, then the remaining bits as one more value. */
  function Packed(b: seq<nat>): (bytes: seq<nat>)
    ensures |bytes| == (|b| + 7) / 8
  {
    seq((|b| + 7) / 8, k requires 0 <= k < (|b| + 7) / 8 => BitsValue(Chunk(b, k)))
  }

  lemma {:induction false} UnpackedAt(bytes: seq<nat>, k: nat)
    requires k < |bytes|
    ensures Unpacked(bytes)[8 * k..8 * k + 8] == ValueBits(bytes[k], 8)
  {
    hide ValueBits;
    var n := |bytes| - 1;
    if k < n {
      UnpackedAt(bytes[..n], k);
    }
  }

  lemma PackedAt(b: seq<nat>, k: nat)
    requires k < |Packed(b)|
    ensures 8 * k < |b| && Packed(b)[k] == BitsValue(Chunk(b, k))
  {
  }

  /** Packing undoes unpacking. */
  lemma PackUndoesUnpack(bytes: seq<nat>)
    requires forall i :: 0 <= i < |bytes| ==> bytes[i] < 256
    ensures Packed(Unpacked(bytes)) == bytes
  {
    hide ValueBits, BitsValue, Packed, Unpacked, Pow2;
    forall k | 0 <= k < |bytes|
      ensures Packed(Unpacked(bytes))[k] == bytes[k]
    {
      PackedAt(Unpacked(bytes), k);
      UnpackedAt(bytes, k);
      BitsOfValue(bytes[k], 8);
      EightBits();
    }
  }

  lemma EightBits()
    ensures Pow2(8) == 256
  {
    assert Pow2(4) == 16;
  }

  function Zeros(n: nat): (z: seq<nat>)
    ensures |z| == n
  {
    seq(n, _ => 0)
  }

  /** The remainder of a bit array behind the zeros that right-align it. */
  function Realigned(b: seq<nat>): (r: seq<nat>)
    ensures |r| == 8 * ((|b| + 7) / 8)
  {
    var whole := 8 * (|b| / 8);
    if |b| % 8 == 0 then b else b[..whole] + Zeros(8 - |b| % 8) + b[whole..]
  }

  lemma {:induction false} LeadingZeros(b: seq<nat>, z: nat)
    requires AreBits(b)
    ensures ValueBits(BitsValue(b), z + |b|) == Zeros(z) + b
    decreases |b|
  {
    if b == [] {
      ZeroBits(z);
      assert Zeros(z) + b == Zeros(z);
    } else {
      var n := |b| - 1;
      LeadingZeros(b[..n], z);
      assert BitsValue(b) / 2 == BitsValue(b[..n]) && BitsValue(b) % 2 == b[n];
      assert Zeros(z) + b == Zeros(z) + b[..n] + [b[n]];
    }
  }

  lemma {:induction false} ZeroBits(z: nat)
    ensures ValueBits(0, z) == Zeros(z)
  {
    if z > 0 {
      ZeroBits(z - 1);
      assert Zeros(z) == Zeros(z - 1) + [0];
    }
  }

  /** Unpacking a packed bit array gives its whole bytes, then the remainder right-aligned. */
  lemma UnpackOfPack(b: seq<nat>)
    requires AreBits(b)
    ensures Unpacked(Packed(b)) == Realigned(b)
  {
    hide ValueBits, BitsValue, Unpacked, Packed, Realigned, Zeros;
    var p := Packed(b);
    var u := Unpacked(p);
    forall k | 0 <= k < |p|
      ensures u[8 * k..8 * k + 8] == Realigned(b)[8 * k..8 * k + 8]
    {
      UnpackedAt(p, k);
      PackedAt(b, k);
      RealignedChunk(b, k);
      if 8 * k + 8 <= |b| {
        ValueOfBits(b[8 * k..8 * k + 8]);
      } else {
        LeadingZeros(b[8 * k..], 8 - |b| % 8);
      }
    }
    ChunksDetermine(u, Realigned(b));
  }

  lemma RealignedChunk(b: seq<nat>, k: nat)
    requires 8 * k < |b|
    ensures 8 * k + 8 <= |Realigned(b)|
    ensures Realigned(b)[8 * k..8 * k + 8]
            == if 8 * k + 8 <= |b| then b[8 * k..8 * k + 8] else Zeros(8 - |b| % 8) + b[8 * k..]
  {
    hide Zeros;
    var q, r := |b| / 8, |b| % 8;
    assert |b| == 8 * q + r && |Zeros(8 - r)| == 8 - r && k <= q;
    if r != 0 {
      assert Realigned(b) == b[..8 * q] + (Zeros(8 - r) + b[8 * q..]);
    }
  }

  lemma ChunksDetermine(x: seq<nat>, y: seq<nat>)
    requires |x| == |y| && |x| % 8 == 0
    requires forall k {:trigger x[8 * k..8 * k + 8]} :: 0 <= k < |x| / 8 ==> x[8 * k..8 * k + 8] == y[8 * k..8 * k + 8]
    ensures x == y
  {
    forall i | 0 <= i < |x|
      ensures x[i] == y[i]
    {
      var k := i / 8;
      assert x[8 * k..8 * k + 8][i % 8] == x[i] && y[8 * k..8 * k + 8][i % 8] == y[i];
    }
  }

  /** So packing loses nothing, but gives back the same bit array only for whole bytes. */
  lemma UnpackUndoesPackOnWholeBytes(b: seq<nat>)
    requires AreBits(b)
    ensures Unpacked(Packed(b)) == b <==> |b| % 8 == 0
  {
    UnpackOfPack(b);
  }

  /** Every packed byte is one. */
  lemma PackedAreBytes(b: seq<nat>)
    requires AreBits(b)
    ensures forall k :: 0 <= k < |Packed(b)| ==> Packed(b)[k] < 256
  {
    hide BitsValue, Pow2, Packed;
    EightBits();
    forall k | 0 <= k < |Packed(b)|
      ensures Packed(b)[k] < 256
    {
      PackedAt(b, k);
      BitsValueIsSmall(Chunk(b, k));
      PowersGrow(|Chunk(b, k)|, 8);
    }
  }

  lemma {:induction false} PowersGrow(m: nat, n: nat)
    requires m <= n
    ensures Pow2(m) <= Pow2(n)
    decreases n - m
  {
    if m < n {
      PowersGrow(m, n - 1);
    }
  }

  lemma {:induction false} UnpackedAreBits(bytes: seq<nat>)
    ensures AreBits(Unpacked(bytes))
  {
    hide ValueBits;
    if bytes != [] {
      UnpackedAreBits(bytes[..|bytes| - 1]);
      ValueBitsAreBits(bytes[|bytes| - 1], 8);
    }
  }

  lemma WholeChunk(all: seq<nat>, n: nat, k: nat)
    requires 8 * k + 8 <= n <= |all|
    ensures Chunk(all[..n], k) == all[8 * k..8 * k + 8]
  {
  }

  lemma LastChunk(all: seq<nat>, n: nat)
    requires n <= |all| && n % 8 > 0
    ensures Chunk(all[..n], n / 8) == all[8 * (n / 8)..8 * (n / 8) + n % 8]
  {
  }

  lemma BitsOfSlice(all: seq<nat>, n: nat, from: nat, to: nat)
    requires from <= to <= n <= |all| && AreBits(all[..n])
    ensures AreBits(all[from..to])
  {
    forall i | 0 <= i < to - from
      ensures all[from..to][i] < 2
    {
      assert all[from..to][i] == all[..n][from + i];
    }
  }

  /** `liblte_pack` on arrays. */
  method Pack(bits: array<nat>, n: nat, bytes: array<nat>)
    requires n <= bits.Length && AreBits(bits[..n]) && (n + 7) / 8 <= bytes.Length && bits != bytes
    modifies bytes
    ensures bytes[..(n + 7) / 8] == Packed(bits[..n])
    ensures forall k :: 0 <= k < (n + 7) / 8 ==> bytes[k] < 256
    ensures bytes[(n + 7) / 8..] == old(bytes[(n + 7) / 8..])
  {
    hide BitsValue, Packed, Chunk, AreBits;
    var ptr := 0;
    ghost var all := bits[..];
    assert bits[..n] == all[..n];
    PackedAreBytes(all[..n]);
    for i := 0 to n / 8
      invariant ptr == 8 * i && bits[..] == all
      invariant forall k :: 0 <= k < i ==> bytes[k] == Packed(all[..n])[k]
      invariant forall k :: i <= k < bytes.Length ==> bytes[k] == old(bytes[k])
    {
      BitsOfSlice(all, n, ptr, ptr + 8);
      WholeChunk(all, n, i);
      PackedAt(all[..n], i);
      assert bits[ptr..ptr + 8] == all[ptr..ptr + 8];
      var v;
      v, ptr := Bits2Value(bits, ptr, 8);
      bytes[i] := v;
    }
    if n % 8 > 0 {
      BitsOfSlice(all, n, ptr, ptr + n % 8);
      LastChunk(all, n);
      PackedAt(all[..n], n / 8);
      assert bits[ptr..ptr + n % 8] == all[ptr..ptr + n % 8];
      var v;
      v, ptr := Bits2Value(bits, ptr, n % 8);
      bytes[n / 8] := v;
    }
  }

  /** `liblte_unpack` on arrays. */
  method Unpack(bytes: array<nat>, n: nat, bits: array<nat>)
    requires n <= bytes.Length && 8 * n <= bits.Length && bits != bytes
    modifies bits
    ensures bits[..8 * n] == Unpacked(bytes[..n]) && AreBits(bits[..8 * n])
    ensures bits[8 * n..] == old(bits[8 * n..])
  {
    hide ValueBits, Unpacked, AreBits;
    var ptr := 0;
    NoneUnpacked();
    for i := 0 to n
      invariant ptr == 8 * i && bits[..8 * i] == Unpacked(bytes[..i])
      invariant bits[8 * i..] == old(bits[8 * i..])
    {
      OneMoreByte(bytes[..], i);
      ghost var before := bits[..];
      ptr := Value2Bits(bytes[i], bits, ptr, 8);
      assert bits[..8 * i + 8] == before[..8 * i] + ValueBits(bytes[i], 8);
      assert bits[8 * i + 8..] == before[8 * i + 8..];
    }
    UnpackedAreBits(bytes[..n]);
  }

  lemma NoneUnpacked()
    ensures Unpacked([]) == []
  {
  }

  lemma OneMoreByte(bytes: seq<nat>, i: nat)
    requires i < |bytes|
    ensures Unpacked(bytes[..i + 1]) == Unpacked(bytes[..i]) + ValueBits(bytes[i], 8)
  {
    hide ValueBits;
    assert bytes[..i + 1][..i] == bytes[..i];
  }
}
