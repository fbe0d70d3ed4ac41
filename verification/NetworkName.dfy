/** The network name element (`liblte_mme_pack_network_name_ie` and its unpack in
    lib/src/asn1/liblte_mme.cc; TS 24.008 section 10.5.3.5a): text as septets packed into octets.

    Characters outside the supported part of the alphabet are left out.  The packed octets, read as a
    little-endian number in base 256, are the septets read as one in base 128. */
module NetworkName {
  import opened Buffers
  import opened CommonTypes

  type uint7 = x: int | 0 <= x < 128

  predicate Supported(c: int) {
    c == 0x0A || c == 0x0D || 0x20 <= c <= 0x3F || 0x41 <= c <= 0x5A || 0x61 <= c <= 0x7A
  }

  /** The supported characters of the string from index `i` on. */
  function Kept(s: seq<uint8>, i: nat): (cs: seq<uint7>)
    requires i <= |s|
    ensures |cs| <= |s| - i && forall j :: 0 <= j < |cs| ==> Supported(cs[j])
    decreases |s| - i
  {
    if i == |s| then [] else if Supported(s[i]) then [s[i]] + Kept(s, i + 1) else Kept(s, i + 1)
  }

  lemma {:induction false} KeptAll(s: seq<uint8>, i: nat)
    requires i <= |s|
    ensures Kept(s, i) == s[i..] <==> forall j :: i <= j < |s| ==> Supported(s[j])
    decreases |s| - i
  {
    if i < |s| {
      KeptAll(s, i + 1);
      assert s[i..] == [s[i]] + s[i + 1..];
      if Supported(s[i]) {
        assert Kept(s, i)[1..] == Kept(s, i + 1) && s[i..][1..] == s[i + 1..];
      }
    }
  }

  /** A character is kept exactly when it is a line end, a mark or digit, or a letter. */
  lemma CharacterIsKept(c: char)
    requires c as int < 256
    ensures Kept([c as int], 0) == [c as int]
            <==> c == '\n' || c == '\r' || ' ' <= c <= '?' || 'A' <= c <= 'Z' || 'a' <= c <= 'z'
  {
    KeptAll([c as int], 0);
    assert [c as int][0..] == [c as int];
  }

  // ---------- septets in octets ----------

  type Offset = r: int | 0 <= r < 8

  function Two(r: Offset): (n: nat)
    ensures 1 <= n <= 128
  {
    if r == 0 then 1 else if r == 1 then 2 else if r == 2 then 4 else if r == 3 then 8
    else if r == 4 then 16 else if r == 5 then 32 else if r == 6 then 64 else 128
  }

  /** The pending octet with a septet put in at bit `r`, before the carry is split off. */
  function Put(acc: nat, r: Offset, c: uint7): (x: nat) { acc + c * Two(r) }

  /** The octets of the septets `cs`, when `r` bits of value `acc` are pending. */
  function Packed(cs: seq<uint7>, acc: nat, r: Offset): (bytes: seq<uint8>)
    requires acc < Two(r)
    ensures bytes == [] <==> cs == [] && r == 0
  {
    if cs == [] then (if r == 0 then [] else [acc])
    else if r == 0 then Packed(cs[1..], cs[0], 7)
    else
      var x := Put(acc, r, cs[0]);
      CarryFits(acc, r, cs[0]);
      [x % 256] + Packed(cs[1..], x / 256, r - 1)
  }

  /** The septet at bit `r` of an octet, its upper bits from the low bits `high` of the next octet. */
  function Joined(x: nat, high: nat, r: Offset): (c: nat)
    requires r > 0
  {
    x / Two(r) + high * Two(8 - r)
  }

  /** Splitting the carry off: what is pending afterwards fits, what was pending is still there, and
      the octet and the carry give the septet back. */
  lemma CarryFits(acc: nat, r: Offset, c: uint7)
    requires acc < Two(r) && r > 0
    ensures var x := Put(acc, r, c);
            && x / 256 < Two(r - 1) && x % 256 % Two(r) == acc && Joined(x % 256, x / 256, r) == c
            && x / 256 == c / Two(8 - r) && x % 256 == acc + c % Two(8 - r) * Two(r)
  {
    var m, n := Two(r), Two(8 - r);
    assert m * n == 256 && m == 2 * Two(r - 1);
    hide Two;
    var high, low := c / n, c % n;
    Quotient(c, n);
    SplitProduct(c, m, n, high, low);
    Division(acc + c * m, high, acc + low * m, 256);
    Division(acc + low * m, low, acc, m);
  }

  lemma Quotient(c: nat, n: nat)
    requires n > 0
    ensures c == c / n * n + c % n && c % n < n
  {
  }

  lemma SplitProduct(c: uint7, m: nat, n: nat, high: nat, low: nat)
    requires m * n == 256 && c == high * n + low && low < n
    ensures c * m == high * 256 + low * m
    ensures 0 <= low * m <= 256 - m && high * 256 <= 127 * m
  {
    Distributes(high, n, low, m);
    Bounded(0, low, m);
    Bounded(low, n - 1, m);
    Bounded(c, 127, m);
    Difference(n, 1, m);
  }

  lemma Distributes(high: nat, n: nat, low: nat, m: nat)
    ensures (high * n + low) * m == high * (m * n) + low * m
  {
    assert (high * n + low) * m == (high * n) * m + low * m;
    assert (high * n) * m == high * (m * n);
  }

  lemma Bounded(a: nat, b: nat, m: nat)
    requires a <= b
    ensures a * m <= b * m
  {
    assert b * m - a * m == (b - a) * m;
    assert (b - a) * m >= 0;
  }

  lemma Division(x: nat, q: nat, rem: nat, m: nat)
    requires rem < m && x == q * m + rem
    ensures x / m == q && x % m == rem
  {
    var d := x / m - q;
    assert x == x / m * m + x % m;
    Difference(x / m, q, m);
    MultipleIsLarge(d, m);
  }

  lemma Difference(a: int, b: int, m: int)
    ensures (a - b) * m == a * m - b * m
  {
  }

  lemma MultipleIsLarge(d: int, m: int)
    requires m > 0
    ensures (d >= 1 ==> d * m >= m) && (d <= -1 ==> d * m <= -m)
  {
  }

  // ---------- the packed octets as a number ----------

  ghost function Base128(cs: seq<uint7>): nat { if cs == [] then 0 else cs[0] + 128 * Base128(cs[1..]) }

  ghost function Base256(bytes: seq<uint8>): nat { if bytes == [] then 0 else bytes[0] + 256 * Base256(bytes[1..]) }

  /** Packing changes the base of one number from 128 to 256 and nothing else. */
  lemma {:induction false} PackingKeepsTheNumber(cs: seq<uint7>, acc: nat, r: Offset)
    requires acc < Two(r)
    ensures Base256(Packed(cs, acc, r)) == acc + Two(r) * Base128(cs)
  {
    if cs != [] {
      if r == 0 {
        PackingKeepsTheNumber(cs[1..], cs[0], 7);
      } else {
        var x := Put(acc, r, cs[0]);
        CarryFits(acc, r, cs[0]);
        PackingKeepsTheNumber(cs[1..], x / 256, r - 1);
        var rest := Packed(cs[1..], x / 256, r - 1);
        assert ([x % 256] + rest)[1..] == rest;
        NumberStep(acc, r, cs[0], Base128(cs[1..]));
      }
    }
  }

  lemma NumberStep(acc: nat, r: Offset, c: uint7, rest: nat)
    requires r > 0
    ensures var x := Put(acc, r, c);
            x % 256 + 256 * (x / 256 + Two(r - 1) * rest) == acc + Two(r) * (c + 128 * rest)
  {
    var x := Put(acc, r, c);
    assert 256 * Two(r - 1) == Two(r) * 128;
    hide Two;
    assert 256 * (Two(r - 1) * rest) == (Two(r) * 128) * rest;
  }

  /** Bit `k` of a number. */
  ghost function Bit(n: nat, k: nat): int { if k == 0 then n % 2 else Bit(n / 2, k - 1) }

  ghost function Power(d: nat): nat { if d == 0 then 1 else 2 * Power(d - 1) }

  /** The bits of a number are those of its lowest digit and, behind them, those of the rest. */
  lemma {:induction false} BitsOfDigit(x: nat, d: nat, rest: nat, k: nat)
    requires x < Power(d)
    ensures Bit(x + Power(d) * rest, k) == if k < d then Bit(x, k) else Bit(rest, k - d)
    decreases d
  {
    if d > 0 {
      var half := Power(d - 1) * rest;
      assert Power(d) * rest == 2 * half;
      if k > 0 {
        assert (x + 2 * half) / 2 == x / 2 + half;
        BitsOfDigit(x / 2, d - 1, rest, k - 1);
      }
    }
  }

  lemma {:induction false} NoBits(k: nat)
    ensures Bit(0, k) == 0
  {
    if k > 0 {
      NoBits(k - 1);
    }
  }

  lemma {:induction false} SeptetBits(cs: seq<uint7>, k: nat)
    ensures Bit(Base128(cs), k) == if k < 7 * |cs| then Bit(cs[k / 7], k % 7) else 0
    decreases |cs|
  {
    if cs == [] {
      NoBits(k);
    } else {
      assert Power(7) == 128 by { assert Power(3) == 8 && Power(5) == 32; }
      BitsOfDigit(cs[0], 7, Base128(cs[1..]), k);
      if k >= 7 {
        SeptetBits(cs[1..], k - 7);
      }
    }
  }

  lemma {:induction false} OctetBits(bytes: seq<uint8>, k: nat)
    ensures Bit(Base256(bytes), k) == if k < 8 * |bytes| then Bit(bytes[k / 8], k % 8) else 0
    decreases |bytes|
  {
    if bytes == [] {
      NoBits(k);
    } else {
      assert Power(8) == 256 by { assert Power(3) == 8 && Power(5) == 32 && Power(7) == 128; }
      BitsOfDigit(bytes[0], 8, Base256(bytes[1..]), k);
      if k >= 8 {
        OctetBits(bytes[1..], k - 8);
      }
    }
  }

  /** Bit `b` of character `i` is bit `7 * i + b` of the packed octets, and the spare bits are clear. */
  lemma BitsStayInPlace(cs: seq<uint7>, k: nat)
    requires k < 8 * |Packed(cs, 0, 0)|
    ensures Bit(Packed(cs, 0, 0)[k / 8], k % 8) == if k < 7 * |cs| then Bit(cs[k / 7], k % 7) else 0
  {
    hide Packed, Bit;
    PackingKeepsTheNumber(cs, 0, 0);
    SeptetBits(cs, k);
    OctetBits(Packed(cs, 0, 0), k);
  }

  /** As many octets as the bits need. */
  lemma {:induction false} PackedLength(cs: seq<uint7>, acc: nat, r: Offset)
    requires acc < Two(r)
    ensures |Packed(cs, acc, r)| == (r + 7 * |cs| + 7) / 8
  {
    if cs != [] {
      if r == 0 {
        PackedLength(cs[1..], cs[0], 7);
      } else {
        CarryFits(acc, r, cs[0]);
        PackedLength(cs[1..], Put(acc, r, cs[0]) / 256, r - 1);
      }
    }
  }

  /** The low bits of the first octet are the pending ones. */
  lemma PendingComesFirst(cs: seq<uint7>, acc: nat, r: Offset)
    requires acc < Two(r) && r > 0
    ensures Packed(cs, acc, r) != [] && Packed(cs, acc, r)[0] % Two(r) == acc
  {
    if cs != [] {
      CarryFits(acc, r, cs[0]);
    }
  }

  // ---------- taking the septets out ----------

  /** The septet that starts at bit `r` of the octet at `off`. */
  function SeptetAt(b: seq<uint8>, off: nat, r: Offset): (c: uint7)
    requires off + 1 < |b|
  {
    if r == 0 then b[off] % 128 else Joined(b[off], b[off + 1] % Two(r - 1), r)
  }

  datatype Reading = Reading(out: seq<uint7>, off: nat, r: Offset)

  /** Reads while the octet is not the last one; characters outside the alphabet are left out. */
  function ReadFrom(b: seq<uint8>, off: nat, r: Offset, limit: nat, out: seq<uint7>): (rd: Reading)
    requires limit + 1 <= |b| && |out| <= STRING_LEN
    ensures |rd.out| <= STRING_LEN && off <= rd.off && (rd.off <= off || rd.off <= limit)
    decreases limit - off, if r == 0 then 1 else 0
  {
    if off < limit && |out| < STRING_LEN then
      var c := SeptetAt(b, off, r);
      var out' := if Supported(c) then out + [c] else out;
      if r == 0 then ReadFrom(b, off, 7, limit, out') else ReadFrom(b, off + 1, r - 1, limit, out')
    else Reading(out, off, r)
  }

  /** The septet that may lie wholly in the last octet. */
  function LastSeptet(b: seq<uint8>, rd: Reading, spare: int): (out: seq<uint7>)
    requires rd.off < |b| && |rd.out| <= STRING_LEN
    ensures |out| <= STRING_LEN
  {
    if rd.r == 0 || (rd.r == 1 && spare == 0) then
      var c := if rd.r == 0 then b[rd.off] % 128 else b[rd.off] / 2;
      if Supported(c) && |rd.out| < STRING_LEN then rd.out + [c] else rd.out
    else rd.out
  }

  function Spare(n: nat): (k: nat)
    ensures k < 8
  {
    (8 - n % 8) % 8
  }

  lemma SeptetBack(b: seq<uint8>, off: nat, cs: seq<uint7>, acc: nat, r: Offset)
    requires acc < Two(r) && cs != [] && At(b, off, Packed(cs, acc, r)) && off + 1 < |b|
    ensures SeptetAt(b, off, r) == cs[0]
  {
    AtFirst(b, off, Packed(cs, acc, r));
    if r == 0 {
      PendingComesFirst(cs[1..], cs[0], 7);
    } else {
      var x := Put(acc, r, cs[0]);
      CarryFits(acc, r, cs[0]);
      var rest := Packed(cs[1..], x / 256, r - 1);
      AtTail(b, off, x % 256, rest);
      if r > 1 {
        PendingComesFirst(cs[1..], x / 256, r - 1);
        AtFirst(b, off + 1, rest);
      }
    }
  }

  lemma AtFirst(b: seq<uint8>, pos: nat, s: seq<uint8>)
    requires At(b, pos, s) && s != []
    ensures pos < |b| && b[pos] == s[0]
  {
    assert b[pos + 0] == s[0];
  }

  lemma AtTail(b: seq<uint8>, pos: nat, x: uint8, s: seq<uint8>)
    requires At(b, pos, [x] + s)
    ensures At(b, pos + 1, s)
  {
    hide At;
    AtSplits(b, pos, [x], s);
  }

  /** The octets after one septet has been taken. */
  lemma NextOctets(b: seq<uint8>, off: nat, cs: seq<uint7>, acc: nat, r: Offset)
    requires acc < Two(r) && cs != [] && At(b, off, Packed(cs, acc, r)) && r > 0
    ensures var high := Put(acc, r, cs[0]) / 256;
            && high < Two(r - 1) && At(b, off + 1, Packed(cs[1..], high, r - 1))
            && |Packed(cs, acc, r)| == 1 + |Packed(cs[1..], high, r - 1)|
  {
    hide At;
    var x := Put(acc, r, cs[0]);
    CarryFits(acc, r, cs[0]);
    AtTail(b, off, x % 256, Packed(cs[1..], x / 256, r - 1));
  }

  lemma SameOctets(cs: seq<uint7>)
    requires cs != []
    ensures Two(0) == 1 && Two(7) == 128 && Packed(cs, 0, 0) == Packed(cs[1..], cs[0], 7)
  {
  }

  lemma SeptetsLeft(cs: seq<uint7>, acc: nat, r: Offset)
    requires acc < Two(r) && |Packed(cs, acc, r)| > 1
    ensures cs != []
  {
  }

  lemma ReadOnce(b: seq<uint8>, off: nat, r: Offset, limit: nat, out: seq<uint7>)
    requires off < limit < |b| && |out| < STRING_LEN
    ensures var c := SeptetAt(b, off, r);
            var out' := if Supported(c) then out + [c] else out;
            ReadFrom(b, off, r, limit, out)
            == if r == 0 then ReadFrom(b, off, 7, limit, out') else ReadFrom(b, off + 1, r - 1, limit, out')
  {
    hide SeptetAt, Supported;
  }

  lemma ReadDone(b: seq<uint8>, off: nat, r: Offset, limit: nat, out: seq<uint7>)
    requires limit < |b| && |out| <= STRING_LEN && (limit <= off || |out| == STRING_LEN)
    ensures ReadFrom(b, off, r, limit, out) == Reading(out, off, r)
  {
  }

  lemma SpareStep(r: Offset, n: nat)
    requires n > 0
    ensures Spare(r + 7 * n) == if r == 0 then Spare(7 + 7 * (n - 1)) else Spare(r - 1 + 7 * (n - 1))
  {
  }

  /** From any point of the packed octets on, the reader finds exactly the septets still to come. */
  lemma {:induction false} SeptetsComeBack(b: seq<uint8>, off: nat, cs: seq<uint7>, acc: nat, r: Offset,
                                           limit: nat, out: seq<uint7>)
    requires acc < Two(r) && At(b, off, Packed(cs, acc, r)) && limit + 1 <= |b|
    requires limit == off + |Packed(cs, acc, r)| - 1 && (cs != [] || r != 0)
    requires |out| + |cs| < STRING_LEN && forall i :: 0 <= i < |cs| ==> Supported(cs[i])
    ensures var rd := ReadFrom(b, off, r, limit, out);
            rd.off == limit && LastSeptet(b, rd, Spare(r + 7 * |cs|)) == out + cs
    decreases |cs|
  {
    assert r == 0 ==> acc == 0;
    hide At, Joined, SeptetAt, ReadFrom, LastSeptet, Spare, Packed, Two, Put, Supported;
    if off < limit {
      SeptetsLeft(cs, acc, r);
      SeptetBack(b, off, cs, acc, r);
      assert out + cs == out + [cs[0]] + cs[1..];
      SpareStep(r, |cs|);
      ReadOnce(b, off, r, limit, out);
      if r == 0 {
        SameOctets(cs);
        SeptetsComeBack(b, off, cs[1..], cs[0], 7, limit, out + [cs[0]]);
      } else {
        NextOctets(b, off, cs, acc, r);
        SeptetsComeBack(b, off + 1, cs[1..], Put(acc, r, cs[0]) / 256, r - 1, limit, out + [cs[0]]);
      }
    } else {
      ReadDone(b, off, r, off, out);
      LastOctet(b, off, cs, acc, r, out);
    }
  }

  lemma LastOctet(b: seq<uint8>, off: nat, cs: seq<uint7>, acc: nat, r: Offset, out: seq<uint7>)
    requires acc < Two(r) && At(b, off, Packed(cs, acc, r)) && |Packed(cs, acc, r)| == 1
    requires |out| + |cs| < STRING_LEN && forall i :: 0 <= i < |cs| ==> Supported(cs[i])
    ensures off < |b| && LastSeptet(b, Reading(out, off, r), Spare(r + 7 * |cs|)) == out + cs
  {
    hide At, Packed, Two;
    AtFirst(b, off, Packed(cs, acc, r));
    LastOctetValue(cs, acc, r);
    if cs == [] {
      assert out + cs == out;
    } else {
      assert out + cs == out + [cs[0]];
    }
  }

  /** A single octet holds no further septet, one that starts at its first bit, or one at its second. */
  lemma LastOctetValue(cs: seq<uint7>, acc: nat, r: Offset)
    requires acc < Two(r) && |Packed(cs, acc, r)| == 1
    ensures cs == [] ==> r > 0
    ensures cs != [] ==> |cs| == 1 && r <= 1
    ensures cs != [] && r == 0 ==> Packed(cs, acc, r)[0] % 128 == cs[0]
    ensures cs != [] && r == 1 ==> Packed(cs, acc, r)[0] / 2 == cs[0]
  {
    assert r == 1 ==> acc < 2;
    hide Packed, Two;
    PackedLength(cs, acc, r);
    if cs != [] {
      assert cs == [cs[0]];
      OneSeptet(cs[0], acc, r);
    }
  }

  lemma OneSeptet(c: uint7, acc: nat, r: Offset)
    requires acc < Two(r) && r <= 1
    ensures Packed([c], acc, r) == if r == 0 then [c] else [acc + 2 * c]
  {
    assert [c][1..] == [];
    assert Two(0) == 1 && Two(1) == 2 && Two(7) == 128;
    if r == 0 {
      assert Packed([], c, 7) == [c];
    } else {
      var x := Put(acc, 1, c);
      assert x == acc + 2 * c;
      hide Put, Two;
      assert x / 256 == 0 && x % 256 == x;
      assert Packed([], 0, 0) == [];
    }
  }

  // ---------- the element ----------

  function Encode(addCi: Flag, s: seq<uint8>): (r: seq<uint8>)
    requires |s| < STRING_LEN
  {
    var cs := Kept(s, 0);
    var data := Packed(cs, 0, 0);
    PackedLength(cs, 0, 0);
    [1 + |data|] + [0x80 + addCi * 8 + Spare(7 * |cs|)] + data
  }

  lemma ExamplePacked()
    ensures Packed([0x73, 0x72, 0x73, 0x4C, 0x54, 0x45], 0, 0) == [0x73, 0xF9, 0x9C, 0x49, 0x2D, 0x02]
  {
    hide Packed;
    NothingPacked(2, 2);
    PackedStep(0x45, [], 5, 3);
    assert [0x45] + [] == [0x45];
    assert Packed([0x45], 5, 3) == [0x2D, 0x02];
    PackedStep(0x54, [0x45], 9, 4);
    assert [0x54] + [0x45] == [0x54, 0x45];
    assert Packed([0x54, 0x45], 9, 4) == [0x49, 0x2D, 0x02];
    PackedStep(0x4C, [0x54, 0x45], 28, 5);
    assert [0x4C] + [0x54, 0x45] == [0x4C, 0x54, 0x45];
    assert Packed([0x4C, 0x54, 0x45], 28, 5) == [0x9C, 0x49, 0x2D, 0x02];
    PackedStep(0x73, [0x4C, 0x54, 0x45], 57, 6);
    assert [0x73] + [0x4C, 0x54, 0x45] == [0x73, 0x4C, 0x54, 0x45];
    assert Packed([0x73, 0x4C, 0x54, 0x45], 57, 6) == [0xF9, 0x9C, 0x49, 0x2D, 0x02];
    PackedStep(0x72, [0x73, 0x4C, 0x54, 0x45], 115, 7);
    assert [0x72] + [0x73, 0x4C, 0x54, 0x45] == [0x72, 0x73, 0x4C, 0x54, 0x45];
    assert Packed([0x72, 0x73, 0x4C, 0x54, 0x45], 115, 7) == [0x73, 0xF9, 0x9C, 0x49, 0x2D, 0x02];
    PackedStep(0x73, [0x72, 0x73, 0x4C, 0x54, 0x45], 0, 0);
    assert [0x73] + [0x72, 0x73, 0x4C, 0x54, 0x45] == [0x73, 0x72, 0x73, 0x4C, 0x54, 0x45];
  }

  lemma NothingPacked(acc: nat, r: Offset)
    requires acc < Two(r)
    ensures Packed([], acc, r) == if r == 0 then [] else [acc]
  {
  }

  /** A name in octets: "srsLTE" without the country's initials. */
  lemma ExampleName()
    ensures Encode(0, [0x73, 0x72, 0x73, 0x4C, 0x54, 0x45])
            == [7, 0x86, 0x73, 0xF9, 0x9C, 0x49, 0x2D, 0x02]
  {
    hide Kept, Packed;
    ExampleKept([0x73, 0x72, 0x73, 0x4C, 0x54, 0x45]);
    ExamplePacked();
  }

  lemma ExampleKept(s: seq<uint8>)
    requires s == [0x73, 0x72, 0x73, 0x4C, 0x54, 0x45]
    ensures Kept(s, 0) == s
  {
    hide Kept;
    KeptAll(s, 0);
    assert s[0..] == s;
  }

  const REACH: nat := 257

  function Decode(b: seq<uint8>, p: nat): (r: (seq<uint7>, Flag, nat))
    requires p + REACH <= |b|
  {
    var rd := ReadFrom(b, p + 2, 0, p + b[p], []);
    (LastSeptet(b, rd, b[p + 1] % 8), b[p + 1] / 8 % 2, rd.off + 1)
  }

  /** The supported characters and the cursor come back exactly when there is such a character; an
      element without one makes the reader take an octet that does not belong to it. */
  lemma NameComesBack(b: seq<uint8>, p: nat, addCi: Flag, s: seq<uint8>)
    requires |s| < STRING_LEN && p + REACH <= |b| && At(b, p, Encode(addCi, s))
    ensures Kept(s, 0) != [] ==> Decode(b, p) == (Kept(s, 0), addCi, p + |Encode(addCi, s)|)
    ensures Kept(s, 0) == [] ==> Decode(b, p).2 == p + |Encode(addCi, s)| + 1
  {
    hide At, LastSeptet, Packed, Kept;
    var cs := Kept(s, 0);
    var data := Packed(cs, 0, 0);
    PackedLength(cs, 0, 0);
    var second := 0x80 + addCi * 8 + Spare(7 * |cs|);
    AtSplits(b, p, [1 + |data|] + [second], data);
    AtSplits(b, p, [1 + |data|], [second]);
    AtByte(b, p, 1 + |data|);
    AtByte(b, p + 1, second);
    if cs != [] {
      hide ReadFrom;
      SeptetsComeBack(b, p + 2, cs, 0, 0, p + b[p], []);
      assert [] + cs == cs;
    }
  }

  /** The whole name comes back exactly when it is not empty and all of it is supported. */
  lemma WholeNameComesBack(b: seq<uint8>, p: nat, addCi: Flag, s: seq<uint8>)
    requires |s| < STRING_LEN && p + REACH <= |b| && At(b, p, Encode(addCi, s))
    ensures Decode(b, p) == (s, addCi, p + |Encode(addCi, s)|)
            <==> s != [] && forall j :: 0 <= j < |s| ==> Supported(s[j])
  {
    hide At, Encode, Decode, Kept;
    NameComesBack(b, p, addCi, s);
    KeptAll(s, 0);
    assert s[0..] == s;
  }

  // ---------- packing, step by step ----------

  /** The buffer after a septet is put in at bit `r` of the octet at `pos`. */
  function Written(b: seq<uint8>, pos: nat, r: Offset, c: uint7): (b': seq<uint8>)
    requires pos < |b| && (r > 1 ==> pos + 1 < |b|) && (r > 0 ==> b[pos] < Two(r))
    ensures |b'| == |b|
  {
    if r == 0 then b[pos := c]
    else
      CarryFits(b[pos], r, c);
      var x := Put(b[pos], r, c);
      if r == 1 then b[pos := x % 256] else b[pos := x % 256][pos + 1 := x / 256]
  }

  /** One case of the switch over the bit offset. */
  method PutSeptet(buf: array<uint8>, pos: nat, r: Offset, c: uint7)
    requires pos < buf.Length && (r > 1 ==> pos + 1 < buf.Length) && (r > 0 ==> buf[pos] < Two(r))
    modifies buf
    ensures buf[..] == Written(old(buf[..]), pos, r, c)
  {
    if r == 0 {
      buf[pos] := c;
    } else {
      CarryFits(buf[pos], r, c);
      buf[pos] := buf[pos] + c % Two(8 - r) * Two(r);
      if r > 1 {
        buf[pos + 1] := c / Two(8 - r);
      }
    }
  }

  /** The packer after `i` characters: whole octets `done`, then `r` pending bits of value `acc`. */
  ghost predicate Packing(s: seq<uint8>, b: seq<uint8>, p: nat, i: nat, done: seq<uint8>, acc: nat, r: Offset) {
    && i <= |s| && acc < Two(r) && At(b, p + 2, done)
    && p + 2 + |Packed(Kept(s, 0), 0, 0)| <= |b|
    && Packed(Kept(s, 0), 0, 0) == done + Packed(Kept(s, i), acc, r)
    && (r > 0 ==> b[p + 2 + |done|] == acc)
    && (r + 7 * |Kept(s, i)|) % 8 == 7 * |Kept(s, 0)| % 8
  }

  lemma WriteKeepsDone(b: seq<uint8>, pos: nat, r: Offset, c: uint7, start: nat, done: seq<uint8>)
    requires pos < |b| && (r > 1 ==> pos + 1 < |b|) && (r > 0 ==> b[pos] < Two(r))
    requires At(b, start, done) && start + |done| == pos
    ensures At(Written(b, pos, r, c), start, done)
    ensures r == 0 ==> Written(b, pos, r, c)[pos] == c
    ensures r > 0 ==> At(Written(b, pos, r, c), start, done + [Put(b[pos], r, c) % 256])
    ensures r > 1 ==> Written(b, pos, r, c)[pos + 1] == Put(b[pos], r, c) / 256
  {
    var b' := Written(b, pos, r, c);
    assert forall k :: 0 <= k < pos ==> b'[k] == b[k];
    assert At(b', start, done);
    hide At, Put;
    if r > 0 {
      AtByte(b', pos, Put(b[pos], r, c) % 256);
      AtSplits(b', start, done, [Put(b[pos], r, c) % 256]);
    }
  }

  lemma KeptStep(s: seq<uint8>, i: nat)
    requires i < |s| && Supported(s[i])
    ensures Kept(s, i) == [s[i]] + Kept(s, i + 1)
  {
    hide Supported;
  }

  lemma PackedStep(c: uint7, cs: seq<uint7>, acc: nat, r: Offset)
    requires acc < Two(r)
    ensures r == 0 ==> c < Two(7) && Packed([c] + cs, acc, r) == Packed(cs, c, 7)
    ensures r > 0 ==> var x := Put(acc, r, c);
                      x / 256 < Two(r - 1) && Packed([c] + cs, acc, r) == [x % 256] + Packed(cs, x / 256, r - 1)
  {
    assert ([c] + cs)[1..] == cs;
    if r > 0 {
      CarryFits(acc, r, c);
      hide Put, Two;
    }
  }

  /** A septet that starts an octet. */
  lemma FirstPut(s: seq<uint8>, b: seq<uint8>, p: nat, i: nat, done: seq<uint8>)
    requires Packing(s, b, p, i, done, 0, 0) && i < |s| && Supported(s[i])
    ensures var pos := p + 2 + |done|;
            pos < |b| && Packing(s, Written(b, pos, 0, s[i]), p, i + 1, done, s[i], 7)
  {
    KeptStep(s, i);
    PackedStep(s[i], Kept(s, i + 1), 0, 0);
    var rest := Packed(Kept(s, i + 1), s[i], 7);
    assert rest != [];
    hide Kept, At, Supported, Packed, Written, Put, Two;
    WriteKeepsDone(b, p + 2 + |done|, 0, s[i], p + 2, done);
  }

  /** A septet that completes the pending octet. */
  lemma CarryPut(s: seq<uint8>, b: seq<uint8>, p: nat, i: nat, done: seq<uint8>, acc: nat, r: Offset, x: nat)
    requires Packing(s, b, p, i, done, acc, r) && i < |s| && Supported(s[i]) && r > 0 && x == Put(acc, r, s[i])
    ensures var pos := p + 2 + |done|;
            && pos < |b| && (r > 1 ==> pos + 1 < |b|) && b[pos] == acc
            && Packing(s, Written(b, pos, r, s[i]), p, i + 1, done + [x % 256], x / 256, r - 1)
  {
    KeptStep(s, i);
    PackedStep(s[i], Kept(s, i + 1), acc, r);
    var rest := Packed(Kept(s, i + 1), x / 256, r - 1);
    assert r > 1 ==> rest != [];
    hide Kept, At, Supported, Packed, Written, Put, Two;
    WriteKeepsDone(b, p + 2 + |done|, r, s[i], p + 2, done);
    Regroup(done, [x % 256], rest);
  }

  lemma PackingStarts(s: seq<uint8>, b: seq<uint8>, p: nat)
    requires p + 2 + |Packed(Kept(s, 0), 0, 0)| <= |b|
    ensures Packing(s, b, p, 0, [], 0, 0)
  {
    hide Packed, Kept;
    assert [] + Packed(Kept(s, 0), 0, 0) == Packed(Kept(s, 0), 0, 0);
  }

  lemma CharacterSkipped(s: seq<uint8>, b: seq<uint8>, p: nat, i: nat, done: seq<uint8>, acc: nat, r: Offset)
    requires Packing(s, b, p, i, done, acc, r) && i < |s| && !Supported(s[i])
    ensures Packing(s, b, p, i + 1, done, acc, r)
  {
    assert Kept(s, i) == Kept(s, i + 1);
    hide Packed, At, Kept;
  }

  lemma PackingEnds(s: seq<uint8>, b: seq<uint8>, p: nat, done: seq<uint8>, acc: nat, r: Offset)
    requires Packing(s, b, p, |s|, done, acc, r)
    ensures At(b, p + 2, Packed(Kept(s, 0), 0, 0)) && Spare(7 * |Kept(s, 0)|) == Spare(r)
    ensures |Packed(Kept(s, 0), 0, 0)| == |done| + if r == 0 then 0 else 1
  {
    var tail := if r == 0 then [] else [acc];
    assert Kept(s, |s|) == [] && Packed([], acc, r) == tail;
    hide At, Kept, Packed, Two;
    if r == 0 {
      assert done + [] == done;
    } else {
      AtByte(b, p + 2 + |done|, acc);
      AtSplits(b, p + 2, done, [acc]);
    }
  }

  lemma WriteStaysInside(b: seq<uint8>, pos: nat, r: Offset, c: uint7, base: seq<uint8>, lo: nat, hi: nat)
    requires pos < |b| && (r > 1 ==> pos + 1 < |b|) && (r > 0 ==> b[pos] < Two(r))
    requires SameOutside(base, b, lo, hi) && lo <= pos < hi && (r > 1 ==> pos + 1 < hi)
    ensures SameOutside(base, Written(b, pos, r, c), lo, hi)
  {
    hide Put, Two;
  }

  lemma RoomLeft(s: seq<uint8>, b: seq<uint8>, p: nat, i: nat, done: seq<uint8>, acc: nat, r: Offset)
    requires Packing(s, b, p, i, done, acc, r) && i < |s| && Supported(s[i])
    ensures var n := |Packed(Kept(s, 0), 0, 0)|;
            |done| < n && (r > 1 ==> |done| + 1 < n)
  {
    KeptStep(s, i);
    PackedLength(Kept(s, i), acc, r);
    hide At, Packed, Kept, Two;
  }

  /** One supported character. */
  method PutCharacter(s: seq<uint8>, i: nat, buf: array<uint8>, p: nat, bitOffset: Offset, byteOffset: nat,
                      ghost done: seq<uint8>, ghost acc: nat, ghost base: seq<uint8>)
    returns (bit': Offset, byte': nat, ghost done': seq<uint8>, ghost acc': nat)
    requires Packing(s, buf[..], p, i, done, acc, bitOffset) && byteOffset == 2 + |done|
    requires i < |s| && Supported(s[i])
    requires SameOutside(base, buf[..], p, p + 2 + |Packed(Kept(s, 0), 0, 0)|)
    modifies buf
    ensures Packing(s, buf[..], p, i + 1, done', acc', bit') && byte' == 2 + |done'|
    ensures SameOutside(base, buf[..], p, p + 2 + |Packed(Kept(s, 0), 0, 0)|)
  {
    ghost var b := buf[..];
    ghost var x := Put(acc, bitOffset, s[i]);
    RoomLeft(s, b, p, i, done, acc, bitOffset);
    PendingOctet(s, b, p, i, done, acc, bitOffset);
    hide Packing, At, SameOutside, Packed, Kept, Written, Put, Two, Supported;
    WriteStaysInside(b, p + byteOffset, bitOffset, s[i], base, p, p + 2 + |Packed(Kept(s, 0), 0, 0)|);
    PutSeptet(buf, p + byteOffset, bitOffset, s[i]);
    if bitOffset == 0 {
      FirstPut(s, b, p, i, done);
      bit', byte', done', acc' := 7, byteOffset, done, s[i];
    } else {
      CarryPut(s, b, p, i, done, acc, bitOffset, x);
      bit', byte', done', acc' := bitOffset - 1, byteOffset + 1, done + [x % 256], x / 256;
    }
  }

  /** Packs a name, octet by octet. */
  method Pack(addCi: Flag, s: seq<uint8>, buf: array<uint8>, p: nat) returns (next: nat)
    requires |s| < STRING_LEN && p + |Encode(addCi, s)| <= buf.Length
    modifies buf
    ensures Holds(old(buf[..]), buf[..], p, Encode(addCi, s)) && next == p + |Encode(addCi, s)|
  {
    ghost var base := buf[..];
    ghost var data := Packed(Kept(s, 0), 0, 0);
    ghost var end := p + 2 + |data|;
    PackedLength(Kept(s, 0), 0, 0);
    hide Packing, At, SameOutside, Packed, Kept, Written, Put, Two, Supported;
    var bitOffset: Offset, byteOffset: nat := 0, 2;
    ghost var done: seq<uint8>, acc: nat := [], 0;
    PackingStarts(s, buf[..], p);
    NothingOutside(base, p, end);
    for i := 0 to |s|
      invariant Packing(s, buf[..], p, i, done, acc, bitOffset) && byteOffset == 2 + |done|
      invariant SameOutside(base, buf[..], p, end)
    {
      if Supported(s[i]) {
        bitOffset, byteOffset, done, acc := PutCharacter(s, i, buf, p, bitOffset, byteOffset, done, acc, base);
      } else {
        CharacterSkipped(s, buf[..], p, i, done, acc, bitOffset);
      }
    }
    PackingEnds(s, buf[..], p, done, acc, bitOffset);
    next := PutHeader(addCi, bitOffset, byteOffset, buf, p, data, base);
    Regroup([1 + |data|], [0x80 + addCi * 8 + Spare(bitOffset)], data);
  }

  lemma NothingOutside(b: seq<uint8>, lo: nat, hi: nat)
    ensures SameOutside(b, b, lo, hi)
  {
  }

  lemma PendingOctet(s: seq<uint8>, b: seq<uint8>, p: nat, i: nat, done: seq<uint8>, acc: nat, r: Offset)
    requires Packing(s, b, p, i, done, acc, r)
    ensures r > 0 ==> p + 2 + |done| < |b| && b[p + 2 + |done|] == acc < Two(r)
    ensures r == 0 ==> acc == 0
  {
    hide At, Kept;
  }

  /** The length octet and the flags octet, written last. */
  method PutHeader(addCi: Flag, bitOffset: Offset, byteOffset: nat, buf: array<uint8>, p: nat,
                   ghost data: seq<uint8>, ghost base: seq<uint8>) returns (next: nat)
    requires At(buf[..], p + 2, data) && SameOutside(base, buf[..], p, p + 2 + |data|) && |data| < 200
    requires byteOffset == 2 + |data| - if bitOffset == 0 then 0 else 1
    modifies buf
    ensures next == p + 2 + |data|
    ensures Holds(base, buf[..], p, [1 + |data|] + ([0x80 + addCi * 8 + Spare(bitOffset)] + data))
  {
    ghost var b := buf[..];
    var length := if bitOffset == 0 then byteOffset - 1 else byteOffset;
    buf[p] := length;
    buf[p + 1] := 0x80 + addCi * 8 + (8 - bitOffset) % 8;
    next := if bitOffset == 0 then p + byteOffset else p + byteOffset + 1;
    assert At(buf[..], p + 2, data);
    assert SameOutside(base, buf[..], p, p + 2 + |data|);
    hide At;
    AtByte(buf[..], p, 1 + |data|);
    AtByte(buf[..], p + 1, 0x80 + addCi * 8 + Spare(bitOffset));
    AtSplits(buf[..], p + 1, [0x80 + addCi * 8 + Spare(bitOffset)], data);
    AtSplits(buf[..], p, [1 + |data|], [0x80 + addCi * 8 + Spare(bitOffset)] + data);
  }

  // ---------- unpacking, step by step ----------

  /** The string array holds the characters `cs`. */
  ghost predicate Spells(name: seq<uint8>, cs: seq<uint7>) { |cs| <= |name| == STRING_LEN && name[..|cs|] == cs }

  function Extended(cs: seq<uint7>, c: uint7): (cs': seq<uint7>) {
    if Supported(c) && |cs| < STRING_LEN then cs + [c] else cs
  }

  method AddCharacter(name: array<uint8>, cnt: nat, c: uint7, ghost cs: seq<uint7>) returns (cnt': nat)
    requires Spells(name[..], cs) && cnt == |cs|
    modifies name
    ensures Spells(name[..], Extended(cs, c)) && cnt' == |Extended(cs, c)|
  {
    cnt' := cnt;
    if Supported(c) && cnt < STRING_LEN {
      name[cnt] := c;
      cnt' := cnt + 1;
    }
  }

  /** The loop over all octets but the last. */
  method TakeSeptets(buf: array<uint8>, p: nat, name: array<uint8>)
    returns (bitOffset: Offset, off: nat, cnt: nat, ghost cs: seq<uint7>)
    requires p + REACH <= buf.Length && name.Length == STRING_LEN && buf != name
    modifies name
    ensures ReadFrom(buf[..], p + 2, 0, p + buf[p], []) == Reading(cs, off, bitOffset)
    ensures Spells(name[..], cs) && cnt == |cs| && off < p + REACH
  {
    hide ReadFrom, Supported, SeptetAt, Spells;
    ghost var b := buf[..];
    bitOffset, off, cnt, cs := 0, p + 2, 0, [];
    NothingSpelt(name[..]);
    while off < p + buf[p] && cnt < STRING_LEN
      invariant cnt == |cs| <= STRING_LEN && Spells(name[..], cs) && p + 2 <= off <= p + 256
      invariant ReadFrom(b, p + 2, 0, p + b[p], []) == ReadFrom(b, off, bitOffset, p + b[p], cs)
      decreases p + b[p] - off, if bitOffset == 0 then 1 else 0
    {
      var c := Septet(buf, off, bitOffset);
      ReadOnce(b, off, bitOffset, p + b[p], cs);
      if bitOffset == 0 {
        bitOffset := 7;
      } else {
        bitOffset, off := bitOffset - 1, off + 1;
      }
      cnt := AddCharacter(name, cnt, c, cs);
      cs := Extended(cs, c);
    }
    ReadDone(b, off, bitOffset, p + b[p], cs);
  }

  lemma NothingSpelt(name: seq<uint8>)
    requires |name| == STRING_LEN
    ensures Spells(name, [])
  {
  }

  /** Takes the characters out into a string array; the terminator is left out when it is full. */
  method Unpack(buf: array<uint8>, p: nat, name: array<uint8>)
    returns (addCi: Flag, next: nat, ghost out: seq<uint8>)
    requires p + REACH <= buf.Length && name.Length == STRING_LEN && buf != name
    modifies name
    ensures (out, addCi, next) == Decode(buf[..], p)
    ensures name[..|out|] == out && (|out| < STRING_LEN ==> name[|out|] == 0)
  {
    hide ReadFrom, Supported;
    addCi := buf[p + 1] / 8 % 2;
    var bitOffset, off, cnt;
    ghost var cs;
    bitOffset, off, cnt, cs := TakeSeptets(buf, p, name);
    if bitOffset == 0 || (bitOffset == 1 && buf[p + 1] % 8 == 0) {
      var c: uint7 := if bitOffset == 0 then buf[off] % 128 else buf[off] / 2;
      cnt := AddCharacter(name, cnt, c, cs);
      cs := Extended(cs, c);
    }
    out := cs;
    if cnt < STRING_LEN {
      name[cnt] := 0;
    }
    next := off + 1;
  }

  /** One case of the switch over the bit offset. */
  method Septet(buf: array<uint8>, off: nat, r: Offset) returns (c: uint7)
    requires off + 1 < buf.Length
    ensures c == SeptetAt(buf[..], off, r)
  {
    if r == 0 {
      c := buf[off] % 128;
    } else if r == 1 {
      c := buf[off] / 2;
    } else {
      c := buf[off] / Two(r) + buf[off + 1] % Two(r - 1) * Two(8 - r);
    }
  }
}
