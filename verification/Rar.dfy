/** MAC PDUs for random access responses (TS 36.321 sections 6.1.5, 6.2.2 and 6.2.3): `rar_pdu` and
    `rar_subh` in lib/src/common/pdu.cc.

    A list of responses without a backoff indicator is read back as it was written; a backoff
    indicator survives only when no response follows it. */
module Rar {
  import opened Buffers
  import opened MacFormat
  import opened CommonTypes
  import P = BitPacking

  /** `rar_subh`: preamble, timing advance, the 20 grant bits and the temporary C-RNTI. */
  datatype Response = Response(rapid: nat, ta: nat, grant: seq<nat>, rnti: nat)
  {
    predicate InRange() {
      rapid < 64 && ta < 2048 && |grant| == 20 && (forall i :: 0 <= i < 20 ==> grant[i] < 2) && rnti < 65536
    }
  }

  // ---------- one subheader and one payload ----------

  /** E, T = 1 and the preamble. */
  function HeadByte(rapid: nat, last: bool): uint8 {
    (if last then 0 else 128) + 64 + rapid % 64
  }

  /** Eight bits as a byte, most significant first (`srslte_bit_pack`). */
  function BitsToByte(b: seq<nat>): nat
    requires |b| == 8
  {
    b[0] * 128 + b[1] * 64 + b[2] * 32 + b[3] * 16 + b[4] * 8 + b[5] * 4 + b[6] * 2 + b[7]
  }

  /** `srslte_bit_unpack`. */
  function ByteToBits(v: nat): (b: seq<nat>)
    ensures |b| == 8
  {
    [(v / 128) % 2, (v / 64) % 2, (v / 32) % 2, (v / 16) % 2, (v / 8) % 2, (v / 4) % 2, (v / 2) % 2, v % 2]
  }

  predicate AreBits(b: seq<nat>) { forall i :: 0 <= i < |b| ==> b[i] < 2 }

  function Payload(r: Response): (p: seq<uint8>)
    requires r.InRange()
    ensures |p| == 6
  {
    ByteBounds(r.grant[4..12]);
    ByteBounds(r.grant[12..20]);
    assert r.grant[0] < 2 && r.grant[1] < 2 && r.grant[2] < 2 && r.grant[3] < 2;
    [(r.ta / 16) % 128,
     (r.ta % 16) * 16 + r.grant[0] * 8 + r.grant[1] * 4 + r.grant[2] * 2 + r.grant[3],
     BitsToByte(r.grant[4..12]), BitsToByte(r.grant[12..20]), r.rnti / 256, r.rnti % 256]
  }

  /** `read_payload` at a position. */
  function ReadPayload(b: seq<uint8>, pos: nat, rapid: nat): Response
    requires pos + 6 <= |b|
  {
    var b1: nat := b[pos + 1];
    Response(rapid, (b[pos] % 128) as int * 16 + b1 / 16,
             [(b1 / 8) % 2, (b1 / 4) % 2, (b1 / 2) % 2, b1 % 2] + ByteToBits(b[pos + 2]) + ByteToBits(b[pos + 3]),
             b[pos + 4] as int * 256 + b[pos + 5])
  }

  lemma ByteBounds(b: seq<nat>)
    requires |b| == 8 && AreBits(b)
    ensures BitsToByte(b) < 256
  {
    assert b[0] < 2 && b[1] < 2 && b[2] < 2 && b[3] < 2 && b[4] < 2 && b[5] < 2 && b[6] < 2 && b[7] < 2;
  }

  lemma BitsComeBack(b: seq<nat>)
    requires |b| == 8 && AreBits(b)
    ensures ByteToBits(BitsToByte(b)) == b
  {
    assert b[0] < 2 && b[1] < 2 && b[2] < 2 && b[3] < 2 && b[4] < 2 && b[5] < 2 && b[6] < 2 && b[7] < 2;
    BitsOfSum(b[0], b[1], b[2], b[3], b[4], b[5], b[6], b[7]);
  }

  lemma BitsOfSum(b0: nat, b1: nat, b2: nat, b3: nat, b4: nat, b5: nat, b6: nat, b7: nat)
    requires b0 < 2 && b1 < 2 && b2 < 2 && b3 < 2 && b4 < 2 && b5 < 2 && b6 < 2 && b7 < 2
    ensures var v := b0 * 128 + b1 * 64 + b2 * 32 + b3 * 16 + b4 * 8 + b5 * 4 + b6 * 2 + b7;
            && (v / 128) % 2 == b0 && (v / 64) % 2 == b1 && (v / 32) % 2 == b2 && (v / 16) % 2 == b3
            && (v / 8) % 2 == b4 && (v / 4) % 2 == b5 && (v / 2) % 2 == b6 && v % 2 == b7
  {
    var v := b0 * 128 + b1 * 64 + b2 * 32 + b3 * 16 + b4 * 8 + b5 * 4 + b6 * 2 + b7;
    assert v / 2 == b0 * 64 + b1 * 32 + b2 * 16 + b3 * 8 + b4 * 4 + b5 * 2 + b6;
    assert v / 4 == b0 * 32 + b1 * 16 + b2 * 8 + b3 * 4 + b4 * 2 + b5;
    assert v / 8 == b0 * 16 + b1 * 8 + b2 * 4 + b3 * 2 + b4;
    assert v / 16 == b0 * 8 + b1 * 4 + b2 * 2 + b3;
    assert v / 32 == b0 * 4 + b1 * 2 + b2;
    assert v / 64 == b0 * 2 + b1;
    assert v / 128 == b0;
  }

  lemma PayloadComesBack(b: seq<uint8>, pos: nat, r: Response)
    requires r.InRange() && At(b, pos, Payload(r))
    ensures ReadPayload(b, pos, r.rapid) == r
  {
    hide At, BitsToByte, ByteToBits;
    var g := r.grant;
    SixBytes(b, pos, Payload(r));
    BitsComeBack(g[4..12]);
    BitsComeBack(g[12..20]);
    assert g[0] < 2 && g[1] < 2 && g[2] < 2 && g[3] < 2;
    SecondByte(r.ta % 16, g[0], g[1], g[2], g[3]);
    GrantParts(g);
  }

  lemma SixBytes(b: seq<uint8>, pos: nat, p: seq<uint8>)
    requires |p| == 6 && At(b, pos, p)
    ensures pos + 6 <= |b|
    ensures b[pos] == p[0] && b[pos + 1] == p[1] && b[pos + 2] == p[2]
    ensures b[pos + 3] == p[3] && b[pos + 4] == p[4] && b[pos + 5] == p[5]
  {
    assert b[pos + 0] == p[0];
  }

  lemma GrantParts(g: seq<nat>)
    requires |g| == 20
    ensures g == [g[0], g[1], g[2], g[3]] + g[4..12] + g[12..20]
  {
  }

  lemma SecondByte(t: nat, g0: nat, g1: nat, g2: nat, g3: nat)
    requires t < 16 && g0 < 2 && g1 < 2 && g2 < 2 && g3 < 2
    ensures var v := t * 16 + g0 * 8 + g1 * 4 + g2 * 2 + g3;
            v / 16 == t && (v / 8) % 2 == g0 && (v / 4) % 2 == g1 && (v / 2) % 2 == g2 && v % 2 == g3
  {
    var v := t * 16 + g0 * 8 + g1 * 4 + g2 * 2 + g3;
    assert v / 2 == t * 8 + g0 * 4 + g1 * 2 + g2;
    assert v / 4 == t * 4 + g0 * 2 + g1;
    assert v / 8 == t * 2 + g0;
  }

  /** Six octets as one number. */
  function Number48(p: seq<uint8>): nat
    requires |p| == 6
  {
    0x10000000000 * p[0] as int + 0x100000000 * p[1] as int + 0x1000000 * p[2] as int + 0x10000 * p[3] as int
    + 0x100 * p[4] as int + p[5] as int
  }

  /** The layout of TS 36.321 section 6.1.5: eleven bits of timing advance, twenty of grant, sixteen of RNTI. */
  lemma PayloadIsTheNumber(r: Response)
    requires r.InRange()
    ensures Number48(Payload(r)) == 0x1000000000 * r.ta + 0x10000 * P.BitsValue(r.grant) + r.rnti
  {
    var g, p := r.grant, Payload(r);
    TwentyBits(g);
    assert g[0] < 2 && g[1] < 2 && g[2] < 2 && g[3] < 2;
    assert p[2] == BitsToByte(g[4..12]) && p[3] == BitsToByte(g[12..20]);
    hide P.BitsValue;
    assert r.ta == 16 * (r.ta / 16) + r.ta % 16 && r.rnti == 256 * (r.rnti / 256) + r.rnti % 256;
  }

  lemma {:induction false} BitsJoin(a: seq<nat>, b: seq<nat>)
    ensures P.BitsValue(a + b) == P.BitsValue(a) * P.Pow2(|b|) + P.BitsValue(b)
    decreases |b|
  {
    hide P.BitsValue, P.Pow2;
    if b == [] {
      assert a + b == a;
      EmptyBits();
    } else {
      var n := |b| - 1;
      assert (a + b)[..|a| + n] == a + b[..n];
      BitsJoin(a, b[..n]);
      LastBit(a + b);
      LastBit(b);
      Doubled(P.BitsValue(a), P.Pow2(n));
      assert P.Pow2(n + 1) == 2 * P.Pow2(n) by { PowerStep(n); }
    }
  }

  lemma EmptyBits()
    ensures P.BitsValue([]) == 0 && P.Pow2(0) == 1
  {
  }

  lemma LastBit(b: seq<nat>)
    requires b != []
    ensures P.BitsValue(b) == 2 * P.BitsValue(b[..|b| - 1]) + b[|b| - 1]
  {
  }

  lemma PowerStep(n: nat)
    ensures P.Pow2(n + 1) == 2 * P.Pow2(n)
  {
  }

  lemma Doubled(x: nat, p: nat)
    ensures x * (2 * p) == 2 * (x * p)
  {
  }

  lemma EightBits(b: seq<nat>)
    requires |b| == 8
    ensures P.BitsValue(b) == BitsToByte(b)
  {
    FourBits(b[..4]);
    FourBits(b[4..]);
    assert b == b[..4] + b[4..];
    BitsJoin(b[..4], b[4..]);
    assert P.Pow2(4) == 16;
  }

  lemma FourBits(b: seq<nat>)
    requires |b| == 4
    ensures P.BitsValue(b) == 8 * b[0] + 4 * b[1] + 2 * b[2] + b[3]
  {
    assert b[..3][..2] == b[..2] && b[..2][..1] == b[..1] && b[..1][..0] == [];
    assert P.BitsValue(b[..1]) == b[0];
    assert P.BitsValue(b[..2]) == 2 * b[0] + b[1];
    assert P.BitsValue(b[..3]) == 4 * b[0] + 2 * b[1] + b[2];
  }

  lemma OctetBehind(a: seq<nat>, b: seq<nat>)
    requires |b| == 8
    ensures P.BitsValue(a + b) == 256 * P.BitsValue(a) + BitsToByte(b)
  {
    hide P.BitsValue, BitsToByte;
    EightBits(b);
    BitsJoin(a, b);
    assert P.Pow2(8) == 256;
  }

  lemma ThreeParts(g: seq<nat>)
    requires |g| == 20
    ensures g == (g[..4] + g[4..12]) + g[12..20]
  {
  }

  lemma TwentyBits(g: seq<nat>)
    requires |g| == 20
    ensures P.BitsValue(g) == 0x10000 * (8 * g[0] + 4 * g[1] + 2 * g[2] + g[3]) + 0x100 * BitsToByte(g[4..12])
                            + BitsToByte(g[12..20])
  {
    var a, b, c := g[..4], g[4..12], g[12..20];
    hide P.BitsValue, BitsToByte;
    FourBits(a);
    OctetBehind(a, b);
    OctetBehind(a + b, c);
    ThreeParts(g);
  }

  lemma HeadByteIs(rapid: nat)
    requires rapid < 64
    ensures HeadByte(rapid, false) == 0xC0 + rapid && HeadByte(rapid, true) == 0x40 + rapid
  {
  }

  // ---------- a whole list ----------

  ghost predicate AllInRange(rs: seq<Response>) { forall i :: 0 <= i < |rs| ==> rs[i].InRange() }

  function HeadBytes(rs: seq<Response>): (h: seq<uint8>)
    ensures |h| == |rs|
  {
    seq(|rs|, i requires 0 <= i < |rs| => HeadByte(rs[i].rapid, i == |rs| - 1))
  }

  ghost function Payloads(rs: seq<Response>): (p: seq<uint8>)
    requires AllInRange(rs)
    ensures |p| == 6 * |rs|
  {
    if rs == [] then [] else Payloads(rs[..|rs| - 1]) + Payload(rs[|rs| - 1])
  }

  ghost function EncodeList(rs: seq<Response>): seq<uint8>
    requires AllInRange(rs)
  {
    HeadBytes(rs) + Payloads(rs)
  }

  /** How many subheaders are read: up to the first with its E bit clear, at most `limit`. */
  function HeadCount(b: seq<uint8>, pos: nat, limit: nat): (n: nat)
    requires pos + limit <= |b|
    ensures n <= limit
    decreases limit
  {
    if limit == 0 then 0 else if b[pos] >= 128 then 1 + HeadCount(b, pos + 1, limit - 1) else 1
  }

  /** The preamble of a subheader; a backoff subheader leaves what was there. */
  function Rapid(h: uint8, was: nat): nat { if (h / 64) % 2 == 1 then h % 64 else was }

  /** The responses that are read into subheader objects with the preambles `was`. */
  function ReadList(b: seq<uint8>, max: nat, was: seq<nat>): seq<Response>
    requires 7 * max <= |b| && |was| == max
  {
    var n := HeadCount(b, 0, ReadLimit(max));
    seq(n, i requires 0 <= i < n => ReadPayload(b, n + 6 * i, Rapid(b[i], was[i])))
  }

  lemma {:induction false} CountsAllHeads(b: seq<uint8>, pos: nat, n: nat, limit: nat)
    requires 0 < n <= limit && pos + limit <= |b|
    requires forall i :: pos <= i < pos + n - 1 ==> b[i] >= 128
    requires b[pos + n - 1] < 128
    ensures HeadCount(b, pos, limit) == n
    decreases n
  {
    if n > 1 {
      CountsAllHeads(b, pos + 1, n - 1, limit - 1);
    }
  }

  lemma {:induction false} PayloadsAt(b: seq<uint8>, pos: nat, rs: seq<Response>, i: nat)
    requires AllInRange(rs) && At(b, pos, Payloads(rs)) && i < |rs|
    ensures At(b, pos + 6 * i, Payload(rs[i]))
    decreases |rs|
  {
    hide At, Payload;
    var n := |rs| - 1;
    AtSplits(b, pos, Payloads(rs[..n]), Payload(rs[n]));
    if i < n {
      PayloadsAt(b, pos, rs[..n], i);
    }
  }

  /** Reading a written list gives it back exactly when the reader has room for all responses. */
  lemma ListComesBack(b: seq<uint8>, rs: seq<Response>, max: nat, was: seq<nat>)
    requires rs != [] && AllInRange(rs) && 7 * max <= |b| && |was| == max && At(b, 0, EncodeList(rs))
    ensures ReadList(b, max, was) == rs <==> |rs| <= ReadLimit(max)
  {
    hide Payload, ReadPayload, Payloads;
    var n := |rs|;
    if n <= ReadLimit(max) {
      AtSplits(b, 0, HeadBytes(rs), Payloads(rs));
      HeadsInPlace(b, rs);
      CountsAllHeads(b, 0, n, ReadLimit(max));
      forall i | 0 <= i < n
        ensures ReadList(b, max, was)[i] == rs[i]
      {
        PayloadsAt(b, n, rs, i);
        PayloadComesBack(b, n + 6 * i, rs[i]);
      }
    }
  }

  lemma HeadsInPlace(b: seq<uint8>, rs: seq<Response>)
    requires AllInRange(rs) && At(b, 0, HeadBytes(rs))
    ensures forall i :: 0 <= i < |rs| ==>
              (b[i] < 128 <==> i == |rs| - 1) && b[i] / 64 % 2 == 1 && b[i] % 64 == rs[i].rapid
  {
    forall i | 0 <= i < |rs|
      ensures (b[i] < 128 <==> i == |rs| - 1) && b[i] / 64 % 2 == 1 && b[i] % 64 == rs[i].rapid
    {
      assert b[0 + i] == HeadBytes(rs)[i];
      assert rs[i].InRange();
    }
  }

  // ---------- the backoff indicator ----------

  /** The byte `write_packet` puts in front: the value, or only the E bit when responses follow. */
  function BackoffByte(value: nat, responses: nat): uint8 {
    if responses > 0 then 128 else value % 16
  }

  /** `read_subheader` on a backoff subheader. */
  function ReadBackoff(h: uint8): Option<nat> { if (h / 64) % 2 == 0 then Some(h % 16) else None }

  /** The value read back is the one set exactly when no response follows or the value is zero. */
  lemma BackoffSurvives(value: nat, responses: nat)
    requires value < 16
    ensures ReadBackoff(BackoffByte(value, responses)) == Some(value) <==> responses == 0 || value == 0
  {
  }

  ghost function Packet(rs: seq<Response>, backoff: Option<nat>, rem: nat): seq<uint8>
    requires AllInRange(rs)
  {
    (if backoff.Some? then [BackoffByte(backoff.value, |rs|)] else []) + EncodeList(rs) + ZeroBytes(rem)
  }

  lemma PacketParts(b: seq<uint8>, rs: seq<Response>, value: nat, rem: nat)
    requires rs != [] && AllInRange(rs) && At(b, 0, Packet(rs, Some(value), rem))
    ensures |b| > 7 * |rs| && b[0] == 128 && At(b, 1, HeadBytes(rs)) && At(b, 1 + |rs|, Payloads(rs))
  {
    hide At, Packet, EncodeList, ZeroBytes, HeadBytes, Payloads, AllInRange;
    var front: seq<uint8> := [128];
    PacketOpened(rs, value, rem);
    AtSplits(b, 0, front + EncodeList(rs), ZeroBytes(rem));
    AtSplits(b, 0, front, EncodeList(rs));
    AtByte(b, 0, 128);
    ListParts(b, 1, rs);
  }

  lemma PacketOpened(rs: seq<Response>, value: nat, rem: nat)
    requires rs != [] && AllInRange(rs)
    ensures Packet(rs, Some(value), rem) == [128] + EncodeList(rs) + ZeroBytes(rem)
  {
    hide EncodeList, ZeroBytes, AllInRange;
  }

  lemma ListParts(b: seq<uint8>, pos: nat, rs: seq<Response>)
    requires AllInRange(rs) && At(b, pos, EncodeList(rs))
    ensures pos + 7 * |rs| <= |b| && At(b, pos, HeadBytes(rs)) && At(b, pos + |rs|, Payloads(rs))
  {
    hide At, HeadBytes, Payloads, AllInRange;
    AtSplits(b, pos, HeadBytes(rs), Payloads(rs));
    AtSlice(b, pos + |rs|, Payloads(rs));
  }

  lemma {:induction false} CountStops(b: seq<uint8>, pos: nat, limit: nat)
    requires pos + limit <= |b| && forall i :: pos <= i < pos + limit ==> b[i] >= 128
    ensures HeadCount(b, pos, limit) == limit
    decreases limit
  {
    if limit > 0 {
      CountStops(b, pos + 1, limit - 1);
    }
  }

  lemma HeadsBehindBackoff(b: seq<uint8>, rs: seq<Response>, i: nat)
    requires AllInRange(rs) && At(b, 1, HeadBytes(rs)) && i < |rs|
    ensures (b[1 + i] < 128 <==> i == |rs| - 1) && b[1 + i] / 64 % 2 == 1 && b[1 + i] % 64 == rs[i].rapid
  {
    assert b[1 + i] == HeadBytes(rs)[i];
    assert rs[i].InRange();
  }

  /** The reader takes the backoff subheader for a response, too: every response gets the payload of
      the next one.  With room for them all, or for fewer than there are, the list read is never the
      list written. */
  lemma BackoffShiftsPayloads(b: seq<uint8>, rs: seq<Response>, value: nat, rem: nat, max: nat, was: seq<nat>)
    requires rs != [] && AllInRange(rs) && 7 * max <= |b| && |was| == max
    requires At(b, 0, Packet(rs, Some(value), rem))
    ensures |ReadList(b, max, was)| == if |rs| < ReadLimit(max) then |rs| + 1 else ReadLimit(max)
    ensures |rs| < ReadLimit(max) ==>
              forall i :: 0 <= i < |rs| ==>
                ReadList(b, max, was)[i] == rs[i].(rapid := if i == 0 then was[0] else rs[i - 1].rapid)
    ensures ReadList(b, max, was) == rs ==> ReadLimit(max) == |rs|
  {
    hide Payload, ReadPayload, Payloads, At, HeadBytes, Packet;
    PacketParts(b, rs, value, rem);
    var n, limit := |rs| + 1, ReadLimit(max);
    forall i | 0 < i < n
      ensures (b[i] < 128 <==> i == n - 1) && b[i] / 64 % 2 == 1 && b[i] % 64 == rs[i - 1].rapid
    {
      HeadsBehindBackoff(b, rs, i - 1);
    }
    if n <= limit {
      CountsAllHeads(b, 0, n, limit);
      forall i | 0 <= i < |rs|
        ensures ReadList(b, max, was)[i] == rs[i].(rapid := if i == 0 then was[0] else rs[i - 1].rapid)
      {
        PayloadsAt(b, n, rs, i);
        PayloadComesBack(b, n + 6 * i, rs[i]);
        OtherPreamble(b, n + 6 * i, rs[i].rapid, Rapid(b[i], was[i]));
      }
    } else {
      CountStops(b, 0, limit);
    }
  }

  lemma OtherPreamble(b: seq<uint8>, pos: nat, rapid: nat, other: nat)
    requires pos + 6 <= |b|
    ensures ReadPayload(b, pos, other) == ReadPayload(b, pos, rapid).(rapid := other)
  {
    hide ByteToBits;
  }

  /** A response whose six payload bytes are all 64, like the subheader of preamble zero. */
  function Echo(): (r: Response)
    ensures r.InRange()
  {
    Response(0, 1028, [0, 0, 0, 0, 0, 1, 0, 0, 0, 0, 0, 0, 0, 1, 0, 0, 0, 0, 0, 0], 16448)
  }

  /** A reader with room for one may still find the one response by accident: it reads the payload one
      byte too early. */
  lemma EchoIsReadByAccident(b: seq<uint8>, value: nat)
    requires |b| >= 8 && At(b, 0, Packet([Echo()], Some(value), 0))
    ensures ReadList(b, 1, [0]) == [Echo()]
  {
    hide Echo, Payload, Payloads, ReadPayload, At, HeadBytes, Packet;
    PacketParts(b, [Echo()], value, 0);
    EchoHead(b);
    PayloadsAt(b, 2, [Echo()], 0);
    EchoPayload();
    OneByteEarly(b, Payload(Echo()));
    PayloadComesBack(b, 1, Echo());
  }

  lemma EchoHead(b: seq<uint8>)
    requires At(b, 1, HeadBytes([Echo()]))
    ensures |b| > 1 && b[1] == 64
  {
    assert b[1 + 0] == HeadBytes([Echo()])[0];
  }

  lemma OneByteEarly(b: seq<uint8>, p: seq<uint8>)
    requires At(b, 2, p) && p == [64, 64, 64, 64, 64, 64] && b[1] == 64
    ensures At(b, 1, p)
  {
    SixBytes(b, 2, p);
    forall i | 0 <= i < 6
      ensures b[1 + i] == p[i]
    {
    }
  }

  lemma EchoPayload()
    ensures Payload(Echo()) == [64, 64, 64, 64, 64, 64] && Echo().rapid == 0
  {
    EchoGrant();
    hide BitsToByte;
  }

  lemma EchoGrant()
    ensures BitsToByte(Echo().grant[4..12]) == 64 && BitsToByte(Echo().grant[12..20]) == 64
  {
    var byte: seq<nat> := [0, 1, 0, 0, 0, 0, 0, 0];
    assert Echo().grant[4..12] == byte && Echo().grant[12..20] == byte;
  }

  // ---------- writing and reading in place ----------

  /** `rar_pdu::write_packet`.  No setter of a response takes anything off `rem_len`, so it is still the
      length of the PDU, and that many zeros follow. */
  method WritePacket(buf: array<uint8>, rs: seq<Response>, backoff: Option<nat>, rem: nat)
    requires AllInRange(rs) && 1 + 7 * |rs| + rem <= buf.Length
    modifies buf
    ensures Holds(old(buf[..]), buf[..], 0, Packet(rs, backoff, rem))
  {
    hide Holds, HeadBytes, Payloads, ZeroBytes;
    ghost var base := buf[..];
    NothingHeld(base, 0);
    var ptr := 0;
    ghost var done: seq<uint8> := [];
    if backoff.Some? {
      ptr := AppendBytes(buf, 0, ptr, [BackoffByte(backoff.value, |rs|)], base, done);
      done := done + [BackoffByte(backoff.value, |rs|)];
    }
    ptr := WriteHeadBytes(buf, ptr, rs, base, done);
    ptr := WritePayloads(buf, ptr, rs, base, done + HeadBytes(rs));
    ptr := AppendBytes(buf, 0, ptr, ZeroBytes(rem), base, done + HeadBytes(rs) + Payloads(rs));
    assert Packet(rs, backoff, rem) == done + HeadBytes(rs) + Payloads(rs) + ZeroBytes(rem);
  }

  method WriteHeadBytes(buf: array<uint8>, from: nat, rs: seq<Response>, ghost base: seq<uint8>, ghost done: seq<uint8>)
    returns (ptr: nat)
    requires Holds(base, buf[..], 0, done) && from == |done| && from + |rs| <= buf.Length
    modifies buf
    ensures Holds(base, buf[..], 0, done + HeadBytes(rs)) && ptr == from + |rs|
  {
    hide Holds;
    ptr := from;
    assert done + HeadBytes(rs)[..0] == done;
    for i := 0 to |rs|
      invariant ptr == from + i && Holds(base, buf[..], 0, done + HeadBytes(rs)[..i])
    {
      var h := HeadByte(rs[i].rapid, i == |rs| - 1);
      ptr := AppendBytes(buf, 0, ptr, [h], base, done + HeadBytes(rs)[..i]);
      assert done + HeadBytes(rs)[..i] + [h] == done + HeadBytes(rs)[..i + 1];
    }
    assert HeadBytes(rs)[..|rs|] == HeadBytes(rs);
  }

  method WritePayloads(buf: array<uint8>, from: nat, rs: seq<Response>, ghost base: seq<uint8>, ghost done: seq<uint8>)
    returns (ptr: nat)
    requires AllInRange(rs)
    requires Holds(base, buf[..], 0, done) && from == |done| && from + 6 * |rs| <= buf.Length
    modifies buf
    ensures Holds(base, buf[..], 0, done + Payloads(rs)) && ptr == from + 6 * |rs|
  {
    hide Holds, Payload;
    ptr := from;
    assert rs[..0] == [] && done + Payloads(rs[..0]) == done;
    for i := 0 to |rs|
      invariant ptr == from + 6 * i && Holds(base, buf[..], 0, done + Payloads(rs[..i]))
    {
      assert rs[i].InRange() && rs[..i + 1][..i] == rs[..i];
      ptr := AppendBytes(buf, 0, ptr, Payload(rs[i]), base, done + Payloads(rs[..i]));
      assert done + Payloads(rs[..i]) + Payload(rs[i]) == done + Payloads(rs[..i + 1]);
    }
    assert rs[..|rs|] == rs;
  }

  /** `pdu::parse_packet` on a random access response PDU. */
  method ReadPacket(buf: array<uint8>, max: nat, was: seq<nat>) returns (rs: seq<Response>)
    requires 7 * max <= buf.Length && |was| == max
    ensures rs == ReadList(buf[..], max, was)
  {
    hide ReadPayload;
    rs := [];
    var n := CountHeads(buf, max);
    var ptr := n;
    for i := 0 to n
      invariant ptr == n + 6 * i && |rs| == i
      invariant forall k :: 0 <= k < i ==> rs[k] == ReadPayload(buf[..], n + 6 * k, Rapid(buf[k], was[k]))
    {
      rs := rs + [ReadPayload(buf[..], ptr, Rapid(buf[i], was[i]))];
      ptr := ptr + 6;
    }
  }

  method CountHeads(buf: array<uint8>, max: nat) returns (n: nat)
    requires max <= buf.Length
    ensures n == HeadCount(buf[..], 0, ReadLimit(max))
  {
    n := 0;
    if max == 0 {
      return;
    }
    n := 1;
    var more := buf[0] >= 128;
    while more && n + 1 < max
      invariant 0 < n <= ReadLimit(max) && n <= buf.Length
      invariant HeadCount(buf[..], 0, ReadLimit(max))
                == n + if more then HeadCount(buf[..], n, ReadLimit(max) - n) else 0
      decreases max - n
    {
      more := buf[n] >= 128;
      n := n + 1;
    }
  }
}
