/** The PDN connectivity request message (`liblte_mme_pack_pdn_connectivity_request_msg` and its
    unpack in lib/src/asn1/liblte_mme.cc; TS 24.301 section 8.3.20).

    Every optional element announces itself by its identifier.  The unpacker is not told where the
    message ends, so behind the last element present it takes the octet that follows the message for
    an identifier. */
module PdnConnectivityRequest {
  import opened Buffers
  import opened CommonTypes
  import APN = AccessPointName
  import PCO = ProtocolConfigOptions

  datatype Request = Request(
    bearer: uint4, transaction: uint8, requestType: uint3, pdnType: uint3,
    esmFlag: Option<Flag>,
    apn: Option<seq<uint8>>,
    options: Option<seq<PCO.Config>>,
    device: Option<Flag>)

  /** What the structure can hold. */
  ghost predicate Valid(q: Request) {
    && (q.apn.Some? ==> |q.apn.value| < STRING_LEN)
    && (q.options.Some? ==> PCO.Valid(q.options.value))
  }

  const ESM_FLAG_IEI := 0xD
  const APN_IEI: uint8 := 0x28
  const OPTIONS_IEI: uint8 := 0x27
  const DEVICE_IEI := 0xC

  /** The octets of the message structure. */
  const MESSAGE_BYTES: nat := 12756

  // ---------- the message ----------

  function FixedBytes(q: Request): (r: seq<uint8>)
    ensures |r| == 4
  {
    [q.bearer * 16 + 0x2, q.transaction, 0xD0, q.pdnType * 16 + q.requestType]
  }

  function EsmBytes(e: Option<Flag>): (r: seq<uint8>) {
    if e.Some? then [ESM_FLAG_IEI * 16 + e.value] else []
  }

  function ApnBytes(a: Option<seq<uint8>>): (r: seq<uint8>)
    requires a.Some? ==> |a.value| < STRING_LEN
  {
    if a.Some? then [APN_IEI] + APN.Encode(a.value) else []
  }

  function OptionsBytes(o: Option<seq<PCO.Config>>): (r: seq<uint8>)
    requires o.Some? ==> PCO.Valid(o.value)
  {
    if o.Some? then [OPTIONS_IEI] + PCO.Encode(o.value) else []
  }

  function DeviceBytes(d: Option<Flag>): (r: seq<uint8>) {
    if d.Some? then [DEVICE_IEI * 16 + d.value] else []
  }

  function FromOptions(q: Request): (r: seq<uint8>)
    requires Valid(q)
  {
    OptionsBytes(q.options) + DeviceBytes(q.device)
  }

  function FromApn(q: Request): (r: seq<uint8>)
    requires Valid(q)
  {
    ApnBytes(q.apn) + FromOptions(q)
  }

  function FromEsm(q: Request): (r: seq<uint8>)
    requires Valid(q)
  {
    EsmBytes(q.esmFlag) + FromApn(q)
  }

  function Encode(q: Request): (r: seq<uint8>)
    requires Valid(q)
  {
    FixedBytes(q) + FromEsm(q)
  }

  /** The octets that every request starts with: the ESM discriminator 2 under the bearer identity, the
      transaction, message type 208 and the two types. */
  lemma RequestStarts(q: Request)
    requires Valid(q)
    ensures var r := Encode(q);
            |r| >= 4 && r[0] % 16 == 2 && r[0] / 16 == q.bearer && r[1] == q.transaction && r[2] == 208
            && r[3] / 16 == q.pdnType && r[3] % 16 == q.requestType
  {
    hide FromEsm;
  }

  /** An initial request for IPv4 with transaction 5, for the access point "n.ab", with every optional
      element, in octets. */
  lemma ExampleRequest(q: Request)
    requires q.bearer == 0 && q.transaction == 5 && q.requestType == 1 && q.pdnType == 1
    requires q.esmFlag == Some(1) && q.apn == Some([0x6E, 0x2E, 0x61, 0x62]) && q.device == Some(1)
    requires q.options == Some([PCO.Config(0x8021, [1, 2]), PCO.Config(0x000D, [])])
    ensures Valid(q)
    ensures Encode(q) == [0x02, 0x05, 0xD0, 0x11, 0xD1, 0x28, 5, 1, 0x6E, 2, 0x61, 0x62,
                          0x27, 9, 0x80, 0x80, 0x21, 2, 1, 2, 0x00, 0x0D, 0, 0xC1]
  {
    hide FromOptions, APN.Encode, PCO.Encode;
    ExampleElements(q);
    APN.ExampleName();
    assert FromApn(q) == [0x28, 5, 1, 0x6E, 2, 0x61, 0x62] + FromOptions(q);
    hide FromApn;
  }

  lemma ExampleElements(q: Request)
    requires q.options == Some([PCO.Config(0x8021, [1, 2]), PCO.Config(0x000D, [])]) && q.device == Some(1)
    requires Valid(q)
    ensures FromOptions(q) == [0x27, 9, 0x80, 0x80, 0x21, 2, 1, 2, 0x00, 0x0D, 0, 0xC1]
  {
    hide APN.Encode, PCO.Encode;
    PCO.ExampleOptions();
  }

  // ---------- what the unpacker makes of a buffer ----------

  function TakeEsm(b: seq<uint8>, pos: nat): (r: (Option<Flag>, nat))
    requires pos < |b|
    ensures r.1 <= pos + 1
  {
    if b[pos] / 16 == ESM_FLAG_IEI then (Some(b[pos] % 2), pos + 1) else (None, pos)
  }

  function TakeApn(b: seq<uint8>, pos: nat): (r: (Option<seq<uint8>>, nat))
    requires pos + 1 + APN.REACH <= |b|
    ensures r.1 <= pos + 257
  {
    if b[pos] == APN_IEI then (Some(APN.Unlabel(b, pos + 1, 0, b[pos + 1], [])), pos + 2 + b[pos + 1])
    else (None, pos)
  }

  function TakeOptions(b: seq<uint8>, pos: nat): (r: (Option<seq<PCO.Config>>, nat))
    requires pos + 1 + PCO.REACH <= |b|
    ensures r.1 <= pos + 257
  {
    if b[pos] == OPTIONS_IEI then
      var d := PCO.Decode(b, pos + 1);
      (Some(d.0), d.1)
    else (None, pos)
  }

  function TakeDevice(b: seq<uint8>, pos: nat): (r: Option<Flag>)
    requires pos < |b|
  {
    if b[pos] / 16 == DEVICE_IEI then Some(b[pos] % 2) else None
  }

  function Decode(b: seq<uint8>): (q: Request)
    requires |b| == MESSAGE_BYTES
  {
    var e := TakeEsm(b, 4);
    var a := TakeApn(b, e.1);
    var o := TakeOptions(b, a.1);
    Request(b[0] / 16, b[1], b[3] % 8, b[3] / 16 % 8, e.0, a.0, o.0, TakeDevice(b, o.1))
  }

  // ---------- each element ----------

  /** The octet at the start of `s`, or `t` when nothing of `s` is there. */
  function Next(s: seq<uint8>, t: uint8): uint8 { if s == [] then t else s[0] }

  lemma NextAt(b: seq<uint8>, pos: nat, s: seq<uint8>)
    requires At(b, pos, s) && pos + |s| < |b|
    ensures b[pos] == Next(s, b[pos + |s|])
  {
    if s != [] {
      assert b[pos + 0] == s[0];
    }
  }

  lemma EsmBack(b: seq<uint8>, pos: nat, e: Option<Flag>)
    requires At(b, pos, EsmBytes(e)) && pos < |b|
    ensures e.Some? ==> TakeEsm(b, pos) == (e, pos + |EsmBytes(e)|)
  {
    hide At;
    if e.Some? {
      AtByte(b, pos, ESM_FLAG_IEI * 16 + e.value);
    }
  }

  lemma ApnBack(b: seq<uint8>, pos: nat, a: Option<seq<uint8>>)
    requires a.Some? ==> |a.value| < STRING_LEN
    requires At(b, pos, ApnBytes(a)) && pos + 1 + APN.REACH <= |b|
    ensures a.Some? ==> TakeApn(b, pos) == (a, pos + |ApnBytes(a)|)
  {
    hide At, APN.Unlabel;
    if a.Some? {
      hide APN.Encode;
      AtSplits(b, pos, [APN_IEI], APN.Encode(a.value));
      AtByte(b, pos, APN_IEI);
      APN.NameComesBack(b, pos + 1, a.value);
    }
  }

  lemma OptionsBack(b: seq<uint8>, pos: nat, o: Option<seq<PCO.Config>>)
    requires o.Some? ==> PCO.Valid(o.value)
    requires At(b, pos, OptionsBytes(o)) && pos + 1 + PCO.REACH <= |b|
    ensures o.Some? ==> (TakeOptions(b, pos).0 == o <==> |PCO.Value(o.value)| <= 255)
    ensures o.Some? && |PCO.Value(o.value)| <= 255 ==> TakeOptions(b, pos).1 == pos + |OptionsBytes(o)|
  {
    hide At, PCO.Decode;
    if o.Some? {
      AtSplits(b, pos, [OPTIONS_IEI], PCO.Encode(o.value));
      AtByte(b, pos, OPTIONS_IEI);
      PCO.OptionsComeBack(b, pos + 1, o.value);
    }
  }

  lemma DeviceBack(b: seq<uint8>, pos: nat, d: Option<Flag>)
    requires At(b, pos, DeviceBytes(d)) && pos < |b|
    ensures TakeDevice(b, pos) == d <==> d.Some? || b[pos] / 16 != DEVICE_IEI
  {
    hide At;
    if d.Some? {
      AtByte(b, pos, DEVICE_IEI * 16 + d.value);
    }
  }

  // ---------- the whole message ----------

  /** The octet `t` behind the message is not taken for an element: unless the last element is there,
      `t` must not be the identifier of any element of the run of absent elements at the end. */
  predicate EndsCleanly(q: Request, t: uint8) {
    || q.device.Some?
    || (&& t / 16 != DEVICE_IEI
        && (|| q.options.Some?
            || (&& t != OPTIONS_IEI
                && (q.apn.Some? || (t != APN_IEI && (q.esmFlag.Some? || t / 16 != ESM_FLAG_IEI))))))
  }

  ghost predicate OptionsFit(q: Request)
    requires Valid(q)
  {
    q.options.Some? ==> |PCO.Value(q.options.value)| <= 255
  }

  ghost predicate OptionsEnd(q: Request, t: uint8) {
    q.device.Some? || (t / 16 != DEVICE_IEI && (q.options.Some? || t != OPTIONS_IEI))
  }

  /** The options and the device properties as they are read from `pos` on. */
  ghost predicate RestReads(b: seq<uint8>, pos: nat, q: Request)
    requires pos + 1 + PCO.REACH <= |b|
  {
    var o := TakeOptions(b, pos);
    o.0 == q.options && TakeDevice(b, o.1) == q.device
  }

  lemma OptionsOnward(b: seq<uint8>, pos: nat, q: Request, t: uint8)
    requires Valid(q) && At(b, pos, FromOptions(q)) && pos + 1 + PCO.REACH <= |b|
    requires pos + |FromOptions(q)| < |b| && t == b[pos + |FromOptions(q)|]
    ensures RestReads(b, pos, q) <==> OptionsFit(q) && OptionsEnd(q, t)
  {
    var s, d := OptionsBytes(q.options), DeviceBytes(q.device);
    hide At, OptionsBytes, DeviceBytes, OptionsEnd, Next, TakeOptions, TakeDevice, PCO.Decode;
    AtSplits(b, pos, s, d);
    OptionsBack(b, pos, q.options);
    if q.options.Some? {
      if OptionsFit(q) {
        DeviceOnward(b, pos + |s|, q, t);
      }
    } else {
      OptionsShape(q.options, d);
      NextAt(b, pos, d);
      OptionsEndIs(q, t);
      OptionsAbsent(b, pos);
      DeviceOnward(b, pos, q, t);
    }
  }

  ghost predicate DeviceEnd(q: Request, t: uint8) { q.device.Some? || t / 16 != DEVICE_IEI }

  lemma DeviceOnward(b: seq<uint8>, pos: nat, q: Request, t: uint8)
    requires At(b, pos, DeviceBytes(q.device))
    requires pos + |DeviceBytes(q.device)| < |b| && t == b[pos + |DeviceBytes(q.device)|]
    ensures TakeDevice(b, pos) == q.device <==> DeviceEnd(q, t)
    ensures q.options.Some? ==> (OptionsEnd(q, t) <==> DeviceEnd(q, t))
  {
    DeviceBack(b, pos, q.device);
  }

  lemma OptionsShape(o: Option<seq<PCO.Config>>, rest: seq<uint8>)
    requires o.None?
    ensures OptionsBytes(o) == [] && OptionsBytes(o) + rest == rest
  {
  }

  lemma OptionsEndIs(q: Request, t: uint8)
    requires q.options.None?
    ensures if Next(DeviceBytes(q.device), t) == OPTIONS_IEI then !OptionsEnd(q, t)
            else OptionsEnd(q, t) <==> DeviceEnd(q, t)
  {
  }

  lemma OptionsAbsent(b: seq<uint8>, pos: nat)
    requires pos + 1 + PCO.REACH <= |b|
    ensures b[pos] != OPTIONS_IEI ==> TakeOptions(b, pos) == (None, pos)
    ensures b[pos] == OPTIONS_IEI ==> TakeOptions(b, pos).0.Some?
  {
    hide PCO.Decode;
  }

  ghost predicate ApnEnd(q: Request, t: uint8) {
    OptionsEnd(q, t) && (q.device.Some? || q.options.Some? || q.apn.Some? || t != APN_IEI)
  }

  lemma FirstFromOptions(q: Request)
    requires Valid(q)
    ensures FromOptions(q) == [] <==> q.options.None? && q.device.None?
    ensures FromOptions(q) != [] ==> FromOptions(q)[0] != APN_IEI && FromOptions(q)[0] / 16 != ESM_FLAG_IEI
  {
  }

  lemma FirstFromApn(q: Request)
    requires Valid(q)
    ensures FromApn(q) == [] <==> q.apn.None? && FromOptions(q) == []
    ensures FromApn(q) != [] ==> FromApn(q)[0] / 16 != ESM_FLAG_IEI
  {
    hide FromOptions;
    FirstFromOptions(q);
  }

  lemma ApnOnward(b: seq<uint8>, pos: nat, q: Request, t: uint8)
    requires Valid(q) && At(b, pos, FromApn(q)) && pos + 1000 <= |b|
    requires pos + |FromApn(q)| < |b| && t == b[pos + |FromApn(q)|]
    ensures var a := TakeApn(b, pos);
            a.0 == q.apn && RestReads(b, a.1, q) <==> OptionsFit(q) && ApnEnd(q, t)
  {
    var s, rest := ApnBytes(q.apn), FromOptions(q);
    assert q.apn.Some? ==> (ApnEnd(q, t) <==> OptionsEnd(q, t));
    hide At, ApnBytes, FromOptions, OptionsFit, OptionsEnd, ApnEnd, RestReads, TakeApn, Next;
    ApnShape(q.apn, rest);
    AtSplits(b, pos, s, rest);
    OptionsOnward(b, pos + |s|, q, t);
    if q.apn.Some? {
      ApnBack(b, pos, q.apn);
    } else {
      NextAt(b, pos, rest);
      ApnEndIs(q, t);
      ApnAbsent(b, pos);
    }
  }

  lemma ApnEndIs(q: Request, t: uint8)
    requires Valid(q) && q.apn.None?
    ensures if Next(FromOptions(q), t) == APN_IEI then !ApnEnd(q, t) else ApnEnd(q, t) <==> OptionsEnd(q, t)
  {
    hide FromOptions, OptionsEnd;
    FirstFromOptions(q);
  }

  lemma ApnAbsent(b: seq<uint8>, pos: nat)
    requires pos + 1 + APN.REACH <= |b|
    ensures b[pos] != APN_IEI ==> TakeApn(b, pos) == (None, pos)
    ensures b[pos] == APN_IEI ==> TakeApn(b, pos).0.Some?
  {
    hide APN.Unlabel;
  }

  lemma ApnShape(a: Option<seq<uint8>>, rest: seq<uint8>)
    requires a.Some? ==> |a.value| < STRING_LEN
    ensures |ApnBytes(a)| <= 130 && (a.None? ==> ApnBytes(a) == [] && ApnBytes(a) + rest == rest)
  {
    hide APN.Encode;
  }

  lemma EsmOnward(b: seq<uint8>, pos: nat, q: Request, t: uint8)
    requires Valid(q) && At(b, pos, FromEsm(q)) && pos + 1001 <= |b|
    requires pos + |FromEsm(q)| < |b| && t == b[pos + |FromEsm(q)|]
    ensures var e := TakeEsm(b, pos);
            var a := TakeApn(b, e.1);
            e.0 == q.esmFlag && a.0 == q.apn && RestReads(b, a.1, q) <==> OptionsFit(q) && EndsCleanly(q, t)
  {
    var s, rest := EsmBytes(q.esmFlag), FromApn(q);
    assert q.esmFlag.None? ==> s == [] && s + rest == rest;
    assert |s| <= 1;
    hide At, EsmBytes, FromApn, FromOptions, OptionsFit, RestReads, TakeApn;
    AtSplits(b, pos, s, rest);
    ApnOnward(b, pos + |s|, q, t);
    if q.esmFlag.Some? {
      EsmBack(b, pos, q.esmFlag);
    } else {
      FirstFromOptions(q);
      FirstFromApn(q);
      NextAt(b, pos, rest);
    }
  }

  lemma FixedBack(b: seq<uint8>, q: Request)
    requires At(b, 0, FixedBytes(q)) && |b| >= 4
    ensures b[0] / 16 == q.bearer && b[1] == q.transaction && b[3] % 8 == q.requestType && b[3] / 16 % 8 == q.pdnType
  {
    var f := FixedBytes(q);
    assert b[0 + 0] == f[0] && b[0 + 1] == f[1] && b[0 + 3] == f[3];
  }

  /** A packed request comes back, for every combination of optional elements, exactly when the
      options fit their length octet and the octet behind the message is not taken for an element. */
  lemma RequestComesBack(b: seq<uint8>, q: Request)
    requires Valid(q) && |b| == MESSAGE_BYTES && At(b, 0, Encode(q)) && |Encode(q)| < |b|
    ensures Decode(b) == q <==> OptionsFit(q) && EndsCleanly(q, b[|Encode(q)|])
  {
    hide At, FixedBytes, FromEsm, TakeEsm, TakeApn, TakeOptions, TakeDevice, OptionsFit, EndsCleanly;
    AtSplits(b, 0, FixedBytes(q), FromEsm(q));
    FixedBack(b, q);
    EsmOnward(b, 4, q, b[|Encode(q)|]);
  }

  /** A buffer that holds `0x28` behind a request without optional elements makes it a request with an
      access point name. */
  lemma TrailingOctetIsTaken(b: seq<uint8>, q: Request)
    requires |b| == MESSAGE_BYTES && q == Request(0, 0, 1, 1, None, None, None, None)
    requires At(b, 0, Encode(q)) && b[4] == APN_IEI
    ensures Decode(b) != q && Decode(b).apn.Some?
  {
    assert |Encode(q)| == 4;
    hide At, Encode;
    RequestComesBack(b, q);
  }

  // ---------- the code ----------

  method AppendApn(s: seq<uint8>, buf: array<uint8>, ptr: nat, ghost base: seq<uint8>, ghost done: seq<uint8>)
    returns (next: nat)
    requires |s| < STRING_LEN && Holds(base, buf[..], 0, done) && ptr == |done|
    requires ptr + |[APN_IEI] + APN.Encode(s)| <= buf.Length
    modifies buf
    ensures Holds(base, buf[..], 0, done + ([APN_IEI] + APN.Encode(s)))
    ensures next == |done + ([APN_IEI] + APN.Encode(s))|
  {
    hide Holds, APN.Encode;
    next := AppendBytes(buf, 0, ptr, [APN_IEI], base, done);
    ghost var b := buf[..];
    next := APN.Pack(s, buf, next);
    HoldsAppended(base, b, buf[..], 0, done + [APN_IEI], APN.Encode(s));
    Regroup(done, [APN_IEI], APN.Encode(s));
  }

  method AppendOptions(o: seq<PCO.Config>, buf: array<uint8>, ptr: nat, ghost base: seq<uint8>, ghost done: seq<uint8>)
    returns (next: nat)
    requires PCO.Valid(o) && Holds(base, buf[..], 0, done) && ptr == |done|
    requires ptr + |[OPTIONS_IEI] + PCO.Encode(o)| <= buf.Length
    modifies buf
    ensures Holds(base, buf[..], 0, done + ([OPTIONS_IEI] + PCO.Encode(o)))
    ensures next == |done + ([OPTIONS_IEI] + PCO.Encode(o))|
  {
    hide Holds, PCO.Encode;
    next := AppendBytes(buf, 0, ptr, [OPTIONS_IEI], base, done);
    ghost var b := buf[..];
    next := PCO.Pack(o, buf, next);
    HoldsAppended(base, b, buf[..], 0, done + [OPTIONS_IEI], PCO.Encode(o));
    Regroup(done, [OPTIONS_IEI], PCO.Encode(o));
  }

  /** Packs the message and counts its octets. */
  method Pack(q: Request, buf: array<uint8>) returns (nBytes: nat)
    requires Valid(q) && |Encode(q)| <= buf.Length
    modifies buf
    ensures Holds(old(buf[..]), buf[..], 0, Encode(q)) && nBytes == |Encode(q)|
  {
    hide Holds, APN.Encode, PCO.Encode;
    ghost var base := buf[..];
    NothingHeld(base, 0);
    assert [] + FixedBytes(q) == FixedBytes(q);
    nBytes := AppendBytes(buf, 0, 0, FixedBytes(q), base, []);
    ghost var f, e, a, o, d :=
      FixedBytes(q), EsmBytes(q.esmFlag), ApnBytes(q.apn), OptionsBytes(q.options), DeviceBytes(q.device);
    PiecesJoin(f, e, a, o, d);
    hide FixedBytes;
    if q.esmFlag.Some? {
      nBytes := AppendBytes(buf, 0, nBytes, [ESM_FLAG_IEI * 16 + q.esmFlag.value], base, f);
    }
    if q.apn.Some? {
      nBytes := AppendApn(q.apn.value, buf, nBytes, base, f + e);
    }
    if q.options.Some? {
      nBytes := AppendOptions(q.options.value, buf, nBytes, base, f + e + a);
    }
    if q.device.Some? {
      nBytes := AppendBytes(buf, 0, nBytes, [DEVICE_IEI * 16 + q.device.value], base, f + e + a + o);
    }
  }

  lemma PiecesJoin(f: seq<uint8>, e: seq<uint8>, a: seq<uint8>, o: seq<uint8>, d: seq<uint8>)
    ensures f + e + a + o + d == f + (e + (a + (o + d)))
    ensures e == [] ==> f + e == f
    ensures a == [] ==> f + e + a == f + e
    ensures o == [] ==> f + e + a + o == f + e + a
    ensures d == [] ==> f + e + a + o + d == f + e + a + o
  {
  }

  lemma OptionsCursor(b: seq<uint8>, p: nat)
    requires p + PCO.REACH <= |b|
    ensures PCO.Decode(b, p).1 == p + b[p] + 1
  {
  }

  /** Unpacks a message; the name goes through the string array of the structure. */
  method Unpack(buf: array<uint8>, apn: array<uint8>) returns (q: Request)
    requires buf.Length == MESSAGE_BYTES && apn.Length == STRING_LEN && buf != apn
    modifies apn
    ensures q == Decode(buf[..])
  {
    hide APN.Unlabel, PCO.Decode;
    var bearer, transaction := buf[0] / 16, buf[1];
    var requestType, pdnType := buf[3] % 8, buf[3] / 16 % 8;
    var pos := 4;
    var esmFlag, name, options, device := None, None, None, None;
    if buf[pos] / 16 == ESM_FLAG_IEI {
      esmFlag := Some(buf[pos] % 2);
      pos := pos + 1;
    }
    if buf[pos] == APN_IEI {
      var s;
      ghost var start := pos + 1;
      pos, s := APN.Unpack(buf, pos + 1, apn);
      assert pos == start + buf[..][start] + 1;
      name := Some(s);
    }
    if buf[pos] == OPTIONS_IEI {
      var o;
      ghost var start := pos + 1;
      o, pos := PCO.Unpack(buf, pos + 1);
      OptionsCursor(buf[..], start);
      options := Some(o);
    }
    if buf[pos] / 16 == DEVICE_IEI {
      device := Some(buf[pos] % 2);
    }
    q := Request(bearer, transaction, requestType, pdnType, esmFlag, name, options, device);
  }

  /** What is packed comes back when it is unpacked from the same buffer, under the exact condition. */
  method PackAndUnpack(q: Request, buf: array<uint8>, apn: array<uint8>) returns (back: Request)
    requires Valid(q) && buf.Length == MESSAGE_BYTES && |Encode(q)| < MESSAGE_BYTES
    requires apn.Length == STRING_LEN && buf != apn
    modifies buf, apn
    ensures back == q <==> OptionsFit(q) && EndsCleanly(q, old(buf[|Encode(q)|]))
  {
    hide At, Encode, Decode, EndsCleanly, OptionsFit;
    ghost var base := buf[..];
    var nBytes := Pack(q, buf);
    ghost var b := buf[..];
    assert b[nBytes] == base[nBytes];
    RequestComesBack(b, q);
    back := Unpack(buf, apn);
    assert buf[..] == b;
  }
}
