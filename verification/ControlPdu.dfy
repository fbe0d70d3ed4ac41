/** Control elements through a whole PDU (`sch_pdu` and `sch_subh` in lib/src/common/pdu.cc): what a setter
    puts into the latest subheader is what the getter returns after `write_packet` and `parse_packet`.
    Sizes and subheader bytes are given in numbers, from the tables of TS 36.321 section 6.2.1. */
module ControlPdu {
  import opened Buffers
  import opened CommonTypes
  import opened ControlElements
  import opened MacFormat
  import opened MacLayout
  import opened SchPdu

  // ---------- what the reader takes from a subheader byte ----------

  lemma ReadsUplinkControl(b: seq<uint8>, pos: nat)
    requires pos + 3 <= |b| && 0x1A <= b[pos] % 0x20
    ensures var h := ReadSubheader(b, pos, true);
            && h.next == pos + 1 && h.lcid == b[pos] % 0x20
            && (b[pos] == 0x1A ==> !h.more && h.size == 1) && (b[pos] == 0x3A ==> h.more && h.size == 1)
            && (b[pos] == 0x1B ==> !h.more && h.size == 2) && (b[pos] == 0x3B ==> h.more && h.size == 2)
            && (b[pos] == 0x1C ==> !h.more && h.size == 1) && (b[pos] == 0x3C ==> h.more && h.size == 1)
            && (b[pos] == 0x1D ==> !h.more && h.size == 1) && (b[pos] == 0x3D ==> h.more && h.size == 1)
            && (b[pos] == 0x1E ==> !h.more && h.size == 3) && (b[pos] == 0x3E ==> h.more && h.size == 3)
            && (b[pos] == 0x1F ==> !h.more && h.size == 0) && (b[pos] == 0x3F ==> h.more && h.size == 0)
  {
  }

  lemma ReadsDownlinkControl(b: seq<uint8>, pos: nat)
    requires pos + 3 <= |b| && 0x1A <= b[pos] % 0x20
    ensures var h := ReadSubheader(b, pos, false);
            && h.next == pos + 1 && h.lcid == b[pos] % 0x20
            && (b[pos] == 0x1C ==> !h.more && h.size == 6) && (b[pos] == 0x3C ==> h.more && h.size == 6)
            && (b[pos] == 0x1D ==> !h.more && h.size == 1) && (b[pos] == 0x3D ==> h.more && h.size == 1)
            && (b[pos] == 0x1E ==> !h.more && h.size == 0) && (b[pos] == 0x3E ==> h.more && h.size == 0)
            && (b[pos] == 0x1F ==> !h.more && h.size == 0) && (b[pos] == 0x3F ==> h.more && h.size == 0)
  {
  }

  /** Every identifier up to 25 is that of an SDU: with the E bit set its length has seven bits, or fifteen
      behind a set F bit; without it there is none. */
  lemma ReadsSdu(b: seq<uint8>, pos: nat, ul: bool)
    requires pos + 3 <= |b| && b[pos] % 0x20 <= 25
    ensures b[pos] < 0x20 ==> ReadSubheader(b, pos, ul) == Subheader(false, b[pos], 0, pos + 1)
    ensures 0x20 <= b[pos] < 0x40 && b[pos + 1] < 0x80 ==>
              ReadSubheader(b, pos, ul) == Subheader(true, b[pos] - 0x20, b[pos + 1], pos + 2)
    ensures 0x20 <= b[pos] < 0x40 && b[pos + 1] >= 0x80 ==>
              ReadSubheader(b, pos, ul)
              == Subheader(true, b[pos] - 0x20, 0x100 * Octet(b, pos + 1) - 0x8000 + b[pos + 2], pos + 3)
  {
  }

  /** The longest SDU with a short length, and the shortest with a long one. */
  lemma SduSubheaders()
    ensures SubheaderBytes(3, 127, false) == [0x23, 0x7F] && SubheaderBytes(3, 128, false) == [0x23, 0x80, 0x80]
    ensures SubheaderBytes(3, 0x7FFF, false) == [0x23, 0xFF, 0xFF] && SubheaderBytes(3, 128, true) == [0x03]
  {
  }

  /** Twelve bytes from the base station: a contention resolution identity and a CCCH message of four. */
  lemma ContentionThenSdu(b: seq<uint8>)
    requires |b| >= 12 && b[0] == 0x3C && b[1] == 0x00
    ensures Parse(b, 12, 4, false) == [Found(28, 6, 2), Found(0, 4, 8)]
  {
    var first, second := ReadSubheader(b, 0, false), ReadSubheader(b, 1, false);
    assert first == Subheader(true, 28, 6, 1) && second == Subheader(false, 0, 0, 2);
    assert ReadHeads(b, 1, 2, false) == [second];
    assert ReadHeads(b, 0, 3, false) == [first, second];
    TwoPlaced(first, second, 2);
    var fs := Place([first, second], 2);
    assert fs == [Found(28, 6, 2), Found(0, 0, 8)];
    assert fs[..1] == [fs[0]];
    assert TotalSize([fs[0]]) == 7;
  }

  lemma TwoPlaced(h: Subheader, g: Subheader, start: nat)
    ensures Place([h, g], start) == [Found(h.lcid, h.size, start), Found(g.lcid, g.size, start + h.size)]
  {
    assert [h, g][1..] == [g];
    assert [g][1..] == [];
  }

  // ---------- any control element of any PDU ----------

  lemma {:induction false} SelectHas(items: seq<Element>, sdu: bool, i: nat) returns (k: nat)
    requires i < |items| && IsSdu(items[i].lcid) == sdu
    ensures k < |Select(items, sdu)| && Select(items, sdu)[k] == items[i]
  {
    var n := |items| - 1;
    if i == n {
      k := |Select(items[..n], sdu)|;
    } else {
      k := SelectHas(items[..n], sdu, i);
    }
  }

  /** Every control element is found, with its bytes. */
  lemma ControlIsFound(found: seq<Found>, bytes: seq<uint8>, items: seq<Element>, last: int, rem: int, max: nat, i: nat)
    returns (k: nat)
    requires Received(found, bytes, items, last, rem, max)
    requires |items| + (if rem > 2 then 1 else rem) <= ReadLimit(max)
    requires i < |items| && !IsSdu(items[i].lcid)
    ensures k < |found| && found[k].lcid == items[i].lcid && found[k].size == |items[i].body|
    ensures At(bytes, found[k].start, items[i].body)
  {
    hide At, Encode;
    k := SelectHas(items, false, i);
    if rem <= 2 {
      k := rem + k;
    }
    assert Elements(items, last, rem)[k] == items[i];
  }

  lemma CRntiIsRead(found: seq<Found>, bytes: seq<uint8>, items: seq<Element>, last: int, rem: int, max: nat, i: nat,
                    crnti: nat)
    returns (k: nat)
    requires Received(found, bytes, items, last, rem, max)
    requires |items| + (if rem > 2 then 1 else rem) <= ReadLimit(max)
    requires i < |items| && crnti < 0x10000 && items[i] == Element(27, CRntiBytes(crnti))
    ensures k < |found| && found[k].lcid == 27 && found[k].size == 2 && found[k].start + 2 <= |bytes|
    ensures GetCRnti(bytes, found[k].start) == crnti
  {
    hide Received;
    k := ControlIsFound(found, bytes, items, last, rem, max, i);
    CRntiComesBack(bytes, found[k].start, crnti);
  }

  lemma ConResIdIsRead(found: seq<Found>, bytes: seq<uint8>, items: seq<Element>, last: int, rem: int, max: nat,
                       i: nat, id: nat)
    returns (k: nat)
    requires Received(found, bytes, items, last, rem, max)
    requires |items| + (if rem > 2 then 1 else rem) <= ReadLimit(max)
    requires i < |items| && items[i] == Element(28, ConResIdBytes(id))
    ensures k < |found| && found[k].lcid == 28 && found[k].size == 6 && found[k].start + 6 <= |bytes|
    ensures GetConResId(bytes, found[k].start) == id % 0x1000000000000
  {
    hide Received;
    k := ControlIsFound(found, bytes, items, last, rem, max, i);
    ConResIdComesBack(bytes, found[k].start, id);
  }

  lemma PhrIsRead(found: seq<Found>, bytes: seq<uint8>, items: seq<Element>, last: int, rem: int, max: nat, i: nat,
                  phr: real)
    returns (k: nat)
    requires Received(found, bytes, items, last, rem, max)
    requires |items| + (if rem > 2 then 1 else rem) <= ReadLimit(max)
    requires i < |items| && items[i] == Element(26, [PhrReport(phr)])
    ensures k < |found| && found[k].lcid == 26 && found[k].size == 1 && found[k].start + 1 <= |bytes|
    ensures GetPhr(bytes, found[k].start) == if phr < -23.0 then -23 else if phr > 40.0 then 40 else phr.Floor
  {
    hide Received;
    k := ControlIsFound(found, bytes, items, last, rem, max, i);
    PhrComesBack(bytes, found[k].start, phr);
  }

  lemma TaCmdIsRead(found: seq<Found>, bytes: seq<uint8>, items: seq<Element>, last: int, rem: int, max: nat, i: nat,
                    ta: nat)
    returns (k: nat)
    requires Received(found, bytes, items, last, rem, max)
    requires |items| + (if rem > 2 then 1 else rem) <= ReadLimit(max)
    requires i < |items| && items[i] == Element(29, [TaByte(ta)])
    ensures k < |found| && found[k].lcid == 29 && found[k].size == 1 && found[k].start + 1 <= |bytes|
    ensures GetTaCmd(bytes, found[k].start) == ta % 64
  {
    hide Received;
    k := ControlIsFound(found, bytes, items, last, rem, max, i);
    TaCmdComesBack(bytes, found[k].start, ta);
  }

  // ---------- one control element in a PDU of any length ----------

  /** The bytes of a PDU of `len` bytes with one control element, whose subheader is `marked` when it is
      the last one and `open` when padding follows.  One or two bytes of padding come first. */
  ghost predicate HoldsOne(b: seq<uint8>, len: nat, marked: uint8, open: uint8, body: seq<uint8>)
    requires len >= |body| + 1
  {
    && |b| >= len
    && b[..len] ==
       if len == |body| + 1 then [marked] + body
       else if len == |body| + 2 then [0x3F, marked] + body
       else if len == |body| + 3 then [0x3F, 0x3F, marked] + body
       else [open, 0x1F] + body + ZeroBytes(len - |body| - 2)
  }

  lemma OneItem(e: Element, rem: nat)
    requires 26 <= e.lcid < 31
    ensures IsLastSdu([e], -1) && WithoutTrailingBlank([e]) == [e] && BlankCount([e]) == 0
    ensures FrontSize([e], -1, rem) <= |e.body| + 3
  {
    var none: seq<Element> := [];
    assert [e][..0] == none;
    assert BlankCount(none) == 0 && SduCount(none) == 0 && LongSduCount(none) == 0 && CeBytes(none) == 0;
    assert SduCount([e]) == 0 && LongSduCount([e]) == 0 && CeBytes([e]) == |e.body|;
  }

  lemma OneSelected(e: Element)
    requires 26 <= e.lcid < 31
    ensures Select([e], false) == [e] && Select([e], true) == []
  {
    var none: seq<Element> := [];
    assert [e][..0] == none;
    assert Select(none, false) == none && Select(none, true) == none;
    assert none + [e] == [e] && none + none == none;
  }

  lemma ShortPads()
    ensures Pads(0) == [] && Pads(1) == [Element(31, [])] && Pads(2) == [Element(31, []), Element(31, [])]
  {
  }

  lemma OneElement(e: Element, rem: nat)
    requires 26 <= e.lcid < 31 && IsLastSdu([e], -1)
    ensures Elements([e], -1, rem) ==
            if rem > 2 then [e, Element(31, ZeroBytes(rem - 1))]
            else if rem == 2 then [Element(31, []), Element(31, []), e]
            else if rem == 1 then [Element(31, []), e] else [e]
  {
    OneSelected(e);
    ShortPads();
    hide Select, Pads;
    var none: seq<Element> := [];
    assert [e] + none == [e] && none + [e] == [e];
  }

  lemma EncodeLast(e: Element)
    requires 26 <= e.lcid < 32
    ensures Heads([e]) == [e.lcid] && Bodies([e]) == e.body
  {
    assert [e][1..] == [];
  }

  lemma EncodeFirst(e: Element, es: seq<Element>)
    requires 26 <= e.lcid < 32 && es != []
    ensures Heads([e] + es) == [32 + e.lcid] + Heads(es) && Bodies([e] + es) == e.body + Bodies(es)
  {
    assert ([e] + es)[1..] == es;
  }

  lemma EncodedBeforePadding(e: Element, rem: nat)
    requires 26 <= e.lcid < 31 && rem > 2
    ensures Encode([e, Element(31, ZeroBytes(rem - 1))]) == [32 + e.lcid, 0x1F] + e.body + ZeroBytes(rem - 1)
  {
    hide Heads, Bodies;
    var tail := Element(31, ZeroBytes(rem - 1));
    EncodeLast(tail);
    EncodeFirst(e, [tail]);
    assert [e, tail] == [e] + [tail];
  }

  lemma EncodedBehindPadding(e: Element)
    requires 26 <= e.lcid < 31
    ensures Encode([e]) == [e.lcid] + e.body
    ensures Encode([Element(31, []), e]) == [0x3F, e.lcid] + e.body
    ensures Encode([Element(31, []), Element(31, []), e]) == [0x3F, 0x3F, e.lcid] + e.body
  {
    hide Heads, Bodies;
    var pad := Element(31, []);
    EncodeLast(e);
    EncodeFirst(pad, [e]);
    assert [pad] + [e] == [pad, e];
    EncodeFirst(pad, [pad, e]);
    assert [pad] + [pad, e] == [pad, pad, e];
  }

  lemma EncodedOne(b: seq<uint8>, e: Element, rem: nat)
    requires 26 <= e.lcid < 31 && IsLastSdu([e], -1) && At(b, 0, Encode(Elements([e], -1, rem)))
    ensures HoldsOne(b, |e.body| + 1 + rem, e.lcid, 32 + e.lcid, e.body)
  {
    hide Elements, Encode, At;
    OneElement(e, rem);
    EncodedBehindPadding(e);
    if rem > 2 {
      EncodedBeforePadding(e, rem);
    }
    AtSlice(b, 0, Encode(Elements([e], -1, rem)));
  }

  /** The first element of an identifier, as the receiving loops look for it. */
  method FirstWith(found: seq<Found>, lcid: nat) returns (k: nat)
    ensures k <= |found| && (k < |found| ==> found[k].lcid == lcid)
    ensures forall j :: 0 <= j < k ==> found[j].lcid != lcid
  {
    k := 0;
    while k < |found| && found[k].lcid != lcid
      invariant k <= |found| && forall j :: 0 <= j < k ==> found[j].lcid != lcid
    {
      k := k + 1;
    }
  }

  /** Padding never passes for the element. */
  lemma FoundOne(found: seq<Found>, bytes: seq<uint8>, e: Element, rem: nat, k: nat)
    requires 26 <= e.lcid < 31 && IsLastSdu([e], -1) && Finds(found, Elements([e], -1, rem), bytes)
    requires k <= |found| && (k < |found| ==> found[k].lcid == e.lcid)
    requires forall j :: 0 <= j < k ==> found[j].lcid != e.lcid
    ensures k < |found| && found[k].size == |e.body| && At(bytes, found[k].start, e.body)
  {
    hide Elements, At;
    OneElement(e, rem);
    var es := Elements([e], -1, rem);
    var at := if rem > 2 then 0 else rem;
    assert es[at] == e;
    assert k <= at;
    assert es[k] == e;
  }

  /** An assembler with one subheader created. */
  method Prepare(len: nat, ul: bool) returns (p: Pdu)
    requires len > 0
    ensures p.Valid() && p.Open() && fresh(p) && fresh(p.buffer) && p.maxSubheaders == 4 && p.isUl == ul
    ensures p.nof == 1 && |p.items| == 1 && p.lastSduIdx == -1 && p.pduLen == p.remLen == len
    ensures p.buffer.Length >= p.sduOffsetStart + 15
  {
    var buf := new uint8[21 + len + 15];
    p := new Pdu(4, buf, len, ul);
    var ok := p.NewSubh();
  }

  /** Write, parse and look for the element. */
  method Deliver(p: Pdu, lcid: nat, ghost body: seq<uint8>, len: nat) returns (bytes: seq<uint8>, f: Found)
    requires p.Valid() && p.maxSubheaders == 4 && p.nof == 1 && p.lastSduIdx == -1
    requires p.items == [Element(lcid, body)] && 26 <= lcid < 31 && 0 < |body| <= 6
    requires p.buffer.Length >= p.sduOffsetStart + 15 && p.remLen == len - 1 - |body| >= 0
    modifies p, p.buffer
    ensures HoldsOne(bytes, len, lcid, 32 + lcid, body)
    ensures f.lcid == lcid && f.size == |body| && At(bytes, f.start, body)
  {
    ghost var e, rem := Element(lcid, body), p.remLen;
    OneItem(e, rem);
    hide Slots, Charged, BodiesWhere, At, Elements, FrontSize, BlankCount, WithoutTrailingBlank, Encode, Finds;
    hide HoldsOne;
    var found;
    found, bytes := WriteAndParse(p, 5);
    EncodedOne(bytes, e, rem);
    var k := FirstWith(found.value, lcid);
    FoundOne(found.value, bytes, e, rem, k);
    f := found.value[k];
  }

  /** A C-RNTI element in an uplink PDU of any length that holds it: identifier 27, two bytes, subheader
      0x1B when it is the last one and 0x3B before padding; and the getter returns the C-RNTI. */
  method SendCRnti(crnti: nat, len: nat) returns (bytes: seq<uint8>, value: nat)
    requires crnti < 0x10000 && len >= 3
    ensures HoldsOne(bytes, len, 0x1B, 0x3B, [crnti / 0x100, crnti % 0x100])
    ensures value == crnti
  {
    var p := Prepare(len, true);
    hide Slots, Charged, BodiesWhere, At;
    var ok := p.SetCRnti(crnti);
    var f;
    bytes, f := Deliver(p, 27, CRntiBytes(crnti), len);
    CRntiComesBack(bytes, f.start, crnti);
    value := GetCRnti(bytes, f.start);
  }

  /** A contention resolution identity in a downlink PDU: identifier 28, six bytes, subheader 0x1C or 0x3C. */
  method SendConResId(id: nat, len: nat) returns (bytes: seq<uint8>, value: nat)
    requires len >= 7
    ensures HoldsOne(bytes, len, 0x1C, 0x3C, [
              id / 0x10000000000 % 0x100, id / 0x100000000 % 0x100, id / 0x1000000 % 0x100, id / 0x10000 % 0x100,
              id / 0x100 % 0x100, id % 0x100])
    ensures value == id % 0x1000000000000
  {
    var p := Prepare(len, false);
    hide Slots, Charged, BodiesWhere, At;
    var ok := p.SetConResId(id);
    var f;
    bytes, f := Deliver(p, 28, ConResIdBytes(id), len);
    ConResIdComesBack(bytes, f.start, id);
    value := GetConResId(bytes, f.start);
  }

  /** A power headroom report in an uplink PDU: identifier 26, one byte, subheader 0x1A or 0x3A. */
  method SendPhr(phr: real, len: nat) returns (bytes: seq<uint8>, value: int)
    requires len >= 2
    ensures HoldsOne(bytes, len, 0x1A, 0x3A, [PhrReport(phr)])
    ensures value == if phr < -23.0 then -23 else if phr > 40.0 then 40 else phr.Floor
  {
    var p := Prepare(len, true);
    hide Slots, Charged, BodiesWhere, At;
    var ok := p.SetPhr(phr);
    var f;
    bytes, f := Deliver(p, 26, [PhrReport(phr)], len);
    PhrComesBack(bytes, f.start, phr);
    value := GetPhr(bytes, f.start);
  }

  /** A timing advance command in a downlink PDU: identifier 29, one byte, subheader 0x1D or 0x3D. */
  method SendTaCmd(ta: nat, len: nat) returns (bytes: seq<uint8>, value: nat)
    requires len >= 2
    ensures HoldsOne(bytes, len, 0x1D, 0x3D, [ta % 64])
    ensures value == ta % 64
  {
    var p := Prepare(len, false);
    hide Slots, Charged, BodiesWhere, At;
    var ok := p.SetTaCmd(ta);
    var f;
    bytes, f := Deliver(p, 29, [TaByte(ta)], len);
    TaCmdComesBack(bytes, f.start, ta);
    value := GetTaCmd(bytes, f.start);
  }
}
