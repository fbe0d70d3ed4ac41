/** The layout of a MAC PDU for UL-SCH and DL-SCH (TS 36.321 sections 6.1.2 and 6.2.1), as
    `sch_subh` in lib/src/common/pdu.cc reads and writes it.

    A PDU is a list of elements: the subheaders of all elements come first, the last of them with
    its E bit clear and without a length field, and then the bodies in the same order.  Bit fields
    are written with division and remainder. */
module MacFormat {
  import opened Buffers

  // ---------- logical channel identifiers ----------

  const PHR_REPORT: nat := 26
  const CRNTI: nat := 27
  const CON_RES_ID: nat := 28
  const TRUNC_BSR: nat := 28
  const TA_CMD: nat := 29
  const SHORT_BSR: nat := 29
  const LONG_BSR: nat := 30
  const PADDING: nat := 31

  predicate IsSdu(lcid: nat) { lcid < PHR_REPORT }

  /** `sizeof_ce` for a shared channel: the size of a control element in one direction. */
  function SizeofCe(lcid: nat, ul: bool): nat {
    if ul then
      if lcid == PHR_REPORT || lcid == TRUNC_BSR || lcid == SHORT_BSR then 1
      else if lcid == CRNTI then 2
      else if lcid == LONG_BSR then 3
      else 0
    else
      if lcid == CON_RES_ID then 6
      else if lcid == TA_CMD then 1
      else 0
  }

  /** `size_header_sdu`: the subheader of an SDU that is not the last element. */
  function SizeHeaderSdu(n: nat): nat { if n < 128 then 2 else 3 }

  /** `get_header_size`. */
  function HeaderSize(lcid: nat, size: nat, last: bool): nat {
    if !last && IsSdu(lcid) then SizeHeaderSdu(size) else 1
  }

  // ---------- writing ----------

  datatype Element = Element(lcid: nat, body: seq<uint8>)

  /** The bytes of `write_subheader`: R/R/E/LCID, then F/L for an SDU that is not last. */
  function SubheaderBytes(lcid: nat, size: nat, last: bool): (r: seq<uint8>)
    ensures |r| == HeaderSize(lcid, size, last)
  {
    [(if last then 0 else 32) + lcid % 32] +
    if last || !IsSdu(lcid) then []
    else if size >= 128 then [128 + (size / 256) % 128, size % 256]
    else [size % 128]
  }

  /** The subheaders of a list of elements; only the final one is marked last. */
  function Heads(es: seq<Element>): seq<uint8> {
    if es == [] then []
    else SubheaderBytes(es[0].lcid, |es[0].body|, |es| == 1) + Heads(es[1..])
  }

  function Bodies(es: seq<Element>): seq<uint8> {
    if es == [] then [] else es[0].body + Bodies(es[1..])
  }

  function Encode(es: seq<Element>): seq<uint8> { Heads(es) + Bodies(es) }

  // ---------- reading ----------

  /** What `read_subheader` takes from the bytes at a position. */
  datatype Subheader = Subheader(more: bool, lcid: nat, size: nat, next: nat)

  function ReadSubheader(b: seq<uint8>, pos: nat, ul: bool): (r: Subheader)
    requires pos + 3 <= |b|
    ensures pos < r.next <= pos + 3
  {
    var more, lcid := (b[pos] / 32) % 2 == 1, b[pos] % 32;
    if !IsSdu(lcid) then Subheader(more, lcid, SizeofCe(lcid, ul), pos + 1)
    else if !more then Subheader(more, lcid, 0, pos + 1)
    else
      var length: int := b[pos + 1] % 128;
      if b[pos + 1] < 128 then Subheader(more, lcid, length, pos + 2)
      else Subheader(more, lcid, length * 256 + b[pos + 2], pos + 3)
  }

  /** How many subheaders `pdu::parse_packet` reads at most. */
  function ReadLimit(max: nat): nat { if max <= 1 then max else max - 1 }

  /** The subheaders read from `pos` on: until one has its E bit clear, or `limit` were read. */
  function ReadHeads(b: seq<uint8>, pos: nat, limit: nat, ul: bool): (r: seq<Subheader>)
    requires pos + 3 * limit <= |b|
    ensures |r| <= limit && (limit > 0 ==> |r| > 0)
    ensures forall i :: 0 <= i < |r| ==> r[i].next <= |b|
    decreases limit
  {
    if limit == 0 then []
    else
      var h := ReadSubheader(b, pos, ul);
      if h.more then [h] + ReadHeads(b, h.next, limit - 1, ul) else [h]
  }

  /** An element found in a PDU: where its body starts and how long it is. */
  datatype Found = Found(lcid: nat, size: nat, start: nat)

  /** The body positions that `read_payload` assigns, one after the other. */
  function Place(hs: seq<Subheader>, start: nat): (r: seq<Found>)
    ensures |r| == |hs|
  {
    if hs == [] then []
    else [Found(hs[0].lcid, hs[0].size, start)] + Place(hs[1..], start + hs[0].size)
  }

  /** `size_plus_header`. */
  function SizePlusHeader(f: Found): nat {
    (if IsSdu(f.lcid) then SizeHeaderSdu(f.size) else 1) + f.size
  }

  function TotalSize(fs: seq<Found>): nat {
    if fs == [] then 0 else SizePlusHeader(fs[0]) + TotalSize(fs[1..])
  }

  /** `sch_pdu::parse_packet`: the last size is what the PDU length leaves over. */
  function CorrectLast(fs: seq<Found>, pduLen: nat): (r: seq<Found>)
    ensures |r| == |fs|
  {
    if fs == [] then fs
    else
      var last := |fs| - 1;
      var n := pduLen - TotalSize(fs[..last]) - 1;
      if n >= 0 then fs[last := fs[last].(size := n)] else fs
  }

  function Parse(b: seq<uint8>, pduLen: nat, max: nat, ul: bool): (r: seq<Found>)
    requires 3 * max <= |b|
    ensures |r| <= ReadLimit(max)
  {
    var hs := ReadHeads(b, 0, ReadLimit(max), ul);
    if hs == [] then [] else CorrectLast(Place(hs, hs[|hs| - 1].next), pduLen)
  }

  // ---------- parsing undoes encoding ----------

  /** What an element must satisfy unless it is the last one, whose size is inferred. */
  predicate Fits(e: Element, ul: bool) {
    if IsSdu(e.lcid) then |e.body| < 32768 else e.lcid < 32 && |e.body| == SizeofCe(e.lcid, ul)
  }

  predicate WellFormed(es: seq<Element>, ul: bool) {
    && es != []
    && (forall i :: 0 <= i < |es| - 1 ==> Fits(es[i], ul))
    && es[|es| - 1].lcid < 32
  }

  /** `fs` finds exactly the elements `es` in `b`. */
  ghost predicate Finds(fs: seq<Found>, es: seq<Element>, b: seq<uint8>) {
    |fs| == |es| &&
    forall i :: 0 <= i < |es| ==>
      fs[i].lcid == es[i].lcid && fs[i].size == |es[i].body| && At(b, fs[i].start, es[i].body)
  }

  lemma ReadsOneSubheader(b: seq<uint8>, pos: nat, e: Element, last: bool, ul: bool)
    requires pos + 3 <= |b| && e.lcid < 32 && (last || Fits(e, ul))
    requires At(b, pos, SubheaderBytes(e.lcid, |e.body|, last))
    ensures ReadSubheader(b, pos, ul)
            == Subheader(!last, e.lcid, if !IsSdu(e.lcid) then SizeofCe(e.lcid, ul) else if last then 0 else |e.body|,
                         pos + HeaderSize(e.lcid, |e.body|, last))
  {
    var h := SubheaderBytes(e.lcid, |e.body|, last);
    assert b[pos + 0] == h[0];
    if !last && IsSdu(e.lcid) {
      assert b[pos + 1] == h[1];
      if |e.body| >= 128 {
        assert b[pos + 2] == h[2];
      }
    }
  }

  /** The size `read_subheader` reports for element `i`. */
  function ReadSize(es: seq<Element>, i: nat, ul: bool): nat
    requires i < |es|
  {
    if !IsSdu(es[i].lcid) then SizeofCe(es[i].lcid, ul) else if i == |es| - 1 then 0 else |es[i].body|
  }

  /** The subheaders `r` are those of `es`: only the last one has its E bit clear. */
  ghost predicate Reads(r: seq<Subheader>, es: seq<Element>, ul: bool) {
    |r| == |es| && forall i :: 0 <= i < |es| ==>
      r[i].lcid == es[i].lcid && r[i].size == ReadSize(es, i, ul) && (r[i].more <==> i < |es| - 1)
  }

  lemma ReadsCons(first: Subheader, tail: seq<Subheader>, es: seq<Element>, ul: bool)
    requires |es| > 1 && Reads(tail, es[1..], ul)
    requires first.lcid == es[0].lcid && first.size == ReadSize(es, 0, ul) && first.more
    ensures Reads([first] + tail, es, ul)
  {
    var r := [first] + tail;
    forall i | 1 <= i < |es|
      ensures r[i].lcid == es[i].lcid && r[i].size == ReadSize(es, i, ul) && (r[i].more <==> i < |es| - 1)
    {
      assert r[i] == tail[i - 1] && es[i] == es[1..][i - 1];
    }
  }

  lemma ReadHeadsUnfold(b: seq<uint8>, pos: nat, limit: nat, ul: bool)
    requires limit > 0 && pos + 3 * limit <= |b|
    ensures var h := ReadSubheader(b, pos, ul);
            ReadHeads(b, pos, limit, ul) == [h] + if h.more then ReadHeads(b, h.next, limit - 1, ul) else []
  {
    hide ReadSubheader;
  }

  lemma {:induction false} ReadsAllHeads(b: seq<uint8>, pos: nat, es: seq<Element>, limit: nat, ul: bool)
    requires es != [] && WellFormed(es, ul) && |es| <= limit && pos + 3 * limit <= |b|
    requires At(b, pos, Heads(es))
    ensures var r := ReadHeads(b, pos, limit, ul);
            Reads(r, es, ul) && |r| > 0 && r[|r| - 1].next == pos + |Heads(es)|
    decreases |es|
  {
    hide SubheaderBytes, ReadSubheader, ReadHeads, SizeofCe, At, WellFormed, HeaderSize;
    var h := SubheaderBytes(es[0].lcid, |es[0].body|, |es| == 1);
    AtSplits(b, pos, h, Heads(es[1..]));
    ElementIsLegal(es, ul);
    ReadsOneSubheader(b, pos, es[0], |es| == 1, ul);
    ReadHeadsUnfold(b, pos, limit, ul);
    var first := ReadSubheader(b, pos, ul);
    if |es| > 1 {
      ReadsAllHeads(b, pos + |h|, es[1..], limit - 1, ul);
      ReadsCons(first, ReadHeads(b, pos + |h|, limit - 1, ul), es, ul);
    } else {
      assert Heads(es[1..]) == [];
    }
  }

  lemma ElementIsLegal(es: seq<Element>, ul: bool)
    requires WellFormed(es, ul)
    ensures es[0].lcid < 32
    ensures |es| > 1 ==> Fits(es[0], ul) && WellFormed(es[1..], ul)
  {
  }

  /** The heads `hs` announce the elements `es`, up to the size of the last one. */
  ghost predicate Announce(hs: seq<Subheader>, es: seq<Element>) {
    |hs| == |es| && forall i :: 0 <= i < |es| ==>
      hs[i].lcid == es[i].lcid && (i < |es| - 1 ==> hs[i].size == |es[i].body|)
  }

  lemma {:induction false} PlacesBodies(hs: seq<Subheader>, es: seq<Element>, b: seq<uint8>, start: nat)
    requires Announce(hs, es) && At(b, start, Bodies(es))
    ensures var fs := Place(hs, start);
            forall i :: 0 <= i < |es| ==>
              && fs[i].lcid == es[i].lcid && (i < |es| - 1 ==> fs[i].size == |es[i].body|)
              && At(b, fs[i].start, es[i].body)
    decreases |es|
  {
    hide At;
    if es != [] {
      var body := es[0].body;
      AtSplits(b, start, body, Bodies(es[1..]));
      if |es| > 1 {
        PlacesBodies(hs[1..], es[1..], b, start + |body|);
        var fs := Place(hs, start);
        forall i | 1 <= i < |es|
          ensures fs[i].lcid == es[i].lcid && (i < |es| - 1 ==> fs[i].size == |es[i].body|)
          ensures At(b, fs[i].start, es[i].body)
        {
          assert fs[i] == fs[1..][i - 1];
        }
      }
    }
  }

  lemma {:induction false} SizesAddUp(fs: seq<Found>, es: seq<Element>)
    requires es != [] && |fs| == |es|
    requires forall i :: 0 <= i < |es| - 1 ==> fs[i].lcid == es[i].lcid && fs[i].size == |es[i].body|
    ensures |Encode(es)| == TotalSize(fs[..|fs| - 1]) + 1 + |es[|es| - 1].body|
    decreases |es|
  {
    var n := |es|;
    if n > 1 {
      assert fs[..n - 1][1..] == fs[1..][..n - 2];
      SizesAddUp(fs[1..], es[1..]);
    } else {
      assert Heads(es[1..]) == [] && Bodies(es[1..]) == [];
    }
  }

  lemma ParseFindsAll(es: seq<Element>, b: seq<uint8>, max: nat, ul: bool)
    requires WellFormed(es, ul) && 3 * max <= |b| && At(b, 0, Encode(es)) && |es| <= ReadLimit(max)
    ensures Finds(Parse(b, |Encode(es)|, max, ul), es, b)
  {
    hide Heads, Bodies, ReadHeads, Place, TotalSize, At;
    var limit := ReadLimit(max);
    AtSplits(b, 0, Heads(es), Bodies(es));
    ReadsAllHeads(b, 0, es, limit, ul);
    var hs := ReadHeads(b, 0, limit, ul);
    PlacesBodies(hs, es, b, |Heads(es)|);
    SizesAddUp(Place(hs, |Heads(es)|), es);
  }

  /** Parsing an encoded PDU finds its elements exactly when the reader has room for all of them. */
  lemma ParseUndoesEncode(es: seq<Element>, b: seq<uint8>, max: nat, ul: bool)
    requires WellFormed(es, ul) && 3 * max <= |b| && At(b, 0, Encode(es))
    ensures Finds(Parse(b, |Encode(es)|, max, ul), es, b) <==> |es| <= ReadLimit(max)
  {
    hide Encode, Parse, WellFormed, At;
    if |es| <= ReadLimit(max) {
      ParseFindsAll(es, b, max, ul);
    }
  }
}
