/** The MAC PDU assembler and parser for shared channels: class `sch_pdu` of
    lib/src/common/pdu.cc over the template base of lib/include/srslte/common/pdu.h.

    The writer keeps `remLen`, the bytes that would be left if the latest SDU stayed the last one
    with a one-byte subheader.  Every setter keeps that account exact, so the length checks of
    `write_packet` fail only for a subheader that was created and never filled, and a PDU that is
    written parses back to its padding, its control elements and its SDUs. */
module SchPdu {
  import opened Buffers
  import opened MacFormat
  import opened MacLayout
  import opened CommonTypes
  import opened ControlElements

  /** `sch_subh`: `lcid`, `nof_bytes` and the 64 bytes of `w_payload_ce`. */
  datatype Subh = Subh(lcid: nat, size: nat, ce: seq<uint8>)

  ghost predicate Matches(s: Subh, e: Element, ul: bool) {
    && s.lcid == e.lcid && s.size == |e.body| && |s.ce| == 64
    && (!IsSdu(s.lcid) ==> s.lcid < 32 && s.size == SizeofCe(s.lcid, ul) > 0 && e.body == s.ce[..s.size])
  }

  ghost predicate Unfilled(s: Subh) { IsSdu(s.lcid) && s.size == 0 && |s.ce| == 64 }

  // ---------- the account, and how each step changes it ----------

  /** The created subheaders stand for `items`; the remaining ones are unfilled. */
  ghost predicate Slots(subs: seq<Subh>, nof: nat, items: seq<Element>, ul: bool) {
    && nof <= |subs| && |items| == nof
    && (forall i :: 0 <= i < nof ==> Matches(subs[i], items[i], ul))
    && (forall i :: nof <= i < |subs| ==> Unfilled(subs[i]))
  }

  /** `rem` is the PDU length minus the bytes needed with a one-byte subheader for the last SDU. */
  ghost predicate Charged(items: seq<Element>, last: int, rem: int, pduLen: nat, total: nat) {
    && IsLastSdu(items, last)
    && 0 <= rem && rem + Costs(items, last) == pduLen
    && total == |BodiesWhere(items, true)|
  }

  predicate CursorOk(nof: nat, cur: int) { cur == nof - 1 || (nof == 0 && cur == 0) }

  lemma SlotsNew(subs: seq<Subh>, nof: nat, items: seq<Element>, ul: bool)
    requires Slots(subs, nof, items, ul) && nof < |subs|
    ensures Slots(subs, nof + 1, items + [Element(subs[nof].lcid, [])], ul)
    ensures Blank(Element(subs[nof].lcid, []))
  {
  }

  lemma SlotsDel(subs: seq<Subh>, nof: nat, items: seq<Element>, ul: bool)
    requires Slots(subs, nof, items, ul) && nof > 0 && Blank(items[nof - 1])
    ensures Slots(subs, nof - 1, items[..nof - 1], ul)
  {
    assert Matches(subs[nof - 1], items[nof - 1], ul);
    forall i | nof - 1 <= i < |subs|
      ensures Unfilled(subs[i])
    {
    }
  }

  lemma SlotOf(subs: seq<Subh>, nof: nat, items: seq<Element>, ul: bool, i: nat)
    requires Slots(subs, nof, items, ul) && i < nof
    ensures i < |subs| && Matches(subs[i], items[i], ul)
  {
  }

  lemma SlotsFill(subs: seq<Subh>, nof: nat, items: seq<Element>, s: Subh, e: Element, ul: bool)
    requires Slots(subs, nof, items, ul) && nof > 0 && Matches(s, e, ul)
    ensures Slots(subs[nof - 1 := s], nof, items[nof - 1 := e], ul)
  {
  }

  lemma AppendItem(items: seq<Element>, e: Element, last: int)
    ensures Costs(items + [e], last) == Costs(items, last) + Cost(e, |items| == last)
    ensures BlankCount(items + [e]) == BlankCount(items) + if Blank(e) then 1 else 0
    ensures BodiesWhere(items + [e], true) == BodiesWhere(items, true) + if IsSdu(e.lcid) then e.body else []
    ensures BodiesWhere(items + [e], false) == BodiesWhere(items, false) + if IsSdu(e.lcid) then [] else e.body
  {
    assert (items + [e])[..|items|] == items;
  }

  lemma LastAfterAppend(items: seq<Element>, e: Element, last: int)
    requires Blank(e) || !IsSdu(e.lcid)
    ensures IsLastSdu(items + [e], last) <==> IsLastSdu(items, last)
  {
    assert forall i :: 0 <= i < |items| ==> (items + [e])[i] == items[i];
  }

  /** An item without SDU bytes, appended or taken away. */
  lemma ChargedAppend(items: seq<Element>, e: Element, last: int, rem: int, pduLen: nat, total: nat)
    requires Blank(e) || !IsSdu(e.lcid)
    ensures Charged(items + [e], last, rem - Cost(e, false), pduLen, total)
            <==> Charged(items, last, rem, pduLen, total) && rem >= Cost(e, false)
    ensures BodiesWhere(items + [e], true) == BodiesWhere(items, true)
  {
    hide Costs, BodiesWhere;
    AppendItem(items, e, last);
    LastAfterAppend(items, e, last);
  }

  lemma ChargedDel(items: seq<Element>, last: int, rem: int, pduLen: nat, total: nat)
    requires items != [] && Blank(items[|items| - 1]) && Charged(items, last, rem, pduLen, total)
    ensures Charged(items[..|items| - 1], last, rem, pduLen, total)
    ensures BodiesWhere(items[..|items| - 1], true) == BodiesWhere(items, true)
  {
    hide Charged, BodiesWhere;
    var n := |items| - 1;
    assert items == items[..n] + [items[n]];
    ChargedAppend(items[..n], items[n], last, rem, pduLen, total);
  }

  /** Filling the latest subheader with a control element. */
  lemma ChargedCe(items: seq<Element>, e: Element, last: int, rem: int, pduLen: nat, total: nat)
    requires items != [] && Blank(items[|items| - 1]) && !IsSdu(e.lcid)
    requires Charged(items, last, rem, pduLen, total) && rem >= |e.body| + 1
    ensures Charged(items[|items| - 1 := e], last, rem - |e.body| - 1, pduLen, total)
    ensures BodiesWhere(items[|items| - 1 := e], true) == BodiesWhere(items, true)
  {
    hide Charged, BodiesWhere;
    var n := |items| - 1;
    assert items == items[..n] + [items[n]] && items[n := e] == items[..n] + [e];
    ChargedAppend(items[..n], items[n], last, rem, pduLen, total);
    ChargedAppend(items[..n], e, last, rem, pduLen, total);
  }

  lemma ChargedRenamed(items: seq<Element>, lcid: nat, last: int, rem: int, pduLen: nat, total: nat)
    requires items != [] && Blank(items[|items| - 1]) && IsSdu(lcid) && Charged(items, last, rem, pduLen, total)
    ensures Charged(items[|items| - 1 := Element(lcid, [])], last, rem, pduLen, total)
    ensures BodiesWhere(items[|items| - 1 := Element(lcid, [])], true) == BodiesWhere(items, true)
  {
    hide Charged, BodiesWhere;
    var n := |items| - 1;
    var e := Element(lcid, []);
    assert items == items[..n] + [items[n]] && items[n := e] == items[..n] + [e];
    ChargedAppend(items[..n], items[n], last, rem, pduLen, total);
    ChargedAppend(items[..n], e, last, rem, pduLen, total);
  }

  /** Charging a second time for the same subheader, or taking away one that was charged, breaks the
      account. */
  lemma ChargedTwice(items: seq<Element>, e: Element, last: int, rem: int, pduLen: nat, total: nat)
    requires items != [] && !Blank(items[|items| - 1]) && !IsSdu(e.lcid)
    requires Charged(items, last, rem, pduLen, total)
    ensures !Charged(items[|items| - 1 := e], last, rem - |e.body| - 1, pduLen, total)
    ensures !Charged(items[..|items| - 1], last, rem, pduLen, total)
  {
    var n := |items| - 1;
    var before := items[..n];
    assert items == before + [items[n]] && items[n := e] == before + [e];
    hide Costs, BodiesWhere;
    AppendItem(before, items[n], last);
    AppendItem(before, e, last);
  }

  /** The largest SDU that still fits. */
  ghost function SpaceLeft(items: seq<Element>, last: int, rem: int): int
    requires last < |items|
  {
    rem - 1 - if last < 0 then 0 else SizeHeaderSdu(|items[last].body|) - 1
  }

  /** Filling the latest subheader with an SDU: the previous last SDU gets its full subheader. */
  lemma ChargedSdu(items: seq<Element>, e: Element, last: int, rem: int, pduLen: nat, total: nat, space: int)
    requires items != [] && Blank(items[|items| - 1]) && IsSdu(e.lcid) && e.body != []
    requires Charged(items, last, rem, pduLen, total)
    requires space == SpaceLeft(items, last, rem) && |e.body| <= space
    ensures Charged(items[|items| - 1 := e], |items| - 1, space - |e.body|, pduLen, total + |e.body|)
    ensures BodiesWhere(items[|items| - 1 := e], true) == BodiesWhere(items, true) + e.body
  {
    hide Costs, BodiesWhere;
    var n := |items| - 1;
    var before := items[..n];
    assert items == before + [items[n]] && items[n := e] == before + [e];
    AppendItem(before, items[n], last);
    AppendItem(before, e, n);
    LastAfterAppend(before, items[n], last);
    SameCosts(before, -1, n);
    if last >= 0 {
      CostOfFullSubheader(before, last);
    }
  }

  function FilledCe(s: Subh, lcid: nat, bytes: seq<uint8>): (r: Subh)
    requires |bytes| <= |s.ce| == 64
    ensures |r.ce| == 64 && r.lcid == lcid && r.size == |bytes| && r.ce[..|bytes|] == bytes
  {
    Subh(lcid, |bytes|, bytes + s.ce[|bytes|..])
  }

  // ---------- writing into the buffer ----------

  /** `write_subheader`. */
  method WriteSubheader(buf: array<uint8>, ptr: nat, lcid: nat, size: nat, last: bool) returns (next: nat)
    requires ptr + HeaderSize(lcid, size, last) <= buf.Length
    modifies buf
    ensures next == ptr + HeaderSize(lcid, size, last)
    ensures At(buf[..], ptr, SubheaderBytes(lcid, size, last))
    ensures SameOutside(old(buf[..]), buf[..], ptr, next)
  {
    buf[ptr] := (if last then 0 else 32) + lcid % 32;
    next := ptr + 1;
    if IsSdu(lcid) && !last {
      if size >= 128 {
        buf[next] := 128 + (size / 256) % 128;
        next := next + 1;
        buf[next] := size % 256;
        next := next + 1;
      } else {
        buf[next] := size % 128;
        next := next + 1;
      }
    }
  }

  /** One more subheader behind the bytes `done`. */
  method AppendSubheader(buf: array<uint8>, start: nat, ptr: nat, lcid: nat, size: nat, last: bool,
                         ghost base: seq<uint8>, ghost done: seq<uint8>) returns (next: nat)
    requires Holds(base, buf[..], start, done) && ptr == start + |done|
    requires ptr + HeaderSize(lcid, size, last) <= buf.Length
    modifies buf
    ensures Holds(base, buf[..], start, done + SubheaderBytes(lcid, size, last))
    ensures next == start + |done + SubheaderBytes(lcid, size, last)|
  {
    hide At, SameOutside, SubheaderBytes;
    ghost var before := buf[..];
    next := WriteSubheader(buf, ptr, lcid, size, last);
    PieceAppended(base, before, buf[..], start, done, SubheaderBytes(lcid, size, last));
  }

  lemma {:induction false} PrefixLengths(items: seq<Element>, sdu: bool, lastAt: int, n: nat)
    requires n <= |items|
    ensures |HeadsWhere(items[..n], sdu, lastAt)| <= |HeadsWhere(items, sdu, lastAt)|
    ensures |BodiesWhere(items[..n], sdu)| <= |BodiesWhere(items, sdu)|
    decreases |items| - n
  {
    hide SubheaderBytes;
    if n < |items| {
      assert items[..n + 1][..n] == items[..n];
      PrefixLengths(items, sdu, lastAt, n + 1);
    } else {
      assert items[..n] == items;
    }
  }

  lemma PrefixStep(items: seq<Element>, sdu: bool, lastAt: int, i: nat)
    requires i < |items|
    ensures HeadsWhere(items[..i + 1], sdu, lastAt)
            == HeadsWhere(items[..i], sdu, lastAt)
               + if IsSdu(items[i].lcid) == sdu then SubheaderBytes(items[i].lcid, |items[i].body|, i == lastAt) else []
    ensures BodiesWhere(items[..i + 1], sdu)
            == BodiesWhere(items[..i], sdu) + if IsSdu(items[i].lcid) == sdu then items[i].body else []
  {
    hide SubheaderBytes;
    assert items[..i + 1][..i] == items[..i];
  }

  /** The loop that writes the subheaders of the SDUs, and the one for the control elements. */
  method WriteHeads(buf: array<uint8>, start: nat, subs: seq<Subh>, nof: nat, sdu: bool, lastAt: int,
                    ul: bool, ghost items: seq<Element>) returns (ptr: nat)
    requires Slots(subs, nof, items, ul) && start + |HeadsWhere(items, sdu, lastAt)| <= buf.Length
    modifies buf
    ensures ptr == start + |HeadsWhere(items, sdu, lastAt)|
    ensures Holds(old(buf[..]), buf[..], start, HeadsWhere(items, sdu, lastAt))
  {
    assert |items| == nof <= |subs|;
    hide Holds, HeadsWhere, SubheaderBytes, Slots, Matches;
    ptr := start;
    NothingWritten(buf[..], start, sdu, lastAt);
    assert items[..0] == [];
    for i := 0 to nof
      invariant ptr == start + |HeadsWhere(items[..i], sdu, lastAt)|
      invariant Holds(old(buf[..]), buf[..], start, HeadsWhere(items[..i], sdu, lastAt))
    {
      PrefixStep(items, sdu, lastAt, i);
      PrefixLengths(items, sdu, lastAt, i + 1);
      MatchingSlot(subs, nof, items, ul, i);
      if IsSdu(subs[i].lcid) == sdu {
        ptr := AppendSubheader(buf, start, ptr, subs[i].lcid, subs[i].size, i == lastAt,
                               old(buf[..]), HeadsWhere(items[..i], sdu, lastAt));
      }
    }
    assert items[..nof] == items;
  }

  lemma MatchingSlot(subs: seq<Subh>, nof: nat, items: seq<Element>, ul: bool, i: nat)
    requires Slots(subs, nof, items, ul) && i < nof
    ensures i < |subs| && subs[i].lcid == items[i].lcid && subs[i].size == |items[i].body|
    ensures !IsSdu(subs[i].lcid) ==> SizeofCe(subs[i].lcid, ul) == subs[i].size <= |subs[i].ce|
                                     && subs[i].ce[..subs[i].size] == items[i].body
  {
    SlotOf(subs, nof, items, ul, i);
  }

  lemma NothingWritten(b: seq<uint8>, start: nat, sdu: bool, lastAt: int)
    requires start <= |b|
    ensures HeadsWhere([], sdu, lastAt) == [] && BodiesWhere([], sdu) == []
    ensures Holds(b, b, start, [])
  {
  }

  /** The loop that writes the control element payloads. */
  method WriteCePayloads(buf: array<uint8>, start: nat, subs: seq<Subh>, nof: nat, ul: bool, ghost items: seq<Element>)
    returns (ptr: nat)
    requires Slots(subs, nof, items, ul) && start + |BodiesWhere(items, false)| <= buf.Length
    modifies buf
    ensures ptr == start + |BodiesWhere(items, false)|
    ensures Holds(old(buf[..]), buf[..], start, BodiesWhere(items, false))
  {
    assert |items| == nof <= |subs|;
    hide Holds, BodiesWhere, HeadsWhere, SubheaderBytes, Slots, Matches, SizeofCe;
    ptr := start;
    NothingWritten(buf[..], start, false, -1);
    assert items[..0] == [];
    for i := 0 to nof
      invariant ptr == start + |BodiesWhere(items[..i], false)|
      invariant Holds(old(buf[..]), buf[..], start, BodiesWhere(items[..i], false))
    {
      PrefixStep(items, false, -1, i);
      PrefixLengths(items, false, -1, i + 1);
      MatchingSlot(subs, nof, items, ul, i);
      if !IsSdu(subs[i].lcid) {
        ptr := AppendBytes(buf, start, ptr, subs[i].ce[..SizeofCe(subs[i].lcid, ul)],
                           old(buf[..]), BodiesWhere(items[..i], false));
      }
    }
    assert items[..nof] == items;
  }

  /** The loop that adds up the subheaders and the control element payloads. */
  method AddSizes(subs: seq<Subh>, nof: nat, lastAt: int, ul: bool, ghost items: seq<Element>)
    returns (header: nat, ce: nat)
    requires Slots(subs, nof, items, ul)
    ensures header == |HeadsWhere(items, false, lastAt)| + |HeadsWhere(items, true, lastAt)|
    ensures ce == |BodiesWhere(items, false)|
  {
    assert |items| == nof <= |subs|;
    hide BodiesWhere, HeadsWhere, Slots, Matches, SizeofCe;
    header, ce := 0, 0;
    NothingWritten([], 0, false, lastAt);
    NothingWritten([], 0, true, lastAt);
    assert items[..0] == [];
    for i := 0 to nof
      invariant |items| == nof <= |subs|
      invariant header == |HeadsWhere(items[..i], false, lastAt)| + |HeadsWhere(items[..i], true, lastAt)|
      invariant ce == |BodiesWhere(items[..i], false)|
    {
      PrefixStep(items, false, lastAt, i);
      PrefixStep(items, true, lastAt, i);
      MatchingSlot(subs, nof, items, ul, i);
      header := header + HeaderSize(subs[i].lcid, subs[i].size, i == lastAt);
      if !IsSdu(subs[i].lcid) {
        ce := ce + subs[i].size;
      }
    }
    assert items[..nof] == items;
  }

  /** The one or two padding subheaders in front. */
  method WritePads(buf: array<uint8>, start: nat, n: nat) returns (ptr: nat)
    requires start + n <= buf.Length
    modifies buf
    ensures ptr == start + n == start + |PadHeads(n)|
    ensures Holds(old(buf[..]), buf[..], start, PadHeads(n))
  {
    hide Holds, SubheaderBytes;
    ptr := start;
    NothingWritten(buf[..], start, false, -1);
    for i := 0 to n
      invariant ptr == start + i == start + |PadHeads(i)|
      invariant Holds(old(buf[..]), buf[..], start, PadHeads(i))
    {
      ptr := AppendSubheader(buf, start, ptr, PADDING, 0, false, old(buf[..]), PadHeads(i));
    }
  }

  method WriteLeading(buf: array<uint8>, start: nat, subs: seq<Subh>, nof: nat, last: int, rem: nat,
                      ul: bool, ghost items: seq<Element>) returns (ptr: nat)
    requires Slots(subs, nof, items, ul) && start + |LeadingHeads(items, last, rem)| <= buf.Length
    modifies buf
    ensures ptr == start + |LeadingHeads(items, last, rem)|
    ensures Holds(old(buf[..]), buf[..], start, LeadingHeads(items, last, rem))
  {
    assert |items| == nof;
    hide Holds, HeadsWhere, PadHeads, Slots;
    PadHeadsLength(rem);
    NoPads();
    var n := if rem > 2 then 0 else rem;
    var lastAt := if last < 0 && rem <= 2 then nof - 1 else -1;
    ptr := WritePads(buf, start, n);
    ghost var middle := buf[..];
    ptr := WriteHeads(buf, ptr, subs, nof, false, lastAt, ul, items);
    HoldsAppended(old(buf[..]), middle, buf[..], start, PadHeads(n), HeadsWhere(items, false, lastAt));
  }

  method WriteTrailing(buf: array<uint8>, start: nat, subs: seq<Subh>, nof: nat, last: int, rem: nat,
                       ul: bool, ghost items: seq<Element>) returns (ptr: nat)
    requires Slots(subs, nof, items, ul) && start + |TrailingHeads(items, last, rem)| <= buf.Length
    modifies buf
    ensures ptr == start + |TrailingHeads(items, last, rem)|
    ensures Holds(old(buf[..]), buf[..], start, TrailingHeads(items, last, rem))
  {
    hide Holds, HeadsWhere, SubheaderBytes, Slots;
    ptr := start;
    NothingWritten(buf[..], start, true, last);
    ghost var sdus: seq<uint8> := [];
    if last >= 0 {
      sdus := HeadsWhere(items, true, if rem <= 2 then last else -1);
      ptr := WriteHeads(buf, ptr, subs, nof, true, if rem <= 2 then last else -1, ul, items);
    }
    if rem > 2 {
      ptr := AppendSubheader(buf, start, ptr, PADDING, 0, true, old(buf[..]), sdus);
    } else {
      assert TrailingHeads(items, last, rem) == sdus;
    }
  }

  /** Everything in front of the SDU bytes: all subheaders, then the control element payloads. */
  method WriteFront(buf: array<uint8>, start: nat, subs: seq<Subh>, nof: nat, last: int, rem: nat,
                    ul: bool, ghost items: seq<Element>) returns (ptr: nat)
    requires Slots(subs, nof, items, ul)
    requires start + |EmittedHeads(items, last, rem)| + |BodiesWhere(items, false)| <= buf.Length
    modifies buf
    ensures ptr == start + |EmittedHeads(items, last, rem) + BodiesWhere(items, false)|
    ensures Holds(old(buf[..]), buf[..], start, EmittedHeads(items, last, rem) + BodiesWhere(items, false))
  {
    hide Holds, BodiesWhere, LeadingHeads, TrailingHeads, Slots;
    ptr := WriteLeading(buf, start, subs, nof, last, rem, ul, items);
    ghost var b1 := buf[..];
    ptr := WriteTrailing(buf, ptr, subs, nof, last, rem, ul, items);
    HoldsAppended(old(buf[..]), b1, buf[..], start, LeadingHeads(items, last, rem), TrailingHeads(items, last, rem));
    ghost var b2 := buf[..];
    ptr := WriteCePayloads(buf, ptr, subs, nof, ul, items);
    HoldsAppended(old(buf[..]), b2, buf[..], start, EmittedHeads(items, last, rem), BodiesWhere(items, false));
  }

  lemma NoPads()
    ensures PadHeads(0) == []
  {
  }

  lemma SduFits(items: seq<Element>, last: int, rem: int, pduLen: nat, total: nat)
    requires Charged(items, last, rem, pduLen, total)
    ensures total <= pduLen
  {
    hide Costs, BodiesWhere;
    SduBytesAreCharged(items, last);
  }

  lemma {:induction false} SduBytesAreCharged(items: seq<Element>, last: int)
    ensures |BodiesWhere(items, true)| <= Costs(items, last)
  {
    if items != [] {
      SduBytesAreCharged(items[..|items| - 1], last);
    }
  }

  lemma SduAppended(b: seq<uint8>, b': seq<uint8>, pos: nat, bodies: seq<uint8>, data: seq<uint8>)
    requires At(b, pos, bodies) && SameOutside(b, b', pos + |bodies|, pos + |bodies| + |data|)
    requires At(b', pos + |bodies|, data)
    ensures At(b', pos, bodies + data)
  {
    hide At, SameOutside;
    OutsideKeepsAt(b, b', pos + |bodies|, pos + |bodies| + |data|, pos, bodies);
    AtSplits(b', pos, bodies, data);
  }

  lemma SduStep(subs: seq<Subh>, nof: nat, items: seq<Element>, s: Subh, e: Element, ul: bool,
                last: int, rem: int, pduLen: nat, total: nat, space: int)
    requires Slots(subs, nof, items, ul) && nof > 0 && |items| == nof && Matches(s, e, ul)
    requires Blank(items[nof - 1]) && IsSdu(e.lcid) && e.body != []
    requires Charged(items, last, rem, pduLen, total) && last < |items|
    requires space == SpaceLeft(items, last, rem) && |e.body| <= space
    ensures Slots(subs[nof - 1 := s], nof, items[nof - 1 := e], ul)
    ensures Charged(items[nof - 1 := e], nof - 1, space - |e.body|, pduLen, total + |e.body|)
    ensures BodiesWhere(items[nof - 1 := e], true) == BodiesWhere(items, true) + e.body
    ensures total == |BodiesWhere(items, true)| && total + |e.body| <= pduLen
  {
    assert total == |BodiesWhere(items, true)|;
    hide Slots, Charged, BodiesWhere, SpaceLeft;
    SlotsFill(subs, nof, items, s, e, ul);
    ChargedSdu(items, e, last, rem, pduLen, total, space);
    SduFits(items[nof - 1 := e], nof - 1, space - |e.body|, pduLen, total + |e.body|);
  }

  lemma DelStep(subs: seq<Subh>, nof: nat, items: seq<Element>, ul: bool,
                last: int, rem: int, pduLen: nat, total: nat)
    requires Slots(subs, nof, items, ul) && nof > 0 && |items| == nof && Charged(items, last, rem, pduLen, total)
    ensures Charged(items[..nof - 1], last, rem, pduLen, total) <==> Blank(items[nof - 1])
    ensures Blank(items[nof - 1]) ==>
              && Slots(subs, nof - 1, items[..nof - 1], ul)
              && BodiesWhere(items[..nof - 1], true) == BodiesWhere(items, true)
  {
    hide Slots, Charged, BodiesWhere;
    if Blank(items[nof - 1]) {
      SlotsDel(subs, nof, items, ul);
      ChargedDel(items, last, rem, pduLen, total);
    } else {
      ChargedTwice(items, Element(PADDING, []), last, rem, pduLen, total);
    }
  }

  lemma CeStep(subs: seq<Subh>, nof: nat, items: seq<Element>, s: Subh, e: Element, ul: bool,
               last: int, rem: int, pduLen: nat, total: nat)
    requires Slots(subs, nof, items, ul) && nof > 0 && |items| == nof && Matches(s, e, ul) && !IsSdu(e.lcid)
    requires Charged(items, last, rem, pduLen, total) && rem >= |e.body| + 1
    ensures Slots(subs[nof - 1 := s], nof, items[nof - 1 := e], ul)
    ensures Charged(items[nof - 1 := e], last, rem - |e.body| - 1, pduLen, total) <==> Blank(items[nof - 1])
    ensures Blank(items[nof - 1]) ==> BodiesWhere(items[nof - 1 := e], true) == BodiesWhere(items, true)
  {
    hide Slots, Charged, BodiesWhere;
    SlotsFill(subs, nof, items, s, e, ul);
    if Blank(items[nof - 1]) {
      ChargedCe(items, e, last, rem, pduLen, total);
    } else {
      ChargedTwice(items, e, last, rem, pduLen, total);
    }
  }

  lemma RoomForSdu(items: seq<Element>, last: int, rem: int, pduLen: nat, total: nat, n: nat)
    requires Charged(items, last, rem, pduLen, total) && n <= SpaceLeft(items, last, rem)
    ensures total + n <= pduLen
  {
    hide Costs, BodiesWhere;
    SduBytesAreCharged(items, last);
  }

  /** Copies SDU bytes behind the SDU bytes that are already in the buffer. */
  method PutSduBytes(buf: array<uint8>, pos: nat, total: nat, data: seq<uint8>, ghost bodies: seq<uint8>)
    requires At(buf[..], pos, bodies) && total == |bodies| && pos + total + |data| <= buf.Length
    modifies buf
    ensures At(buf[..], pos, bodies + data)
  {
    hide At, SameOutside;
    ghost var before := buf[..];
    Copy(buf, pos + total, data);
    SduAppended(before, buf[..], pos, bodies, data);
  }

  ghost function WithoutTrailingBlank(items: seq<Element>): seq<Element> {
    if items != [] && Blank(items[|items| - 1]) then items[..|items| - 1] else items
  }

  /** The complete PDU stands in the buffer at `start`. */
  ghost predicate Emitted(b: seq<uint8>, start: nat, items: seq<Element>, last: int, rem: nat) {
    IsLastSdu(items, last) && At(b, start, EmittedHeads(items, last, rem) + EmittedBodies(items, last, rem))
  }

  /** The front never exceeds what the size loop counted, and equals it when no item is blank. */
  lemma FrontLength(items: seq<Element>, last: int, rem: nat)
    requires IsLastSdu(items, last)
    ensures var lastAt := if rem > 2 then -1 else last;
            var header := |HeadsWhere(items, false, lastAt)| + |HeadsWhere(items, true, lastAt)|
                          + (if rem > 2 then 1 else rem);
            && |EmittedHeads(items, last, rem)| <= header
            && (BlankCount(items) == 0 ==> |EmittedHeads(items, last, rem)| == header)
  {
    hide HeadsWhere, BlankCount;
    PadHeadsLength(rem);
    LastAtIsIrrelevantForCes(items, if last < 0 && rem <= 2 then |items| - 1 else -1, if rem > 2 then -1 else last);
    if last < 0 && BlankCount(items) == 0 {
      NoBlankNoCount(items);
      NoSduHeads(items, -1);
    }
  }

  /** Without blank items the front that `write_packet` needs is the counted one. */
  lemma FrontIsCounted(items: seq<Element>, last: int, rem: nat)
    requires IsLastSdu(items, last) && BlankCount(items) == 0
    ensures |EmittedHeads(items, last, rem)| + |BodiesWhere(items, false)| == FrontSize(items, last, rem)
  {
    hide EmittedHeads, HeadsWhere, BodiesWhere, BlankCount, SduCount, LongSduCount, CeBytes;
    FrontLength(items, last, rem);
    HeadsCounted(items, if rem > 2 then -1 else last);
  }

  /** As many long SDUs as the subheader limit allows fill a PDU to the last byte: their subheaders
      fit in front of the SDUs only for a limit below eighteen. */
  lemma LongSubheadersFit(items: seq<Element>, max: nat)
    requires max >= 2 && |items| == max - 1
    requires forall i :: 0 <= i < |items| ==> IsSdu(items[i].lcid) && |items[i].body| >= 128
    ensures FrontSize(items, |items| - 1, 0) < 2 * max + 13 <==> max < 18
  {
    LongSdusOnly(items);
    hide SduCount, LongSduCount, CeBytes;
  }

  /** The front ends where the SDUs begin, and the padding begins where they end. */
  lemma PduComplete(b0: seq<uint8>, b1: seq<uint8>, b2: seq<uint8>, start: nat, offset: nat, items: seq<Element>,
                    last: int, rem: nat, padding: nat, pduLen: nat)
    requires IsLastSdu(items, last) && At(b0, offset, BodiesWhere(items, true))
    requires offset == start + |EmittedHeads(items, last, rem) + BodiesWhere(items, false)|
    requires SameOutside(b0, b1, start, offset)
    requires At(b1, start, EmittedHeads(items, last, rem) + BodiesWhere(items, false))
    requires start + pduLen - padding == offset + |BodiesWhere(items, true)|
    requires padding == if rem > 2 then PaddingBytes(items, last, rem) else 0
    requires if padding > 0 then SameOutside(b1, b2, start + pduLen - padding, start + pduLen)
                                 && At(b2, start + pduLen - padding, ZeroBytes(padding)) else b2 == b1
    ensures Emitted(b2, start, items, last, rem)
  {
    hide EmittedHeads, BodiesWhere, At, SameOutside;
    var front, sdus := EmittedHeads(items, last, rem) + BodiesWhere(items, false), BodiesWhere(items, true);
    OutsideKeepsAt(b0, b1, start, offset, offset, sdus);
    AtSplits(b1, start, front, sdus);
    var tail := ZeroBytes(padding);
    if padding > 0 {
      OutsideKeepsAt(b1, b2, start + pduLen - padding, start + pduLen, start, front + sdus);
      AtSplits(b2, start, front + sdus, tail);
    }
    assert tail == [] <==> padding == 0;
    assert EmittedHeads(items, last, rem) + EmittedBodies(items, last, rem) == front + sdus + tail;
    assert padding == 0 ==> front + sdus + tail == front + sdus;
  }

  /** The sizes `write_packet` works out before it writes anything. */
  method Measure(subs: seq<Subh>, nof: nat, last: int, rem: nat, ul: bool, ghost items: seq<Element>)
    returns (header: nat, ce: nat, padding: nat)
    requires Slots(subs, nof, items, ul) && IsLastSdu(items, last)
    ensures padding == if rem > 2 then PaddingBytes(items, last, rem) else 0
    ensures ce == |BodiesWhere(items, false)|
    ensures padding + header + ce + |BodiesWhere(items, true)| == Costs(items, last) + rem + 2 * BlankCount(items)
    ensures |EmittedHeads(items, last, rem)| <= header
    ensures BlankCount(items) == 0 ==> |EmittedHeads(items, last, rem)| == header
  {
    assert |items| == nof <= |subs|;
    hide Slots, BodiesWhere, HeadsWhere, Costs, BlankCount, EmittedHeads;
    padding := 0;
    if rem > 2 {
      padding := rem - 1;
      if last >= 0 {
        SlotOf(subs, nof, items, ul, last);
        padding := padding - (SizeHeaderSdu(subs[last].size) - 1);
      }
    }
    header, ce := AddSizes(subs, nof, if rem > 2 then -1 else last, ul, items);
    header := header + (if rem > 2 then 1 else rem);
    LengthCheck(items, last, rem);
    FrontLength(items, last, rem);
  }

  /** The rest of `write_packet`, on the fields it uses; it also returns the new `rem_len`. */
  method Assemble(buf: array<uint8>, subs: seq<Subh>, nof: nat, last: int, rem: nat, ul: bool, total: nat,
                  offset: nat, pduLen: nat, ghost items: seq<Element>) returns (r: Option<nat>, padding: nat)
    requires Slots(subs, nof, items, ul) && Charged(items, last, rem, pduLen, total)
    requires buf.Length >= offset + pduLen && At(buf[..], offset, BodiesWhere(items, true))
    modifies buf
    ensures r.Some? <==> BlankCount(items) == 0
                         && |EmittedHeads(items, last, rem)| + |BodiesWhere(items, false)| < offset
    ensures r.Some? ==> r.value == offset - |EmittedHeads(items, last, rem)| - |BodiesWhere(items, false)|
                        && Emitted(buf[..], r.value, items, last, rem)
    ensures padding == if rem > 2 then PaddingBytes(items, last, rem) else 0
  {
    hide Slots, BodiesWhere, At, Costs, BlankCount, EmittedHeads, SameOutside, Emitted;
    var header, ce;
    header, ce, padding := Measure(subs, nof, last, rem, ul, items);
    if ce + header >= offset {
      return None, padding;
    }
    var start := offset - header - ce;
    ghost var b0 := buf[..];
    var ptr := WriteFront(buf, start, subs, nof, last, rem, ul, items);
    ghost var b1 := buf[..];
    if padding > 0 {
      Copy(buf, start + pduLen - padding, ZeroBytes(padding));
    }
    if padding + header + ce + total != pduLen {
      return None, padding;
    }
    if header + ce != ptr - start {
      return None, padding;
    }
    PduComplete(b0, b1, buf[..], start, offset, items, last, rem, padding, pduLen);
    r := Some(start);
  }

  /** A written PDU still has the SDUs where they were stored. */
  lemma SdusStay(b: seq<uint8>, start: nat, items: seq<Element>, last: int, rem: nat, offset: nat)
    requires Emitted(b, start, items, last, rem)
    requires offset == start + |EmittedHeads(items, last, rem)| + |BodiesWhere(items, false)|
    ensures At(b, offset, BodiesWhere(items, true))
  {
    hide At, EmittedHeads, BodiesWhere;
    var h, c, d := EmittedHeads(items, last, rem), BodiesWhere(items, false), BodiesWhere(items, true);
    var z := if rem > 2 then ZeroBytes(PaddingBytes(items, last, rem)) else [];
    AtSplits(b, start, h, c + d + z);
    AtSplits(b, start + |h|, c + d, z);
    AtSplits(b, start + |h|, c, d);
  }

  /** What `write_packet` leaves in `rem_len` agrees with the account only if nothing was left. */
  lemma UsedUp(items: seq<Element>, last: int, rem: nat, pduLen: nat, total: nat)
    requires Charged(items, last, rem, pduLen, total)
    ensures Charged(items, last, if rem > 2 then PaddingBytes(items, last, rem) else 0, pduLen, total) <==> rem == 0
  {
    hide Costs, BodiesWhere;
  }

  // ---------- what a written PDU parses to ----------

  /** A written PDU is the encoding of its elements and has the announced length. */
  lemma EmittedIsEncoding(b: seq<uint8>, start: nat, items: seq<Element>, last: int, rem: nat)
    requires Emitted(b, start, items, last, rem) && BlankCount(items) == 0 && (items != [] || rem > 2)
    ensures At(b, start, Encode(Elements(items, last, rem)))
    ensures |Encode(Elements(items, last, rem))| == Costs(items, last) + rem
  {
    hide EmittedHeads, EmittedBodies, Elements, Heads, Bodies, At, Costs, BlankCount;
    EmittedHeadsAreHeads(items, last, rem);
    EmittedBodiesAreBodies(items, last, rem);
    EmittedLength(items, last, rem);
  }

  /** The receiver finds exactly the padding, the control elements and the SDUs of a written PDU, in
      that order, if and only if it has room for all subheaders. */
  lemma WrittenPduParses(b: seq<uint8>, start: nat, items: seq<Element>, last: int, rem: nat, max: nat, ul: bool)
    requires Emitted(b, start, items, last, rem) && BlankCount(items) == 0 && (items != [] || rem > 2)
    requires forall i :: 0 <= i < |items| ==> Fits(items[i], ul)
    requires start + 3 * max <= |b|
    ensures At(b[start..], 0, Encode(Elements(items, last, rem)))
    ensures Finds(Parse(b[start..], Costs(items, last) + rem, max, ul), Elements(items, last, rem), b[start..])
            <==> |items| + (if rem > 2 then 1 else rem) <= ReadLimit(max)
  {
    assert IsLastSdu(items, last);
    hide Emitted, Parse, Elements, Encode, WellFormed, At, Fits, Costs, BlankCount, Finds;
    var es := Elements(items, last, rem);
    EmittedIsEncoding(b, start, items, last, rem);
    AtShifts(b, start, Encode(es));
    ElementsAreWellFormed(items, last, rem, ul);
    ParseUndoesEncode(es, b[start..], max, ul);
  }

  /** The one malformed PDU: only a subheader that could not be filled, and at most two bytes.  All
      its E bits are set, so it is the encoding of no list of elements. */
  lemma ShortEmptyPduIsMalformed(rem: nat, es: seq<Element>)
    requires 0 < rem <= 2
    ensures EmittedHeads([], -1, rem) + EmittedBodies([], -1, rem) != Encode(es)
  {
    var b := EmittedHeads([], -1, rem) + EmittedBodies([], -1, rem);
    assert b == PadHeads(rem);
    PadHeadsAllSet(rem);
    if es != [] {
      var k := SomeBitIsClear(es);
      assert Encode(es)[k] < 32;
    }
  }

  lemma {:induction false} PadHeadsAllSet(n: nat)
    ensures |PadHeads(n)| == n && forall k :: 0 <= k < n ==> PadHeads(n)[k] == 63
  {
    if n > 0 {
      PadHeadsAllSet(n - 1);
    }
  }

  /** Every encoding has a subheader whose E bit is clear. */
  lemma {:induction false} SomeBitIsClear(es: seq<Element>) returns (k: nat)
    requires es != []
    ensures k < |Heads(es)| && Heads(es)[k] < 32
    decreases |es|
  {
    if |es| == 1 {
      k := 0;
    } else {
      var h := SubheaderBytes(es[0].lcid, |es[0].body|, false);
      k := SomeBitIsClear(es[1..]);
      k := k + |h|;
    }
  }

  class Pdu {
    const maxSubheaders: nat
    var subheaders: seq<Subh>
    var nof: nat
    var curIdx: int
    var pduLen: nat
    var remLen: int
    var isUl: bool
    var buffer: array<uint8>
    var totalSduLen: nat
    var sduOffsetStart: nat
    var lastSduIdx: int

    /** What each created subheader stands for, in the order of creation. */
    ghost var items: seq<Element>

    ghost predicate Valid()
      reads this, buffer
    {
      && 0 < maxSubheaders == |subheaders|
      && CursorOk(nof, curIdx)
      && sduOffsetStart == 2 * maxSubheaders + 13
      && buffer.Length >= sduOffsetStart + pduLen
      && Slots(subheaders, nof, items, isUl)
      && Charged(items, lastSduIdx, remLen, pduLen, totalSduLen)
      && At(buffer[..], sduOffsetStart, BodiesWhere(items, true))
    }

    /** The latest subheader was created and not filled yet. */
    ghost predicate Open()
      reads this
    {
      nof > 0 && |items| == nof && Blank(items[nof - 1])
    }

    constructor (max: nat, buf: array<uint8>, len: nat, ul: bool)
      requires max > 0 && buf.Length >= 2 * max + 13 + len
      ensures Valid() && maxSubheaders == max && buffer == buf && pduLen == len == remLen && isUl == ul && items == []
    {
      maxSubheaders := max;
      var zeros: seq<uint8> := seq(64, _ => 0);
      subheaders := seq(max, _ => Subh(0, 0, zeros));
      nof, curIdx, lastSduIdx := 0, -1, -1;
      pduLen, remLen, isUl := len, len, ul;
      buffer, totalSduLen, sduOffsetStart := buf, 0, 2 * max + 13;
      items := [];
    }

    /** `new_subh`, with `next`. */
    method NewSubh() returns (ok: bool)
      requires Valid()
      modifies this`nof, this`curIdx, this`items
      ensures Valid()
      ensures ok <==> old(nof) < maxSubheaders - 1 && remLen > 0
      ensures ok ==> Open() && items[..nof - 1] == old(items) && nof == old(nof) + 1
      ensures !ok ==> items == old(items) && nof == old(nof)
    {
      hide Slots, Charged, BodiesWhere, At;
      ok := nof < maxSubheaders - 1 && remLen > 0;
      if ok {
        ghost var e := Element(subheaders[nof].lcid, []);
        SlotsNew(subheaders, nof, items, isUl);
        ChargedAppend(items, e, lastSduIdx, remLen, pduLen, totalSduLen);
        items := items + [e];
        nof := nof + 1;
        if curIdx < nof - 1 {
          curIdx := curIdx + 1;
        }
      }
    }

    /** `del_subh`: the account stays exact only when the subheader was not filled. */
    method DelSubh()
      requires Valid()
      modifies this`nof, this`curIdx, this`items
      ensures nof == if old(nof) > 0 then old(nof) - 1 else 0
      ensures items == if old(nof) > 0 then old(items)[..old(nof) - 1] else []
      ensures Valid() <==> old(nof) == 0 || old(Open())
    {
      assert |items| == nof;
      hide Slots, Charged, BodiesWhere, At;
      if nof > 0 {
        DelStep(subheaders, nof, items, isUl, lastSduIdx, remLen, pduLen, totalSduLen);
        items := items[..nof - 1];
        nof := nof - 1;
      }
      if curIdx > 0 {
        curIdx := curIdx - 1;
      }
    }

    /** `has_space_ce`. */
    method HasSpaceCe(n: nat) returns (ok: bool)
      ensures ok <==> remLen >= n + 1
    {
      ok := remLen >= n + 1;
    }

    /** `get_sdu_space`: the largest SDU that still fits. */
    method GetSduSpace() returns (space: int)
      requires Valid()
      ensures space == SduSpace()
    {
      if lastSduIdx < 0 {
        space := remLen - 1;
      } else {
        space := remLen - (SizeHeaderSdu(subheaders[lastSduIdx].size) - 1) - 1;
      }
    }

    ghost function SduSpace(): int
      requires Valid()
      reads this, buffer
    {
      SpaceLeft(items, lastSduIdx, remLen)
    }

    /** What `set_c_rnti`, `set_con_res_id`, `set_ta_cmd`, `set_phr` and `set_bsr` have in common: put
        a control element of this direction into the latest subheader.  If that was filled before, it
        is charged a second time. */
    method SetCe(lcid: nat, bytes: seq<uint8>) returns (ok: bool)
      requires Valid() && nof > 0
      requires !IsSdu(lcid) && lcid < 32 && |bytes| == SizeofCe(lcid, isUl) > 0
      modifies this`subheaders, this`remLen, this`items
      ensures ok <==> old(remLen) >= |bytes| + 1
      ensures ok ==> items == old(items)[nof - 1 := Element(lcid, bytes)] && remLen == old(remLen) - |bytes| - 1
      ensures ok ==> (Valid() <==> old(Open())) && Slots(subheaders, nof, items, isUl)
      ensures !ok ==> Valid() && items == old(items) && remLen == old(remLen)
    {
      assert |items| == nof;
      hide Slots, Charged, BodiesWhere, At;
      ok := HasSpaceCe(|bytes|);
      if ok {
        ghost var e := Element(lcid, bytes);
        SlotOf(subheaders, nof, items, isUl, nof - 1);
        var filled := FilledCe(subheaders[curIdx], lcid, bytes);
        CeStep(subheaders, nof, items, filled, e, isUl, lastSduIdx, remLen, pduLen, totalSduLen);
        items := items[nof - 1 := e];
        subheaders := subheaders[curIdx := filled];
        remLen := remLen - (|bytes| + 1);
      }
    }

    /** `set_c_rnti`. */
    method SetCRnti(crnti: nat) returns (ok: bool)
      requires Valid() && nof > 0 && isUl && crnti < 0x10000
      modifies this`subheaders, this`remLen, this`items
      ensures ok <==> old(remLen) >= 3
      ensures ok ==> items == old(items)[nof - 1 := Element(27, CRntiBytes(crnti))] && remLen == old(remLen) - 3
      ensures ok ==> (Valid() <==> old(Open())) && Slots(subheaders, nof, items, isUl)
      ensures !ok ==> Valid() && items == old(items) && remLen == old(remLen)
    {
      ok := SetCe(CRNTI, CRntiBytes(crnti));
    }

    /** `set_con_res_id`. */
    method SetConResId(id: nat) returns (ok: bool)
      requires Valid() && nof > 0 && !isUl
      modifies this`subheaders, this`remLen, this`items
      ensures ok <==> old(remLen) >= 7
      ensures ok ==> items == old(items)[nof - 1 := Element(28, ConResIdBytes(id))] && remLen == old(remLen) - 7
      ensures ok ==> (Valid() <==> old(Open())) && Slots(subheaders, nof, items, isUl)
      ensures !ok ==> Valid() && items == old(items) && remLen == old(remLen)
    {
      ok := SetCe(CON_RES_ID, ConResIdBytes(id));
    }

    /** `set_phr`. */
    method SetPhr(phr: real) returns (ok: bool)
      requires Valid() && nof > 0 && isUl
      modifies this`subheaders, this`remLen, this`items
      ensures ok <==> old(remLen) >= 2
      ensures ok ==> items == old(items)[nof - 1 := Element(26, [PhrReport(phr)])] && remLen == old(remLen) - 2
      ensures ok ==> (Valid() <==> old(Open())) && Slots(subheaders, nof, items, isUl)
      ensures !ok ==> Valid() && items == old(items) && remLen == old(remLen)
    {
      ok := SetCe(PHR_REPORT, [PhrReport(phr)]);
    }

    /** `set_ta_cmd`. */
    method SetTaCmd(ta: nat) returns (ok: bool)
      requires Valid() && nof > 0 && !isUl
      modifies this`subheaders, this`remLen, this`items
      ensures ok <==> old(remLen) >= 2
      ensures ok ==> items == old(items)[nof - 1 := Element(29, [TaByte(ta)])] && remLen == old(remLen) - 2
      ensures ok ==> (Valid() <==> old(Open())) && Slots(subheaders, nof, items, isUl)
      ensures !ok ==> Valid() && items == old(items) && remLen == old(remLen)
    {
      ok := SetCe(TA_CMD, [TaByte(ta)]);
    }

    /** `set_sdu` with the payload given: an SDU of this logical channel in the latest subheader.  An
        empty SDU is charged for its subheader, but `write_packet` will not write it. */
    method SetSdu(lcid: nat, data: seq<uint8>) returns (written: int)
      requires Valid() && Open() && IsSdu(lcid)
      modifies this`subheaders, this`remLen, this`items, this`totalSduLen, this`lastSduIdx, buffer
      ensures written == if |data| <= old(SduSpace()) then |data| else -1
      ensures written >= 0 ==> items == old(items)[nof - 1 := Element(lcid, data)] && lastSduIdx == nof - 1
                               && remLen == old(SduSpace()) - |data|
      ensures written < 0 ==> items == old(items) && remLen == old(remLen)
      ensures Slots(subheaders, nof, items, isUl)
      ensures totalSduLen == old(totalSduLen) + if written > 0 then written else 0
      ensures Valid() <==> written != 0
    {
      var space := GetSduSpace();
      if space < 0 || |data| > space {
        return -1;
      }
      if data == [] {
        StoreEmptySdu(lcid, space);
      } else {
        StoreSdu(lcid, data, space);
      }
      written := |data|;
    }

    method StoreEmptySdu(lcid: nat, space: int)
      requires Valid() && Open() && IsSdu(lcid) && space >= 0
      modifies this`subheaders, this`remLen, this`items, this`lastSduIdx
      ensures items == old(items)[nof - 1 := Element(lcid, [])] && lastSduIdx == nof - 1 && remLen == space
      ensures Slots(subheaders, nof, items, isUl) && !Valid()
    {
      assert nof <= |subheaders|;
      hide Slots, BodiesWhere, At, Costs;
      SlotOf(subheaders, nof, items, isUl, nof - 1);
      var empty := Subh(lcid, 0, subheaders[curIdx].ce);
      SlotsFill(subheaders, nof, items, empty, Element(lcid, []), isUl);
      items := items[nof - 1 := Element(lcid, [])];
      subheaders := subheaders[curIdx := empty];
      remLen, lastSduIdx := space, curIdx;
      assert Blank(items[lastSduIdx]);
    }

    /** `set_sdu` with an interface that supplies the bytes: `result` is what `read_pdu` returned and
        `data` what it wrote, within the room it was given.  A result above the request is refused only
        after the size of the subheader was set. */
    method SetSduFrom(lcid: nat, requested: nat, result: int, data: seq<uint8>) returns (written: int)
      requires Valid() && Open() && IsSdu(lcid) && |data| <= requested
      requires 0 < result <= requested ==> |data| == result
      modifies this`subheaders, this`remLen, this`items, this`totalSduLen, this`lastSduIdx, buffer
      ensures written == if requested > old(SduSpace()) || result < 0 || result > requested then -1 else result
      ensures written > 0 ==> items == old(items)[nof - 1 := Element(lcid, data)] && lastSduIdx == nof - 1
                              && remLen == old(SduSpace()) - |data|
      ensures written <= 0 ==> Open() && items[..nof - 1] == old(items)[..nof - 1] && remLen == old(remLen)
      ensures Valid() <==> requested > old(SduSpace()) || result <= requested
    {
      var space := GetSduSpace();
      if space < 0 || requested > space {
        return -1;
      }
      if result > requested {
        KeepOversized(lcid, result, data, space);
        return -1;
      }
      if result > 0 {
        StoreSdu(lcid, data, space);
        return result;
      }
      NameSlot(lcid);
      written := if result < 0 then -1 else 0;
    }

    method KeepOversized(lcid: nat, result: int, data: seq<uint8>, space: int)
      requires Valid() && Open() && IsSdu(lcid) && space == SduSpace() && |data| <= space && result > 0
      modifies this`subheaders, buffer
      ensures !Valid()
      ensures subheaders == old(subheaders)[nof - 1 := old(subheaders)[nof - 1].(lcid := lcid, size := result)]
    {
      hide BodiesWhere, At, Costs;
      assert |items| == nof;
      RoomForSdu(items, lastSduIdx, remLen, pduLen, totalSduLen, |data|);
      Copy(buffer, sduOffsetStart + totalSduLen, data);
      subheaders := subheaders[curIdx := subheaders[curIdx].(lcid := lcid, size := result)];
      assert !Matches(subheaders[nof - 1], items[nof - 1], isUl);
    }

    /** An attempt that supplied no bytes leaves its logical channel in the subheader. */
    method NameSlot(lcid: nat)
      requires Valid() && Open() && IsSdu(lcid)
      modifies this`subheaders, this`items
      ensures Valid() && Open() && items[..nof - 1] == old(items)[..nof - 1]
    {
      hide Slots, Charged, BodiesWhere, At;
      SlotOf(subheaders, nof, items, isUl, nof - 1);
      var named := subheaders[curIdx].(lcid := lcid);
      SlotsFill(subheaders, nof, items, named, Element(lcid, []), isUl);
      ChargedRenamed(items, lcid, lastSduIdx, remLen, pduLen, totalSduLen);
      subheaders := subheaders[curIdx := named];
      items := items[nof - 1 := Element(lcid, [])];
    }

    /** The part of `set_sdu` behind the space check: copy, `add_sdu`, `update_space_sdu`. */
    method StoreSdu(lcid: nat, data: seq<uint8>, space: int)
      requires Valid() && Open() && IsSdu(lcid) && data != []
      requires space == SduSpace() && |data| <= space
      modifies this`subheaders, this`remLen, this`items, this`totalSduLen, this`lastSduIdx, buffer
      ensures Valid() && items == old(items)[nof - 1 := Element(lcid, data)] && lastSduIdx == nof - 1
      ensures remLen == space - |data| && totalSduLen == old(totalSduLen) + |data|
    {
      assert lastSduIdx < |items|;
      hide Slots, Charged, BodiesWhere, At, SpaceLeft;
      SlotOf(subheaders, nof, items, isUl, nof - 1);
      var filled := Subh(lcid, |data|, subheaders[curIdx].ce);
      ghost var e := Element(lcid, data);
      SduStep(subheaders, nof, items, filled, e, isUl, lastSduIdx, remLen, pduLen, totalSduLen, space);
      PutSduBytes(buffer, sduOffsetStart, totalSduLen, data, BodiesWhere(items, true));
      totalSduLen := totalSduLen + |data|;
      remLen := space - |data|;
      lastSduIdx := curIdx;
      subheaders := subheaders[curIdx := filled];
      items := items[nof - 1 := e];
    }

    /** `write_packet` drops a last subheader without payload. */
    method RemoveTrailingBlank()
      requires Valid() && nof > 0
      modifies this`nof, this`curIdx, this`items
      ensures Valid() && items == WithoutTrailingBlank(old(items))
    {
      hide Charged, BodiesWhere, At;
      SlotOf(subheaders, nof, items, isUl, nof - 1);
      if subheaders[nof - 1].size == 0 {
        DelSubh();
      }
    }

    /** `write_packet`: the position of the PDU in the buffer, or nothing.  It uses up `rem_len`, so
        the account is exact afterwards only when nothing was left. */
    method WritePacket() returns (r: Option<nat>)
      requires Valid()
      modifies this`nof, this`curIdx, this`remLen, this`items, buffer
      ensures items == WithoutTrailingBlank(old(items)) && nof == |items| && IsLastSdu(items, lastSduIdx)
      ensures r.Some? <==> old(nof) > 0 && BlankCount(items) == 0
                           && FrontSize(items, lastSduIdx, old(remLen)) < 2 * maxSubheaders + 13
      ensures r.Some? ==> r.value <= sduOffsetStart && Emitted(buffer[..], r.value, items, lastSduIdx, old(remLen))
      ensures remLen == if old(nof) == 0 then old(remLen)
                        else if old(remLen) > 2 then PaddingBytes(items, lastSduIdx, old(remLen)) else 0
      ensures r.Some? ==> (Valid() <==> old(remLen) == 0)
    {
      assert |items| == nof;
      hide Slots, BodiesWhere, At, Costs, BlankCount, EmittedHeads, Emitted, FrontSize;
      if nof == 0 {
        return None;
      }
      RemoveTrailingBlank();
      assert |items| == nof && IsLastSdu(items, lastSduIdx) && remLen >= 0;
      hide Charged;
      ghost var rem := remLen;
      UsedUp(items, lastSduIdx, rem, pduLen, totalSduLen);
      r, remLen := Assemble(buffer, subheaders, nof, lastSduIdx, remLen, isUl, totalSduLen, sduOffsetStart, pduLen,
                            items);
      if BlankCount(items) == 0 {
        FrontIsCounted(items, lastSduIdx, rem);
      }
      if r.Some? {
        SdusStay(buffer[..], r.value, items, lastSduIdx, rem, sduOffsetStart);
      }
    }
  }

  // ---------- the parser ----------

  /** `pdu::parse_packet` and then `sch_pdu::parse_packet`. */
  method ParsePacket(buf: array<uint8>, pduLen: nat, max: nat, ul: bool) returns (found: seq<Found>)
    requires 3 * max <= buf.Length
    ensures found == Parse(buf[..], pduLen, max, ul)
  {
    hide ReadHeads, Place, TotalSize;
    var hs := ReadAllHeads(buf, max, ul);
    if hs == [] {
      return [];
    }
    found := PlaceAll(hs);
    var readLen := ReadLength(found);
    var n := pduLen - readLen - 1;
    if n >= 0 {
      found := found[|found| - 1 := found[|found| - 1].(size := n)];
    }
  }

  method ReadLength(found: seq<Found>) returns (readLen: nat)
    requires found != []
    ensures readLen == TotalSize(found[..|found| - 1])
  {
    readLen := 0;
    for i := 0 to |found| - 1
      invariant readLen == TotalSize(found[..i])
    {
      TotalStep(found[..i + 1]);
      assert found[..i + 1][..i] == found[..i];
      readLen := readLen + SizePlusHeader(found[i]);
    }
  }

  lemma {:induction false} TotalStep(fs: seq<Found>)
    requires fs != []
    ensures TotalSize(fs) == TotalSize(fs[..|fs| - 1]) + SizePlusHeader(fs[|fs| - 1])
    decreases |fs|
  {
    if |fs| > 1 {
      assert fs[1..][..|fs| - 2] == fs[..|fs| - 1][1..];
      TotalStep(fs[1..]);
    }
  }

  method ReadAllHeads(buf: array<uint8>, max: nat, ul: bool) returns (hs: seq<Subheader>)
    requires 3 * max <= buf.Length
    ensures hs == ReadHeads(buf[..], 0, ReadLimit(max), ul)
  {
    hide ReadHeads, ReadSubheader;
    hs := [];
    var limit := ReadLimit(max);
    if max == 0 {
      NoHeads(buf[..], 0, ul);
      return;
    }
    ghost var b := buf[..];
    ReadHeadsUnfold(b, 0, limit, ul);
    var h := ReadSubheader(buf[..], 0, ul);
    hs := [h];
    while h.more && |hs| + 1 < max
      invariant 0 < |hs| <= limit && h.next <= 3 * |hs|
      invariant ReadHeads(b, 0, limit, ul) == hs + if h.more then ReadHeads(b, h.next, limit - |hs|, ul) else []
      decreases max - |hs|
    {
      ReadHeadsUnfold(b, h.next, limit - |hs|, ul);
      h := ReadSubheader(buf[..], h.next, ul);
      hs := hs + [h];
    }
    if h.more {
      NoHeads(b, h.next, ul);
    }
  }

  lemma NoHeads(b: seq<uint8>, pos: nat, ul: bool)
    requires pos <= |b|
    ensures ReadHeads(b, pos, 0, ul) == []
  {
  }

  method PlaceAll(hs: seq<Subheader>) returns (found: seq<Found>)
    requires hs != []
    ensures found == Place(hs, hs[|hs| - 1].next)
  {
    found := [];
    var ptr: nat := hs[|hs| - 1].next;
    assert hs[0..] == hs;
    for i := 0 to |hs|
      invariant Place(hs, hs[|hs| - 1].next) == found + Place(hs[i..], ptr)
    {
      found := found + [Found(hs[i].lcid, hs[i].size, ptr)];
      ptr := ptr + hs[i].size;
    }
  }

  /** The bytes are the encoding of the items of a sent PDU, provided it is well formed, and the receiver
      finds them exactly if they fit the reader. */
  ghost predicate Received(found: seq<Found>, bytes: seq<uint8>, items: seq<Element>, last: int, rem: int, max: nat) {
    && IsLastSdu(items, last) && rem >= 0
    && (items != [] || rem > 2 ==> At(bytes, 0, Encode(Elements(items, last, rem))))
    && (items != [] || rem > 2 ==>
          (Finds(found, Elements(items, last, rem), bytes)
           <==> |items| + (if rem > 2 then 1 else rem) <= ReadLimit(max)))
  }

  lemma SentIsReceived(subs: seq<Subh>, nof: nat, before: seq<Element>, ul: bool, last: int, rem: int, pduLen: nat,
                       total: nat, b: seq<uint8>, start: nat, max: nat)
    requires Slots(subs, nof, before, ul) && Charged(before, last, rem, pduLen, total)
    requires forall i :: 0 <= i < |before| && IsSdu(before[i].lcid) ==> |before[i].body| < 32768
    requires var items := WithoutTrailingBlank(before); BlankCount(items) == 0 && Emitted(b, start, items, last, rem)
    requires start + 3 * max <= |b|
    ensures Received(Parse(b[start..], pduLen, max, ul), b[start..], WithoutTrailingBlank(before), last, rem, max)
  {
    hide BlankCount, Emitted, Parse, Elements, Encode, At, Finds, Costs, BodiesWhere;
    SlotsFit(subs, nof, before, ul);
    TrailingBlankCosts(before, last, rem, pduLen, total);
    var items := WithoutTrailingBlank(before);
    if items != [] || rem > 2 {
      WrittenPduParses(b, start, items, last, rem, max, ul);
    }
  }

  method Receive(bytes: seq<uint8>, pduLen: nat, max: nat, ul: bool) returns (found: seq<Found>)
    requires 3 * max <= |bytes|
    ensures found == Parse(bytes, pduLen, max, ul)
  {
    hide Parse;
    var rx := new uint8[|bytes|](i requires 0 <= i < |bytes| => bytes[i]);
    assert rx[..] == bytes;
    found := ParsePacket(rx, pduLen, max, ul);
  }

  /** Write a PDU and parse its bytes: whatever calls filled it, the receiver gets back its items. */
  method WriteAndParse(tx: Pdu, max: nat) returns (found: Option<seq<Found>>, bytes: seq<uint8>)
    requires tx.Valid() && tx.buffer.Length >= tx.sduOffsetStart + 3 * max
    requires forall i :: 0 <= i < |tx.items| && IsSdu(tx.items[i].lcid) ==> |tx.items[i].body| < 32768
    modifies tx, tx.buffer
    ensures IsLastSdu(WithoutTrailingBlank(old(tx.items)), old(tx.lastSduIdx)) && old(tx.remLen) >= 0
    ensures found.Some? <==> old(tx.nof) > 0 && BlankCount(WithoutTrailingBlank(old(tx.items))) == 0
                             && FrontSize(WithoutTrailingBlank(old(tx.items)), old(tx.lastSduIdx), old(tx.remLen))
                                < 2 * tx.maxSubheaders + 13
    ensures found.Some? ==> Received(found.value, bytes, WithoutTrailingBlank(old(tx.items)), old(tx.lastSduIdx),
                                     old(tx.remLen), max)
  {
    assert tx.remLen >= 0;
    hide Slots, Charged, BlankCount, BodiesWhere, EmittedHeads, Emitted, Parse, At, Received, FrontSize;
    hide WithoutTrailingBlank;
    var r := tx.WritePacket();
    if r.None? {
      return None, [];
    }
    SentIsReceived(old(tx.subheaders), old(tx.nof), old(tx.items), tx.isUl, tx.lastSduIdx, old(tx.remLen), tx.pduLen,
                   tx.totalSduLen, tx.buffer[..], r.value, max);
    bytes := tx.buffer[..][r.value..];
    var fs := Receive(bytes, tx.pduLen, max, tx.isUl);
    found := Some(fs);
  }

  // ---------- inputs that the limits turn away ----------

  /** Nineteen SDUs of 128 bytes, as many as twenty subheaders allow, fill a PDU of 2487 bytes exactly.
      Every step succeeds, and `write_packet` gives up. */
  method LongSubheadersAreTurnedAway() returns (r: Option<nat>)
    ensures r.None?
  {
    var buf := new uint8[53 + 2487];
    var p := new Pdu(20, buf, 2487, false);
    hide Slots, Charged, BodiesWhere, At, BlankCount, FrontSize;
    var data: seq<uint8> := seq(128, _ => 0);
    ghost var e := Element(3, data);
    for i := 0 to 19
      invariant p.Valid() && p.maxSubheaders == 20 && p.buffer == buf
      invariant |p.items| == p.nof == i && p.lastSduIdx == i - 1
      invariant forall k :: 0 <= k < i ==> p.items[k] == e
      invariant p.remLen == if i == 0 then 2487 else 2489 - 131 * i
    {
      var ok := p.NewSubh();
      assert forall k :: 0 <= k < i ==> p.items[k] == p.items[..i][k];
      var written := p.SetSdu(3, data);
    }
    LongSubheadersFit(p.items, 20);
    r := p.WritePacket();
  }

  /** One SDU and padding, which two subheaders allow to be written, are not found by a reader with
      room for two. */
  method SameLimitIsNotEnough() returns (found: Option<seq<Found>>, bytes: seq<uint8>)
    ensures found.Some? && !Finds(found.value, Elements([Element(3, [7])], 0, 8), bytes)
  {
    var buf := new uint8[17 + 10];
    var p := new Pdu(2, buf, 10, false);
    var ok := p.NewSubh();
    var written := p.SetSdu(3, [7]);
    assert p.items == [Element(3, [7])] && p.remLen == 8 && p.lastSduIdx == 0;
    hide Finds, Elements, Slots, Charged, At, BodiesWhere, Costs, BlankCount, FrontSize;
    OneShortSdu(Element(3, [7]));
    found, bytes := WriteAndParse(p, 2);
  }

  lemma OneShortSdu(e: Element)
    requires IsSdu(e.lcid) && 0 < |e.body| < 128
    ensures WithoutTrailingBlank([e]) == [e] && BlankCount([e]) == 0 && FrontSize([e], 0, 8) == 3
  {
    var none: seq<Element> := [];
    assert [e][..0] == none;
    assert BlankCount(none) == 0 && SduCount(none) == 0 && LongSduCount(none) == 0 && CeBytes(none) == 0;
    assert SduCount([e]) == 1 && LongSduCount([e]) == 0 && CeBytes([e]) == 0;
  }

  lemma SlotsFit(subs: seq<Subh>, nof: nat, items: seq<Element>, ul: bool)
    requires Slots(subs, nof, items, ul)
    requires forall i :: 0 <= i < |items| && IsSdu(items[i].lcid) ==> |items[i].body| < 32768
    ensures forall i :: 0 <= i < |items| ==> Fits(items[i], ul)
  {
    forall i | 0 <= i < |items|
      ensures Fits(items[i], ul)
    {
      assert Matches(subs[i], items[i], ul);
    }
  }

  lemma TrailingBlankCosts(items: seq<Element>, last: int, rem: int, pduLen: nat, total: nat)
    requires Charged(items, last, rem, pduLen, total)
    ensures Charged(WithoutTrailingBlank(items), last, rem, pduLen, total)
  {
    hide Charged;
    if items != [] && Blank(items[|items| - 1]) {
      ChargedDel(items, last, rem, pduLen, total);
    }
  }
}
