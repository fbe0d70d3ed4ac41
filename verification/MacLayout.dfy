/** How `sch_pdu` turns the subheaders a caller filled in into the elements of one PDU
    (lib/src/common/pdu.cc, `update_space_*` and `write_packet`): padding of one or two bytes
    first, then the control elements, then the SDUs, then multi-byte padding.

    `items` are the filled subheaders in the order the caller added them.  A blank item is a
    subheader that was created but never filled: it looks like an SDU without bytes. */
module MacLayout {
  import opened Buffers
  import opened MacFormat

  predicate Blank(e: Element) { IsSdu(e.lcid) && e.body == [] }

  // ---------- bytes needed ----------

  /** The bytes the accounting charges for an item; a blank item is not charged. */
  function Cost(e: Element, last: bool): nat {
    if Blank(e) then 0 else HeaderSize(e.lcid, |e.body|, last) + |e.body|
  }

  /** The bytes needed if the SDU at index `last` has a one-byte subheader. */
  function Costs(items: seq<Element>, last: int): nat {
    if items == [] then 0
    else Costs(items[..|items| - 1], last) + Cost(items[|items| - 1], |items| - 1 == last)
  }

  function BlankCount(items: seq<Element>): nat {
    if items == [] then 0
    else BlankCount(items[..|items| - 1]) + if Blank(items[|items| - 1]) then 1 else 0
  }

  /** `last` is the index of the last SDU that has bytes, or -1. */
  ghost predicate IsLastSdu(items: seq<Element>, last: int) {
    && -1 <= last < |items|
    && (last >= 0 ==> IsSdu(items[last].lcid) && !Blank(items[last]))
    && forall i :: last < i < |items| ==> IsSdu(items[i].lcid) ==> Blank(items[i])
  }

  // ---------- the bytes write_packet emits, index by index ----------

  /** The subheaders of the SDUs (or of the control elements), the one at `lastAt` marked last. */
  function HeadsWhere(items: seq<Element>, sdu: bool, lastAt: int): seq<uint8> {
    if items == [] then []
    else
      var n := |items| - 1;
      HeadsWhere(items[..n], sdu, lastAt) +
      if IsSdu(items[n].lcid) == sdu then SubheaderBytes(items[n].lcid, |items[n].body|, n == lastAt) else []
  }

  function BodiesWhere(items: seq<Element>, sdu: bool): seq<uint8> {
    if items == [] then []
    else
      var n := |items| - 1;
      BodiesWhere(items[..n], sdu) + if IsSdu(items[n].lcid) == sdu then items[n].body else []
  }

  /** The whole amount written, against the amount charged: two bytes too many per blank item. */
  lemma {:induction false} WrittenVersusCharged(items: seq<Element>, last: int)
    requires forall i :: 0 <= i < |items| && i == last ==> !Blank(items[i])
    ensures |HeadsWhere(items, false, last)| + |HeadsWhere(items, true, last)|
            + |BodiesWhere(items, false)| + |BodiesWhere(items, true)|
            == Costs(items, last) + 2 * BlankCount(items)
  {
    if items != [] {
      WrittenVersusCharged(items[..|items| - 1], last);
    }
  }

  lemma {:induction false} LastAtIsIrrelevantForCes(items: seq<Element>, a: int, b: int)
    ensures |HeadsWhere(items, false, a)| == |HeadsWhere(items, false, b)|
  {
    if items != [] {
      LastAtIsIrrelevantForCes(items[..|items| - 1], a, b);
    }
  }

  /** Giving the last SDU its full subheader costs one or two bytes more. */
  lemma {:induction false} CostOfFullSubheader(items: seq<Element>, last: int)
    requires IsLastSdu(items, last) && last >= 0
    ensures Costs(items, -1) == Costs(items, last) + SizeHeaderSdu(|items[last].body|) - 1
  {
    var n := |items| - 1;
    if n == last {
      SameCosts(items[..n], -1, last);
    } else {
      CostOfFullSubheader(items[..n], last);
    }
  }

  lemma {:induction false} SameCosts(items: seq<Element>, a: int, b: int)
    requires !(0 <= a < |items|) && !(0 <= b < |items|)
    ensures Costs(items, a) == Costs(items, b)
  {
    if items != [] {
      SameCosts(items[..|items| - 1], a, b);
    }
  }

  lemma {:induction false} NoBlankNoCount(items: seq<Element>)
    ensures BlankCount(items) == 0 <==> forall i :: 0 <= i < |items| ==> !Blank(items[i])
  {
    if items != [] {
      var n := |items| - 1;
      NoBlankNoCount(items[..n]);
      assert forall i :: 0 <= i < n ==> items[i] == items[..n][i];
    }
  }

  // ---------- the elements of the PDU ----------

  function Select(items: seq<Element>, sdu: bool): (r: seq<Element>)
    ensures |r| <= |items|
  {
    if items == [] then []
    else
      var n := |items| - 1;
      Select(items[..n], sdu) + if IsSdu(items[n].lcid) == sdu then [items[n]] else []
  }

  function Pads(n: nat): (r: seq<Element>)
    ensures |r| == n
  {
    if n == 0 then [] else Pads(n - 1) + [Element(PADDING, [])]
  }

  /** The bytes of multi-byte padding: what is left after its own subheader and after the last SDU
      got its full subheader. */
  function PaddingBytes(items: seq<Element>, last: int, rem: nat): nat
    requires IsLastSdu(items, last) && rem > 2
  {
    rem - 1 - if last < 0 then 0 else SizeHeaderSdu(|items[last].body|) - 1
  }

  function Elements(items: seq<Element>, last: int, rem: nat): seq<Element>
    requires IsLastSdu(items, last)
  {
    var body := Select(items, false) + Select(items, true);
    if rem > 2 then body + [Element(PADDING, ZeroBytes(PaddingBytes(items, last, rem)))]
    else Pads(rem) + body
  }

  // ---------- what write_packet emits is the encoding of those elements ----------

  function PadHeads(n: nat): seq<uint8> {
    if n == 0 then [] else PadHeads(n - 1) + SubheaderBytes(PADDING, 0, false)
  }

  /** Short padding, then the control elements; the last one is marked if nothing follows. */
  function LeadingHeads(items: seq<Element>, last: int, rem: nat): seq<uint8> {
    (if rem > 2 then [] else PadHeads(rem))
    + HeadsWhere(items, false, if last < 0 && rem <= 2 then |items| - 1 else -1)
  }

  /** The SDUs, then multi-byte padding. */
  function TrailingHeads(items: seq<Element>, last: int, rem: nat): seq<uint8> {
    (if last < 0 then [] else HeadsWhere(items, true, if rem <= 2 then last else -1))
    + (if rem > 2 then SubheaderBytes(PADDING, 0, true) else [])
  }

  /** The subheader bytes in the order `write_packet` writes them. */
  function EmittedHeads(items: seq<Element>, last: int, rem: nat): seq<uint8> {
    LeadingHeads(items, last, rem) + TrailingHeads(items, last, rem)
  }

  function EmittedBodies(items: seq<Element>, last: int, rem: nat): seq<uint8>
    requires IsLastSdu(items, last)
  {
    BodiesWhere(items, false) + BodiesWhere(items, true)
    + if rem > 2 then ZeroBytes(PaddingBytes(items, last, rem)) else []
  }

  /** Subheaders of elements none of which is last. */
  function OpenHeads(es: seq<Element>): seq<uint8> {
    if es == [] then []
    else OpenHeads(es[..|es| - 1]) + SubheaderBytes(es[|es| - 1].lcid, |es[|es| - 1].body|, false)
  }

  lemma {:induction false} OpenHeadsConcat(a: seq<Element>, b: seq<Element>)
    ensures OpenHeads(a + b) == OpenHeads(a) + OpenHeads(b)
  {
    hide SubheaderBytes;
    if b == [] {
      assert a + b == a;
    } else {
      assert (a + b)[..|a + b| - 1] == a + b[..|b| - 1];
      OpenHeadsConcat(a, b[..|b| - 1]);
    }
  }

  lemma {:induction false} HeadsAreOpenThenLast(es: seq<Element>)
    requires es != []
    ensures Heads(es) == OpenHeads(es[..|es| - 1]) + SubheaderBytes(es[|es| - 1].lcid, |es[|es| - 1].body|, true)
    decreases |es|
  {
    hide SubheaderBytes, OpenHeads;
    var n := |es| - 1;
    if n == 0 {
      OpenHeadsOfNothing();
      assert es[..0] == [] && Heads(es[1..]) == [];
    } else {
      var rest := es[1..];
      HeadsAreOpenThenLast(rest);
      assert es[..n] == [es[0]] + rest[..n - 1];
      OpenHeadsConcat([es[0]], rest[..n - 1]);
      OpenHeadsOfOne(es[0]);
    }
  }

  lemma OpenHeadsOfOne(e: Element)
    ensures OpenHeads([e]) == SubheaderBytes(e.lcid, |e.body|, false)
  {
    hide SubheaderBytes;
    assert [e][..0] == [] && OpenHeads([]) == [];
  }

  lemma {:induction false} BodiesConcat(a: seq<Element>, b: seq<Element>)
    ensures Bodies(a + b) == Bodies(a) + Bodies(b)
    decreases |a|
  {
    if a == [] {
      assert a + b == b;
    } else {
      assert (a + b)[1..] == a[1..] + b;
      BodiesConcat(a[1..], b);
    }
  }

  lemma {:induction false} OpenHeadsOfSelection(items: seq<Element>, sdu: bool, lastAt: int)
    requires forall i :: 0 <= i < |items| && i == lastAt ==> IsSdu(items[i].lcid) != sdu
    ensures HeadsWhere(items, sdu, lastAt) == OpenHeads(Select(items, sdu))
  {
    hide SubheaderBytes;
    if items != [] {
      var n := |items| - 1;
      OpenHeadsOfSelection(items[..n], sdu, lastAt);
      if IsSdu(items[n].lcid) == sdu {
        var r := Select(items, sdu);
        assert r[..|r| - 1] == Select(items[..n], sdu);
      } else {
        assert Select(items, sdu) == Select(items[..n], sdu);
      }
    }
  }

  /** With the mark on the last selected item, the heads are those of a complete list. */
  lemma {:induction false} MarkedHeadsOfSelection(items: seq<Element>, sdu: bool, lastAt: nat)
    requires lastAt < |items| && IsSdu(items[lastAt].lcid) == sdu
    requires forall i :: lastAt < i < |items| ==> IsSdu(items[i].lcid) != sdu
    ensures Select(items, sdu) != [] && HeadsWhere(items, sdu, lastAt) == Heads(Select(items, sdu))
  {
    hide SubheaderBytes, Heads;
    var n := |items| - 1;
    if n == lastAt {
      OpenHeadsOfSelection(items[..n], sdu, lastAt);
      var r := Select(items, sdu);
      assert r[..|r| - 1] == Select(items[..n], sdu);
      HeadsAreOpenThenLast(r);
    } else {
      MarkedHeadsOfSelection(items[..n], sdu, lastAt);
      assert Select(items, sdu) == Select(items[..n], sdu);
    }
  }

  lemma {:induction false} BodiesOfSelection(items: seq<Element>, sdu: bool)
    ensures BodiesWhere(items, sdu) == Bodies(Select(items, sdu))
  {
    if items != [] {
      var n := |items| - 1;
      BodiesOfSelection(items[..n], sdu);
      if IsSdu(items[n].lcid) == sdu {
        BodiesConcat(Select(items[..n], sdu), [items[n]]);
        BodiesOfOne(items[n].lcid, items[n].body);
      } else {
        assert Select(items, sdu) == Select(items[..n], sdu);
      }
    }
  }

  lemma {:induction false} PadHeadsAreOpen(n: nat)
    ensures PadHeads(n) == OpenHeads(Pads(n)) && Bodies(Pads(n)) == []
  {
    hide SubheaderBytes, Bodies;
    if n > 0 {
      PadHeadsAreOpen(n - 1);
      assert Pads(n)[..n - 1] == Pads(n - 1);
      BodiesConcat(Pads(n - 1), [Element(PADDING, [])]);
      BodiesOfOne(PADDING, []);
    } else {
      BodiesOfNothing();
    }
  }

  lemma BodiesOfNothing()
    ensures Bodies([]) == []
  {
  }

  lemma {:induction false} NoSduSelected(items: seq<Element>)
    requires forall i :: 0 <= i < |items| ==> !IsSdu(items[i].lcid)
    ensures Select(items, true) == []
  {
    if items != [] {
      NoSduSelected(items[..|items| - 1]);
    }
  }

  /** Open heads followed by a complete list are the heads of the concatenation. */
  lemma HeadsAfterOpen(a: seq<Element>, b: seq<Element>)
    requires b != []
    ensures Heads(a + b) == OpenHeads(a) + Heads(b)
  {
    hide Heads, OpenHeads;
    var n := |b| - 1;
    HeadsAreOpenThenLast(b);
    HeadsAreOpenThenLast(a + b);
    assert (a + b)[..|a + b| - 1] == a + b[..n];
    OpenHeadsConcat(a, b[..n]);
  }

  lemma EmittedHeadsAreHeads(items: seq<Element>, last: int, rem: nat)
    requires IsLastSdu(items, last) && BlankCount(items) == 0 && (items != [] || rem > 2)
    ensures EmittedHeads(items, last, rem) == Heads(Elements(items, last, rem))
  {
    hide Heads, BlankCount;
    if rem > 2 {
      PaddedHeads(items, last, rem);
    } else {
      ShortHeads(items, last, rem);
    }
  }

  /** Without an SDU only control elements are selected. */
  lemma NoSdusBehind(items: seq<Element>, last: int)
    requires IsLastSdu(items, last) && BlankCount(items) == 0 && last < 0
    ensures Select(items, true) == [] && Select(items, false) + Select(items, true) == Select(items, false)
  {
    hide Select, BlankCount;
    NoBlankNoCount(items);
    NoSduSelected(items);
  }

  lemma PaddedHeadsOpened(items: seq<Element>, last: int, rem: nat)
    requires rem > 2
    ensures EmittedHeads(items, last, rem)
            == HeadsWhere(items, false, -1) + (if last < 0 then [] else HeadsWhere(items, true, -1))
               + SubheaderBytes(PADDING, 0, true)
  {
    hide HeadsWhere, SubheaderBytes;
    assert [] + HeadsWhere(items, false, -1) == HeadsWhere(items, false, -1);
  }

  lemma PaddedHeads(items: seq<Element>, last: int, rem: nat)
    requires IsLastSdu(items, last) && BlankCount(items) == 0 && rem > 2
    ensures EmittedHeads(items, last, rem) == Heads(Elements(items, last, rem))
  {
    hide Heads, OpenHeads, HeadsWhere, PadHeads, Select, BlankCount, EmittedHeads;
    NoBlankNoCount(items);
    PaddedHeadsOpened(items, last, rem);
    var ces, sdus := Select(items, false), Select(items, true);
    if last < 0 {
      NoSdusBehind(items, last);
      OpenHeadsOfNothing();
    }
    OpenHeadsOfSelection(items, false, -1);
    OpenHeadsOfSelection(items, true, -1);
    OpenHeadsConcat(ces, sdus);
    var pad := Element(PADDING, ZeroBytes(PaddingBytes(items, last, rem)));
    HeadsAfterOpen(ces + sdus, [pad]);
    PaddingHead(pad);
  }

  lemma ShortHeadsOpened(items: seq<Element>, last: int, rem: nat)
    requires rem <= 2
    ensures last < 0 ==> EmittedHeads(items, last, rem) == PadHeads(rem) + HeadsWhere(items, false, |items| - 1)
    ensures last >= 0 ==> EmittedHeads(items, last, rem)
                          == PadHeads(rem) + (HeadsWhere(items, false, -1) + HeadsWhere(items, true, last))
  {
    hide HeadsWhere, PadHeads;
    var p, c, d := PadHeads(rem), HeadsWhere(items, false, -1), HeadsWhere(items, true, last);
    assert (p + c) + (d + []) == p + (c + d);
    assert p + HeadsWhere(items, false, |items| - 1) + ([] + []) == p + HeadsWhere(items, false, |items| - 1);
  }

  lemma ShortHeads(items: seq<Element>, last: int, rem: nat)
    requires IsLastSdu(items, last) && BlankCount(items) == 0 && rem <= 2 && items != []
    ensures EmittedHeads(items, last, rem) == Heads(Elements(items, last, rem))
  {
    var ces, sdus := Select(items, false), Select(items, true);
    assert Elements(items, last, rem) == Pads(rem) + (ces + sdus);
    NoBlankNoCount(items);
    hide Heads, OpenHeads, HeadsWhere, PadHeads, Select, BlankCount, EmittedHeads, Elements, Pads;
    ShortHeadsOpened(items, last, rem);
    PadHeadsAreOpen(rem);
    if last < 0 {
      NoSdusBehind(items, last);
      NoSduSelected(items);
      MarkedHeadsOfSelection(items, false, |items| - 1);
      HeadsAfterOpen(Pads(rem), ces);
    } else {
      OpenHeadsOfSelection(items, false, -1);
      MarkedHeadsOfSelection(items, true, last);
      HeadsAfterOpen(ces, sdus);
      HeadsAfterOpen(Pads(rem), ces + sdus);
    }
  }

  lemma OpenHeadsOfNothing()
    ensures OpenHeads([]) == []
  {
  }

  lemma PaddingHead(pad: Element)
    requires pad.lcid == PADDING
    ensures Heads([pad]) == SubheaderBytes(PADDING, 0, true)
  {
    assert [pad][1..] == [];
  }

  lemma EmittedBodiesAreBodies(items: seq<Element>, last: int, rem: nat)
    requires IsLastSdu(items, last)
    ensures EmittedBodies(items, last, rem) == Bodies(Elements(items, last, rem))
  {
    hide Bodies, BodiesWhere, Select;
    var ces, sdus := Select(items, false), Select(items, true);
    BodiesOfSelection(items, false);
    BodiesOfSelection(items, true);
    BodiesConcat(ces, sdus);
    if rem > 2 {
      var z := ZeroBytes(PaddingBytes(items, last, rem));
      BodiesConcat(ces + sdus, [Element(PADDING, z)]);
      BodiesOfOne(PADDING, z);
    } else {
      PadHeadsAreOpen(rem);
      BodiesConcat(Pads(rem), ces + sdus);
    }
  }

  lemma BodiesOfOne(lcid: nat, body: seq<uint8>)
    ensures Bodies([Element(lcid, body)]) == body
  {
    assert [Element(lcid, body)][1..] == [];
  }

  // ---------- lengths, and fitness for the parser ----------

  /** What the length check of `write_packet` adds up: it matches exactly when no item is blank. */
  lemma LengthCheck(items: seq<Element>, last: int, rem: nat)
    requires IsLastSdu(items, last)
    ensures var lastAt := if rem > 2 then -1 else last;
            |HeadsWhere(items, false, lastAt)| + |HeadsWhere(items, true, lastAt)|
            + |BodiesWhere(items, false)| + |BodiesWhere(items, true)|
            + (if rem > 2 then 1 + PaddingBytes(items, last, rem) else rem)
            == Costs(items, last) + rem + 2 * BlankCount(items)
  {
    if rem > 2 {
      WrittenVersusCharged(items, -1);
      if last >= 0 {
        CostOfFullSubheader(items, last);
      }
    } else {
      WrittenVersusCharged(items, last);
    }
  }

  lemma EmittedLength(items: seq<Element>, last: int, rem: nat)
    requires IsLastSdu(items, last) && BlankCount(items) == 0
    ensures |EmittedHeads(items, last, rem)| + |EmittedBodies(items, last, rem)| == Costs(items, last) + rem
  {
    hide HeadsWhere, BodiesWhere, Costs, BlankCount;
    LengthCheck(items, last, rem);
    PadHeadsLength(rem);
    LastAtIsIrrelevantForCes(items, if last < 0 && rem <= 2 then |items| - 1 else -1, if rem > 2 then -1 else last);
    if last < 0 {
      NoBlankNoCount(items);
      NoSduHeads(items, -1);
    }
  }

  lemma {:induction false} PadHeadsLength(n: nat)
    ensures |PadHeads(n)| == n
  {
    if n > 0 {
      PadHeadsLength(n - 1);
    }
  }

  lemma {:induction false} NoSduHeads(items: seq<Element>, lastAt: int)
    requires forall i :: 0 <= i < |items| ==> !IsSdu(items[i].lcid)
    ensures HeadsWhere(items, true, lastAt) == []
  {
    if items != [] {
      NoSduHeads(items[..|items| - 1], lastAt);
    }
  }

  lemma {:induction false} SelectionsPartition(items: seq<Element>)
    ensures |Select(items, false)| + |Select(items, true)| == |items|
  {
    if items != [] {
      SelectionsPartition(items[..|items| - 1]);
    }
  }

  lemma {:induction false} SelectionFits(items: seq<Element>, sdu: bool, ul: bool)
    requires forall i :: 0 <= i < |items| ==> Fits(items[i], ul)
    ensures forall i :: 0 <= i < |Select(items, sdu)| ==> Fits(Select(items, sdu)[i], ul)
  {
    hide Fits;
    if items != [] {
      SelectionFits(items[..|items| - 1], sdu, ul);
    }
  }

  lemma {:induction false} PadsFit(n: nat, ul: bool)
    ensures forall i :: 0 <= i < n ==> Fits(Pads(n)[i], ul)
  {
    if n > 0 {
      PadsFit(n - 1, ul);
    }
  }

  lemma ElementsAreWellFormed(items: seq<Element>, last: int, rem: nat, ul: bool)
    requires IsLastSdu(items, last) && (items != [] || rem > 2)
    requires forall i :: 0 <= i < |items| ==> Fits(items[i], ul)
    ensures WellFormed(Elements(items, last, rem), ul)
    ensures |Elements(items, last, rem)| == |items| + if rem > 2 then 1 else rem
  {
    hide Select, Pads;
    SelectionsPartition(items);
    SelectionFits(items, false, ul);
    SelectionFits(items, true, ul);
    if rem <= 2 {
      PadsFit(rem, ul);
    }
  }

  // ---------- how long the front is ----------

  /** The number of SDUs. */
  function SduCount(items: seq<Element>): nat {
    if items == [] then 0
    else SduCount(items[..|items| - 1]) + if IsSdu(items[|items| - 1].lcid) then 1 else 0
  }

  /** The number of SDUs whose length takes two bytes. */
  function LongSduCount(items: seq<Element>): nat {
    if items == [] then 0
    else
      var e := items[|items| - 1];
      LongSduCount(items[..|items| - 1]) + if IsSdu(e.lcid) && |e.body| >= 128 then 1 else 0
  }

  /** The bytes of the control elements. */
  function CeBytes(items: seq<Element>): nat {
    if items == [] then 0
    else
      var e := items[|items| - 1];
      CeBytes(items[..|items| - 1]) + if IsSdu(e.lcid) then 0 else |e.body|
  }

  /** The bytes in front of the SDUs, counted item by item: one for each, one more for the length of
      an SDU and another one if it is long, the control elements, and the padding subheaders.  Without
      multi-byte padding the last SDU has no length. */
  function FrontSize(items: seq<Element>, last: int, rem: nat): int
    requires -1 <= last < |items|
  {
    |items| + SduCount(items) + LongSduCount(items) + CeBytes(items) +
    if rem > 2 then 1 else rem - if last < 0 then 0 else SizeHeaderSdu(|items[last].body|) - 1
  }

  lemma HeadsGrow(items: seq<Element>, lastAt: int)
    requires items != []
    ensures var n := |items| - 1;
            var e := items[n];
            |HeadsWhere(items, false, lastAt)| + |HeadsWhere(items, true, lastAt)| + |BodiesWhere(items, false)|
            == |HeadsWhere(items[..n], false, lastAt)| + |HeadsWhere(items[..n], true, lastAt)|
               + |BodiesWhere(items[..n], false)|
               + HeaderSize(e.lcid, |e.body|, n == lastAt) + if IsSdu(e.lcid) then 0 else |e.body|
  {
    hide SubheaderBytes, HeaderSize, IsSdu;
  }

  lemma {:induction false} HeadsCounted(items: seq<Element>, lastAt: int)
    ensures |HeadsWhere(items, false, lastAt)| + |HeadsWhere(items, true, lastAt)| + |BodiesWhere(items, false)|
            == |items| + SduCount(items) + LongSduCount(items) + CeBytes(items)
               - if 0 <= lastAt < |items| && IsSdu(items[lastAt].lcid)
                 then SizeHeaderSdu(|items[lastAt].body|) - 1 else 0
  {
    hide SubheaderBytes;
    if items != [] {
      var n := |items| - 1;
      var front, e := items[..n], items[n];
      HeadsCounted(front, lastAt);
      HeadsGrow(items, lastAt);
      hide HeadsWhere, BodiesWhere;
      if 0 <= lastAt < n {
        assert front[lastAt] == items[lastAt];
      }
    }
  }

  /** With `n` long SDUs and nothing else the front takes three bytes for each but the last. */
  lemma {:induction false} LongSdusOnly(items: seq<Element>)
    requires forall i :: 0 <= i < |items| ==> IsSdu(items[i].lcid) && |items[i].body| >= 128
    ensures SduCount(items) == |items| && LongSduCount(items) == |items| && CeBytes(items) == 0
    ensures BlankCount(items) == 0
  {
    if items != [] {
      LongSdusOnly(items[..|items| - 1]);
    }
  }
}
