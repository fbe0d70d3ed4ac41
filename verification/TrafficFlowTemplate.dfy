/** The traffic flow template element (`liblte_mme_pack_traffic_flow_template_ie` and its unpack in
    lib/src/asn1/liblte_mme.cc; TS 24.008 section 10.5.6.12).

    The unpacker writes into the caller's structure and does not touch every field of it: under the
    operation code that deletes packet filters it leaves their precedence and contents alone, and
    without the parameter flag it leaves the parameter list alone.  `Decode` therefore takes what the
    structure held before. */
module TrafficFlowTemplate {
  import opened Buffers
  import opened LengthPrefixed
  import opened CommonTypes

  const DELETE_FILTERS: int := 5
  const MAX_FILTERS: int := 15

  datatype Filter = Filter(dir: uint4, id: uint8, precedence: uint8, contents: seq<uint8>)

  datatype Template = Template(opCode: int, filters: seq<Filter>, parameters: seq<Item>)

  /** What the structure can hold: an operation code of three bits, at most fifteen filters, and sizes
      of one octet. */
  ghost predicate Valid(t: Template) {
    && 0 <= t.opCode < 8 && |t.filters| <= MAX_FILTERS
    && (forall i :: 0 <= i < |t.filters| ==> |t.filters[i].contents| < 256)
    && AllSized(t.parameters, PARAMETER_HEAD)
  }

  const FILTER_HEAD: nat := 2
  const PARAMETER_HEAD: nat := 1

  // ---------- filters as items ----------

  function Tag(f: Filter): (x: uint8) { f.dir * 16 + f.id % 16 }

  function Tags(fs: seq<Filter>): (r: seq<uint8>)
    ensures |r| == |fs|
  {
    seq(|fs|, i requires 0 <= i < |fs| => Tag(fs[i]))
  }

  function ToItems(fs: seq<Filter>): (xs: seq<Item>)
    requires forall i :: 0 <= i < |fs| ==> |fs[i].contents| < 256
    ensures AllSized(xs, FILTER_HEAD) && |xs| == |fs|
  {
    seq(|fs|, i requires 0 <= i < |fs| => Item([Tag(fs[i]), fs[i].precedence], fs[i].contents))
  }

  function OfItems(xs: seq<Item>): (fs: seq<Filter>)
    requires AllSized(xs, FILTER_HEAD)
    ensures |fs| == |xs|
  {
    seq(|xs|, i requires 0 <= i < |xs| =>
      Filter(xs[i].head[0] / 16, xs[i].head[0] % 16, xs[i].head[1], xs[i].contents))
  }

  /** Direction and identity from the tags, the rest from before. */
  function Retagged(tags: seq<uint8>, was: seq<Filter>): (fs: seq<Filter>)
    requires |tags| <= |was|
    ensures |fs| == |tags|
  {
    seq(|tags|, i requires 0 <= i < |tags| => was[i].(dir := tags[i] / 16, id := tags[i] % 16))
  }

  ghost predicate ShortIds(fs: seq<Filter>) { forall i :: 0 <= i < |fs| ==> fs[i].id < 16 }

  ghost predicate SameBodies(fs: seq<Filter>, was: seq<Filter>)
    requires |fs| <= |was|
  {
    forall i :: 0 <= i < |fs| ==> fs[i].precedence == was[i].precedence && fs[i].contents == was[i].contents
  }

  lemma TagSplits(f: Filter)
    ensures Tag(f) / 16 == f.dir && Tag(f) % 16 == f.id % 16
  {
  }

  lemma FiltersRoundTrip(fs: seq<Filter>)
    requires forall i :: 0 <= i < |fs| ==> |fs[i].contents| < 256
    ensures OfItems(ToItems(fs)) == fs <==> ShortIds(fs)
  {
    var back := OfItems(ToItems(fs));
    forall i | 0 <= i < |fs|
      ensures back[i] == fs[i] <==> fs[i].id < 16
    {
      TagSplits(fs[i]);
      assert back[i] == fs[i].(id := fs[i].id % 16);
    }
  }

  lemma TagsRoundTrip(fs: seq<Filter>, was: seq<Filter>)
    requires |fs| <= |was|
    ensures Retagged(Tags(fs), was) == fs <==> ShortIds(fs) && SameBodies(fs, was)
  {
    var back := Retagged(Tags(fs), was);
    forall i | 0 <= i < |fs|
      ensures back[i] == fs[i]
              <==> fs[i].id < 16 && fs[i].precedence == was[i].precedence && fs[i].contents == was[i].contents
    {
      TagSplits(fs[i]);
      assert back[i] == was[i].(dir := fs[i].dir, id := fs[i].id % 16);
    }
  }

  // ---------- the element ----------

  function FirstOctet(t: Template): (x: uint8)
    requires 0 <= t.opCode < 8 && |t.filters| <= MAX_FILTERS
    ensures x / 32 == t.opCode && x % 16 == |t.filters| && (x / 16 % 2 == 1 <==> t.parameters != [])
  {
    t.opCode * 32 + (if t.parameters != [] then 16 else 0) + |t.filters|
  }

  function FilterBytes(t: Template): (r: seq<uint8>)
    requires Valid(t)
  {
    if t.opCode == DELETE_FILTERS then Tags(t.filters) else AllBytes(ToItems(t.filters), FILTER_HEAD)
  }

  function Value(t: Template): (r: seq<uint8>)
    requires Valid(t)
    ensures |r| >= 1
  {
    [FirstOctet(t)] + FilterBytes(t) + AllBytes(t.parameters, PARAMETER_HEAD)
  }

  /** The whole element; the length octet wraps. */
  function Encode(t: Template): (r: seq<uint8>)
    requires Valid(t)
    ensures |r| == 1 + |Value(t)|
  {
    [|Value(t)| % 256] + Value(t)
  }

  /** A template in octets: create (operation 1) one uplink and downlink filter with identity 1 and precedence
      5 that matches one octet, and a parameter. */
  lemma ExampleTemplate()
    ensures Valid(Template(1, [Filter(3, 1, 5, [0x30, 0x11])], [Item([2], [7])]))
    ensures Encode(Template(1, [Filter(3, 1, 5, [0x30, 0x11])], [Item([2], [7])]))
            == [9, 0x31, 0x31, 5, 2, 0x30, 0x11, 2, 1, 7]
  {
    var f, x := Item([0x31, 5], [0x30, 0x11]), Item([2], [7]);
    assert ToItems([Filter(3, 1, 5, [0x30, 0x11])]) == [f];
    assert [f][1..] == [] && [x][1..] == [];
    assert AllBytes([f], FILTER_HEAD) == [0x31, 5, 2, 0x30, 0x11];
    assert AllBytes([x], PARAMETER_HEAD) == [2, 1, 7];
  }

  /** The same filter under operations 4 and 5: deleting filters (5) sends direction and identity only. */
  lemma ExampleDeletion()
    ensures Encode(Template(5, [Filter(3, 1, 5, [0x30, 0x11])], [])) == [2, 0xA1, 0x31]
    ensures Encode(Template(4, [Filter(3, 1, 5, [0x30, 0x11])], [])) == [6, 0x81, 0x31, 5, 2, 0x30, 0x11]
  {
    var f := Item([0x31, 5], [0x30, 0x11]);
    var none: seq<Item> := [];
    assert ToItems([Filter(3, 1, 5, [0x30, 0x11])]) == [f];
    assert Tags([Filter(3, 1, 5, [0x30, 0x11])]) == [0x31];
    assert [f][1..] == none;
    assert AllBytes(none, FILTER_HEAD) == [] && AllBytes(none, PARAMETER_HEAD) == [];
    assert AllBytes([f], FILTER_HEAD) == [0x31, 5, 2, 0x30, 0x11];
    hide AllBytes;
  }

  /** The furthest the reader can look: fifteen filters of 258 octets. */
  const REACH: nat := 4096

  function DecodeFilters(b: seq<uint8>, pos: nat, opCode: int, n: nat, was: seq<Filter>): (r: (seq<Filter>, nat))
    requires n <= MAX_FILTERS <= |was| && pos + 4000 <= |b|
    ensures r.1 <= pos + 4000
  {
    if opCode == DELETE_FILTERS then (Retagged(b[pos..pos + n], was), pos + n)
    else
      var items := ReadCount(b, pos, n, FILTER_HEAD);
      (OfItems(items.0), items.1)
  }

  /** The structure after unpacking, when it held `was` (all fifteen filters) before. */
  function Decode(b: seq<uint8>, p: nat, was: Template): (r: (Template, nat))
    requires p + REACH <= |b| && |was.filters| == MAX_FILTERS
  {
    var first := b[p + 1];
    var filters := DecodeFilters(b, p + 2, first / 32, first % 16, was.filters);
    var parameters :=
      if first / 16 % 2 == 1 then ReadUntil(b, filters.1, p + b[p], PARAMETER_HEAD) else was.parameters;
    (Template(first / 32, filters.0, parameters), p + b[p] + 1)
  }

  /** The filters as they come back. */
  ghost function FiltersBack(t: Template, was: seq<Filter>): (fs: seq<Filter>)
    requires Valid(t) && |was| == MAX_FILTERS
  {
    if t.opCode == DELETE_FILTERS then Retagged(Tags(t.filters), was) else OfItems(ToItems(t.filters))
  }

  lemma FilterBytesComeBack(b: seq<uint8>, pos: nat, t: Template, was: seq<Filter>)
    requires Valid(t) && |was| == MAX_FILTERS && At(b, pos, FilterBytes(t)) && pos + 4000 <= |b|
    ensures DecodeFilters(b, pos, t.opCode, |t.filters|, was) == (FiltersBack(t, was), pos + |FilterBytes(t)|)
  {
    hide At, Tags, ToItems, OfItems, Retagged, AllBytes, ReadCount;
    if t.opCode == DELETE_FILTERS {
      AtSlice(b, pos, Tags(t.filters));
    } else {
      CountComesBack(b, pos, ToItems(t.filters), FILTER_HEAD);
    }
  }

  lemma FiltersBackExact(t: Template, was: seq<Filter>)
    requires Valid(t) && |was| == MAX_FILTERS
    ensures FiltersBack(t, was) == t.filters
            <==> ShortIds(t.filters) && (t.opCode == DELETE_FILTERS ==> SameBodies(t.filters, was))
  {
    hide Tags, ToItems, OfItems, Retagged, ShortIds, SameBodies;
    if t.opCode == DELETE_FILTERS {
      TagsRoundTrip(t.filters, was);
    } else {
      FiltersRoundTrip(t.filters);
    }
  }

  /** What unpacking makes of a packed template whose length fits. */
  lemma DecodedTemplate(b: seq<uint8>, p: nat, t: Template, was: Template)
    requires Valid(t) && p + REACH <= |b| && |was.filters| == MAX_FILTERS && At(b, p, Encode(t))
    requires |Value(t)| <= 255
    ensures Decode(b, p, was)
            == (Template(t.opCode, FiltersBack(t, was.filters),
                         if t.parameters == [] then was.parameters else t.parameters),
                p + |Encode(t)|)
  {
    hide At, FilterBytes, DecodeFilters, FiltersBack, AllBytes, ReadUntil;
    var n := |Value(t)|;
    AtSplits(b, p, [n % 256], Value(t));
    AtByte(b, p, n % 256);
    AtSplits(b, p + 1, [FirstOctet(t)] + FilterBytes(t), AllBytes(t.parameters, PARAMETER_HEAD));
    AtSplits(b, p + 1, [FirstOctet(t)], FilterBytes(t));
    AtByte(b, p + 1, FirstOctet(t));
    FilterBytesComeBack(b, p + 2, t, was.filters);
    if t.parameters != [] {
      UntilComesBack(b, p + 2 + |FilterBytes(t)|, t.parameters, p + n, PARAMETER_HEAD);
    }
  }

  /** A template comes back exactly when its length fits the octet, no filter identity is cut, and
      what the unpacker leaves alone already had the right value. */
  lemma TemplateComesBack(b: seq<uint8>, p: nat, t: Template, was: Template)
    requires Valid(t) && p + REACH <= |b| && |was.filters| == MAX_FILTERS && At(b, p, Encode(t))
    ensures Decode(b, p, was) == (t, p + |Encode(t)|)
            <==> && |Value(t)| <= 255
                 && ShortIds(t.filters)
                 && (t.opCode == DELETE_FILTERS ==> SameBodies(t.filters, was.filters))
                 && (t.parameters == [] ==> was.parameters == [])
  {
    hide At, FiltersBack, FilterBytes, DecodeFilters, AllBytes, ReadUntil, ShortIds, SameBodies;
    if |Value(t)| <= 255 {
      FiltersBackExact(t, was.filters);
      DecodedTemplate(b, p, t, was);
    } else {
      AtSplits(b, p, [|Value(t)| % 256], Value(t));
      AtByte(b, p, |Value(t)| % 256);
    }
  }

  // ---------- the capacity of the structure ----------

  const MAX_FILTER_SIZE: nat := 20
  const MAX_PARAMETERS: nat := 15
  const MAX_PARAMETER_SIZE: nat := 20

  predicate FiltersWithin(fs: seq<Filter>) {
    |fs| <= MAX_FILTERS && forall i :: 0 <= i < |fs| ==> |fs[i].contents| <= MAX_FILTER_SIZE
  }

  /** What the arrays of the structure can hold. */
  predicate InStructure(t: Template) {
    FiltersWithin(t.filters) && Within(t.parameters, MAX_PARAMETERS, MAX_PARAMETER_SIZE)
  }

  /** The received element announces no more than that; the unpacker does not ask. */
  predicate ReceivedFits(b: seq<uint8>, p: nat, was: Template)
    requires p + REACH <= |b| && |was.filters| == MAX_FILTERS
  {
    var first := b[p + 1];
    && (first / 32 != DELETE_FILTERS ==> CountFits(b, p + 2, first % 16, FILTER_HEAD, MAX_FILTER_SIZE))
    && (first / 16 % 2 == 1 ==>
          UntilFits(b, DecodeFilters(b, p + 2, first / 32, first % 16, was.filters).1, p + b[p], PARAMETER_HEAD,
                    MAX_PARAMETERS, MAX_PARAMETER_SIZE))
  }

  lemma FiltersFitExactly(b: seq<uint8>, pos: nat, opCode: int, n: nat, was: seq<Filter>)
    requires n <= MAX_FILTERS == |was| && pos + 4000 <= |b| && FiltersWithin(was)
    ensures FiltersWithin(DecodeFilters(b, pos, opCode, n, was).0)
            <==> opCode != DELETE_FILTERS ==> CountFits(b, pos, n, FILTER_HEAD, MAX_FILTER_SIZE)
  {
    if opCode != DELETE_FILTERS {
      var xs := ReadCount(b, pos, n, FILTER_HEAD).0;
      hide ReadCount, CountFits;
      CountFitsExactly(b, pos, n, FILTER_HEAD, MAX_FILTER_SIZE);
      SameWithin(xs, n);
    } else {
      RetaggedWithin(b[pos..pos + n], was);
    }
  }

  lemma SameWithin(xs: seq<Item>, n: nat)
    requires AllSized(xs, FILTER_HEAD) && |xs| == n <= MAX_FILTERS
    ensures Within(xs, n, MAX_FILTER_SIZE) <==> FiltersWithin(OfItems(xs))
  {
    var fs := OfItems(xs);
    assert forall i :: 0 <= i < |xs| ==> fs[i].contents == xs[i].contents;
  }

  lemma RetaggedWithin(tags: seq<uint8>, was: seq<Filter>)
    requires |tags| <= |was| && FiltersWithin(was)
    ensures FiltersWithin(Retagged(tags, was))
  {
  }

  /** Unpacking into a structure stays inside it exactly for the elements that fit. */
  lemma ReceivedFitsExactly(b: seq<uint8>, p: nat, was: Template)
    requires p + REACH <= |b| && |was.filters| == MAX_FILTERS && InStructure(was)
    ensures InStructure(Decode(b, p, was).0) <==> ReceivedFits(b, p, was)
  {
    hide FiltersWithin, DecodeFilters, ReadUntil, UntilFits, CountFits, Within;
    var first := b[p + 1];
    FiltersFitExactly(b, p + 2, first / 32, first % 16, was.filters);
    var pos := DecodeFilters(b, p + 2, first / 32, first % 16, was.filters).1;
    UntilFitsExactly(b, pos, p + b[p], PARAMETER_HEAD, MAX_PARAMETERS, MAX_PARAMETER_SIZE);
  }

  // ---------- the code ----------

  method Pack(t: Template, buf: array<uint8>, p: nat) returns (next: nat)
    requires Valid(t) && p + |Encode(t)| <= buf.Length
    modifies buf
    ensures Holds(old(buf[..]), buf[..], p, Encode(t)) && next == p + |Encode(t)|
  {
    hide Holds, AllBytes, ToItems, Tags;
    ghost var base := buf[..];
    NothingHeld(base, p + 1);
    assert [] + [FirstOctet(t)] == [FirstOctet(t)];
    next := AppendBytes(buf, p + 1, p + 1, [FirstOctet(t)], base, []);
    if t.opCode == DELETE_FILTERS {
      next := AppendBytes(buf, p + 1, next, Tags(t.filters), base, [FirstOctet(t)]);
    } else {
      next := Append(buf, p + 1, next, ToItems(t.filters), FILTER_HEAD, base, [FirstOctet(t)]);
    }
    next := Append(buf, p + 1, next, t.parameters, PARAMETER_HEAD, base, [FirstOctet(t)] + FilterBytes(t));
    ghost var b := buf[..];
    buf[p] := (next - p - 1) % 256;
    HoldsFronted(base, b, buf[..], p, |Value(t)| % 256, Value(t));
  }

  /** Unpacks into a structure whose fields hold `was`. */
  method Unpack(buf: array<uint8>, p: nat, was: Template) returns (t: Template, next: nat)
    requires p + REACH <= buf.Length && |was.filters| == MAX_FILTERS
    ensures t == Decode(buf[..], p, was).0 && next == Decode(buf[..], p, was).1
  {
    hide ReadUntil, ReadCount, OfItems, Retagged;
    var first := buf[p + 1];
    var filters, idx;
    if first / 32 == DELETE_FILTERS {
      var tags := TakeBytes(buf, p + 2, first % 16);
      assert tags == buf[..][p + 2..p + 2 + first % 16];
      filters, idx := Retagged(tags, was.filters), p + 2 + first % 16;
    } else {
      var items;
      items, idx := TakeCount(buf, p + 2, first % 16, FILTER_HEAD);
      filters := OfItems(items);
    }
    var parameters := was.parameters;
    if first / 16 % 2 == 1 {
      parameters := TakeUntil(buf, idx, p + buf[p], PARAMETER_HEAD);
    }
    t, next := Template(first / 32, filters, parameters), p + buf[p] + 1;
  }
}
