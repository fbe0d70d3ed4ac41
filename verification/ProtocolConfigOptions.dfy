/** The protocol configuration options element (`liblte_mme_pack_protocol_config_options_ie` and its
    unpack in lib/src/asn1/liblte_mme.cc; TS 24.008 section 10.5.6.3). */
module ProtocolConfigOptions {
  import opened Buffers
  import opened LengthPrefixed

  type uint16 = x: int | 0 <= x < 65536

  datatype Config = Config(id: uint16, contents: seq<uint8>)

  /** The octets that the contents of one option have room for. */
  const MAX_CONTENTS: nat := 248

  predicate Valid(opts: seq<Config>) { forall i :: 0 <= i < |opts| ==> |opts[i].contents| <= MAX_CONTENTS }

  // ---------- options as items ----------

  const HEAD: nat := 2

  function ToItem(c: Config): (x: Item) { Item([c.id / 256, c.id % 256], c.contents) }

  function OfItem(x: Item): (c: Config)
    requires |x.head| == HEAD
  {
    var high: int := x.head[0];
    Config(high * 256 + x.head[1], x.contents)
  }

  function ToItems(opts: seq<Config>): (xs: seq<Item>)
    requires Valid(opts)
    ensures AllSized(xs, HEAD) && |xs| == |opts|
  {
    seq(|opts|, i requires 0 <= i < |opts| => ToItem(opts[i]))
  }

  function OfItems(xs: seq<Item>): (opts: seq<Config>)
    requires AllSized(xs, HEAD)
    ensures |opts| == |xs|
  {
    seq(|xs|, i requires 0 <= i < |xs| => OfItem(xs[i]))
  }

  lemma ItemsRoundTrip(opts: seq<Config>)
    requires Valid(opts)
    ensures OfItems(ToItems(opts)) == opts
  {
    forall i | 0 <= i < |opts|
      ensures OfItem(ToItem(opts[i])) == opts[i]
    {
    }
  }

  // ---------- the element ----------

  /** The octets behind the length octet. */
  function Value(opts: seq<Config>): (r: seq<uint8>)
    requires Valid(opts)
    ensures |r| >= 1
  {
    [0x80] + AllBytes(ToItems(opts), HEAD)
  }

  /** The whole element; the length octet wraps. */
  function Encode(opts: seq<Config>): (r: seq<uint8>)
    requires Valid(opts)
    ensures |r| == 1 + |Value(opts)|
  {
    [|Value(opts)| % 256] + Value(opts)
  }

  /** Two options in octets: PPP with protocol 0x8021, and a request for a DNS server address. */
  lemma ExampleOptions()
    ensures Encode([Config(0x8021, [1, 2]), Config(0x000D, [])]) == [9, 0x80, 0x80, 0x21, 2, 1, 2, 0x00, 0x0D, 0]
  {
    var x, y := Item([0x80, 0x21], [1, 2]), Item([0x00, 0x0D], []);
    assert ToItems([Config(0x8021, [1, 2]), Config(0x000D, [])]) == [x, y];
    assert [x, y][1..] == [y] && [y][1..] == [];
    assert AllBytes([y], HEAD) == [0x00, 0x0D, 0];
    assert AllBytes([x, y], HEAD) == [0x80, 0x21, 2, 1, 2, 0x00, 0x0D, 0];
  }

  /** The furthest the reader can look. */
  const REACH: nat := 513

  function Decode(b: seq<uint8>, p: nat): (r: (seq<Config>, nat))
    requires p + REACH <= |b|
  {
    (OfItems(ReadUntil(b, p + 2, p + b[p], HEAD)), p + b[p] + 1)
  }

  /** The options come back exactly when the length fits its octet, and then the cursor is right too.
      No option is dropped although the reader stops one octet early: an option has at least three. */
  lemma OptionsComeBack(b: seq<uint8>, p: nat, opts: seq<Config>)
    requires Valid(opts) && p + REACH <= |b| && At(b, p, Encode(opts))
    ensures Decode(b, p).0 == opts <==> |Value(opts)| <= 255
    ensures Decode(b, p).1 == p + |Encode(opts)| <==> |Value(opts)| <= 255
  {
    hide At, AllBytes, ReadUntil, ToItems, OfItems;
    var n := |Value(opts)|;
    AtSplits(b, p, [n % 256], Value(opts));
    AtByte(b, p, n % 256);
    if n <= 255 {
      AtSplits(b, p + 1, [0x80], AllBytes(ToItems(opts), HEAD));
      UntilComesBack(b, p + 2, ToItems(opts), p + n, HEAD);
      ItemsRoundTrip(opts);
    } else if Decode(b, p).0 == opts {
      OverlongOptionsAreCut(b, p, opts);
      assert false;
    }
  }

  lemma OverlongOptionsAreCut(b: seq<uint8>, p: nat, opts: seq<Config>)
    requires Valid(opts) && p + REACH <= |b| && |Value(opts)| > 255 && b[p] == |Value(opts)| % 256
    ensures OfItems(ReadUntil(b, p + 2, p + b[p], HEAD)) != opts
  {
    var xs := ReadUntil(b, p + 2, p + b[p], HEAD);
    hide AllBytes, ReadUntil, OfItems, ToItems;
    var n := |Value(opts)|;
    assert n == 1 + |AllBytes(ToItems(opts), HEAD)| && n % 256 <= n - 256;
    hide Value;
    if OfItems(xs) == opts {
      SameItems(xs, opts);
      UntilStopsInTime(b, p + 2, p + b[p], HEAD, MAX_CONTENTS);
      assert false;
    }
  }

  lemma SameItems(xs: seq<Item>, opts: seq<Config>)
    requires AllSized(xs, HEAD) && Valid(opts) && OfItems(xs) == opts
    ensures xs == ToItems(opts) && forall x <- xs :: |x.contents| <= MAX_CONTENTS
  {
    forall i | 0 <= i < |xs|
      ensures xs[i] == ToItem(opts[i])
    {
      assert xs[i].head == [xs[i].head[0], xs[i].head[1]];
    }
  }

  // ---------- the capacity of the structure ----------

  const MAX_OPTIONS: nat := 83

  /** What the option array of the structure can hold. */
  predicate InStructure(opts: seq<Config>) { |opts| <= MAX_OPTIONS && Valid(opts) }

  /** The received element announces no more than that; the unpacker does not ask. */
  predicate ReceivedFits(b: seq<uint8>, p: nat)
    requires p + REACH <= |b|
  {
    UntilFits(b, p + 2, p + b[p], HEAD, MAX_OPTIONS, MAX_CONTENTS)
  }

  /** Unpacking stays inside the structure exactly for the elements that fit. */
  lemma ReceivedFitsExactly(b: seq<uint8>, p: nat)
    requires p + REACH <= |b|
    ensures InStructure(Decode(b, p).0) <==> ReceivedFits(b, p)
  {
    var xs := ReadUntil(b, p + 2, p + b[p], HEAD);
    hide ReadUntil;
    UntilFitsExactly(b, p + 2, p + b[p], HEAD, MAX_OPTIONS, MAX_CONTENTS);
    SameWithin(xs);
  }

  lemma SameWithin(xs: seq<Item>)
    requires AllSized(xs, HEAD)
    ensures Within(xs, MAX_OPTIONS, MAX_CONTENTS) <==> InStructure(OfItems(xs))
  {
    var opts := OfItems(xs);
    assert forall i :: 0 <= i < |xs| ==> opts[i].contents == xs[i].contents;
  }

  /** Up to a length octet of 251 there are never too many options. */
  lemma ShortElementsFit(b: seq<uint8>, p: nat)
    requires p + REACH <= |b| && b[p] <= 251
    ensures |Decode(b, p).0| <= MAX_OPTIONS
  {
    hide ReadUntil;
    FewItems(b, p + 2, p + b[p], HEAD);
  }

  /** Eighty-four empty options fit the element, with a length octet of 253, and not the structure. */
  lemma TooManyEmptyOptions(opts: seq<Config>)
    requires |opts| == 84 && forall i :: 0 <= i < |opts| ==> opts[i].contents == []
    ensures Valid(opts) && |Value(opts)| == 253 && !InStructure(opts)
  {
    EmptyItemsLength(ToItems(opts), HEAD);
  }

  // ---------- the code ----------

  method Pack(opts: seq<Config>, buf: array<uint8>, p: nat) returns (next: nat)
    requires Valid(opts) && p + |Encode(opts)| <= buf.Length
    modifies buf
    ensures Holds(old(buf[..]), buf[..], p, Encode(opts)) && next == p + |Encode(opts)|
  {
    hide Holds, AllBytes, ToItems;
    ghost var base := buf[..];
    NothingHeld(base, p + 1);
    assert [] + [0x80] == [0x80];
    next := AppendBytes(buf, p + 1, p + 1, [0x80], base, []);
    next := Append(buf, p + 1, next, ToItems(opts), HEAD, base, [0x80]);
    ghost var b := buf[..];
    buf[p] := (next - p - 1) % 256;
    HoldsFronted(base, b, buf[..], p, |Value(opts)| % 256, Value(opts));
  }

  method Unpack(buf: array<uint8>, p: nat) returns (opts: seq<Config>, next: nat)
    requires p + REACH <= buf.Length
    ensures (opts, next) == Decode(buf[..], p)
  {
    hide ReadUntil;
    var xs := TakeUntil(buf, p + 2, p + buf[p], HEAD);
    opts := OfItems(xs);
    next := p + buf[p] + 1;
  }
}
