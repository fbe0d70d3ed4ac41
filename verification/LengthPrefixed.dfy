/** Lists of items with a head of fixed size, a length octet and that many octets of contents: the
    shape shared by protocol configuration options, packet filters and filter parameters in
    lib/src/asn1/liblte_mme.cc.  A reader walks such a list either up to an index or for a count. */
module LengthPrefixed {
  import opened Buffers

  datatype Item = Item(head: seq<uint8>, contents: seq<uint8>)

  predicate Sized(x: Item, h: nat) { |x.head| == h && |x.contents| < 256 }

  predicate AllSized(xs: seq<Item>, h: nat) { forall i :: 0 <= i < |xs| ==> Sized(xs[i], h) }

  function Bytes(x: Item, h: nat): (r: seq<uint8>)
    requires Sized(x, h)
    ensures |r| == h + 1 + |x.contents|
  {
    x.head + [|x.contents|] + x.contents
  }

  function AllBytes(xs: seq<Item>, h: nat): (r: seq<uint8>)
    requires AllSized(xs, h)
  {
    if xs == [] then [] else Bytes(xs[0], h) + AllBytes(xs[1..], h)
  }

  lemma {:induction false} AllBytesAppend(xs: seq<Item>, x: Item, h: nat)
    requires AllSized(xs, h) && Sized(x, h)
    ensures AllSized(xs + [x], h) && AllBytes(xs + [x], h) == AllBytes(xs, h) + Bytes(x, h)
  {
    hide Bytes;
    if xs != [] {
      AllBytesAppend(xs[1..], x, h);
      assert (xs + [x])[1..] == xs[1..] + [x];
    }
  }

  // ---------- reading ----------

  function ReadItem(b: seq<uint8>, pos: nat, h: nat): (x: Item)
    requires pos + h + 256 <= |b|
    ensures Sized(x, h)
  {
    Item(b[pos..pos + h], b[pos + h + 1..pos + h + 1 + b[pos + h]])
  }

  /** The items up to the index `limit`. */
  function ReadUntil(b: seq<uint8>, pos: nat, limit: nat, h: nat): (xs: seq<Item>)
    requires limit + h + 256 <= |b|
    ensures AllSized(xs, h)
    decreases limit - pos
  {
    if pos < limit then
      var x := ReadItem(b, pos, h);
      [x] + ReadUntil(b, pos + |Bytes(x, h)|, limit, h)
    else []
  }

  /** The next `n` items, and where they end. */
  function ReadCount(b: seq<uint8>, pos: nat, n: nat, h: nat): (r: (seq<Item>, nat))
    requires pos + n * (h + 256) <= |b|
    ensures |r.0| == n && AllSized(r.0, h) && pos <= r.1 <= pos + n * (h + 256)
    decreases n
  {
    if n == 0 then ([], pos)
    else
      assert n * (h + 256) == (n - 1) * (h + 256) + h + 256;
      var x := ReadItem(b, pos, h);
      var rest := ReadCount(b, pos + |Bytes(x, h)|, n - 1, h);
      ([x] + rest.0, rest.1)
  }

  lemma ItemComesBack(b: seq<uint8>, pos: nat, x: Item, h: nat)
    requires Sized(x, h) && At(b, pos, Bytes(x, h)) && pos + h + 256 <= |b|
    ensures ReadItem(b, pos, h) == x
  {
    hide At;
    AtSplits(b, pos, x.head + [|x.contents|], x.contents);
    AtSplits(b, pos, x.head, [|x.contents|]);
    AtByte(b, pos + h, |x.contents|);
    AtSlice(b, pos, x.head);
    AtSlice(b, pos + h + 1, x.contents);
  }

  /** Reading up to an index finds every item when the index lies behind the start of the last one
      and not behind its end. */
  lemma {:induction false} UntilComesBack(b: seq<uint8>, pos: nat, xs: seq<Item>, limit: nat, h: nat)
    requires AllSized(xs, h) && At(b, pos, AllBytes(xs, h)) && limit + h + 256 <= |b|
    requires limit <= pos + |AllBytes(xs, h)| <= limit + h
    ensures ReadUntil(b, pos, limit, h) == xs
    decreases |xs|
  {
    hide At, Bytes, ReadItem;
    if xs != [] {
      AtSplits(b, pos, Bytes(xs[0], h), AllBytes(xs[1..], h));
      ItemComesBack(b, pos, xs[0], h);
      UntilComesBack(b, pos + |Bytes(xs[0], h)|, xs[1..], limit, h);
      assert xs == [xs[0]] + xs[1..];
    }
  }

  lemma {:induction false} CountComesBack(b: seq<uint8>, pos: nat, xs: seq<Item>, h: nat)
    requires AllSized(xs, h) && At(b, pos, AllBytes(xs, h)) && pos + |xs| * (h + 256) <= |b|
    ensures ReadCount(b, pos, |xs|, h) == (xs, pos + |AllBytes(xs, h)|)
    decreases |xs|
  {
    hide At, Bytes, ReadItem;
    if xs != [] {
      assert |xs| * (h + 256) == (|xs| - 1) * (h + 256) + h + 256;
      AtSplits(b, pos, Bytes(xs[0], h), AllBytes(xs[1..], h));
      ItemComesBack(b, pos, xs[0], h);
      CountComesBack(b, pos + |Bytes(xs[0], h)|, xs[1..], h);
      assert xs == [xs[0]] + xs[1..];
    }
  }

  /** What is read up to an index ends before the index plus the largest item. */
  lemma {:induction false} UntilStopsInTime(b: seq<uint8>, pos: nat, limit: nat, h: nat, most: nat)
    requires limit + h + 256 <= |b|
    requires forall x <- ReadUntil(b, pos, limit, h) :: |x.contents| <= most
    ensures var xs := ReadUntil(b, pos, limit, h); xs == [] || pos + |AllBytes(xs, h)| <= limit + h + most
    decreases limit - pos
  {
    hide ReadItem, Bytes;
    if pos < limit {
      var x := ReadItem(b, pos, h);
      var next := pos + |Bytes(x, h)|;
      var rest := ReadUntil(b, next, limit, h);
      assert ReadUntil(b, pos, limit, h) == [x] + rest && ([x] + rest)[0] == x && ([x] + rest)[1..] == rest;
      assert x in [x] + rest;
      UntilStopsInTime(b, next, limit, h, most);
    }
  }

  // ---------- what fits a structure of fixed capacity ----------

  /** A list that a structure with `room` items of `most` octets can hold. */
  predicate Within(xs: seq<Item>, room: nat, most: nat) {
    |xs| <= room && forall i :: 0 <= i < |xs| ==> |xs[i].contents| <= most
  }

  /** The received octets up to the index `limit` announce no more than `room` items, and none with more
      than `most` octets. */
  predicate UntilFits(b: seq<uint8>, pos: nat, limit: nat, h: nat, room: nat, most: nat)
    requires limit + h + 256 <= |b|
    decreases limit - pos
  {
    pos < limit ==>
      room > 0 && b[pos + h] <= most && UntilFits(b, pos + h + 1 + b[pos + h], limit, h, room - 1, most)
  }

  /** The next `n` items announce no more than `most` octets each. */
  predicate CountFits(b: seq<uint8>, pos: nat, n: nat, h: nat, most: nat)
    requires pos + n * (h + 256) <= |b|
    decreases n
  {
    n > 0 ==>
      (OneLess(n, h);
       b[pos + h] <= most && CountFits(b, pos + h + 1 + b[pos + h], n - 1, h, most))
  }

  lemma WithinCons(x: Item, rest: seq<Item>, room: nat, most: nat)
    ensures Within([x] + rest, room, most) <==> room > 0 && |x.contents| <= most && Within(rest, room - 1, most)
  {
    var xs := [x] + rest;
    assert xs[0] == x && forall i :: 0 <= i < |rest| ==> rest[i] == xs[i + 1];
  }

  lemma {:induction false} UntilFitsExactly(b: seq<uint8>, pos: nat, limit: nat, h: nat, room: nat, most: nat)
    requires limit + h + 256 <= |b|
    ensures UntilFits(b, pos, limit, h, room, most) <==> Within(ReadUntil(b, pos, limit, h), room, most)
    decreases limit - pos
  {
    hide Within;
    if pos < limit {
      var x := ReadItem(b, pos, h);
      var next := pos + h + 1 + b[pos + h];
      assert |Bytes(x, h)| == h + 1 + b[pos + h] && |x.contents| == b[pos + h];
      UntilStep(b, pos, limit, h);
      WithinCons(x, ReadUntil(b, next, limit, h), room, most);
      if room > 0 {
        UntilFitsExactly(b, next, limit, h, room - 1, most);
      }
    } else {
      UntilDone(b, pos, limit, h);
      NothingWithin(room, most);
    }
  }

  lemma NothingWithin(room: nat, most: nat)
    ensures Within([], room, most)
  {
  }

  lemma {:induction false} CountFitsExactly(b: seq<uint8>, pos: nat, n: nat, h: nat, most: nat)
    requires pos + n * (h + 256) <= |b|
    ensures CountFits(b, pos, n, h, most) <==> Within(ReadCount(b, pos, n, h).0, n, most)
    decreases n
  {
    hide Within;
    if n > 0 {
      OneLess(n, h);
      var x := ReadItem(b, pos, h);
      var next := pos + h + 1 + b[pos + h];
      assert |Bytes(x, h)| == h + 1 + b[pos + h] && |x.contents| == b[pos + h];
      CountStep(b, pos, n, h);
      WithinCons(x, ReadCount(b, next, n - 1, h).0, n, most);
      CountFitsExactly(b, next, n - 1, h, most);
    } else {
      CountDone(b, pos, h);
      NothingWithin(n, most);
    }
  }

  lemma {:induction false} EmptyItemsLength(xs: seq<Item>, h: nat)
    requires AllSized(xs, h) && forall i :: 0 <= i < |xs| ==> xs[i].contents == []
    ensures |AllBytes(xs, h)| == |xs| * (h + 1)
  {
    if xs != [] {
      EmptyItemsLength(xs[1..], h);
      assert |xs| * (h + 1) == (|xs| - 1) * (h + 1) + h + 1;
    }
  }

  /** Every item takes at least its head and its length octet. */
  lemma {:induction false} FewItems(b: seq<uint8>, pos: nat, limit: nat, h: nat)
    requires limit + h + 256 <= |b|
    ensures pos < limit ==> (|ReadUntil(b, pos, limit, h)| - 1) * (h + 1) < limit - pos
    ensures pos >= limit ==> ReadUntil(b, pos, limit, h) == []
    decreases limit - pos
  {
    if pos < limit {
      var x := ReadItem(b, pos, h);
      UntilStep(b, pos, limit, h);
      var next := pos + |Bytes(x, h)|;
      FewItems(b, next, limit, h);
      var k := |ReadUntil(b, next, limit, h)|;
      assert k * (h + 1) == (k - 1) * (h + 1) + h + 1;
    }
  }

  // ---------- reading, step by step ----------

  method TakeBytes(buf: array<uint8>, pos: nat, n: nat) returns (s: seq<uint8>)
    requires pos + n <= buf.Length
    ensures s == buf[pos..pos + n]
  {
    s := [];
    for i := 0 to n
      invariant s == buf[pos..pos + i]
    {
      s := s + [buf[pos + i]];
    }
  }

  method TakeItem(buf: array<uint8>, pos: nat, h: nat) returns (x: Item, next: nat)
    requires pos + h + 256 <= buf.Length
    ensures x == ReadItem(buf[..], pos, h) && next == pos + |Bytes(x, h)|
  {
    var head := TakeBytes(buf, pos, h);
    var contents := TakeBytes(buf, pos + h + 1, buf[pos + h]);
    x := Item(head, contents);
    next := pos + h + 1 + |contents|;
    assert buf[pos..pos + h] == buf[..][pos..pos + h];
    assert contents == buf[..][pos + h + 1..pos + h + 1 + buf[pos + h]];
  }

  lemma UntilStep(b: seq<uint8>, pos: nat, limit: nat, h: nat)
    requires pos < limit && limit + h + 256 <= |b|
    ensures var x := ReadItem(b, pos, h);
            ReadUntil(b, pos, limit, h) == [x] + ReadUntil(b, pos + |Bytes(x, h)|, limit, h)
  {
    hide ReadItem, Bytes;
  }

  lemma CountStep(b: seq<uint8>, pos: nat, n: nat, h: nat)
    requires n > 0 && pos + n * (h + 256) <= |b|
    ensures var x := ReadItem(b, pos, h);
            var next := pos + |Bytes(x, h)|;
            && next + (n - 1) * (h + 256) <= |b|
            && ReadCount(b, pos, n, h).0 == [x] + ReadCount(b, next, n - 1, h).0
            && ReadCount(b, pos, n, h).1 == ReadCount(b, next, n - 1, h).1
  {
    hide ReadItem;
    OneLess(n, h);
  }

  lemma OneLess(n: nat, h: nat)
    requires n > 0
    ensures n * (h + 256) == (n - 1) * (h + 256) + h + 256
  {
  }

  lemma ItemsRegroup(xs: seq<Item>, x: Item, rest: seq<Item>)
    ensures xs + ([x] + rest) == xs + [x] + rest
  {
  }

  method TakeUntil(buf: array<uint8>, pos: nat, limit: nat, h: nat) returns (xs: seq<Item>)
    requires limit + h + 256 <= buf.Length
    ensures xs == ReadUntil(buf[..], pos, limit, h)
  {
    hide ReadItem, Bytes, ReadUntil;
    xs := [];
    var idx := pos;
    ghost var b := buf[..];
    ghost var whole := ReadUntil(b, pos, limit, h);
    assert [] + whole == whole;
    while idx < limit
      invariant xs + ReadUntil(b, idx, limit, h) == whole
    {
      UntilStep(b, idx, limit, h);
      var x;
      x, idx := TakeItem(buf, idx, h);
      ItemsRegroup(xs, x, ReadUntil(b, idx, limit, h));
      xs := xs + [x];
    }
    UntilDone(b, idx, limit, h);
    assert xs + [] == xs;
  }

  lemma UntilDone(b: seq<uint8>, pos: nat, limit: nat, h: nat)
    requires limit <= pos && limit + h + 256 <= |b|
    ensures ReadUntil(b, pos, limit, h) == []
  {
  }

  method TakeCount(buf: array<uint8>, pos: nat, n: nat, h: nat) returns (xs: seq<Item>, next: nat)
    requires pos + n * (h + 256) <= buf.Length
    ensures xs == ReadCount(buf[..], pos, n, h).0 && next == ReadCount(buf[..], pos, n, h).1
  {
    hide ReadItem, Bytes, ReadCount;
    xs, next := [], pos;
    var i := 0;
    ghost var b := buf[..];
    ghost var whole := ReadCount(b, pos, n, h);
    assert [] + whole.0 == whole.0;
    while i < n
      invariant i <= n && next + (n - i) * (h + 256) <= buf.Length
      invariant whole.0 == xs + ReadCount(b, next, n - i, h).0 && whole.1 == ReadCount(b, next, n - i, h).1
    {
      CountStep(b, next, n - i, h);
      OneLess(n - i, h);
      var x;
      x, next := TakeItem(buf, next, h);
      ItemsRegroup(xs, x, ReadCount(b, next, n - i - 1, h).0);
      xs, i := xs + [x], i + 1;
    }
    CountDone(b, next, h);
    assert xs + [] == xs;
  }

  lemma CountDone(b: seq<uint8>, pos: nat, h: nat)
    requires pos <= |b|
    ensures ReadCount(b, pos, 0, h) == ([], pos)
  {
  }

  // ---------- writing ----------

  /** Writes the items behind the bytes `done`. */
  method Append(buf: array<uint8>, start: nat, ptr: nat, xs: seq<Item>, h: nat,
                ghost base: seq<uint8>, ghost done: seq<uint8>) returns (next: nat)
    requires AllSized(xs, h) && Holds(base, buf[..], start, done) && ptr == start + |done|
    requires ptr + |AllBytes(xs, h)| <= buf.Length
    modifies buf
    ensures Holds(base, buf[..], start, done + AllBytes(xs, h)) && next == start + |done + AllBytes(xs, h)|
  {
    hide Holds, At;
    next := ptr;
    assert done + [] == done;
    for i := 0 to |xs|
      invariant Holds(base, buf[..], start, done + AllBytes(xs[..i], h))
      invariant next == start + |done + AllBytes(xs[..i], h)|
    {
      Prefix(xs, i, h);
      Regroup(done, AllBytes(xs[..i], h), Bytes(xs[i], h));
      next := AppendBytes(buf, start, next, Bytes(xs[i], h), base, done + AllBytes(xs[..i], h));
    }
    assert xs[..|xs|] == xs;
  }

  lemma Prefix(xs: seq<Item>, i: nat, h: nat)
    requires i < |xs| && AllSized(xs, h)
    ensures AllBytes(xs[..i + 1], h) == AllBytes(xs[..i], h) + Bytes(xs[i], h)
    ensures |AllBytes(xs[..i + 1], h)| <= |AllBytes(xs, h)|
  {
    AllBytesAppend(xs[..i], xs[i], h);
    assert xs[..i + 1] == xs[..i] + [xs[i]];
    PrefixIsShorter(xs, i + 1, h);
  }

  lemma {:induction false} PrefixIsShorter(xs: seq<Item>, i: nat, h: nat)
    requires i <= |xs| && AllSized(xs, h)
    ensures |AllBytes(xs[..i], h)| <= |AllBytes(xs, h)|
  {
    hide Bytes;
    if i != 0 {
      PrefixIsShorter(xs[1..], i - 1, h);
      assert xs[..i][1..] == xs[1..][..i - 1];
    }
  }
}
