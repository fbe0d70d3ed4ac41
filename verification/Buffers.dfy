/** Byte buffers: what it means that a sequence of bytes stands at a position of a buffer, and the
    writes that put it there and leave everything else alone. */
module Buffers {

  type uint8 = x: int | 0 <= x < 256

  function ZeroBytes(n: nat): (r: seq<uint8>)
    ensures |r| == n
  {
    seq(n, i requires 0 <= i < n => 0)
  }

  /** The bytes `s` stand in `b` from position `pos` on. */
  ghost predicate At(b: seq<uint8>, pos: nat, s: seq<uint8>) {
    pos + |s| <= |b| && forall i :: 0 <= i < |s| ==> b[pos + i] == s[i]
  }

  lemma AtSplits(b: seq<uint8>, pos: nat, s: seq<uint8>, t: seq<uint8>)
    ensures At(b, pos, s + t) <==> At(b, pos, s) && At(b, pos + |s|, t)
  {
    if At(b, pos, s + t) {
      forall i | 0 <= i < |s|
        ensures b[pos + i] == s[i]
      {
        assert b[pos + i] == (s + t)[i];
      }
      forall i | 0 <= i < |t|
        ensures b[pos + |s| + i] == t[i]
      {
        var j := |s| + i;
        assert b[pos + j] == (s + t)[j];
      }
    }
    if At(b, pos, s) && At(b, pos + |s|, t) {
      forall i | 0 <= i < |s + t|
        ensures b[pos + i] == (s + t)[i]
      {
        if i >= |s| {
          var j := i - |s|;
          assert b[pos + |s| + j] == t[j];
        }
      }
    }
  }

  lemma AtByte(b: seq<uint8>, pos: nat, x: uint8)
    ensures At(b, pos, [x]) <==> pos < |b| && b[pos] == x
  {
    assert [x][0] == x;
    if pos < |b| {
      assert b[pos + 0] == b[pos];
    }
  }

  lemma AtSlice(b: seq<uint8>, pos: nat, s: seq<uint8>)
    ensures At(b, pos, s) <==> pos + |s| <= |b| && b[pos..pos + |s|] == s
  {
    if pos + |s| <= |b| {
      var slice := b[pos..pos + |s|];
      assert forall i :: 0 <= i < |s| ==> slice[i] == b[pos + i];
      if slice == s {
        assert At(b, pos, s);
      }
    }
  }

  lemma PutKeepsAt(b: seq<uint8>, i: nat, x: uint8, pos: nat, s: seq<uint8>)
    requires At(b, pos, s) && i < |b| && (i < pos || pos + |s| <= i)
    ensures At(b[i := x], pos, s)
  {
  }

  lemma AtShifts(b: seq<uint8>, start: nat, s: seq<uint8>)
    requires At(b, start, s)
    ensures At(b[start..], 0, s)
  {
  }

  ghost predicate SameOutside(b: seq<uint8>, b': seq<uint8>, lo: nat, hi: nat) {
    |b'| == |b| && forall k :: 0 <= k < |b| && !(lo <= k < hi) ==> b'[k] == b[k]
  }

  lemma OutsideKeepsAt(b: seq<uint8>, b': seq<uint8>, lo: nat, hi: nat, pos: nat, s: seq<uint8>)
    requires SameOutside(b, b', lo, hi) && At(b, pos, s) && (pos + |s| <= lo || hi <= pos)
    ensures At(b', pos, s)
  {
  }

  lemma OutsideComposes(b: seq<uint8>, b': seq<uint8>, b'': seq<uint8>, lo: nat, mid: nat, hi: nat)
    requires SameOutside(b, b', lo, mid) && SameOutside(b', b'', mid, hi) && lo <= mid <= hi
    ensures SameOutside(b, b'', lo, hi)
  {
  }

  /** One more piece `t` written right behind the piece `s`. */
  lemma PieceAppended(b: seq<uint8>, b': seq<uint8>, b'': seq<uint8>, pos: nat, s: seq<uint8>, t: seq<uint8>)
    requires SameOutside(b, b', pos, pos + |s|) && At(b', pos, s)
    requires SameOutside(b', b'', pos + |s|, pos + |s| + |t|) && At(b'', pos + |s|, t)
    ensures SameOutside(b, b'', pos, pos + |s + t|) && At(b'', pos, s + t)
  {
    hide At, SameOutside;
    OutsideKeepsAt(b', b'', pos + |s|, pos + |s| + |t|, pos, s);
    OutsideComposes(b, b', b'', pos, pos + |s|, pos + |s| + |t|);
    AtSplits(b'', pos, s, t);
  }

  /** The bytes `done` stand at `start`, and nothing else differs from `base`. */
  ghost predicate Holds(base: seq<uint8>, b: seq<uint8>, start: nat, done: seq<uint8>) {
    At(b, start, done) && SameOutside(base, b, start, start + |done|)
  }

  lemma NothingHeld(b: seq<uint8>, start: nat)
    requires start <= |b|
    ensures Holds(b, b, start, [])
  {
  }

  lemma HoldsAppended(b: seq<uint8>, b': seq<uint8>, b'': seq<uint8>, pos: nat, s: seq<uint8>, t: seq<uint8>)
    requires Holds(b, b', pos, s) && Holds(b', b'', pos + |s|, t)
    ensures Holds(b, b'', pos, s + t)
  {
    hide At, SameOutside;
    PieceAppended(b, b', b'', pos, s, t);
  }

  lemma Regroup(x: seq<uint8>, y: seq<uint8>, z: seq<uint8>)
    ensures x + y + z == x + (y + z)
    ensures z == [] ==> x + (y + z) == x + y
  {
  }

  /** A byte put in front of the bytes `s` once they are written. */
  lemma HoldsFronted(base: seq<uint8>, b: seq<uint8>, b': seq<uint8>, pos: nat, x: uint8, s: seq<uint8>)
    requires Holds(base, b, pos + 1, s) && b' == b[pos := x]
    ensures Holds(base, b', pos, [x] + s)
  {
    assert At(b', pos + 1, s);
    hide At;
    AtByte(b', pos, x);
    AtSplits(b', pos, [x], s);
  }

  /** `memcpy` and `bzero`. */
  method Copy(buf: array<uint8>, ptr: nat, data: seq<uint8>)
    requires ptr + |data| <= buf.Length
    modifies buf
    ensures At(buf[..], ptr, data)
    ensures SameOutside(old(buf[..]), buf[..], ptr, ptr + |data|)
  {
    for i := 0 to |data|
      invariant forall k :: 0 <= k < i ==> buf[ptr + k] == data[k]
      invariant forall k :: 0 <= k < buf.Length && !(ptr <= k < ptr + i) ==> buf[k] == old(buf[k])
    {
      buf[ptr + i] := data[i];
    }
  }

  /** More bytes behind the bytes `done`. */
  method AppendBytes(buf: array<uint8>, start: nat, ptr: nat, data: seq<uint8>,
                     ghost base: seq<uint8>, ghost done: seq<uint8>) returns (next: nat)
    requires Holds(base, buf[..], start, done) && ptr == start + |done|
    requires ptr + |data| <= buf.Length
    modifies buf
    ensures Holds(base, buf[..], start, done + data)
    ensures next == start + |done + data|
  {
    hide At, SameOutside;
    ghost var before := buf[..];
    Copy(buf, ptr, data);
    next := ptr + |data|;
    PieceAppended(base, before, buf[..], start, done, data);
  }
}
