/** The access point name information element (`liblte_mme_pack_access_point_name_ie` and its unpack
    in lib/src/asn1/liblte_mme.cc; TS 24.008 section 10.5.6.1).

    The name is packed as labels, each behind its length.  The packer learns the length of a label
    only when it meets the next dot, and patches it into the slot of the previous dot.  A dot at the
    start of a label belongs to the label, so every name without NUL comes back, whatever its dots. */
module AccessPointName {
  import opened Buffers
  import opened CommonTypes

  const DOT: uint8 := 46

  /** The furthest the reader can look, behind the last label length of the longest element. */
  const REACH: nat := 384

  // ---------- the packed form ----------

  /** The first dot at or behind `from`, or the end of the string. */
  function FirstDot(s: seq<uint8>, from: nat): (k: nat)
    requires from <= |s|
    ensures from <= k <= |s| && (forall j :: from <= j < k ==> s[j] != DOT) && (k < |s| ==> s[k] == DOT)
    decreases |s| - from
  {
    if from == |s| || s[from] == DOT then from else FirstDot(s, from + 1)
  }

  /** Where the label that starts at `a` ends.  It is never empty unless nothing is left. */
  function LabelEnd(s: seq<uint8>, a: nat): (k: nat)
    requires a <= |s|
    ensures a <= k <= |s| && (k < |s| ==> s[k] == DOT)
  {
    if a == |s| then a else FirstDot(s, a + 1)
  }

  function Label(s: seq<uint8>, a: nat, k: nat): (r: seq<uint8>)
    requires a <= k <= |s| && k - a < 256
  {
    [k - a] + s[a..k]
  }

  /** The labels of the string from index `a` on. */
  function Labels(s: seq<uint8>, a: nat): (r: seq<uint8>)
    requires a <= |s| < 256
    ensures |r| == |s| - a + 1
    decreases |s| - a
  {
    var k := LabelEnd(s, a);
    Label(s, a, k) + if k < |s| then Labels(s, k + 1) else []
  }

  function Encode(s: seq<uint8>): (r: seq<uint8>)
    requires |s| < STRING_LEN
    ensures |r| == |s| + 2
  {
    [|s| + 1] + Labels(s, 0)
  }

  // ---------- labels behind their lengths ----------

  /** Labels with '.' between them. */
  function Dotted(ls: seq<seq<uint8>>): (s: seq<uint8>)
    requires ls != []
  {
    if |ls| == 1 then ls[0] else ls[0] + ['.' as int] + Dotted(ls[1..])
  }

  /** One to 63 characters and no '.'. */
  ghost predicate IsLabel(l: seq<uint8>) {
    0 < |l| < 64 && forall i :: 0 <= i < |l| ==> l[i] != '.' as int
  }

  ghost predicate AreLabels(ls: seq<seq<uint8>>) { forall i :: 0 <= i < |ls| ==> IsLabel(ls[i]) }

  /** The labels of RFC 1035 section 3.1, each behind its length. */
  ghost function Lengthed(ls: seq<seq<uint8>>): (r: seq<uint8>)
    requires AreLabels(ls)
  {
    if ls == [] then [] else [|ls[0]|] + ls[0] + Lengthed(ls[1..])
  }

  lemma {:induction false} FirstDotIs(s: seq<uint8>, from: nat, k: nat)
    requires from <= k <= |s| && (forall j :: from <= j < k ==> s[j] != '.' as int)
    requires k < |s| ==> s[k] == '.' as int
    ensures FirstDot(s, from) == k
    decreases k - from
  {
    if from < k {
      FirstDotIs(s, from + 1, k);
    }
  }

  lemma FirstLabelEnds(s: seq<uint8>, a: nat, l: seq<uint8>, rest: seq<uint8>)
    requires a <= |s| && IsLabel(l) && s[a..] == l + rest && (rest != [] ==> rest[0] == '.' as int)
    ensures LabelEnd(s, a) == a + |l| && s[a..a + |l|] == l
  {
    var k := a + |l|;
    forall j | a <= j < |s|
      ensures s[j] == (l + rest)[j - a]
    {
      assert s[j] == s[a..][j - a];
    }
    assert |s| - a == |l| + |rest|;
    FirstDotIs(s, a + 1, k);
  }

  lemma LastLabel(s: seq<uint8>, a: nat, l: seq<uint8>)
    requires a <= |s| < 256 && IsLabel(l) && s[a..] == l
    ensures Labels(s, a) == [|l|] + l
  {
    hide LabelEnd;
    assert l + [] == l;
    FirstLabelEnds(s, a, l, []);
  }

  lemma BehindTheDot(s: seq<uint8>, a: nat, n: nat, tail: seq<uint8>, whole: seq<uint8>)
    requires a <= |s| && s[a..] == whole && n + 1 <= |whole| && whole[n + 1..] == tail
    ensures s[a + n + 1..] == tail
  {
  }

  lemma DotFollows(s: seq<uint8>, a: nat, l: seq<uint8>, tail: seq<uint8>)
    requires a <= |s| && s[a..] == l + (['.' as int] + tail)
    ensures a + |l| + 1 <= |s| && s[a + |l| + 1..] == tail
  {
    var whole := l + (['.' as int] + tail);
    assert |whole| == |s| - a;
    assert whole[|l| + 1..] == tail;
    BehindTheDot(s, a, |l|, tail, whole);
  }

  lemma FirstLabel(s: seq<uint8>, a: nat, l: seq<uint8>, tail: seq<uint8>)
    requires a <= |s| < 256 && IsLabel(l) && s[a..] == l + (['.' as int] + tail)
    ensures a + |l| + 1 <= |s| && s[a + |l| + 1..] == tail
    ensures Labels(s, a) == [|l|] + l + Labels(s, a + |l| + 1)
  {
    hide Labels, LabelEnd;
    DotFollows(s, a, l, tail);
    FirstLabelEnds(s, a, l, ['.' as int] + tail);
    LabelsOpened(s, a);
    OneLabel(s, a, a + |l|, l);
  }

  lemma OneLabel(s: seq<uint8>, a: nat, k: nat, l: seq<uint8>)
    requires a <= k <= |s| && k - a < 256 && s[a..k] == l
    ensures Label(s, a, k) == [|l|] + l
  {
  }

  lemma {:induction false} LabelsAreLengthed(s: seq<uint8>, a: nat, ls: seq<seq<uint8>>)
    requires ls != [] && AreLabels(ls) && a <= |s| < 256 && s[a..] == Dotted(ls)
    ensures Labels(s, a) == Lengthed(ls)
    decreases |ls|
  {
    hide Labels, IsLabel;
    var l, rest := ls[0], ls[1..];
    assert Lengthed(ls) == [|l|] + l + Lengthed(rest);
    if rest == [] {
      LastLabel(s, a, l);
      assert [|l|] + l + [] == [|l|] + l;
    } else {
      assert Dotted(ls) == l + (['.' as int] + Dotted(rest));
      FirstLabel(s, a, l, Dotted(rest));
      LabelsAreLengthed(s, a + |l| + 1, rest);
    }
  }

  /** A name in dots is packed as its labels, each behind its length, behind the length of them all. */
  lemma NameIsPackedByLabels(ls: seq<seq<uint8>>)
    requires ls != [] && AreLabels(ls) && |Dotted(ls)| < 128
    ensures Encode(Dotted(ls)) == [|Dotted(ls)| + 1] + Lengthed(ls)
  {
    hide Labels, Lengthed, Dotted, AreLabels;
    var s := Dotted(ls);
    assert s[0..] == s;
    LabelsAreLengthed(s, 0, ls);
  }

  /** A name in octets: "n.ab". */
  lemma ExampleName()
    ensures Encode([0x6E, 0x2E, 0x61, 0x62]) == [5, 1, 0x6E, 2, 0x61, 0x62]
  {
    var s: seq<uint8> := [0x6E, 0x2E, 0x61, 0x62];
    assert s[0..] == [0x6E] + (['.' as int] + [0x61, 0x62]);
    FirstLabel(s, 0, [0x6E], [0x61, 0x62]);
    LastLabel(s, 2, [0x61, 0x62]);
    hide Labels;
  }

  // ---------- the string taken out of a packed form ----------

  function Min(a: nat, b: nat): nat { if a < b then a else b }

  /** The string after reading on at index `i` of an element of length `len` at position `p`. */
  function Unlabel(b: seq<uint8>, p: nat, i: nat, len: nat, out: seq<uint8>): (r: seq<uint8>)
    requires len <= 255 && p + REACH <= |b| && |out| <= STRING_LEN
    ensures |r| <= STRING_LEN
    decreases 256 - i
  {
    if i < len && |out| < STRING_LEN then
      var l := b[p + 1 + i];
      var name := out + b[p + 2 + i..p + 2 + i + Min(l, STRING_LEN - |out|)];
      var next := i + l + 1;
      Unlabel(b, p, next, len, if next < len && |name| < STRING_LEN then name + [DOT] else name)
    else out
  }

  lemma UnlabelStep(b: seq<uint8>, p: nat, i: nat, len: nat, out: seq<uint8>)
    requires i < len <= 255 && p + REACH <= |b| && |out| + b[p + 1 + i] < STRING_LEN
    ensures var next := i + b[p + 1 + i] + 1;
            Unlabel(b, p, i, len, out)
            == Unlabel(b, p, next, len, out + b[p + 2 + i..p + 1 + next] + if next < len then [DOT] else [])
  {
    var next := i + b[p + 1 + i] + 1;
    var name := out + b[p + 2 + i..p + 1 + next];
    assert name + [] == name;
  }

  lemma UnlabelOnce(b: seq<uint8>, p: nat, i: nat, len: nat, out: seq<uint8>)
    requires i < len <= 255 && p + REACH <= |b| && |out| < STRING_LEN
    ensures var l := b[p + 1 + i];
            var name := out + b[p + 2 + i..p + 2 + i + Min(l, STRING_LEN - |out|)];
            Unlabel(b, p, i, len, out)
            == Unlabel(b, p, i + l + 1, len,
                       if i + l + 1 < len && |name| < STRING_LEN then name + [DOT] else name)
  {
  }

  lemma UnlabelDone(b: seq<uint8>, p: nat, i: nat, len: nat, out: seq<uint8>)
    requires len <= 255 && p + REACH <= |b| && |out| <= STRING_LEN && (len <= i || |out| == STRING_LEN)
    ensures Unlabel(b, p, i, len, out) == out
  {
  }

  lemma LabelInPlace(b: seq<uint8>, pos: nat, s: seq<uint8>, a: nat, k: nat)
    requires a <= |s| < 256 && At(b, pos, Labels(s, a)) && k == LabelEnd(s, a)
    ensures pos + 1 + k - a <= |b| && b[pos] == k - a && b[pos + 1..pos + 1 + k - a] == s[a..k]
    ensures At(b, pos + 1 + k - a, Rest(s, k))
  {
    hide At, Labels, LabelEnd, Label, Rest;
    LabelsOpened(s, a);
    AtSplits(b, pos, Label(s, a, k), Rest(s, k));
    LabelBytes(b, pos, s, a, k);
  }

  /** The labels behind the one that ends at `k`. */
  function Rest(s: seq<uint8>, k: nat): (r: seq<uint8>)
    requires k <= |s| < 256
  {
    if k < |s| then Labels(s, k + 1) else []
  }

  lemma LabelsOpened(s: seq<uint8>, a: nat)
    requires a <= |s| < 256
    ensures Labels(s, a) == Label(s, a, LabelEnd(s, a)) + Rest(s, LabelEnd(s, a))
  {
    hide LabelEnd, Label;
  }

  lemma LabelBytes(b: seq<uint8>, pos: nat, s: seq<uint8>, a: nat, k: nat)
    requires a <= k <= |s| < 256 && At(b, pos, Label(s, a, k))
    ensures |Label(s, a, k)| == 1 + k - a
    ensures pos + 1 + k - a <= |b| && b[pos] == k - a && b[pos + 1..pos + 1 + k - a] == s[a..k]
  {
    hide At;
    AtSplits(b, pos, [k - a], s[a..k]);
    AtByte(b, pos, k - a);
    AtSlice(b, pos + 1, s[a..k]);
  }

  lemma OneLabelBack(b: seq<uint8>, p: nat, s: seq<uint8>, a: nat, k: nat)
    requires |s| < STRING_LEN && a + k <= |s| && p + REACH <= |b|
    requires b[p + 1 + a] == k && b[p + 2 + a..p + 2 + a + k] == s[a..a + k]
    requires a + k < |s| ==> s[a + k] == DOT
    ensures a + k < |s| ==> Unlabel(b, p, a, |s| + 1, s[..a]) == Unlabel(b, p, a + k + 1, |s| + 1, s[..a + k + 1])
    ensures a + k == |s| ==> Unlabel(b, p, a, |s| + 1, s[..a]) == s
  {
    hide Unlabel;
    assert s[..a] + s[a..a + k] == s[..a + k];
    UnlabelStep(b, p, a, |s| + 1, s[..a]);
    if a + k < |s| {
      assert s[..a + k] + [DOT] == s[..a + k + 1];
    } else {
      assert s[..a + k] + [] == s;
      UnlabelDone(b, p, |s| + 1, |s| + 1, s);
    }
  }

  lemma {:induction false} LabelsComeBack(b: seq<uint8>, p: nat, s: seq<uint8>, a: nat)
    requires |s| < STRING_LEN && a <= |s| && p + REACH <= |b|
    requires At(b, p + 1 + a, Labels(s, a))
    ensures Unlabel(b, p, a, |s| + 1, s[..a]) == s
    decreases |s| - a
  {
    hide LabelEnd, Labels, Unlabel, At;
    var k := LabelEnd(s, a);
    LabelInPlace(b, p + 1 + a, s, a, k);
    OneLabelBack(b, p, s, a, k - a);
    if k < |s| {
      LabelsComeBack(b, p, s, k + 1);
    }
  }

  /** Unpacking a packed name gives the name, and both cursors advance by its length plus two. */
  lemma NameComesBack(b: seq<uint8>, p: nat, s: seq<uint8>)
    requires |s| < STRING_LEN && p + REACH <= |b| && At(b, p, Encode(s))
    ensures b[p] == |s| + 1 && Unlabel(b, p, 0, b[p], []) == s && |Encode(s)| == b[p] + 1
  {
    hide Unlabel, Labels, At;
    AtSplits(b, p, [|s| + 1], Labels(s, 0));
    AtByte(b, p, |s| + 1);
    assert s[..0] == [];
    LabelsComeBack(b, p, s, 0);
  }

  // ---------- packing with back-patched lengths ----------

  /** No dot strictly between the start of the label and `i`. */
  ghost predicate NoDot(s: seq<uint8>, a: nat, i: nat) {
    forall j :: a < j < i && j < |s| ==> s[j] != DOT
  }

  lemma LabelEnds(s: seq<uint8>, a: nat, i: nat)
    requires a <= i <= |s| && NoDot(s, a, i) && (i < |s| ==> a < i && s[i] == DOT)
    requires a == i ==> i == |s|
    ensures LabelEnd(s, a) == i
  {
  }

  /** Closing the label at its dot, or at the end of the string. */
  lemma LabelClosed(s: seq<uint8>, done: seq<uint8>, a: nat, i: nat)
    requires a <= i <= |s| < STRING_LEN && LabelEnd(s, a) == i && Labels(s, 0) == done + Labels(s, a)
    ensures i < |s| ==> Labels(s, 0) == done + Label(s, a, i) + Labels(s, i + 1)
    ensures i == |s| ==> Labels(s, 0) == done + Label(s, a, i)
  {
    hide Labels, Label, LabelEnd;
    LabelsOpened(s, a);
    Regroup(done, Label(s, a, i), Rest(s, i));
  }

  /** What the packer has written: the closed labels `done`, and the characters of the open label up
      to `i` behind a slot that still awaits its length. */
  ghost predicate Packing(s: seq<uint8>, b: seq<uint8>, p: nat, done: seq<uint8>, i: nat) {
    && |s| < STRING_LEN && |done| <= i <= |s| && p + 2 + |s| <= |b|
    && At(b, p, [|s| + 1] + done)
    && At(b, p + 2 + |done|, s[|done|..i])
    && Labels(s, 0) == done + Labels(s, |done|)
  }

  lemma CharacterPacked(s: seq<uint8>, b: seq<uint8>, p: nat, done: seq<uint8>, i: nat, b': seq<uint8>)
    requires Packing(s, b, p, done, i) && i < |s| && b' == b[p + 2 + i := s[i]]
    ensures Packing(s, b', p, done, i + 1)
  {
    hide Labels, At;
    var a := |done|;
    assert s[a..i + 1] == s[a..i] + [s[i]];
    AtByte(b', p + 2 + i, s[i]);
    PutKeepsAt(b, p + 2 + i, s[i], p + 2 + a, s[a..i]);
    PutKeepsAt(b, p + 2 + i, s[i], p, [|s| + 1] + done);
    AtSplits(b', p + 2 + a, s[a..i], [s[i]]);
  }

  lemma LengthPatched(s: seq<uint8>, b: seq<uint8>, p: nat, done: seq<uint8>, i: nat, b': seq<uint8>)
    requires Packing(s, b, p, done, i) && LabelEnd(s, |done|) == i
    requires b' == b[p + 1 + |done| := i - |done|]
    ensures i < |s| ==> Packing(s, b', p, done + Label(s, |done|, i), i + 1)
    ensures i == |s| ==> At(b', p, Encode(s))
  {
    hide Labels, LabelEnd, At;
    var a := |done|;
    LabelClosed(s, done, a, i);
    PutKeepsAt(b, p + 1 + a, i - a, p, [|s| + 1] + done);
    PutKeepsAt(b, p + 1 + a, i - a, p + 2 + a, s[a..i]);
    AtByte(b', p + 1 + a, i - a);
    AtSplits(b', p + 1 + a, [i - a], s[a..i]);
    AtSplits(b', p, [|s| + 1] + done, Label(s, a, i));
    Regroup([|s| + 1], done, Label(s, a, i));
    if i < |s| {
      AtNothing(b', p + 2 + i + 1);
      assert s[i + 1..i + 1] == [];
    }
  }

  lemma AtNothing(b: seq<uint8>, pos: nat)
    requires pos <= |b|
    ensures At(b, pos, [])
  {
  }

  /** Packs a name: the length of a label goes into its slot when the label ends. */
  method Pack(s: seq<uint8>, buf: array<uint8>, p: nat) returns (next: nat)
    requires |s| < STRING_LEN && p + 2 + |s| <= buf.Length
    modifies buf
    ensures Holds(old(buf[..]), buf[..], p, Encode(s)) && next == p + |Encode(s)|
  {
    hide Labels, LabelEnd, At, Packing;
    ghost var base := buf[..];
    buf[p] := |s| + 1;
    var lenIdx, apnIdx, labelLen := 0, 0, 0;
    ghost var done: seq<uint8> := [];
    PackingStarts(s, buf[..], p);
    while |s| > apnIdx
      invariant lenIdx <= apnIdx <= |s| && labelLen == apnIdx - lenIdx && |done| == lenIdx
      invariant Packing(s, buf[..], p, done, apnIdx) && NoDot(s, lenIdx, apnIdx + 1)
      invariant lenIdx == apnIdx < |s| || lenIdx < apnIdx || apnIdx == |s|
      invariant SameOutside(base, buf[..], p, p + 2 + |s|)
    {
      ghost var b := buf[..];
      buf[p + 2 + apnIdx] := s[apnIdx];
      CharacterPacked(s, b, p, done, apnIdx, buf[..]);
      apnIdx, labelLen := apnIdx + 1, labelLen + 1;
      if apnIdx < |s| && s[apnIdx] == DOT {
        b := buf[..];
        buf[p + 1 + lenIdx] := labelLen;
        LabelEnds(s, lenIdx, apnIdx);
        LengthPatched(s, b, p, done, apnIdx, buf[..]);
        done := done + Label(s, lenIdx, apnIdx);
        labelLen, lenIdx, apnIdx := 0, apnIdx + 1, apnIdx + 1;
      }
    }
    ghost var b := buf[..];
    buf[p + 1 + lenIdx] := labelLen;
    LabelEnds(s, lenIdx, apnIdx);
    LengthPatched(s, b, p, done, apnIdx, buf[..]);
    next := p + |s| + 2;
  }

  lemma PackingStarts(s: seq<uint8>, b: seq<uint8>, p: nat)
    requires |s| < STRING_LEN && p + 2 + |s| <= |b| && b[p] == |s| + 1
    ensures Packing(s, b, p, [], 0)
  {
    hide At, Labels;
    AtByte(b, p, |s| + 1);
    AtNothing(b, p + 2);
    assert s[0..0] == [] && [|s| + 1] + [] == [|s| + 1] && [] + Labels(s, 0) == Labels(s, 0);
  }

  // ---------- unpacking ----------

  /** Takes the name out of an element into a string array; the terminator is left out when the
      array is full. */
  method Unpack(buf: array<uint8>, p: nat, apn: array<uint8>) returns (next: nat, name: seq<uint8>)
    requires p + REACH <= buf.Length && apn.Length == STRING_LEN && buf != apn
    modifies apn
    ensures name == Unlabel(buf[..], p, 0, buf[p], []) && next == p + buf[p] + 1
    ensures apn[..|name|] == name && (|name| < STRING_LEN ==> apn[|name|] == 0)
  {
    hide Unlabel;
    var ieIdx: nat, strCnt: nat := 0, 0;
    ghost var b := buf[..];
    while ieIdx < buf[p] && strCnt < STRING_LEN
      invariant strCnt <= STRING_LEN
      invariant Unlabel(b, p, 0, b[p], []) == Unlabel(b, p, ieIdx, b[p], apn[..strCnt])
      decreases 256 - ieIdx
    {
      var labelLen := buf[p + 1 + ieIdx];
      ghost var out := apn[..strCnt];
      strCnt := CopyLabel(buf, p + 2 + ieIdx, labelLen, apn, strCnt);
      ieIdx := ieIdx + labelLen + 1;
      ghost var name := apn[..strCnt];
      if ieIdx < buf[p] && strCnt < STRING_LEN {
        apn[strCnt] := DOT;
        strCnt := strCnt + 1;
        assert apn[..strCnt] == name + [DOT];
      }
      UnlabelOnce(b, p, ieIdx - labelLen - 1, b[p], out);
      assert buf[..] == b;
    }
    name := apn[..strCnt];
    UnlabelDone(b, p, ieIdx, b[p], name);
    if strCnt < STRING_LEN {
      apn[strCnt] := 0;
    }
    next := p + buf[p] + 1;
  }

  method CopyLabel(buf: array<uint8>, pos: nat, len: nat, apn: array<uint8>, cnt: nat) returns (cnt': nat)
    requires cnt <= STRING_LEN && apn.Length == STRING_LEN && buf != apn && pos + STRING_LEN <= buf.Length
    modifies apn
    ensures cnt' == cnt + Min(len, STRING_LEN - cnt)
    ensures apn[..cnt'] == old(apn[..cnt]) + buf[pos..pos + Min(len, STRING_LEN - cnt)]
  {
    cnt' := cnt;
    var i := 0;
    while i < len && cnt' < STRING_LEN
      invariant i <= len && cnt' == cnt + i <= STRING_LEN
      invariant apn[..cnt'] == old(apn[..cnt]) + buf[pos..pos + i]
    {
      apn[cnt'] := buf[pos + i];
      cnt', i := cnt' + 1, i + 1;
    }
  }

  /** What `Pack` writes, `Unpack` takes out again, and both stop at the same place. */
  method PackAndUnpack(s: seq<uint8>, buf: array<uint8>, p: nat, apn: array<uint8>)
    returns (packed: nat, unpacked: nat)
    requires |s| < STRING_LEN && p + REACH <= buf.Length && apn.Length == STRING_LEN && buf != apn
    modifies buf, apn
    ensures apn[..|s|] == s && apn[|s|] == 0 && packed == unpacked
  {
    hide At, SameOutside, Unlabel, Labels;
    packed := Pack(s, buf, p);
    NameComesBack(buf[..], p, s);
    var name;
    unpacked, name := Unpack(buf, p, apn);
  }
}
