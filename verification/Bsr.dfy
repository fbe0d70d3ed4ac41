/** Buffer status reports (TS 36.321 section 6.1.3.1): `btable`, `buff_size_table`, and the report
    payloads that `set_bsr` writes and `get_bsr` reads in lib/src/common/pdu.cc.

    A reported size is never below the real one exactly up to 150000 bytes; the long format brings
    back its four levels only when two of them happen to be related. */
module Bsr {

  /** Entry `i` of eight. */
  function Octad(i: nat, v0: nat, v1: nat, v2: nat, v3: nat, v4: nat, v5: nat, v6: nat, v7: nat): nat {
    if i < 4 then (if i < 2 then (if i < 1 then v0 else v1) else (if i < 3 then v2 else v3))
    else (if i < 6 then (if i < 5 then v4 else v5) else (if i < 7 then v6 else v7))
  }

  /** Table 6.1.3.1-1. */
  function Level(i: nat): nat
    requires i < 64
  {
    if i < 8 then Octad(i - 0, 0, 1, 10, 12, 14, 17, 19, 22)
    else if i < 16 then Octad(i - 8, 26, 31, 36, 42, 49, 57, 67, 78)
    else if i < 24 then Octad(i - 16, 91, 107, 125, 146, 171, 200, 234, 274)
    else if i < 32 then Octad(i - 24, 321, 376, 440, 515, 603, 706, 826, 967)
    else if i < 40 then Octad(i - 32, 1132, 1326, 1552, 1817, 2127, 2490, 2915, 3413)
    else if i < 48 then Octad(i - 40, 3995, 4667, 5476, 6411, 7505, 8787, 10287, 12043)
    else if i < 56 then Octad(i - 48, 14099, 16507, 19325, 22624, 26487, 31009, 36304, 42502)
    else Octad(i - 56, 49759, 58255, 68201, 79846, 93479, 109439, 128125, 150000)
  }

  lemma LevelsIncrease(i: nat)
    requires i < 63
    ensures Level(i) < Level(i + 1)
  {
  }

  lemma {:induction false} LevelsAreMonotone(i: nat, j: nat)
    requires i <= j < 64
    ensures Level(i) <= Level(j)
    decreases j - i
  {
    hide Level;
    if i < j {
      LevelsAreMonotone(i, j - 1);
      LevelsIncrease(j - 1);
    }
  }

  /** The index that stands for a buffer size: 0 for an empty buffer, 63 above the table, and in
      between the level below which the size lies. */
  ghost predicate IsIndex(size: nat, k: nat) {
    if size == 0 then k == 0
    else if size > Level(63) then k == 63
    else 0 < k < 63 && Level(k) <= size <= Level(k + 1) && (k < 62 ==> size < Level(k + 1))
  }

  /** `buff_size_table`. */
  method BuffSizeTable(size: nat) returns (k: nat)
    ensures k < 64 && IsIndex(size, k)
  {
    if size == 0 {
      return 0;
    }
    if size > 150000 {
      return 63;
    }
    for i := 0 to 61
      invariant Level(i + 1) <= size
    {
      if size < Level(i + 2) {
        return 1 + i;
      }
    }
    return 62;
  }

  /** What `get_bsr` makes of an index. */
  function Reported(k: nat): nat {
    if k == 0 then 0 else if k < 63 then Level(1 + k) else Level(63)
  }

  /** Every size has one index only. */
  lemma IndexIsUnique(size: nat, k: nat, k': nat)
    requires k < 64 && k' < 64 && IsIndex(size, k) && IsIndex(size, k')
    ensures k == k'
  {
    hide Level;
    if 0 < size <= Level(63) {
      if k < k' {
        LevelsAreMonotone(k + 1, k');
      } else if k' < k {
        LevelsAreMonotone(k' + 1, k);
      }
    }
  }

  /** A report never falls below the real size exactly up to 150000 bytes. */
  lemma ReportNeverUnderstates(size: nat, k: nat)
    requires k < 64 && IsIndex(size, k)
    ensures Reported(k) >= size <==> size <= 150000
  {
  }

  /** Larger buffers never get a smaller index. */
  lemma IndexIsMonotone(size: nat, k: nat, size': nat, k': nat)
    requires k < 64 && k' < 64 && IsIndex(size, k) && IsIndex(size', k') && size <= size'
    ensures k <= k'
  {
    hide Level;
    if 0 < size && size' <= Level(63) && k' < k {
      LevelsAreMonotone(k' + 1, k);
    }
  }

  // ---------- the short and truncated formats ----------

  /** The logical channel group of a short report: the last one with data. */
  function LastNonempty(sizes: seq<nat>): (g: nat)
    requires |sizes| == 4
    ensures g < 4 && (forall i :: g < i < 4 ==> sizes[i] == 0) && (g > 0 ==> sizes[g] > 0)
  {
    if sizes[3] > 0 then 3 else if sizes[2] > 0 then 2 else if sizes[1] > 0 then 1 else 0
  }

  /** The single payload byte of the short format. */
  function ShortByte(group: nat, k: nat): (b: nat)
    requires group < 4 && k < 64
    ensures b < 256
  {
    group * 64 + k
  }

  /** `set_bsr` in the short format. */
  method SetShort(sizes: seq<nat>) returns (b: nat)
    requires |sizes| == 4
    ensures b < 256 && b / 64 == LastNonempty(sizes) && IsIndex(sizes[LastNonempty(sizes)], b % 64)
  {
    var g := 0;
    for i := 0 to 4
      invariant g < 4 && g <= i && (forall j :: g < j < i ==> sizes[j] == 0) && (g > 0 ==> sizes[g] > 0)
    {
      if sizes[i] > 0 {
        g := i;
      }
    }
    var k := BuffSizeTable(sizes[g]);
    b := ShortByte(g, k);
  }

  /** `get_bsr` of a short report: the index goes into its group, and then every entry of the caller's
      array is taken for an index. */
  method GetShort(b: nat, sizes: array<nat>) returns (group: nat)
    requires b < 256 && sizes.Length == 4
    modifies sizes
    ensures group == b / 64 && sizes[group] == Reported(b % 64)
    ensures forall j :: 0 <= j < 4 && j != group ==> sizes[j] == Reported(old(sizes[j]))
  {
    group := b / 64;
    sizes[group] := b % 64;
    ghost var before := sizes[..];
    for i := 0 to 4
      invariant forall j :: 0 <= j < i ==> sizes[j] == Reported(before[j])
      invariant forall j :: i <= j < 4 ==> sizes[j] == before[j]
    {
      if sizes[i] != 0 {
        sizes[i] := if sizes[i] < 63 then Level(1 + sizes[i]) else Level(63);
      }
    }
  }

  // ---------- the long format ----------

  /** The three bytes `set_bsr` builds from four indices below 64. */
  function LongBytes(k0: nat, k1: nat, k2: nat, k3: nat): (nat, nat, nat)
    requires k0 < 64 && k1 < 64 && k2 < 64 && k3 < 64
  {
    (k0 * 4, (k1 % 16) * 16 + k2 / 16, (k2 % 4) * 64 + k3)
  }

  /** The four indices `get_bsr` takes from three bytes. */
  function LongIndices(b0: nat, b1: nat, b2: nat): (nat, nat, nat, nat)
    requires b0 < 256 && b1 < 256 && b2 < 256
  {
    (b0 / 4, (b0 % 4) * 16 + b1 / 16, (b1 % 16) * 16 + b1 / 64, b2 % 64)
  }

  /** Writing and reading the long format brings back the four indices exactly when the second is
      below 16 and the low half of the third repeats its upper bits. */
  lemma LongFormatRoundTrips(k0: nat, k1: nat, k2: nat, k3: nat)
    requires k0 < 64 && k1 < 64 && k2 < 64 && k3 < 64
    ensures var b := LongBytes(k0, k1, k2, k3);
            LongIndices(b.0, b.1, b.2) == (k0, k1, k2, k3) <==> k1 < 16 && k2 % 16 == k1 / 4
  {
    var b1 := (k1 % 16) * 16 + k2 / 16;
    MiddleByte(k1 % 16, k2 / 16, b1);
    assert (k0 * 4) / 4 == k0 && (k0 * 4) % 4 == 0;
    assert ((k2 % 4) * 64 + k3) % 64 == k3;
    assert k2 == (k2 / 16) * 16 + k2 % 16;
  }

  lemma MiddleByte(h: nat, l: nat, b: nat)
    requires h < 16 && l < 16 && b == h * 16 + l
    ensures b / 16 == h && b % 16 == l && b / 64 == h / 4
  {
  }

  /** 900 bytes in the second group come back as index 14, so 78 bytes are reported, not 967. */
  lemma LongFormatLosesALevel()
    ensures IsIndex(900, 30) && Reported(30) == 967
    ensures var b := LongBytes(1, 30, 1, 1); LongIndices(b.0, b.1, b.2).1 == 14 && Reported(14) == 78
  {
    SomeLevels();
    hide Level, Octad;
    SecondIndexLost();
    hide LongBytes, LongIndices;
  }

  lemma SecondIndexLost()
    ensures var b := LongBytes(1, 30, 1, 1); b.0 < 256 && b.1 < 256 && b.2 < 256 && LongIndices(b.0, b.1, b.2).1 == 14
  {
    assert LongBytes(1, 30, 1, 1) == (4, 224, 65);
  }

  lemma SomeLevels()
    ensures Level(15) == 78 && Level(30) == 826 && Level(31) == 967 && Level(63) == 150000
  {
  }
}
