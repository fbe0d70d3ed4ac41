/** The Rijndael routines in place, on the 4 x 4 state and the 11 x 4 x 4 round keys, each proved
    against its transformation in `Rijndael`. */
module RijndaelMachine {
  import opened SBoxes
  import opened MixColumns
  import R = Rijndael

  ghost predicate IsState(a: array2<bv8>) { a.Length0 == 4 && a.Length1 == 4 }

  ghost predicate IsKeys(rk: array3<bv8>) { rk.Length0 == 11 && rk.Length1 == 4 && rk.Length2 == 4 }

  /** Column `j` of the state. */
  ghost function Column(a: array2<bv8>, j: nat): Quad
    requires IsState(a) && j < 4
    reads a
  {
    Quad(a[0, j], a[1, j], a[2, j], a[3, j])
  }

  ghost function BlockOf(a: array2<bv8>): R.Block
    requires IsState(a)
    reads a
  {
    R.Block(Column(a, 0), Column(a, 1), Column(a, 2), Column(a, 3))
  }

  ghost function KeyColumn(rk: array3<bv8>, r: nat, j: nat): Quad
    requires IsKeys(rk) && r < 11 && j < 4
    reads rk
  {
    Quad(rk[r, 0, j], rk[r, 1, j], rk[r, 2, j], rk[r, 3, j])
  }

  ghost function KeyOf(rk: array3<bv8>, r: nat): R.Block
    requires IsKeys(rk) && r < 11
    reads rk
  {
    R.Block(KeyColumn(rk, r, 0), KeyColumn(rk, r, 1), KeyColumn(rk, r, 2), KeyColumn(rk, r, 3))
  }

  ghost function ColumnAt(s: seq<bv8>, j: nat): Quad
    requires j + 4 <= |s|
  {
    Quad(s[j], s[j + 1], s[j + 2], s[j + 3])
  }

  /** Byte `i` of a block sits in row `i % 4` of column `i / 4`. */
  ghost function FromBytes(s: seq<bv8>): R.Block
    requires |s| == 16
  {
    R.Block(ColumnAt(s, 0), ColumnAt(s, 4), ColumnAt(s, 8), ColumnAt(s, 12))
  }

  ghost function RowOf(q: Quad, r: nat): bv8 {
    if r == 0 then q.b0 else if r == 1 then q.b1 else if r == 2 then q.b2 else q.b3
  }

  ghost function ByteOf(b: R.Block, i: nat): bv8 {
    RowOf(if i < 4 then b.c0 else if i < 8 then b.c1 else if i < 12 then b.c2 else b.c3, i % 4)
  }

  lemma RowOfColumnAt(s: seq<bv8>, j: nat, r: nat)
    requires j + 4 <= |s| && r < 4
    ensures RowOf(ColumnAt(s, j), r) == s[j + r]
  {
  }

  lemma ByteOfFromBytes(s: seq<bv8>, i: nat)
    requires |s| == 16 && i < 16
    ensures ByteOf(FromBytes(s), i) == s[i]
  {
    hide RowOf, ColumnAt;
    RowOfColumnAt(s, i / 4 * 4, i % 4);
  }

  lemma FromBytesIsInjective(s: seq<bv8>, t: seq<bv8>)
    requires |s| == 16 && |t| == 16 && FromBytes(s) == FromBytes(t)
    ensures s == t
  {
    hide FromBytes, ByteOf;
    forall i | 0 <= i < 16
      ensures s[i] == t[i]
    {
      ByteOfFromBytes(s, i);
      ByteOfFromBytes(t, i);
    }
  }

  method KeyAdd(state: array2<bv8>, rk: array3<bv8>, round: nat)
    requires IsState(state) && IsKeys(rk) && round < 11
    modifies state
    ensures BlockOf(state) == R.AddKey(old(BlockOf(state)), KeyOf(rk, round))
  {
    hide Xor;
    for i := 0 to 4
      invariant forall r, c :: 0 <= r < i && 0 <= c < 4 ==> state[r, c] == Xor(old(state[r, c]), rk[round, r, c])
      invariant forall r, c :: i <= r < 4 && 0 <= c < 4 ==> state[r, c] == old(state[r, c])
    {
      for j := 0 to 4
        invariant forall r, c :: 0 <= r < i && 0 <= c < 4 ==> state[r, c] == Xor(old(state[r, c]), rk[round, r, c])
        invariant forall c :: 0 <= c < j ==> state[i, c] == Xor(old(state[i, c]), rk[round, i, c])
        invariant forall c :: j <= c < 4 ==> state[i, c] == old(state[i, c])
        invariant forall r, c :: i < r < 4 && 0 <= c < 4 ==> state[r, c] == old(state[r, c])
      {
        state[i, j] := Xor(state[i, j], rk[round, i, j]);
      }
    }
  }

  method ByteSub(state: array2<bv8>)
    requires IsState(state)
    modifies state
    ensures BlockOf(state) == R.SubBytes(old(BlockOf(state)))
  {
    hide S;
    for i := 0 to 4
      invariant forall r, c :: 0 <= r < i && 0 <= c < 4 ==> state[r, c] == S(old(state[r, c]))
      invariant forall r, c :: i <= r < 4 && 0 <= c < 4 ==> state[r, c] == old(state[r, c])
    {
      for j := 0 to 4
        invariant forall r, c :: 0 <= r < i && 0 <= c < 4 ==> state[r, c] == S(old(state[r, c]))
        invariant forall c :: 0 <= c < j ==> state[i, c] == S(old(state[i, c]))
        invariant forall c :: j <= c < 4 ==> state[i, c] == old(state[i, c])
        invariant forall r, c :: i < r < 4 && 0 <= c < 4 ==> state[r, c] == old(state[r, c])
      {
        state[i, j] := S(state[i, j]);
      }
    }
  }

  method ShiftRow(state: array2<bv8>)
    requires IsState(state)
    modifies state
    ensures BlockOf(state) == R.ShiftRows(old(BlockOf(state)))
  {
    RotateRow1(state);
    RotateRow2(state);
    RotateRow3(state);
  }

  /** Left rotate row 1 by 1. */
  method RotateRow1(state: array2<bv8>)
    requires IsState(state)
    modifies state
    ensures state[1, 0] == old(state[1, 1]) && state[1, 1] == old(state[1, 2])
    ensures state[1, 2] == old(state[1, 3]) && state[1, 3] == old(state[1, 0])
    ensures forall r, c :: 0 <= r < 4 && 0 <= c < 4 && r != 1 ==> state[r, c] == old(state[r, c])
  {
    var temp := state[1, 0];
    state[1, 0] := state[1, 1];
    state[1, 1] := state[1, 2];
    state[1, 2] := state[1, 3];
    state[1, 3] := temp;
  }

  /** Left rotate row 2 by 2. */
  method RotateRow2(state: array2<bv8>)
    requires IsState(state)
    modifies state
    ensures state[2, 0] == old(state[2, 2]) && state[2, 1] == old(state[2, 3])
    ensures state[2, 2] == old(state[2, 0]) && state[2, 3] == old(state[2, 1])
    ensures forall r, c :: 0 <= r < 4 && 0 <= c < 4 && r != 2 ==> state[r, c] == old(state[r, c])
  {
    var temp := state[2, 0];
    state[2, 0] := state[2, 2];
    state[2, 2] := temp;
    temp := state[2, 1];
    state[2, 1] := state[2, 3];
    state[2, 3] := temp;
  }

  /** Left rotate row 3 by 3. */
  method RotateRow3(state: array2<bv8>)
    requires IsState(state)
    modifies state
    ensures state[3, 0] == old(state[3, 3]) && state[3, 1] == old(state[3, 0])
    ensures state[3, 2] == old(state[3, 1]) && state[3, 3] == old(state[3, 2])
    ensures forall r, c :: 0 <= r < 4 && 0 <= c < 4 && r != 3 ==> state[r, c] == old(state[r, c])
  {
    var temp := state[3, 0];
    state[3, 0] := state[3, 3];
    state[3, 3] := state[3, 2];
    state[3, 2] := state[3, 1];
    state[3, 1] := temp;
  }

  method MixColumn(state: array2<bv8>)
    requires IsState(state)
    modifies state
    ensures BlockOf(state) == R.MixAll(old(BlockOf(state)))
  {
    hide Xor, XTime, R.MixColumn;
    for i := 0 to 4
      invariant forall c :: 0 <= c < i ==> Column(state, c) == R.MixColumn(old(Column(state, c)))
      invariant forall c :: i <= c < 4 ==> Column(state, c) == old(Column(state, c))
    {
      MixOneColumn(state, i);
    }
  }

  /** The body of the loop: the four bytes are replaced one after the other, so the last one uses
      the saved first byte. */
  method MixOneColumn(state: array2<bv8>, i: nat)
    requires IsState(state) && i < 4
    modifies state
    ensures Column(state, i) == R.MixColumn(old(Column(state, i)))
    ensures forall c :: 0 <= c < 4 && c != i ==> Column(state, c) == old(Column(state, c))
  {
    hide Xor, XTime;
    var temp := Xor(Xor(Xor(state[0, i], state[1, i]), state[2, i]), state[3, i]);
    var tmp0 := state[0, i];
    var tmp := XTime(Xor(state[0, i], state[1, i]));
    state[0, i] := Xor(state[0, i], Xor(temp, tmp));
    tmp := XTime(Xor(state[1, i], state[2, i]));
    state[1, i] := Xor(state[1, i], Xor(temp, tmp));
    tmp := XTime(Xor(state[2, i], state[3, i]));
    state[2, i] := Xor(state[2, i], Xor(temp, tmp));
    tmp := XTime(Xor(state[3, i], tmp0));
    state[3, i] := Xor(state[3, i], Xor(temp, tmp));
  }

  /** `rijndael_encrypt`; `input` and `output` may be the same array. */
  method Encrypt(input: array<bv8>, rk: array3<bv8>, output: array<bv8>)
    requires input.Length == 16 && output.Length == 16 && IsKeys(rk)
    modifies output
    ensures FromBytes(output[..]) == R.Encrypt(FromBytes(old(input[..])), KeysOf(rk))
  {
    hide R.SubBytes, R.ShiftRows, R.MixAll, R.AddKey;
    var state := new bv8[4, 4];
    LoadState(input, state);
    ghost var b := BlockOf(state);
    ghost var keys := KeysOf(rk);
    KeyAdd(state, rk, 0);
    for r := 1 to 10
      invariant BlockOf(state) == R.Rounds(b, keys, r - 1)
      invariant KeysOf(rk) == keys
      modifies state
    {
      ByteSub(state);
      ShiftRow(state);
      MixColumn(state);
      KeyAdd(state, rk, r);
    }
    ByteSub(state);
    ShiftRow(state);
    KeyAdd(state, rk, 10);
    StoreState(state, output);
  }

  ghost function KeysOf(rk: array3<bv8>): (keys: seq<R.Block>)
    requires IsKeys(rk)
    reads rk
    ensures |keys| == 11
  {
    seq(11, r requires 0 <= r < 11 reads rk => KeyOf(rk, r))
  }

  method LoadState(input: array<bv8>, state: array2<bv8>)
    requires input.Length == 16 && IsState(state)
    modifies state
    ensures BlockOf(state) == FromBytes(input[..])
  {
    for i := 0 to 16
      invariant forall k :: 0 <= k < i ==> state[k % 4, k / 4] == input[k]
    {
      state[i % 4, i / 4] := input[i];
    }
    assert forall k :: 0 <= k < 16 ==> state[k % 4, k / 4] == input[k];
  }

  method StoreState(state: array2<bv8>, output: array<bv8>)
    requires output.Length == 16 && IsState(state)
    modifies output
    ensures FromBytes(output[..]) == BlockOf(state)
  {
    for i := 0 to 16
      invariant forall k :: 0 <= k < i ==> output[k] == state[k % 4, k / 4]
    {
      output[i] := state[i % 4, i / 4];
    }
  }

  /** For every set of round keys `rijndael_encrypt` sends different byte blocks to different ones. */
  lemma EncryptIsInjectiveOnBytes(input: seq<bv8>, input': seq<bv8>, keys: seq<R.Block>)
    requires |input| == 16 && |input'| == 16 && |keys| == 11
    ensures R.Encrypt(FromBytes(input), keys) == R.Encrypt(FromBytes(input'), keys) <==> input == input'
  {
    hide R.Encrypt, R.Decrypt, FromBytes;
    R.EncryptIsAPermutation(FromBytes(input), keys);
    R.EncryptIsAPermutation(FromBytes(input'), keys);
    if R.Encrypt(FromBytes(input), keys) == R.Encrypt(FromBytes(input'), keys) {
      FromBytesIsInjective(input, input');
    }
  }

  // ---------- the key schedule ----------

  /** `rijndael_key_schedule`. */
  method KeySchedule(key: array<bv8>, rk: array3<bv8>)
    requires key.Length == 16 && IsKeys(rk)
    modifies rk
    ensures KeysOf(rk) == R.RoundKeys(FromBytes(key[..]))
  {
    hide R.NextKey, XTime, FromBytes, KeyOf;
    FirstRoundKey(key, rk);
    ghost var k := FromBytes(key[..]);
    var constant: bv8 := 1;
    for i := 1 to 11
      invariant constant == R.RoundConstant(i)
      invariant forall r :: 0 <= r < i ==> KeyOf(rk, r) == R.RoundKey(k, r)
    {
      ExpandRound(rk, i, constant);
      constant := XTime(constant);
    }
  }

  method FirstRoundKey(key: array<bv8>, rk: array3<bv8>)
    requires key.Length == 16 && IsKeys(rk)
    modifies rk
    ensures KeyOf(rk, 0) == FromBytes(key[..])
  {
    for i := 0 to 16
      invariant forall k :: 0 <= k < i ==> rk[0, k % 4, k / 4] == key[k]
    {
      rk[0, i % 4, i / 4] := key[i];
    }
    assert forall k :: 0 <= k < 16 ==> rk[0, k % 4, k / 4] == key[k];
  }

  /** One round of the loop: the first column, then each row from left to right. */
  method ExpandRound(rk: array3<bv8>, i: nat, constant: bv8)
    requires IsKeys(rk) && 0 < i < 11
    modifies rk
    ensures KeyOf(rk, i) == R.NextKey(old(KeyOf(rk, i - 1)), constant)
    ensures forall r :: 0 <= r < i ==> KeyOf(rk, r) == old(KeyOf(rk, r))
  {
    hide Xor, S;
    ExpandFirstColumn(rk, i, constant);
    ExpandRows(rk, i);
  }

  method ExpandFirstColumn(rk: array3<bv8>, i: nat, constant: bv8)
    requires IsKeys(rk) && 0 < i < 11
    modifies rk
    ensures KeyColumn(rk, i, 0) == R.NextKey(KeyOf(rk, i - 1), constant).c0
    ensures forall r, a, b :: 0 <= r < i && 0 <= a < 4 && 0 <= b < 4 ==> rk[r, a, b] == old(rk[r, a, b])
  {
    hide Xor, S;
    rk[i, 0, 0] := Xor(Xor(S(rk[i - 1, 1, 3]), rk[i - 1, 0, 0]), constant);
    rk[i, 1, 0] := Xor(S(rk[i - 1, 2, 3]), rk[i - 1, 1, 0]);
    rk[i, 2, 0] := Xor(S(rk[i - 1, 3, 3]), rk[i - 1, 2, 0]);
    rk[i, 3, 0] := Xor(S(rk[i - 1, 0, 3]), rk[i - 1, 3, 0]);
  }

  method ExpandRows(rk: array3<bv8>, i: nat)
    requires IsKeys(rk) && 0 < i < 11
    modifies rk
    ensures KeyColumn(rk, i, 0) == old(KeyColumn(rk, i, 0))
    ensures forall c :: 1 <= c < 4 ==>
              KeyColumn(rk, i, c) == R.AddColumn(KeyColumn(rk, i - 1, c), KeyColumn(rk, i, c - 1))
    ensures forall r, a, b :: 0 <= r < i && 0 <= a < 4 && 0 <= b < 4 ==> rk[r, a, b] == old(rk[r, a, b])
  {
    hide Xor;
    for j := 0 to 4
      invariant forall r, a, b :: 0 <= r < i && 0 <= a < 4 && 0 <= b < 4 ==> rk[r, a, b] == old(rk[r, a, b])
      invariant forall a :: 0 <= a < 4 ==> rk[i, a, 0] == old(rk[i, a, 0])
      invariant forall a, c :: 0 <= a < j && 1 <= c < 4 ==> rk[i, a, c] == Xor(rk[i - 1, a, c], rk[i, a, c - 1])
    {
      ExpandRow(rk, i, j);
    }
  }

  method ExpandRow(rk: array3<bv8>, i: nat, j: nat)
    requires IsKeys(rk) && 0 < i < 11 && j < 4
    modifies rk
    ensures forall r, a, b :: 0 <= r < 11 && 0 <= a < 4 && 0 <= b < 4 && (r != i || a != j || b == 0) ==>
              rk[r, a, b] == old(rk[r, a, b])
    ensures forall c :: 1 <= c < 4 ==> rk[i, j, c] == Xor(rk[i - 1, j, c], rk[i, j, c - 1])
  {
    hide Xor;
    rk[i, j, 1] := Xor(rk[i - 1, j, 1], rk[i, j, 0]);
    rk[i, j, 2] := Xor(rk[i - 1, j, 2], rk[i, j, 1]);
    rk[i, j, 3] := Xor(rk[i - 1, j, 3], rk[i, j, 2]);
  }
}
