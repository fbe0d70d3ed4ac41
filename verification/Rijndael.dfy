/** The local Rijndael of lib/src/common/liblte_security.cc (TS 35.206 Annex 3, FIPS 197 section 5):
    `rijndael_key_schedule`, `rijndael_encrypt`, `key_add`, `byte_sub`, `shift_row`, `mix_column`.

    For every set of round keys the ten rounds are a permutation of the 16-byte blocks, with an
    explicit inverse; and any one round key determines the cipher key. */
module Rijndael {
  import opened SBoxes
  import opened AlphaField
  import opened MixColumns
  import opened ColumnBoxes

  /** A block as its four columns: byte `i` of the input is row `i % 4` of column `i / 4`. */
  datatype Block = Block(c0: Quad, c1: Quad, c2: Quad, c3: Quad)

  // ---------- the transformations on one column ----------

  function AddColumn(q: Quad, k: Quad): Quad {
    Quad(Xor(q.b0, k.b0), Xor(q.b1, k.b1), Xor(q.b2, k.b2), Xor(q.b3, k.b3))
  }

  /** One new byte of `mix_column`: a += t + X_TIME[a + b]. */
  function Stir(a: bv8, b: bv8, t: bv8): bv8 { Xor(a, Xor(t, XTime(Xor(a, b)))) }

  function ColumnSum(q: Quad): bv8 { Xor(Xor(Xor(q.b0, q.b1), q.b2), q.b3) }

  function MixColumn(q: Quad): Quad {
    var t := ColumnSum(q);
    Quad(Stir(q.b0, q.b1, t), Stir(q.b1, q.b2, t), Stir(q.b2, q.b3, t), Stir(q.b3, q.b0, t))
  }

  function UnmixColumn(q: Quad): Quad { MixColumn(MixColumn(MixColumn(q))) }

  // ---------- facts about one column ----------

  lemma XorTwice(a: bv8, k: bv8)
    ensures Xor(Xor(a, k), k) == a
  {
  }

  lemma AddColumnTwice(q: Quad, k: Quad)
    ensures AddColumn(AddColumn(q, k), k) == q
  {
    hide Xor;
    XorTwice(q.b0, k.b0);
    XorTwice(q.b1, k.b1);
    XorTwice(q.b2, k.b2);
    XorTwice(q.b3, k.b3);
  }

  lemma StirWords(a: bv8, t: bv8, m: bv8)
    ensures Xor(a, Xor(t, m)) == Xor(Xor(a, t), m)
  {
  }

  lemma XTimeIsMulX(x: bv8)
    ensures XTime(x) == MulX(x, 0x1b)
  {
    hide XTime;
    XTimeDoubles(x);
  }

  lemma StirIsTurn(a: bv8, b: bv8, t: bv8)
    ensures Stir(a, b, t) == Turn(a, b, t, 0x1b)
  {
    hide Xor, XTime, MulX;
    XTimeIsMulX(Xor(a, b));
    StirWords(a, t, XTime(Xor(a, b)));
  }

  lemma ColumnSumOpened(q0: bv8, q1: bv8, q2: bv8, q3: bv8, t: bv8)
    requires t == ColumnSum(Quad(q0, q1, q2, q3))
    ensures t == ((q0 ^ q1) ^ q2) ^ q3
  {
    hide Xor;
    XorOpened(q0, q1, Xor(q0, q1));
    XorOpened(Xor(q0, q1), q2, Xor(Xor(q0, q1), q2));
    XorOpened(Xor(Xor(q0, q1), q2), q3, t);
  }

  lemma ColumnSumVersusFold(q0: bv8, q1: bv8, q2: bv8, q3: bv8, t: bv8, u: bv8)
    requires t == ColumnSum(Quad(q0, q1, q2, q3)) && u == Fold(Quad(q3, q2, q1, q0))
    ensures t == u
  {
    hide ColumnSum, Fold;
    ColumnSumOpened(q0, q1, q2, q3, t);
    FoldOpened(q3, q2, q1, q0, u);
  }

  function Reversed(q: Quad): Quad { Quad(q.b3, q.b2, q.b1, q.b0) }

  lemma MixColumnIsMix(q: Quad)
    ensures MixColumn(q) == Reversed(Mix(Reversed(q), 0x1b))
  {
    hide Stir, Turn, ColumnSum, Fold;
    var t := ColumnSum(q);
    ColumnSumVersusFold(q.b0, q.b1, q.b2, q.b3, t, Fold(Reversed(q)));
    StirIsTurn(q.b0, q.b1, t);
    StirIsTurn(q.b1, q.b2, t);
    StirIsTurn(q.b2, q.b3, t);
    StirIsTurn(q.b3, q.b0, t);
  }

  /** `mix_column` is the matrix product of FIPS 197 section 5.1.3:
      row i is {02} s_i + {03} s_(i+1) + s_(i+2) + s_(i+3). */
  lemma MixColumnIsFipsProduct(q: Quad)
    ensures MixColumn(q) == Quad(Row(q.b0, q.b3, q.b2, q.b1, 0x1b), Row(q.b1, q.b0, q.b3, q.b2, 0x1b),
                                 Row(q.b2, q.b1, q.b0, q.b3, 0x1b), Row(q.b3, q.b2, q.b1, q.b0, 0x1b))
  {
    hide MixColumn, Mix, Row;
    MixColumnIsMix(q);
    MixIsMatrixProduct(Reversed(q), 0x1b);
  }

  /** Applying `mix_column` four times is the identity. */
  lemma MixColumnHasOrderFour(q: Quad)
    ensures MixColumn(MixColumn(MixColumn(MixColumn(q)))) == q
  {
    hide MixColumn, Mix;
    var m1 := MixColumn(q);
    var m2 := MixColumn(m1);
    var m3 := MixColumn(m2);
    MixColumnIsMix(q);
    MixColumnIsMix(m1);
    MixColumnIsMix(m2);
    MixColumnIsMix(m3);
    MixHasOrderFour(Reversed(q), 0x1b);
  }

  // ---------- the transformations on a block ----------

  function SubBytes(b: Block): Block {
    Block(SubS(b.c0), SubS(b.c1), SubS(b.c2), SubS(b.c3))
  }

  function UnsubBytes(b: Block): Block {
    Block(UnsubS(b.c0), UnsubS(b.c1), UnsubS(b.c2), UnsubS(b.c3))
  }

  /** Row r rotated left by r: its byte in column j comes from column j + r. */
  function ShiftRows(b: Block): Block {
    Block(Quad(b.c0.b0, b.c1.b1, b.c2.b2, b.c3.b3), Quad(b.c1.b0, b.c2.b1, b.c3.b2, b.c0.b3),
          Quad(b.c2.b0, b.c3.b1, b.c0.b2, b.c1.b3), Quad(b.c3.b0, b.c0.b1, b.c1.b2, b.c2.b3))
  }

  function UnshiftRows(b: Block): Block {
    Block(Quad(b.c0.b0, b.c3.b1, b.c2.b2, b.c1.b3), Quad(b.c1.b0, b.c0.b1, b.c3.b2, b.c2.b3),
          Quad(b.c2.b0, b.c1.b1, b.c0.b2, b.c3.b3), Quad(b.c3.b0, b.c2.b1, b.c1.b2, b.c0.b3))
  }

  function MixAll(b: Block): Block {
    Block(MixColumn(b.c0), MixColumn(b.c1), MixColumn(b.c2), MixColumn(b.c3))
  }

  function UnmixAll(b: Block): Block {
    Block(UnmixColumn(b.c0), UnmixColumn(b.c1), UnmixColumn(b.c2), UnmixColumn(b.c3))
  }

  function AddKey(b: Block, k: Block): Block {
    Block(AddColumn(b.c0, k.c0), AddColumn(b.c1, k.c1), AddColumn(b.c2, k.c2), AddColumn(b.c3, k.c3))
  }

  function Round(b: Block, k: Block): Block { AddKey(MixAll(ShiftRows(SubBytes(b))), k) }

  function LastRound(b: Block, k: Block): Block { AddKey(ShiftRows(SubBytes(b)), k) }

  function Unround(b: Block, k: Block): Block { UnsubBytes(UnshiftRows(UnmixAll(AddKey(b, k)))) }

  function UnlastRound(b: Block, k: Block): Block { UnsubBytes(UnshiftRows(AddKey(b, k))) }

  /** The state after the initial key addition and `n` full rounds. */
  function Rounds(b: Block, rk: seq<Block>, n: nat): Block
    requires n < |rk|
  {
    if n == 0 then AddKey(b, rk[0]) else Round(Rounds(b, rk, n - 1), rk[n])
  }

  function Unrounds(b: Block, rk: seq<Block>, n: nat): Block
    requires n < |rk|
    decreases n
  {
    if n == 0 then AddKey(b, rk[0]) else Unrounds(Unround(b, rk[n]), rk, n - 1)
  }

  function Encrypt(b: Block, rk: seq<Block>): Block
    requires |rk| == 11
  {
    LastRound(Rounds(b, rk, 9), rk[10])
  }

  function Decrypt(b: Block, rk: seq<Block>): Block
    requires |rk| == 11
  {
    Unrounds(UnlastRound(b, rk[10]), rk, 9)
  }

  // ---------- the cipher is a permutation ----------

  lemma StepsHaveInverses(b: Block, k: Block)
    ensures UnsubBytes(SubBytes(b)) == b && SubBytes(UnsubBytes(b)) == b
    ensures UnshiftRows(ShiftRows(b)) == b && ShiftRows(UnshiftRows(b)) == b
    ensures UnmixAll(MixAll(b)) == b && MixAll(UnmixAll(b)) == b
    ensures AddKey(AddKey(b, k), k) == b
  {
    hide SubS, UnsubS, MixColumn, AddColumn;
    forall q: Quad
      ensures UnsubS(SubS(q)) == q && SubS(UnsubS(q)) == q
    {
      SubSHasInverse(q);
    }
    MixColumnHasOrderFour(b.c0);
    MixColumnHasOrderFour(b.c1);
    MixColumnHasOrderFour(b.c2);
    MixColumnHasOrderFour(b.c3);
    AddColumnTwice(b.c0, k.c0);
    AddColumnTwice(b.c1, k.c1);
    AddColumnTwice(b.c2, k.c2);
    AddColumnTwice(b.c3, k.c3);
  }

  lemma RoundHasInverse(b: Block, k: Block)
    ensures Unround(Round(b, k), k) == b && Round(Unround(b, k), k) == b
    ensures UnlastRound(LastRound(b, k), k) == b && LastRound(UnlastRound(b, k), k) == b
  {
    hide SubBytes, UnsubBytes, ShiftRows, UnshiftRows, MixAll, UnmixAll, AddKey;
    forall x: Block
      ensures UnsubBytes(SubBytes(x)) == x && SubBytes(UnsubBytes(x)) == x
      ensures UnshiftRows(ShiftRows(x)) == x && ShiftRows(UnshiftRows(x)) == x
      ensures UnmixAll(MixAll(x)) == x && MixAll(UnmixAll(x)) == x
      ensures AddKey(AddKey(x, k), k) == x
    {
      StepsHaveInverses(x, k);
    }
  }

  lemma {:induction false} RoundsHaveInverse(b: Block, rk: seq<Block>, n: nat)
    requires n < |rk|
    ensures Unrounds(Rounds(b, rk, n), rk, n) == b
  {
    hide Round, Unround, AddKey;
    if n == 0 {
      StepsHaveInverses(b, rk[0]);
    } else {
      RoundHasInverse(Rounds(b, rk, n - 1), rk[n]);
      RoundsHaveInverse(b, rk, n - 1);
    }
  }

  lemma {:induction false} UnroundsHaveInverse(b: Block, rk: seq<Block>, n: nat)
    requires n < |rk|
    ensures Rounds(Unrounds(b, rk, n), rk, n) == b
    decreases n
  {
    hide Round, Unround, AddKey;
    if n == 0 {
      StepsHaveInverses(b, rk[0]);
    } else {
      UnroundsHaveInverse(Unround(b, rk[n]), rk, n - 1);
      RoundHasInverse(b, rk[n]);
    }
  }

  /** Whatever the round keys, encryption is a permutation of the blocks and `Decrypt` inverts it. */
  lemma EncryptIsAPermutation(b: Block, rk: seq<Block>)
    requires |rk| == 11
    ensures Decrypt(Encrypt(b, rk), rk) == b
    ensures Encrypt(Decrypt(b, rk), rk) == b
  {
    hide Rounds, Unrounds, LastRound, UnlastRound;
    RoundHasInverse(Rounds(b, rk, 9), rk[10]);
    RoundsHaveInverse(b, rk, 9);
    UnroundsHaveInverse(UnlastRound(b, rk[10]), rk, 9);
    RoundHasInverse(b, rk[10]);
  }

  // ---------- the key schedule ----------

  /** SubWord(RotWord(q)) of FIPS 197 section 5.2. */
  function RotSub(q: Quad): Quad { Quad(S(q.b1), S(q.b2), S(q.b3), S(q.b0)) }

  function NextKey(k: Block, constant: bv8): Block {
    var s := RotSub(k.c3);
    var c0 := Quad(Xor(Xor(s.b0, k.c0.b0), constant), Xor(s.b1, k.c0.b1), Xor(s.b2, k.c0.b2), Xor(s.b3, k.c0.b3));
    var c1 := AddColumn(k.c1, c0);
    var c2 := AddColumn(k.c2, c1);
    Block(c0, c1, c2, AddColumn(k.c3, c2))
  }

  /** `round_const` in round `i`: 1, then doubled in the field each round. */
  function RoundConstant(i: nat): bv8 {
    if i <= 1 then 1 else XTime(RoundConstant(i - 1))
  }

  function RoundKey(key: Block, i: nat): Block {
    if i == 0 then key else NextKey(RoundKey(key, i - 1), RoundConstant(i))
  }

  function RoundKeys(key: Block): (rk: seq<Block>)
    ensures |rk| == 11
  {
    seq(11, i requires 0 <= i < 11 => RoundKey(key, i))
  }

  function PreviousKey(k: Block, constant: bv8): Block {
    var c3 := AddColumn(k.c3, k.c2);
    var s := RotSub(c3);
    var c0 := Quad(Xor(s.b0, Xor(k.c0.b0, constant)), Xor(s.b1, k.c0.b1), Xor(s.b2, k.c0.b2), Xor(s.b3, k.c0.b3));
    Block(c0, AddColumn(k.c1, k.c0), AddColumn(k.c2, k.c1), c3)
  }

  /** The cipher key from which round key `i` was expanded. */
  function CipherKey(k: Block, i: nat): Block
    decreases i
  {
    if i == 0 then k else CipherKey(PreviousKey(k, RoundConstant(i)), i - 1)
  }

  lemma XorUndone(a: bv8, b: bv8, c: bv8)
    ensures Xor(a, Xor(a, b)) == b
    ensures Xor(Xor(Xor(a, b), c), c) == Xor(a, b)
    ensures Xor(Xor(a, b), b) == a
  {
  }

  lemma NextKeyHasInverse(k: Block, constant: bv8)
    ensures PreviousKey(NextKey(k, constant), constant) == k
  {
    hide Xor, S;
    var n := NextKey(k, constant);
    assert AddColumn(n.c3, n.c2) == k.c3 by { AddColumnTwice(k.c3, n.c2); }
    assert AddColumn(n.c2, n.c1) == k.c2 by { AddColumnTwice(k.c2, n.c1); }
    assert AddColumn(n.c1, n.c0) == k.c1 by { AddColumnTwice(k.c1, n.c0); }
    var s := RotSub(k.c3);
    XorUndone(s.b0, k.c0.b0, constant);
    XorUndone(s.b1, k.c0.b1, constant);
    XorUndone(s.b2, k.c0.b2, constant);
    XorUndone(s.b3, k.c0.b3, constant);
  }

  /** Any one round key determines the cipher key. */
  lemma {:induction false} RoundKeyDeterminesKey(key: Block, i: nat)
    ensures CipherKey(RoundKey(key, i), i) == key
  {
    hide NextKey, PreviousKey, RoundConstant;
    if i > 0 {
      NextKeyHasInverse(RoundKey(key, i - 1), RoundConstant(i));
      RoundKeyDeterminesKey(key, i - 1);
    }
  }

  /** `round_const` in round `i` is x to the power i - 1 in the field, as FIPS 197 section 5.2 asks. */
  lemma {:induction false} RoundConstantIsAPower(i: nat)
    requires i >= 1
    ensures RoundConstant(i) == MulXPow(1, i - 1, 0x1b)
  {
    hide XTime, MulX;
    if i > 1 {
      RoundConstantIsAPower(i - 1);
      XTimeIsMulX(RoundConstant(i - 1));
    }
  }

  /** The expanded key words as FIPS 197 section 5.2 defines them: every fourth word takes the S-box of the
      rotated word before it and a power of x. */
  function Word(key: Block, n: nat): Quad {
    if n == 0 then key.c0 else if n == 1 then key.c1 else if n == 2 then key.c2 else if n == 3 then key.c3
    else if n % 4 == 0 then
      var w, t := Word(key, n - 4), Word(key, n - 1);
      Quad(Xor(w.b0, Xor(S(t.b1), MulXPow(1, n / 4 - 1, 0x1b))), Xor(w.b1, S(t.b2)), Xor(w.b2, S(t.b3)),
           Xor(w.b3, S(t.b0)))
    else AddColumn(Word(key, n - 4), Word(key, n - 1))
  }

  lemma FirstColumnWords(s: bv8, k: bv8, c: bv8)
    ensures Xor(k, Xor(s, c)) == Xor(Xor(s, k), c)
    ensures Xor(k, s) == Xor(s, k)
  {
  }

  lemma FirstColumn(k: Block, constant: bv8)
    ensures NextKey(k, constant).c0
            == Quad(Xor(k.c0.b0, Xor(S(k.c3.b1), constant)), Xor(k.c0.b1, S(k.c3.b2)), Xor(k.c0.b2, S(k.c3.b3)),
                    Xor(k.c0.b3, S(k.c3.b0)))
  {
    hide Xor, S;
    FirstColumnWords(S(k.c3.b1), k.c0.b0, constant);
    FirstColumnWords(S(k.c3.b2), k.c0.b1, constant);
    FirstColumnWords(S(k.c3.b3), k.c0.b2, constant);
    FirstColumnWords(S(k.c3.b0), k.c0.b3, constant);
  }

  /** Round key `i` holds the words 4 i .. 4 i + 3 of the expanded key. */
  lemma {:induction false} RoundKeyIsFipsExpansion(key: Block, i: nat)
    ensures RoundKey(key, i)
            == Block(Word(key, 4 * i), Word(key, 4 * i + 1), Word(key, 4 * i + 2), Word(key, 4 * i + 3))
  {
    hide *;
    if i == 0 {
      FirstWords(key);
    } else {
      RoundKeyIsFipsExpansion(key, i - 1);
      RoundConstantIsAPower(i);
      NextWords(key, RoundKey(key, i - 1), i);
      RoundKeyStep(key, i);
    }
  }

  lemma FirstWords(key: Block)
    ensures RoundKey(key, 0) == Block(Word(key, 0), Word(key, 1), Word(key, 2), Word(key, 3))
  {
  }

  lemma RoundKeyStep(key: Block, i: nat)
    requires i > 0
    ensures RoundKey(key, i) == NextKey(RoundKey(key, i - 1), RoundConstant(i))
  {
    hide NextKey, RoundConstant;
  }

  lemma NextWords(key: Block, k: Block, i: nat)
    requires i > 0 && RoundConstant(i) == MulXPow(1, i - 1, 0x1b)
    requires k == Block(Word(key, 4 * i - 4), Word(key, 4 * i - 3), Word(key, 4 * i - 2), Word(key, 4 * i - 1))
    ensures NextKey(k, RoundConstant(i))
            == Block(Word(key, 4 * i), Word(key, 4 * i + 1), Word(key, 4 * i + 2), Word(key, 4 * i + 3))
  {
    hide *;
    NextColumns(k, RoundConstant(i));
    FirstColumn(k, RoundConstant(i));
    FourthWord(key, i);
    OtherWord(key, 4 * i + 1);
    OtherWord(key, 4 * i + 2);
    OtherWord(key, 4 * i + 3);
  }

  lemma NextColumns(k: Block, constant: bv8)
    ensures var n := NextKey(k, constant);
            n.c1 == AddColumn(k.c1, n.c0) && n.c2 == AddColumn(k.c2, n.c1) && n.c3 == AddColumn(k.c3, n.c2)
  {
    hide AddColumn, RotSub, Xor;
  }

  lemma FourthWord(key: Block, i: nat)
    requires i > 0
    ensures var w, t := Word(key, 4 * i - 4), Word(key, 4 * i - 1);
            Word(key, 4 * i)
            == Quad(Xor(w.b0, Xor(S(t.b1), MulXPow(1, i - 1, 0x1b))), Xor(w.b1, S(t.b2)), Xor(w.b2, S(t.b3)),
                    Xor(w.b3, S(t.b0)))
  {
    hide Xor, S, MulXPow, AddColumn;
    assert (4 * i) / 4 == i && (4 * i) % 4 == 0;
  }

  lemma OtherWord(key: Block, n: nat)
    requires n >= 4 && n % 4 != 0
    ensures Word(key, n) == AddColumn(Word(key, n - 4), Word(key, n - 1))
  {
    hide AddColumn, Xor, S, MulXPow;
  }
}
