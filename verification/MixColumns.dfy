/** The byte matrix circ(2, 1, 1, 3) shared by SNOW 3G's S-boxes S1 and S2 and by Rijndael's
    MixColumns.  Over any byte field of characteristic 2 it has order four, so applying it three
    more times undoes it.

    Row a of the product is a + t + x (a + b), where t is the sum of the column and b the
    neighbour of a.  The lemmas named `...Words` are the exclusive-or identities behind the proof,
    stated over plain variables. */
module MixColumns {
  import opened AlphaField

  datatype Quad = Quad(b0: bv8, b1: bv8, b2: bv8, b3: bv8)

  function Xor(a: bv8, b: bv8): bv8 { a ^ b }

  /** The sum of the four bytes. */
  function Fold(q: Quad): bv8 { Xor(Xor(q.b0, q.b1), Xor(q.b2, q.b3)) }

  /** a + t + x (a + b) in the field of the polynomial `c`. */
  function Turn(a: bv8, b: bv8, t: bv8, c: bv8): bv8 { Xor(Xor(a, t), MulX(Xor(a, b), c)) }

  function Mix(q: Quad, c: bv8): Quad {
    var t := Fold(q);
    Quad(Turn(q.b0, q.b3, t, c), Turn(q.b1, q.b0, t, c), Turn(q.b2, q.b1, t, c), Turn(q.b3, q.b2, t, c))
  }

  /** The same row written out as 2 a + b + d + 3 e, the way both standards give it. */
  function Row(a: bv8, b: bv8, d: bv8, e: bv8, c: bv8): bv8 {
    MulX(a, c) ^ b ^ d ^ (MulX(e, c) ^ e)
  }

  function Unmix(q: Quad, c: bv8): Quad { Mix(Mix(Mix(q, c), c), c) }

  /** a + 4 (a + b): one row of the squared matrix. */
  function Cross(a: bv8, b: bv8, c: bv8): bv8 { Xor(a, MulX(MulX(Xor(a, b), c), c)) }

  // ---------- multiplication by x is linear ----------

  lemma MulXOpened(v: bv8, c: bv8, r: bv8)
    requires r == MulX(v, c)
    ensures r == if v & 0x80 != 0 then (v << 1) ^ c else v << 1
  {
  }

  lemma XorOpened(a: bv8, b: bv8, r: bv8)
    requires r == Xor(a, b)
    ensures r == a ^ b
  {
  }

  lemma LinearWords(a: bv8, b: bv8, s: bv8, c: bv8, x: bv8, y: bv8, z: bv8)
    requires s == a ^ b
    requires x == (if s & 0x80 != 0 then (s << 1) ^ c else s << 1)
    requires y == (if a & 0x80 != 0 then (a << 1) ^ c else a << 1)
    requires z == (if b & 0x80 != 0 then (b << 1) ^ c else b << 1)
    ensures x == y ^ z
  {
  }

  lemma MulXOfSum(a: bv8, b: bv8, s: bv8, c: bv8, x: bv8, y: bv8, z: bv8)
    requires s == Xor(a, b)
    requires x == MulX(s, c) && y == MulX(a, c) && z == MulX(b, c)
    ensures x == y ^ z
  {
    hide MulX, Xor;
    XorOpened(a, b, s);
    MulXOpened(s, c, x);
    MulXOpened(a, c, y);
    MulXOpened(b, c, z);
    LinearWords(a, b, s, c, x, y, z);
  }

  lemma MulXIsLinear(a: bv8, b: bv8, c: bv8)
    ensures MulX(Xor(a, b), c) == Xor(MulX(a, c), MulX(b, c))
  {
    hide MulX;
    MulXOfSum(a, b, Xor(a, b), c, MulX(Xor(a, b), c), MulX(a, c), MulX(b, c));
  }

  // ---------- the exclusive-or identities ----------

  lemma CommuteWords(a: bv8, b: bv8)
    ensures Xor(a, b) == Xor(b, a)
  {
  }

  lemma CancelWords(a: bv8, b: bv8, e: bv8)
    ensures Xor(Xor(a, e), Xor(b, e)) == Xor(a, b)
    ensures Xor(Xor(a, e), e) == a
  {
  }

  lemma TurnOpened(a: bv8, b: bv8, t: bv8, c: bv8, x: bv8, y: bv8, r: bv8)
    requires r == Turn(a, b, t, c) && x == MulX(a, c) && y == MulX(b, c)
    ensures r == (a ^ t) ^ (x ^ y)
  {
    hide MulX, Xor;
    MulXIsLinear(a, b, c);
    XorOpened(a, t, Xor(a, t));
    XorOpened(x, y, Xor(x, y));
    XorOpened(Xor(a, t), Xor(x, y), r);
  }

  lemma FoldWords(q0: bv8, q1: bv8, q2: bv8, q3: bv8, x0: bv8, x1: bv8, x2: bv8, x3: bv8,
                  t: bv8, r0: bv8, r1: bv8, r2: bv8, r3: bv8)
    requires t == (q0 ^ q1) ^ (q2 ^ q3)
    requires r0 == (q0 ^ t) ^ (x0 ^ x3) && r1 == (q1 ^ t) ^ (x1 ^ x0)
    requires r2 == (q2 ^ t) ^ (x2 ^ x1) && r3 == (q3 ^ t) ^ (x3 ^ x2)
    ensures (r0 ^ r1) ^ (r2 ^ r3) == t
  {
  }

  lemma DifferenceWords(a: bv8, b: bv8, e: bv8, t: bv8, x: bv8, y: bv8, z: bv8, r: bv8, s: bv8)
    requires r == (a ^ t) ^ (x ^ y) && s == (b ^ t) ^ (y ^ z)
    ensures r ^ s == (a ^ b) ^ (x ^ z)
  {
  }

  lemma FoldOpened(q0: bv8, q1: bv8, q2: bv8, q3: bv8, t: bv8)
    requires t == Fold(Quad(q0, q1, q2, q3))
    ensures t == (q0 ^ q1) ^ (q2 ^ q3)
  {
    hide Xor;
    XorOpened(q0, q1, Xor(q0, q1));
    XorOpened(q2, q3, Xor(q2, q3));
    XorOpened(Xor(q0, q1), Xor(q2, q3), t);
  }

  // ---------- the matrix squared, and to the fourth ----------

  lemma FoldOfTurns(q0: bv8, q1: bv8, q2: bv8, q3: bv8, x0: bv8, x1: bv8, x2: bv8, x3: bv8,
                    t: bv8, r0: bv8, r1: bv8, r2: bv8, r3: bv8, u: bv8, c: bv8)
    requires t == Fold(Quad(q0, q1, q2, q3)) && u == Fold(Quad(r0, r1, r2, r3))
    requires x0 == MulX(q0, c) && x1 == MulX(q1, c) && x2 == MulX(q2, c) && x3 == MulX(q3, c)
    requires r0 == Turn(q0, q3, t, c) && r1 == Turn(q1, q0, t, c)
    requires r2 == Turn(q2, q1, t, c) && r3 == Turn(q3, q2, t, c)
    ensures u == t
  {
    hide MulX, Turn, Fold;
    FoldOpened(q0, q1, q2, q3, t);
    TurnOpened(q0, q3, t, c, x0, x3, r0);
    TurnOpened(q1, q0, t, c, x1, x0, r1);
    TurnOpened(q2, q1, t, c, x2, x1, r2);
    TurnOpened(q3, q2, t, c, x3, x2, r3);
    FoldOpened(r0, r1, r2, r3, u);
    FoldWords(q0, q1, q2, q3, x0, x1, x2, x3, t, r0, r1, r2, r3);
  }

  /** The matrix keeps the sum of the column. */
  lemma MixKeepsFold(q: Quad, c: bv8)
    ensures Fold(Mix(q, c)) == Fold(q)
  {
    hide MulX, Turn, Fold;
    var m := Mix(q, c);
    FoldOfTurns(q.b0, q.b1, q.b2, q.b3, MulX(q.b0, c), MulX(q.b1, c), MulX(q.b2, c), MulX(q.b3, c),
                Fold(q), m.b0, m.b1, m.b2, m.b3, Fold(m), c);
  }

  lemma Difference(a: bv8, b: bv8, e: bv8, t: bv8, c: bv8, r: bv8, s: bv8, x: bv8, y: bv8, z: bv8)
    requires r == Turn(a, b, t, c) && s == Turn(b, e, t, c)
    requires x == MulX(a, c) && y == MulX(b, c) && z == MulX(e, c)
    ensures Xor(r, s) == Xor(Xor(a, b), Xor(x, z))
  {
    hide MulX, Xor, Turn;
    TurnOpened(a, b, t, c, x, y, r);
    TurnOpened(b, e, t, c, y, z, s);
    DifferenceWords(a, b, e, t, x, y, z, r, s);
    XorOpened(r, s, Xor(r, s));
    XorOpened(a, b, Xor(a, b));
    XorOpened(x, z, Xor(x, z));
    XorOpened(Xor(a, b), Xor(x, z), Xor(Xor(a, b), Xor(x, z)));
  }

  lemma TurnTwice(a: bv8, b: bv8, e: bv8, t: bv8, c: bv8)
    ensures Turn(Turn(a, b, t, c), Turn(b, e, t, c), t, c) == Cross(a, e, c)
  {
    hide MulX, Xor;
    Difference(a, b, e, t, c, Turn(a, b, t, c), Turn(b, e, t, c), MulX(a, c), MulX(b, c), MulX(e, c));
    MulXIsLinear(a, e, c);
    MulXIsLinear(Xor(a, b), Xor(MulX(a, c), MulX(e, c)), c);
    TurnBack(a, t, MulX(Xor(a, b), c), MulX(MulX(Xor(a, e), c), c));
  }

  lemma TurnBack(a: bv8, t: bv8, m: bv8, n: bv8)
    ensures Xor(Xor(Xor(Xor(a, t), m), t), Xor(m, n)) == Xor(a, n)
  {
  }

  lemma MixTwice(q: Quad, c: bv8)
    ensures Mix(Mix(q, c), c) == Quad(Cross(q.b0, q.b2, c), Cross(q.b1, q.b3, c),
                                      Cross(q.b2, q.b0, c), Cross(q.b3, q.b1, c))
  {
    hide Turn, Cross, Fold;
    MixKeepsFold(q, c);
    TurnTwice(q.b0, q.b3, q.b2, Fold(q), c);
    TurnTwice(q.b1, q.b0, q.b3, Fold(q), c);
    TurnTwice(q.b2, q.b1, q.b0, Fold(q), c);
    TurnTwice(q.b3, q.b2, q.b1, Fold(q), c);
  }

  lemma CrossTwice(a: bv8, b: bv8, c: bv8)
    ensures Cross(Cross(a, b, c), Cross(b, a, c), c) == a
  {
    hide MulX, Xor;
    CommuteWords(a, b);
    CancelWords(a, b, MulX(MulX(Xor(a, b), c), c));
  }

  lemma MixHasOrderFour(q: Quad, c: bv8)
    ensures Mix(Mix(Mix(Mix(q, c), c), c), c) == q
  {
    hide Mix, Cross;
    MixTwice(q, c);
    MixTwice(Mix(Mix(q, c), c), c);
    CrossTwice(q.b0, q.b2, c);
    CrossTwice(q.b1, q.b3, c);
    CrossTwice(q.b2, q.b0, c);
    CrossTwice(q.b3, q.b1, c);
  }

  lemma RowWords(a: bv8, b: bv8, d: bv8, e: bv8, x: bv8, z: bv8, t: bv8)
    requires t == (a ^ b) ^ (d ^ e)
    ensures x ^ b ^ d ^ (z ^ e) == (a ^ t) ^ (x ^ z)
  {
  }

  lemma RowOpened(a: bv8, b: bv8, d: bv8, e: bv8, c: bv8, x: bv8, z: bv8, r: bv8)
    requires r == Row(a, b, d, e, c) && x == MulX(a, c) && z == MulX(e, c)
    ensures r == x ^ b ^ d ^ (z ^ e)
  {
    hide MulX;
  }

  lemma RowVersusTurn(a: bv8, b: bv8, d: bv8, e: bv8, t: bv8, c: bv8, x: bv8, z: bv8, r: bv8, s: bv8)
    requires t == Fold(Quad(a, b, d, e)) && x == MulX(a, c) && z == MulX(e, c)
    requires r == Row(a, b, d, e, c) && s == Turn(a, e, t, c)
    ensures r == s
  {
    hide MulX, Row, Turn, Fold;
    FoldOpened(a, b, d, e, t);
    RowOpened(a, b, d, e, c, x, z, r);
    TurnOpened(a, e, t, c, x, z, s);
    RowWords(a, b, d, e, x, z, t);
  }

  lemma FoldTurnsRound(q0: bv8, q1: bv8, q2: bv8, q3: bv8, t: bv8, u: bv8)
    requires t == Fold(Quad(q0, q1, q2, q3)) && u == Fold(Quad(q1, q2, q3, q0))
    ensures t == u
  {
    hide Fold;
    FoldOpened(q0, q1, q2, q3, t);
    FoldOpened(q1, q2, q3, q0, u);
  }

  lemma RowAsTurn(a: bv8, b: bv8, d: bv8, e: bv8, c: bv8)
    ensures Row(a, b, d, e, c) == Turn(a, e, Fold(Quad(a, b, d, e)), c)
  {
    hide MulX, Row, Turn, Fold;
    var t := Fold(Quad(a, b, d, e));
    RowVersusTurn(a, b, d, e, t, c, MulX(a, c), MulX(e, c), Row(a, b, d, e, c), Turn(a, e, t, c));
  }

  /** `Mix` is the matrix product circ(2, 1, 1, 3) times the column. */
  lemma MixIsMatrixProduct(q: Quad, c: bv8)
    ensures Mix(q, c) == Quad(Row(q.b0, q.b1, q.b2, q.b3, c), Row(q.b1, q.b2, q.b3, q.b0, c),
                              Row(q.b2, q.b3, q.b0, q.b1, c), Row(q.b3, q.b0, q.b1, q.b2, c))
  {
    hide MulX, Row, Turn, Fold;
    RowAsTurn(q.b0, q.b1, q.b2, q.b3, c);
    RowAsTurn(q.b1, q.b2, q.b3, q.b0, c);
    RowAsTurn(q.b2, q.b3, q.b0, q.b1, c);
    RowAsTurn(q.b3, q.b0, q.b1, q.b2, c);
    var t0, t1 := Fold(q), Fold(Quad(q.b1, q.b2, q.b3, q.b0));
    var t2, t3 := Fold(Quad(q.b2, q.b3, q.b0, q.b1)), Fold(Quad(q.b3, q.b0, q.b1, q.b2));
    FoldTurnsRound(q.b0, q.b1, q.b2, q.b3, t0, t1);
    FoldTurnsRound(q.b1, q.b2, q.b3, q.b0, t1, t2);
    FoldTurnsRound(q.b2, q.b3, q.b0, q.b1, t2, t3);
  }
}
