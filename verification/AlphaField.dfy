/** The byte-field arithmetic of SNOW 3G (UEA2 & UIA2 D2 v1.1 sections 3.1 and 3.4):
    `s3g_mul_x`, `s3g_mul_x_pow`, `s3g_mul_alpha` and `s3g_div_alpha`.

    The result of the module is that multiplying a 32-bit word by alpha and dividing it by alpha
    undo each other.  It rests on the element "x" having order 255 in the field of 0xa9, which is
    why the exponents of the two tables (23, 245, 48, 239 against 16, 39, 6, 64) match. */
module AlphaField {

  const POLY: bv8 := 0xa9

  function MulX(v: bv8, c: bv8): bv8 {
    if v & 0x80 != 0 then (v << 1) ^ c else v << 1
  }

  function MulXPow(v: bv8, i: nat, c: bv8): bv8 {
    if i == 0 then v else MulX(MulXPow(v, i - 1, c), c)
  }

  /** Four bytes as one big-endian word. */
  function Join(b0: bv8, b1: bv8, b2: bv8, b3: bv8): bv32 {
    (b0 as bv32 << 24) | (b1 as bv32 << 16) | (b2 as bv32 << 8) | b3 as bv32
  }

  function MulAlpha(c: bv8): bv32 {
    Join(MulXPow(c, 23, POLY), MulXPow(c, 245, POLY), MulXPow(c, 48, POLY), MulXPow(c, 239, POLY))
  }

  function DivAlpha(c: bv8): bv32 {
    Join(MulXPow(c, 16, POLY), MulXPow(c, 39, POLY), MulXPow(c, 6, POLY), MulXPow(c, 64, POLY))
  }

  function HighByte(w: bv32): bv8 { ((w >> 24) & 0xff) as bv8 }

  function LowByte(w: bv32): bv8 { (w & 0xff) as bv8 }

  /** `w` moved up a byte, with `q` folded in; `DownByte` is the other way. */
  function UpByte(w: bv32, q: bv32): bv32 { ((w << 8) & 0xffffff00) ^ q }

  function DownByte(w: bv32, q: bv32): bv32 { ((w >> 8) & 0x00ffffff) ^ q }

  /** The word `w` times alpha, as the feedback of `s3g_clock_lfsr` computes it. */
  function TimesAlpha(w: bv32): bv32 { UpByte(w, MulAlpha(HighByte(w))) }

  /** The word `w` divided by alpha, as the feedback of `s3g_clock_lfsr` computes it. */
  function OverAlpha(w: bv32): bv32 { DownByte(w, DivAlpha(LowByte(w))) }

  // ---------- powers of x ----------

  lemma {:induction false} PowersAdd(v: bv8, i: nat, j: nat, c: bv8)
    ensures MulXPow(MulXPow(v, i, c), j, c) == MulXPow(v, i + j, c)
  {
    if j > 0 {
      PowersAdd(v, i, j - 1, c);
    }
  }

  /** The GF(2)-linear map that sends bit `b` to `k_b`. */
  function Linear(v: bv8, k0: bv8, k1: bv8, k2: bv8, k3: bv8, k4: bv8, k5: bv8, k6: bv8, k7: bv8): bv8 {
    (if v & 0x01 != 0 then k0 else 0) ^ (if v & 0x02 != 0 then k1 else 0) ^
    (if v & 0x04 != 0 then k2 else 0) ^ (if v & 0x08 != 0 then k3 else 0) ^
    (if v & 0x10 != 0 then k4 else 0) ^ (if v & 0x20 != 0 then k5 else 0) ^
    (if v & 0x40 != 0 then k6 else 0) ^ (if v & 0x80 != 0 then k7 else 0)
  }

  // Repeated squaring: x^2^k as a linear map.

  lemma Power2(v: bv8)
    ensures MulXPow(v, 2, POLY) == Linear(v, 0x04, 0x08, 0x10, 0x20, 0x40, 0x80, 0xa9, 0xfb)
  {
    assert MulXPow(v, 1, POLY) == MulX(MulXPow(v, 0, POLY), POLY);
  }

  lemma Power4(v: bv8)
    ensures MulXPow(v, 4, POLY) == Linear(v, 0x10, 0x20, 0x40, 0x80, 0xa9, 0xfb, 0x5f, 0xbe)
  {
    Power2(v);
    Power2(MulXPow(v, 2, POLY));
    PowersAdd(v, 2, 2, POLY);
  }

  lemma Power8(v: bv8)
    ensures MulXPow(v, 8, POLY) == Linear(v, 0xa9, 0xfb, 0x5f, 0xbe, 0xd5, 0x03, 0x06, 0x0c)
  {
    Power4(v);
    Power4(MulXPow(v, 4, POLY));
    PowersAdd(v, 4, 4, POLY);
  }

  lemma Power16(v: bv8)
    ensures MulXPow(v, 16, POLY) == Linear(v, 0x18, 0x30, 0x60, 0xc0, 0x29, 0x52, 0xa4, 0xe1)
  {
    Power8(v);
    Power8(MulXPow(v, 8, POLY));
    PowersAdd(v, 8, 8, POLY);
  }

  lemma Power32(v: bv8)
    ensures MulXPow(v, 32, POLY) == Linear(v, 0xe9, 0x7b, 0xf6, 0x45, 0x8a, 0xbd, 0xd3, 0x0f)
  {
    Power16(v);
    Power16(MulXPow(v, 16, POLY));
    PowersAdd(v, 16, 16, POLY);
  }

  lemma Power64(v: bv8)
    ensures MulXPow(v, 64, POLY) == Linear(v, 0xcd, 0x33, 0x66, 0xcc, 0x31, 0x62, 0xc4, 0x21)
  {
    Power32(v);
    Power32(MulXPow(v, 32, POLY));
    PowersAdd(v, 32, 32, POLY);
  }

  lemma Power128(v: bv8)
    ensures MulXPow(v, 128, POLY) == Linear(v, 0x82, 0xad, 0xf3, 0x4f, 0x9e, 0x95, 0x83, 0xaf)
  {
    Power64(v);
    Power64(MulXPow(v, 64, POLY));
    PowersAdd(v, 64, 64, POLY);
  }

  lemma MulXIsInjective(v: bv8, w: bv8)
    requires MulX(v, POLY) == MulX(w, POLY)
    ensures v == w
  {
  }

  /** x^255 is the identity: x^256 equals x, and x is invertible. */
  lemma OrderOfX(v: bv8)
    ensures MulXPow(v, 255, POLY) == v
  {
    assert MulXPow(v, 256, POLY) == MulX(v, POLY) by {
      Power128(v);
      Power128(MulXPow(v, 128, POLY));
      PowersAdd(v, 128, 128, POLY);
    }
    MulXIsInjective(MulXPow(v, 255, POLY), v);
  }

  /** Powers that add up to 255 more than `k` come back to `k`. */
  lemma PowersWrap(v: bv8, i: nat, j: nat, k: nat)
    requires i + j == 255 + k
    ensures MulXPow(MulXPow(v, i, POLY), j, POLY) == MulXPow(v, k, POLY)
  {
    PowersAdd(v, i, j, POLY);
    PowersAdd(v, 255, k, POLY);
    OrderOfX(v);
  }

  // ---------- alpha ----------

  lemma UpThenDown(w: bv32, a: bv8, b: bv8, d: bv8, e: bv8)
    ensures LowByte(UpByte(w, Join(a, b, d, e))) == e
    ensures DownByte(UpByte(w, Join(a, b, d, e)), Join(HighByte(w), a, b, d)) == w
  {
  }

  lemma DownThenUp(w: bv32, a: bv8, b: bv8, d: bv8, e: bv8)
    ensures HighByte(DownByte(w, Join(e, a, b, d))) == e
    ensures UpByte(DownByte(w, Join(e, a, b, d)), Join(a, b, d, LowByte(w))) == w
  {
  }

  lemma DivAfterMul(c: bv8)
    ensures DivAlpha(MulXPow(c, 239, POLY))
            == Join(c, MulXPow(c, 23, POLY), MulXPow(c, 245, POLY), MulXPow(c, 48, POLY))
  {
    hide Join;
    PowersWrap(c, 239, 16, 0);
    PowersWrap(c, 239, 39, 23);
    PowersAdd(c, 239, 6, POLY);
    PowersWrap(c, 239, 64, 48);
  }

  lemma MulAfterDiv(c: bv8)
    ensures MulAlpha(MulXPow(c, 16, POLY))
            == Join(MulXPow(c, 39, POLY), MulXPow(c, 6, POLY), MulXPow(c, 64, POLY), c)
  {
    hide Join;
    PowersAdd(c, 16, 23, POLY);
    PowersWrap(c, 16, 245, 6);
    PowersAdd(c, 16, 48, POLY);
    PowersWrap(c, 16, 239, 0);
  }

  lemma OverUndoesTimes(w: bv32)
    ensures OverAlpha(TimesAlpha(w)) == w
  {
    hide MulXPow, Join, DivAlpha, HighByte, LowByte, UpByte, DownByte;
    var c := HighByte(w);
    UpThenDown(w, MulXPow(c, 23, POLY), MulXPow(c, 245, POLY), MulXPow(c, 48, POLY), MulXPow(c, 239, POLY));
    DivAfterMul(c);
  }

  lemma TimesUndoesOver(w: bv32)
    ensures TimesAlpha(OverAlpha(w)) == w
  {
    hide MulXPow, Join, MulAlpha, HighByte, LowByte, UpByte, DownByte;
    var c := LowByte(w);
    DownThenUp(w, MulXPow(c, 39, POLY), MulXPow(c, 6, POLY), MulXPow(c, 64, POLY), MulXPow(c, 16, POLY));
    MulAfterDiv(c);
  }

  // ---------- the tables, for any byte ----------

  lemma Power5(v: bv8)
    ensures MulXPow(v, 5, POLY) == Linear(v, 0x20, 0x40, 0x80, 0xa9, 0xfb, 0x5f, 0xbe, 0xd5)
  {
    Power4(v);
  }

  lemma Power6(v: bv8)
    ensures MulXPow(v, 6, POLY) == Linear(v, 0x40, 0x80, 0xa9, 0xfb, 0x5f, 0xbe, 0xd5, 0x03)
  {
    Power4(v);
    Power2(MulXPow(v, 4, POLY));
    PowersAdd(v, 4, 2, POLY);
  }

  lemma Power7(v: bv8)
    ensures MulXPow(v, 7, POLY) == Linear(v, 0x80, 0xa9, 0xfb, 0x5f, 0xbe, 0xd5, 0x03, 0x06)
  {
    Power6(v);
  }

  lemma Power23(v: bv8)
    ensures MulXPow(v, 23, POLY) == Linear(v, 0xe1, 0x6b, 0xd6, 0x05, 0x0a, 0x14, 0x28, 0x50)
  {
    Power16(v);
    Power7(MulXPow(v, 16, POLY));
    PowersAdd(v, 16, 7, POLY);
  }

  lemma Power39(v: bv8)
    ensures MulXPow(v, 39, POLY) == Linear(v, 0x0f, 0x1e, 0x3c, 0x78, 0xf0, 0x49, 0x92, 0x8d)
  {
    Power32(v);
    Power7(MulXPow(v, 32, POLY));
    PowersAdd(v, 32, 7, POLY);
  }

  lemma Power47(v: bv8)
    ensures MulXPow(v, 47, POLY) == Linear(v, 0xb3, 0xcf, 0x37, 0x6e, 0xdc, 0x11, 0x22, 0x44)
  {
    Power39(v);
    Power8(MulXPow(v, 39, POLY));
    PowersAdd(v, 39, 8, POLY);
  }

  lemma Power48(v: bv8)
    ensures MulXPow(v, 48, POLY) == Linear(v, 0xcf, 0x37, 0x6e, 0xdc, 0x11, 0x22, 0x44, 0x88)
  {
    Power32(v);
    Power16(MulXPow(v, 32, POLY));
    PowersAdd(v, 32, 16, POLY);
  }

  lemma Power192(v: bv8)
    ensures MulXPow(v, 192, POLY) == Linear(v, 0x12, 0x24, 0x48, 0x90, 0x89, 0xbb, 0xdf, 0x17)
  {
    Power128(v);
    Power64(MulXPow(v, 128, POLY));
    PowersAdd(v, 128, 64, POLY);
  }

  lemma Power240(v: bv8)
    ensures MulXPow(v, 240, POLY) == Linear(v, 0x26, 0x4c, 0x98, 0x99, 0x9b, 0x9f, 0x97, 0x87)
  {
    Power192(v);
    Power48(MulXPow(v, 192, POLY));
    PowersAdd(v, 192, 48, POLY);
  }

  lemma Power239(v: bv8)
    ensures MulXPow(v, 239, POLY) == Linear(v, 0x13, 0x26, 0x4c, 0x98, 0x99, 0x9b, 0x9f, 0x97)
  {
    Power192(v);
    Power47(MulXPow(v, 192, POLY));
    PowersAdd(v, 192, 47, POLY);
  }

  lemma Power245(v: bv8)
    ensures MulXPow(v, 245, POLY) == Linear(v, 0x9f, 0x97, 0x87, 0xa7, 0xe7, 0x67, 0xce, 0x35)
  {
    Power240(v);
    Power5(MulXPow(v, 240, POLY));
    PowersAdd(v, 240, 5, POLY);
  }

  /** The two tables as linear maps on the byte. */
  lemma AlphaTables(c: bv8)
    ensures MulAlpha(c) == Join(Linear(c, 0xe1, 0x6b, 0xd6, 0x05, 0x0a, 0x14, 0x28, 0x50),
                                Linear(c, 0x9f, 0x97, 0x87, 0xa7, 0xe7, 0x67, 0xce, 0x35),
                                Linear(c, 0xcf, 0x37, 0x6e, 0xdc, 0x11, 0x22, 0x44, 0x88),
                                Linear(c, 0x13, 0x26, 0x4c, 0x98, 0x99, 0x9b, 0x9f, 0x97))
    ensures DivAlpha(c) == Join(Linear(c, 0x18, 0x30, 0x60, 0xc0, 0x29, 0x52, 0xa4, 0xe1),
                                Linear(c, 0x0f, 0x1e, 0x3c, 0x78, 0xf0, 0x49, 0x92, 0x8d),
                                Linear(c, 0x40, 0x80, 0xa9, 0xfb, 0x5f, 0xbe, 0xd5, 0x03),
                                Linear(c, 0xcd, 0x33, 0x66, 0xcc, 0x31, 0x62, 0xc4, 0x21))
  {
    hide Linear, MulXPow, Join;
    Power23(c);
    Power245(c);
    Power48(c);
    Power239(c);
    Power16(c);
    Power39(c);
    Power6(c);
    Power64(c);
  }
}
