/** The S-box of Rijndael as FIPS 197 section 5.1.1 defines it: the inverse in the field of 256 elements
    modulo x^8 + x^4 + x^3 + x + 1, then an affine map over the bits. */
module SBoxField {
  import opened SBoxes
  import opened SBoxTables
  import opened AlphaField
  import opened MixColumns

  function Scaled(b: bv8, a: bv8): bv8 { if b & 1 == 1 then a else 0 }

  /** The sum of those multiples that the bits of `b` select. */
  function Two(a0: bv8, a1: bv8, b: bv8): bv8 { Xor(Scaled(b, a0), Scaled(b >> 1, a1)) }

  function Four(a0: bv8, a1: bv8, a2: bv8, a3: bv8, b: bv8): bv8 { Xor(Two(a0, a1, b), Two(a2, a3, b >> 2)) }

  function Eight(a0: bv8, a1: bv8, a2: bv8, a3: bv8, a4: bv8, a5: bv8, a6: bv8, a7: bv8, b: bv8): bv8 {
    Xor(Four(a0, a1, a2, a3, b), Four(a4, a5, a6, a7, b >> 4))
  }

  /** The product of two field elements: a times every power of x in b. */
  function Product(a: bv8, b: bv8): bv8 {
    var a1 := MulX(a, 0x1b);
    var a2 := MulX(a1, 0x1b);
    var a3 := MulX(a2, 0x1b);
    var a4 := MulX(a3, 0x1b);
    var a5 := MulX(a4, 0x1b);
    var a6 := MulX(a5, 0x1b);
    var a7 := MulX(a6, 0x1b);
    Eight(a, a1, a2, a3, a4, a5, a6, a7, b)
  }

  function RotatedLeft(y: bv8, n: nat): bv8
    requires n < 8
  {
    (y << n) | (y >> (8 - n))
  }

  /** Bit i of the result is y_i + y_(i+4) + y_(i+5) + y_(i+6) + y_(i+7) + c_i with c = 0x63. */
  function Affine(y: bv8): bv8 {
    y ^ RotatedLeft(y, 1) ^ RotatedLeft(y, 2) ^ RotatedLeft(y, 3) ^ RotatedLeft(y, 4) ^ 0x63
  }

  function Unaffine(s: bv8): bv8 { RotatedLeft(s, 1) ^ RotatedLeft(s, 3) ^ RotatedLeft(s, 6) ^ 0x05 }

  lemma AffineIsUndone(y: bv8)
    ensures Unaffine(Affine(y)) == y
  {
  }

  lemma UnaffineIsUndone(s: bv8)
    ensures Affine(Unaffine(s)) == s
  {
  }

  lemma ShiftedSum(y: bv8, z: bv8)
    ensures Xor(y, z) >> 1 == Xor(y >> 1, z >> 1)
    ensures Xor(y, z) >> 2 == Xor(y >> 2, z >> 2)
    ensures Xor(y, z) >> 4 == Xor(y >> 4, z >> 4)
  {
  }

  lemma ScaledSum(y: bv8, z: bv8, a: bv8)
    ensures Scaled(Xor(y, z), a) == Xor(Scaled(y, a), Scaled(z, a))
  {
  }

  lemma FoldReordered(p: bv8, q: bv8, r: bv8, s: bv8, t: bv8, u: bv8)
    requires t == Fold(Quad(p, q, r, s)) && u == Fold(Quad(p, r, q, s))
    ensures t == u
  {
    hide Fold;
    FoldOpened(p, q, r, s, t);
    FoldOpened(p, r, q, s, u);
  }

  lemma SumOfSums(p: bv8, q: bv8, r: bv8, s: bv8)
    ensures Xor(Xor(p, q), Xor(r, s)) == Xor(Xor(p, r), Xor(q, s))
  {
    hide Xor;
    FoldReordered(p, q, r, s, Xor(Xor(p, q), Xor(r, s)), Xor(Xor(p, r), Xor(q, s)));
  }

  lemma TwoSum(a0: bv8, a1: bv8, y: bv8, z: bv8)
    ensures Two(a0, a1, Xor(y, z)) == Xor(Two(a0, a1, y), Two(a0, a1, z))
  {
    hide Scaled, Xor;
    ShiftedSum(y, z);
    ScaledSum(y, z, a0);
    ScaledSum(y >> 1, z >> 1, a1);
    SumOfSums(Scaled(y, a0), Scaled(z, a0), Scaled(y >> 1, a1), Scaled(z >> 1, a1));
  }

  lemma FourSum(a0: bv8, a1: bv8, a2: bv8, a3: bv8, y: bv8, z: bv8)
    ensures Four(a0, a1, a2, a3, Xor(y, z)) == Xor(Four(a0, a1, a2, a3, y), Four(a0, a1, a2, a3, z))
  {
    hide Two, Xor;
    ShiftedSum(y, z);
    TwoSum(a0, a1, y, z);
    TwoSum(a2, a3, y >> 2, z >> 2);
    SumOfSums(Two(a0, a1, y), Two(a0, a1, z), Two(a2, a3, y >> 2), Two(a2, a3, z >> 2));
  }

  lemma EightSum(a0: bv8, a1: bv8, a2: bv8, a3: bv8, a4: bv8, a5: bv8, a6: bv8, a7: bv8, y: bv8, z: bv8)
    ensures Eight(a0, a1, a2, a3, a4, a5, a6, a7, Xor(y, z))
            == Xor(Eight(a0, a1, a2, a3, a4, a5, a6, a7, y), Eight(a0, a1, a2, a3, a4, a5, a6, a7, z))
  {
    hide Four, Xor;
    ShiftedSum(y, z);
    FourSum(a0, a1, a2, a3, y, z);
    FourSum(a4, a5, a6, a7, y >> 4, z >> 4);
    SumOfSums(Four(a0, a1, a2, a3, y), Four(a0, a1, a2, a3, z), Four(a4, a5, a6, a7, y >> 4),
              Four(a4, a5, a6, a7, z >> 4));
  }

  lemma ProductIsLinear(x: bv8, y: bv8, z: bv8)
    ensures Product(x, Xor(y, z)) == Xor(Product(x, y), Product(x, z))
  {
    hide Eight, MulX, Xor;
    var a1 := MulX(x, 0x1b);
    var a2 := MulX(a1, 0x1b);
    var a3 := MulX(a2, 0x1b);
    var a4 := MulX(a3, 0x1b);
    var a5 := MulX(a4, 0x1b);
    var a6 := MulX(a5, 0x1b);
    EightSum(x, a1, a2, a3, a4, a5, a6, MulX(a6, 0x1b), y, z);
  }

  // ---------- by ranges of the first factor ----------

  lemma NoZeroDivisors0(x: bv8, d: bv8)
    requires 0 < x <= 0x1f && Product(x, d) == 0
    ensures d == 0
  {
  }

  lemma NoZeroDivisors1(x: bv8, d: bv8)
    requires 0x20 <= x <= 0x3f && Product(x, d) == 0
    ensures d == 0
  {
  }

  lemma NoZeroDivisors2(x: bv8, d: bv8)
    requires 0x40 <= x <= 0x5f && Product(x, d) == 0
    ensures d == 0
  {
  }

  lemma NoZeroDivisors3(x: bv8, d: bv8)
    requires 0x60 <= x <= 0x7f && Product(x, d) == 0
    ensures d == 0
  {
  }

  lemma NoZeroDivisors4(x: bv8, d: bv8)
    requires 0x80 <= x <= 0x9f && Product(x, d) == 0
    ensures d == 0
  {
  }

  lemma NoZeroDivisors5(x: bv8, d: bv8)
    requires 0xa0 <= x <= 0xbf && Product(x, d) == 0
    ensures d == 0
  {
  }

  lemma NoZeroDivisors6(x: bv8, d: bv8)
    requires 0xc0 <= x <= 0xdf && Product(x, d) == 0
    ensures d == 0
  {
  }

  lemma NoZeroDivisors7(x: bv8, d: bv8)
    requires 0xe0 <= x <= 0xff && Product(x, d) == 0
    ensures d == 0
  {
  }

  /** The table holds the affine image of the inverse of `x`. */
  predicate Inverted(x: bv8) { Product(x, Unaffine(S(x))) == 1 }

  lemma Products0Low()
    ensures Product(0x01, Unaffine(0x7c)) == 1 && Product(0x02, Unaffine(0x77)) == 1
    ensures Product(0x03, Unaffine(0x7b)) == 1 && Product(0x04, Unaffine(0xf2)) == 1
    ensures Product(0x05, Unaffine(0x6b)) == 1 && Product(0x06, Unaffine(0x6f)) == 1
    ensures Product(0x07, Unaffine(0xc5)) == 1
  {
  }

  lemma Products0High()
    ensures Product(0x08, Unaffine(0x30)) == 1 && Product(0x09, Unaffine(0x01)) == 1
    ensures Product(0x0a, Unaffine(0x67)) == 1 && Product(0x0b, Unaffine(0x2b)) == 1
    ensures Product(0x0c, Unaffine(0xfe)) == 1 && Product(0x0d, Unaffine(0xd7)) == 1
    ensures Product(0x0e, Unaffine(0xab)) == 1 && Product(0x0f, Unaffine(0x76)) == 1
  {
  }

  lemma Products1Low()
    ensures Product(0x10, Unaffine(0xca)) == 1 && Product(0x11, Unaffine(0x82)) == 1
    ensures Product(0x12, Unaffine(0xc9)) == 1 && Product(0x13, Unaffine(0x7d)) == 1
    ensures Product(0x14, Unaffine(0xfa)) == 1 && Product(0x15, Unaffine(0x59)) == 1
    ensures Product(0x16, Unaffine(0x47)) == 1 && Product(0x17, Unaffine(0xf0)) == 1
  {
  }

  lemma Products1High()
    ensures Product(0x18, Unaffine(0xad)) == 1 && Product(0x19, Unaffine(0xd4)) == 1
    ensures Product(0x1a, Unaffine(0xa2)) == 1 && Product(0x1b, Unaffine(0xaf)) == 1
    ensures Product(0x1c, Unaffine(0x9c)) == 1 && Product(0x1d, Unaffine(0xa4)) == 1
    ensures Product(0x1e, Unaffine(0x72)) == 1 && Product(0x1f, Unaffine(0xc0)) == 1
  {
  }

  lemma Products2Low()
    ensures Product(0x20, Unaffine(0xb7)) == 1 && Product(0x21, Unaffine(0xfd)) == 1
    ensures Product(0x22, Unaffine(0x93)) == 1 && Product(0x23, Unaffine(0x26)) == 1
    ensures Product(0x24, Unaffine(0x36)) == 1 && Product(0x25, Unaffine(0x3f)) == 1
    ensures Product(0x26, Unaffine(0xf7)) == 1 && Product(0x27, Unaffine(0xcc)) == 1
  {
  }

  lemma Products2High()
    ensures Product(0x28, Unaffine(0x34)) == 1 && Product(0x29, Unaffine(0xa5)) == 1
    ensures Product(0x2a, Unaffine(0xe5)) == 1 && Product(0x2b, Unaffine(0xf1)) == 1
    ensures Product(0x2c, Unaffine(0x71)) == 1 && Product(0x2d, Unaffine(0xd8)) == 1
    ensures Product(0x2e, Unaffine(0x31)) == 1 && Product(0x2f, Unaffine(0x15)) == 1
  {
  }

  lemma Products3Low()
    ensures Product(0x30, Unaffine(0x04)) == 1 && Product(0x31, Unaffine(0xc7)) == 1
    ensures Product(0x32, Unaffine(0x23)) == 1 && Product(0x33, Unaffine(0xc3)) == 1
    ensures Product(0x34, Unaffine(0x18)) == 1 && Product(0x35, Unaffine(0x96)) == 1
    ensures Product(0x36, Unaffine(0x05)) == 1 && Product(0x37, Unaffine(0x9a)) == 1
  {
  }

  lemma Products3High()
    ensures Product(0x38, Unaffine(0x07)) == 1 && Product(0x39, Unaffine(0x12)) == 1
    ensures Product(0x3a, Unaffine(0x80)) == 1 && Product(0x3b, Unaffine(0xe2)) == 1
    ensures Product(0x3c, Unaffine(0xeb)) == 1 && Product(0x3d, Unaffine(0x27)) == 1
    ensures Product(0x3e, Unaffine(0xb2)) == 1 && Product(0x3f, Unaffine(0x75)) == 1
  {
  }

  lemma Products4Low()
    ensures Product(0x40, Unaffine(0x09)) == 1 && Product(0x41, Unaffine(0x83)) == 1
    ensures Product(0x42, Unaffine(0x2c)) == 1 && Product(0x43, Unaffine(0x1a)) == 1
    ensures Product(0x44, Unaffine(0x1b)) == 1 && Product(0x45, Unaffine(0x6e)) == 1
    ensures Product(0x46, Unaffine(0x5a)) == 1 && Product(0x47, Unaffine(0xa0)) == 1
  {
  }

  lemma Products4High()
    ensures Product(0x48, Unaffine(0x52)) == 1 && Product(0x49, Unaffine(0x3b)) == 1
    ensures Product(0x4a, Unaffine(0xd6)) == 1 && Product(0x4b, Unaffine(0xb3)) == 1
    ensures Product(0x4c, Unaffine(0x29)) == 1 && Product(0x4d, Unaffine(0xe3)) == 1
    ensures Product(0x4e, Unaffine(0x2f)) == 1 && Product(0x4f, Unaffine(0x84)) == 1
  {
  }

  lemma Products5Low()
    ensures Product(0x50, Unaffine(0x53)) == 1 && Product(0x51, Unaffine(0xd1)) == 1
    ensures Product(0x52, Unaffine(0x00)) == 1 && Product(0x53, Unaffine(0xed)) == 1
    ensures Product(0x54, Unaffine(0x20)) == 1 && Product(0x55, Unaffine(0xfc)) == 1
    ensures Product(0x56, Unaffine(0xb1)) == 1 && Product(0x57, Unaffine(0x5b)) == 1
  {
  }

  lemma Products5High()
    ensures Product(0x58, Unaffine(0x6a)) == 1 && Product(0x59, Unaffine(0xcb)) == 1
    ensures Product(0x5a, Unaffine(0xbe)) == 1 && Product(0x5b, Unaffine(0x39)) == 1
    ensures Product(0x5c, Unaffine(0x4a)) == 1 && Product(0x5d, Unaffine(0x4c)) == 1
    ensures Product(0x5e, Unaffine(0x58)) == 1 && Product(0x5f, Unaffine(0xcf)) == 1
  {
  }

  lemma Products6Low()
    ensures Product(0x60, Unaffine(0xd0)) == 1 && Product(0x61, Unaffine(0xef)) == 1
    ensures Product(0x62, Unaffine(0xaa)) == 1 && Product(0x63, Unaffine(0xfb)) == 1
    ensures Product(0x64, Unaffine(0x43)) == 1 && Product(0x65, Unaffine(0x4d)) == 1
    ensures Product(0x66, Unaffine(0x33)) == 1 && Product(0x67, Unaffine(0x85)) == 1
  {
  }

  lemma Products6High()
    ensures Product(0x68, Unaffine(0x45)) == 1 && Product(0x69, Unaffine(0xf9)) == 1
    ensures Product(0x6a, Unaffine(0x02)) == 1 && Product(0x6b, Unaffine(0x7f)) == 1
    ensures Product(0x6c, Unaffine(0x50)) == 1 && Product(0x6d, Unaffine(0x3c)) == 1
    ensures Product(0x6e, Unaffine(0x9f)) == 1 && Product(0x6f, Unaffine(0xa8)) == 1
  {
  }

  lemma Products7Low()
    ensures Product(0x70, Unaffine(0x51)) == 1 && Product(0x71, Unaffine(0xa3)) == 1
    ensures Product(0x72, Unaffine(0x40)) == 1 && Product(0x73, Unaffine(0x8f)) == 1
    ensures Product(0x74, Unaffine(0x92)) == 1 && Product(0x75, Unaffine(0x9d)) == 1
    ensures Product(0x76, Unaffine(0x38)) == 1 && Product(0x77, Unaffine(0xf5)) == 1
  {
  }

  lemma Products7High()
    ensures Product(0x78, Unaffine(0xbc)) == 1 && Product(0x79, Unaffine(0xb6)) == 1
    ensures Product(0x7a, Unaffine(0xda)) == 1 && Product(0x7b, Unaffine(0x21)) == 1
    ensures Product(0x7c, Unaffine(0x10)) == 1 && Product(0x7d, Unaffine(0xff)) == 1
    ensures Product(0x7e, Unaffine(0xf3)) == 1 && Product(0x7f, Unaffine(0xd2)) == 1
  {
  }

  lemma Products8Low()
    ensures Product(0x80, Unaffine(0xcd)) == 1 && Product(0x81, Unaffine(0x0c)) == 1
    ensures Product(0x82, Unaffine(0x13)) == 1 && Product(0x83, Unaffine(0xec)) == 1
    ensures Product(0x84, Unaffine(0x5f)) == 1 && Product(0x85, Unaffine(0x97)) == 1
    ensures Product(0x86, Unaffine(0x44)) == 1 && Product(0x87, Unaffine(0x17)) == 1
  {
  }

  lemma Products8High()
    ensures Product(0x88, Unaffine(0xc4)) == 1 && Product(0x89, Unaffine(0xa7)) == 1
    ensures Product(0x8a, Unaffine(0x7e)) == 1 && Product(0x8b, Unaffine(0x3d)) == 1
    ensures Product(0x8c, Unaffine(0x64)) == 1 && Product(0x8d, Unaffine(0x5d)) == 1
    ensures Product(0x8e, Unaffine(0x19)) == 1 && Product(0x8f, Unaffine(0x73)) == 1
  {
  }

  lemma Products9Low()
    ensures Product(0x90, Unaffine(0x60)) == 1 && Product(0x91, Unaffine(0x81)) == 1
    ensures Product(0x92, Unaffine(0x4f)) == 1 && Product(0x93, Unaffine(0xdc)) == 1
    ensures Product(0x94, Unaffine(0x22)) == 1 && Product(0x95, Unaffine(0x2a)) == 1
    ensures Product(0x96, Unaffine(0x90)) == 1 && Product(0x97, Unaffine(0x88)) == 1
  {
  }

  lemma Products9High()
    ensures Product(0x98, Unaffine(0x46)) == 1 && Product(0x99, Unaffine(0xee)) == 1
    ensures Product(0x9a, Unaffine(0xb8)) == 1 && Product(0x9b, Unaffine(0x14)) == 1
    ensures Product(0x9c, Unaffine(0xde)) == 1 && Product(0x9d, Unaffine(0x5e)) == 1
    ensures Product(0x9e, Unaffine(0x0b)) == 1 && Product(0x9f, Unaffine(0xdb)) == 1
  {
  }

  lemma ProductsALow()
    ensures Product(0xa0, Unaffine(0xe0)) == 1 && Product(0xa1, Unaffine(0x32)) == 1
    ensures Product(0xa2, Unaffine(0x3a)) == 1 && Product(0xa3, Unaffine(0x0a)) == 1
    ensures Product(0xa4, Unaffine(0x49)) == 1 && Product(0xa5, Unaffine(0x06)) == 1
    ensures Product(0xa6, Unaffine(0x24)) == 1 && Product(0xa7, Unaffine(0x5c)) == 1
  {
  }

  lemma ProductsAHigh()
    ensures Product(0xa8, Unaffine(0xc2)) == 1 && Product(0xa9, Unaffine(0xd3)) == 1
    ensures Product(0xaa, Unaffine(0xac)) == 1 && Product(0xab, Unaffine(0x62)) == 1
    ensures Product(0xac, Unaffine(0x91)) == 1 && Product(0xad, Unaffine(0x95)) == 1
    ensures Product(0xae, Unaffine(0xe4)) == 1 && Product(0xaf, Unaffine(0x79)) == 1
  {
  }

  lemma ProductsBLow()
    ensures Product(0xb0, Unaffine(0xe7)) == 1 && Product(0xb1, Unaffine(0xc8)) == 1
    ensures Product(0xb2, Unaffine(0x37)) == 1 && Product(0xb3, Unaffine(0x6d)) == 1
    ensures Product(0xb4, Unaffine(0x8d)) == 1 && Product(0xb5, Unaffine(0xd5)) == 1
    ensures Product(0xb6, Unaffine(0x4e)) == 1 && Product(0xb7, Unaffine(0xa9)) == 1
  {
  }

  lemma ProductsBHigh()
    ensures Product(0xb8, Unaffine(0x6c)) == 1 && Product(0xb9, Unaffine(0x56)) == 1
    ensures Product(0xba, Unaffine(0xf4)) == 1 && Product(0xbb, Unaffine(0xea)) == 1
    ensures Product(0xbc, Unaffine(0x65)) == 1 && Product(0xbd, Unaffine(0x7a)) == 1
    ensures Product(0xbe, Unaffine(0xae)) == 1 && Product(0xbf, Unaffine(0x08)) == 1
  {
  }

  lemma ProductsCLow()
    ensures Product(0xc0, Unaffine(0xba)) == 1 && Product(0xc1, Unaffine(0x78)) == 1
    ensures Product(0xc2, Unaffine(0x25)) == 1 && Product(0xc3, Unaffine(0x2e)) == 1
    ensures Product(0xc4, Unaffine(0x1c)) == 1 && Product(0xc5, Unaffine(0xa6)) == 1
    ensures Product(0xc6, Unaffine(0xb4)) == 1 && Product(0xc7, Unaffine(0xc6)) == 1
  {
  }

  lemma ProductsCHigh()
    ensures Product(0xc8, Unaffine(0xe8)) == 1 && Product(0xc9, Unaffine(0xdd)) == 1
    ensures Product(0xca, Unaffine(0x74)) == 1 && Product(0xcb, Unaffine(0x1f)) == 1
    ensures Product(0xcc, Unaffine(0x4b)) == 1 && Product(0xcd, Unaffine(0xbd)) == 1
    ensures Product(0xce, Unaffine(0x8b)) == 1 && Product(0xcf, Unaffine(0x8a)) == 1
  {
  }

  lemma ProductsDLow()
    ensures Product(0xd0, Unaffine(0x70)) == 1 && Product(0xd1, Unaffine(0x3e)) == 1
    ensures Product(0xd2, Unaffine(0xb5)) == 1 && Product(0xd3, Unaffine(0x66)) == 1
    ensures Product(0xd4, Unaffine(0x48)) == 1 && Product(0xd5, Unaffine(0x03)) == 1
    ensures Product(0xd6, Unaffine(0xf6)) == 1 && Product(0xd7, Unaffine(0x0e)) == 1
  {
  }

  lemma ProductsDHigh()
    ensures Product(0xd8, Unaffine(0x61)) == 1 && Product(0xd9, Unaffine(0x35)) == 1
    ensures Product(0xda, Unaffine(0x57)) == 1 && Product(0xdb, Unaffine(0xb9)) == 1
    ensures Product(0xdc, Unaffine(0x86)) == 1 && Product(0xdd, Unaffine(0xc1)) == 1
    ensures Product(0xde, Unaffine(0x1d)) == 1 && Product(0xdf, Unaffine(0x9e)) == 1
  {
  }

  lemma ProductsELow()
    ensures Product(0xe0, Unaffine(0xe1)) == 1 && Product(0xe1, Unaffine(0xf8)) == 1
    ensures Product(0xe2, Unaffine(0x98)) == 1 && Product(0xe3, Unaffine(0x11)) == 1
    ensures Product(0xe4, Unaffine(0x69)) == 1 && Product(0xe5, Unaffine(0xd9)) == 1
    ensures Product(0xe6, Unaffine(0x8e)) == 1 && Product(0xe7, Unaffine(0x94)) == 1
  {
  }

  lemma ProductsEHigh()
    ensures Product(0xe8, Unaffine(0x9b)) == 1 && Product(0xe9, Unaffine(0x1e)) == 1
    ensures Product(0xea, Unaffine(0x87)) == 1 && Product(0xeb, Unaffine(0xe9)) == 1
    ensures Product(0xec, Unaffine(0xce)) == 1 && Product(0xed, Unaffine(0x55)) == 1
    ensures Product(0xee, Unaffine(0x28)) == 1 && Product(0xef, Unaffine(0xdf)) == 1
  {
  }

  lemma ProductsFLow()
    ensures Product(0xf0, Unaffine(0x8c)) == 1 && Product(0xf1, Unaffine(0xa1)) == 1
    ensures Product(0xf2, Unaffine(0x89)) == 1 && Product(0xf3, Unaffine(0x0d)) == 1
    ensures Product(0xf4, Unaffine(0xbf)) == 1 && Product(0xf5, Unaffine(0xe6)) == 1
    ensures Product(0xf6, Unaffine(0x42)) == 1 && Product(0xf7, Unaffine(0x68)) == 1
  {
  }

  lemma ProductsFHigh()
    ensures Product(0xf8, Unaffine(0x41)) == 1 && Product(0xf9, Unaffine(0x99)) == 1
    ensures Product(0xfa, Unaffine(0x2d)) == 1 && Product(0xfb, Unaffine(0x0f)) == 1
    ensures Product(0xfc, Unaffine(0xb0)) == 1 && Product(0xfd, Unaffine(0x54)) == 1
    ensures Product(0xfe, Unaffine(0xbb)) == 1 && Product(0xff, Unaffine(0x16)) == 1
  {
  }

  lemma InverseInQuarter0(x: bv8)
    requires 0 < x <= 0x3f
    ensures Inverted(x)
  {
    hide S, Product, Unaffine;
    SRow0(); Products0Low(); Products0High();
    SRow1(); Products1Low(); Products1High();
    SRow2(); Products2Low(); Products2High();
    SRow3(); Products3Low(); Products3High();
  }

  lemma InverseInQuarter1(x: bv8)
    requires 0x40 <= x <= 0x7f
    ensures Inverted(x)
  {
    hide S, Product, Unaffine;
    SRow4(); Products4Low(); Products4High();
    SRow5(); Products5Low(); Products5High();
    SRow6(); Products6Low(); Products6High();
    SRow7(); Products7Low(); Products7High();
  }

  lemma InverseInQuarter2(x: bv8)
    requires 0x80 <= x <= 0xbf
    ensures Inverted(x)
  {
    hide S, Product, Unaffine;
    SRow8(); Products8Low(); Products8High();
    SRow9(); Products9Low(); Products9High();
    SRowA(); ProductsALow(); ProductsAHigh();
    SRowB(); ProductsBLow(); ProductsBHigh();
  }

  lemma InverseInQuarter3(x: bv8)
    requires 0xc0 <= x <= 0xff
    ensures Inverted(x)
  {
    hide S, Product, Unaffine;
    SRowC(); ProductsCLow(); ProductsCHigh();
    SRowD(); ProductsDLow(); ProductsDHigh();
    SRowE(); ProductsELow(); ProductsEHigh();
    SRowF(); ProductsFLow(); ProductsFHigh();
  }

  lemma NoZeroDivisors(x: bv8, d: bv8)
    requires x != 0 && Product(x, d) == 0
    ensures d == 0
  {
    hide Product;
    if x <= 0x1f { NoZeroDivisors0(x, d); }
    else if x <= 0x3f { NoZeroDivisors1(x, d); }
    else if x <= 0x5f { NoZeroDivisors2(x, d); }
    else if x <= 0x7f { NoZeroDivisors3(x, d); }
    else if x <= 0x9f { NoZeroDivisors4(x, d); }
    else if x <= 0xbf { NoZeroDivisors5(x, d); }
    else if x <= 0xdf { NoZeroDivisors6(x, d); }
    else { NoZeroDivisors7(x, d); }
  }

  lemma InverseInS(x: bv8)
    requires x != 0
    ensures Inverted(x)
  {
    hide Inverted;
    if x <= 0x3f { InverseInQuarter0(x); }
    else if x <= 0x7f { InverseInQuarter1(x); }
    else if x <= 0xbf { InverseInQuarter2(x); }
    else { InverseInQuarter3(x); }
  }

  lemma EqualWords(y: bv8, z: bv8)
    ensures Xor(y, z) == 0 <==> y == z
  {
  }

  lemma InverseIsUnique(x: bv8, y: bv8, z: bv8)
    requires x != 0 && Product(x, y) == 1 && Product(x, z) == 1
    ensures y == z
  {
    hide Product, Xor;
    ProductIsLinear(x, y, z);
    EqualWords(Product(x, y), Product(x, z));
    NoZeroDivisors(x, Xor(y, z));
    EqualWords(y, z);
  }

  lemma ZeroInS()
    ensures Affine(0) == S(0)
  {
  }

  lemma NothingTimesZero(y: bv8)
    ensures Product(0, y) == 0
  {
  }

  /** Table `S` at x is the affine image of y exactly when y is the inverse of x, or both are zero. */
  lemma SIsAffineOfInverse(x: bv8, y: bv8)
    ensures S(x) == Affine(y) <==> Product(x, y) == 1 || (x == 0 && y == 0)
  {
    hide Product, Affine, Unaffine, S;
    ZeroInS();
    NothingTimesZero(y);
    AffineIsUndone(y);
    AffineIsUndone(0);
    UnaffineIsUndone(S(x));
    if x != 0 {
      InverseInS(x);
      if Product(x, y) == 1 {
        InverseIsUnique(x, y, Unaffine(S(x)));
      }
    }
  }
}
