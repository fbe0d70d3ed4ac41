/** The byte tables of lib/src/common/liblte_security.cc and the facts the ciphers need about them:
    `S` and `SQ` are permutations of the 256 byte values, and `X_TIME` is multiplication by x in
    the Rijndael field. */
module SBoxes {

  /** Entry `i` of a 16-entry row. */
  function Pick(i: bv8, v0: bv8, v1: bv8, v2: bv8, v3: bv8, v4: bv8, v5: bv8, v6: bv8, v7: bv8,
                v8: bv8, v9: bv8, v10: bv8, v11: bv8, v12: bv8, v13: bv8, v14: bv8, v15: bv8): bv8
  {
    if i < 8 then
      if i < 4 then
        if i < 2 then (if i < 1 then v0 else v1) else (if i < 3 then v2 else v3)
      else
        if i < 6 then (if i < 5 then v4 else v5) else (if i < 7 then v6 else v7)
    else
      if i < 12 then
        if i < 10 then (if i < 9 then v8 else v9) else (if i < 11 then v10 else v11)
      else
        if i < 14 then (if i < 13 then v12 else v13) else (if i < 15 then v14 else v15)
  }

  /** Table `S`: the Rijndael S-box, also SNOW 3G's SR. */
  function S(x: bv8): bv8 {
    var lo := x & 15;
    Pick(x >> 4,
         Pick(lo,  99, 124, 119, 123, 242, 107, 111, 197,  48,   1, 103,  43, 254, 215, 171, 118),
         Pick(lo, 202, 130, 201, 125, 250,  89,  71, 240, 173, 212, 162, 175, 156, 164, 114, 192),
         Pick(lo, 183, 253, 147,  38,  54,  63, 247, 204,  52, 165, 229, 241, 113, 216,  49,  21),
         Pick(lo,   4, 199,  35, 195,  24, 150,   5, 154,   7,  18, 128, 226, 235,  39, 178, 117),
         Pick(lo,   9, 131,  44,  26,  27, 110,  90, 160,  82,  59, 214, 179,  41, 227,  47, 132),
         Pick(lo,  83, 209,   0, 237,  32, 252, 177,  91, 106, 203, 190,  57,  74,  76,  88, 207),
         Pick(lo, 208, 239, 170, 251,  67,  77,  51, 133,  69, 249,   2, 127,  80,  60, 159, 168),
         Pick(lo,  81, 163,  64, 143, 146, 157,  56, 245, 188, 182, 218,  33,  16, 255, 243, 210),
         Pick(lo, 205,  12,  19, 236,  95, 151,  68,  23, 196, 167, 126,  61, 100,  93,  25, 115),
         Pick(lo,  96, 129,  79, 220,  34,  42, 144, 136,  70, 238, 184,  20, 222,  94,  11, 219),
         Pick(lo, 224,  50,  58,  10,  73,   6,  36,  92, 194, 211, 172,  98, 145, 149, 228, 121),
         Pick(lo, 231, 200,  55, 109, 141, 213,  78, 169, 108,  86, 244, 234, 101, 122, 174,   8),
         Pick(lo, 186, 120,  37,  46,  28, 166, 180, 198, 232, 221, 116,  31,  75, 189, 139, 138),
         Pick(lo, 112,  62, 181, 102,  72,   3, 246,  14,  97,  53,  87, 185, 134, 193,  29, 158),
         Pick(lo, 225, 248, 152,  17, 105, 217, 142, 148, 155,  30, 135, 233, 206,  85,  40, 223),
         Pick(lo, 140, 161, 137,  13, 191, 230,  66, 104,  65, 153,  45,  15, 176,  84, 187,  22))
  }

  /** The table that undoes `S`. */
  function SInverse(x: bv8): bv8 {
    var lo := x & 15;
    Pick(x >> 4,
         Pick(lo,  82,   9, 106, 213,  48,  54, 165,  56, 191,  64, 163, 158, 129, 243, 215, 251),
         Pick(lo, 124, 227,  57, 130, 155,  47, 255, 135,  52, 142,  67,  68, 196, 222, 233, 203),
         Pick(lo,  84, 123, 148,  50, 166, 194,  35,  61, 238,  76, 149,  11,  66, 250, 195,  78),
         Pick(lo,   8,  46, 161, 102,  40, 217,  36, 178, 118,  91, 162,  73, 109, 139, 209,  37),
         Pick(lo, 114, 248, 246, 100, 134, 104, 152,  22, 212, 164,  92, 204,  93, 101, 182, 146),
         Pick(lo, 108, 112,  72,  80, 253, 237, 185, 218,  94,  21,  70,  87, 167, 141, 157, 132),
         Pick(lo, 144, 216, 171,   0, 140, 188, 211,  10, 247, 228,  88,   5, 184, 179,  69,   6),
         Pick(lo, 208,  44,  30, 143, 202,  63,  15,   2, 193, 175, 189,   3,   1,  19, 138, 107),
         Pick(lo,  58, 145,  17,  65,  79, 103, 220, 234, 151, 242, 207, 206, 240, 180, 230, 115),
         Pick(lo, 150, 172, 116,  34, 231, 173,  53, 133, 226, 249,  55, 232,  28, 117, 223, 110),
         Pick(lo,  71, 241,  26, 113,  29,  41, 197, 137, 111, 183,  98,  14, 170,  24, 190,  27),
         Pick(lo, 252,  86,  62,  75, 198, 210, 121,  32, 154, 219, 192, 254, 120, 205,  90, 244),
         Pick(lo,  31, 221, 168,  51, 136,   7, 199,  49, 177,  18,  16,  89,  39, 128, 236,  95),
         Pick(lo,  96,  81, 127, 169,  25, 181,  74,  13,  45, 229, 122, 159, 147, 201, 156, 239),
         Pick(lo, 160, 224,  59,  77, 174,  42, 245, 176, 200, 235, 187,  60, 131,  83, 153,  97),
         Pick(lo,  23,  43,   4, 126, 186, 119, 214,  38, 225, 105,  20,  99,  85,  33,  12, 125))
  }

  /** Table `SQ`, used by SNOW 3G's S2. */
  function SQ(x: bv8): bv8 {
    var lo := x & 15;
    Pick(x >> 4,
         Pick(lo, 0x25, 0x24, 0x73, 0x67, 0xD7, 0xAE, 0x5C, 0x30, 0xA4, 0xEE, 0x6E, 0xCB, 0x7D, 0xB5, 0x82, 0xDB),
         Pick(lo, 0xE4, 0x8E, 0x48, 0x49, 0x4F, 0x5D, 0x6A, 0x78, 0x70, 0x88, 0xE8, 0x5F, 0x5E, 0x84, 0x65, 0xE2),
         Pick(lo, 0xD8, 0xE9, 0xCC, 0xED, 0x40, 0x2F, 0x11, 0x28, 0x57, 0xD2, 0xAC, 0xE3, 0x4A, 0x15, 0x1B, 0xB9),
         Pick(lo, 0xB2, 0x80, 0x85, 0xA6, 0x2E, 0x02, 0x47, 0x29, 0x07, 0x4B, 0x0E, 0xC1, 0x51, 0xAA, 0x89, 0xD4),
         Pick(lo, 0xCA, 0x01, 0x46, 0xB3, 0xEF, 0xDD, 0x44, 0x7B, 0xC2, 0x7F, 0xBE, 0xC3, 0x9F, 0x20, 0x4C, 0x64),
         Pick(lo, 0x83, 0xA2, 0x68, 0x42, 0x13, 0xB4, 0x41, 0xCD, 0xBA, 0xC6, 0xBB, 0x6D, 0x4D, 0x71, 0x21, 0xF4),
         Pick(lo, 0x8D, 0xB0, 0xE5, 0x93, 0xFE, 0x8F, 0xE6, 0xCF, 0x43, 0x45, 0x31, 0x22, 0x37, 0x36, 0x96, 0xFA),
         Pick(lo, 0xBC, 0x0F, 0x08, 0x52, 0x1D, 0x55, 0x1A, 0xC5, 0x4E, 0x23, 0x69, 0x7A, 0x92, 0xFF, 0x5B, 0x5A),
         Pick(lo, 0xEB, 0x9A, 0x1C, 0xA9, 0xD1, 0x7E, 0x0D, 0xFC, 0x50, 0x8A, 0xB6, 0x62, 0xF5, 0x0A, 0xF8, 0xDC),
         Pick(lo, 0x03, 0x3C, 0x0C, 0x39, 0xF1, 0xB8, 0xF3, 0x3D, 0xF2, 0xD5, 0x97, 0x66, 0x81, 0x32, 0xA0, 0x00),
         Pick(lo, 0x06, 0xCE, 0xF6, 0xEA, 0xB7, 0x17, 0xF7, 0x8C, 0x79, 0xD6, 0xA7, 0xBF, 0x8B, 0x3F, 0x1F, 0x53),
         Pick(lo, 0x63, 0x75, 0x35, 0x2C, 0x60, 0xFD, 0x27, 0xD3, 0x94, 0xA5, 0x7C, 0xA1, 0x05, 0x58, 0x2D, 0xBD),
         Pick(lo, 0xD9, 0xC7, 0xAF, 0x6B, 0x54, 0x0B, 0xE0, 0x38, 0x04, 0xC8, 0x9D, 0xE7, 0x14, 0xB1, 0x87, 0x9C),
         Pick(lo, 0xDF, 0x6F, 0xF9, 0xDA, 0x2A, 0xC4, 0x59, 0x16, 0x74, 0x91, 0xAB, 0x26, 0x61, 0x76, 0x34, 0x2B),
         Pick(lo, 0xAD, 0x99, 0xFB, 0x72, 0xEC, 0x33, 0x12, 0xDE, 0x98, 0x3B, 0xC0, 0x9B, 0x3E, 0x18, 0x10, 0x3A),
         Pick(lo, 0x56, 0xE1, 0x77, 0xC9, 0x1E, 0x9E, 0x95, 0xA3, 0x90, 0x19, 0xA8, 0x6C, 0x09, 0xD0, 0xF0, 0x86))
  }

  /** The table that undoes `SQ`. */
  function SQInverse(x: bv8): bv8 {
    var lo := x & 15;
    Pick(x >> 4,
         Pick(lo, 0x9F, 0x41, 0x35, 0x90, 0xC8, 0xBC, 0xA0, 0x38, 0x72, 0xFC, 0x8D, 0xC5, 0x92, 0x86, 0x3A, 0x71),
         Pick(lo, 0xEE, 0x26, 0xE6, 0x54, 0xCC, 0x2D, 0xD7, 0xA5, 0xED, 0xF9, 0x76, 0x2E, 0x82, 0x74, 0xF4, 0xAE),
         Pick(lo, 0x4D, 0x5E, 0x6B, 0x79, 0x01, 0x00, 0xDB, 0xB6, 0x27, 0x37, 0xD4, 0xDF, 0xB3, 0xBE, 0x34, 0x25),
         Pick(lo, 0x07, 0x6A, 0x9D, 0xE5, 0xDE, 0xB2, 0x6D, 0x6C, 0xC7, 0x93, 0xEF, 0xE9, 0x91, 0x97, 0xEC, 0xAD),
         Pick(lo, 0x24, 0x56, 0x53, 0x68, 0x46, 0x69, 0x42, 0x36, 0x12, 0x13, 0x2C, 0x39, 0x4E, 0x5C, 0x78, 0x14),
         Pick(lo, 0x88, 0x3C, 0x73, 0xAF, 0xC4, 0x75, 0xF0, 0x28, 0xBD, 0xD6, 0x7F, 0x7E, 0x06, 0x15, 0x1C, 0x1B),
         Pick(lo, 0xB4, 0xDC, 0x8B, 0xB0, 0x4F, 0x1E, 0x9B, 0x03, 0x52, 0x7A, 0x16, 0xC3, 0xFB, 0x5B, 0x0A, 0xD1),
         Pick(lo, 0x18, 0x5D, 0xE3, 0x02, 0xD8, 0xB1, 0xDD, 0xF2, 0x17, 0xA8, 0x7B, 0x47, 0xBA, 0x0C, 0x85, 0x49),
         Pick(lo, 0x31, 0x9C, 0x0E, 0x50, 0x1D, 0x32, 0xFF, 0xCE, 0x19, 0x3E, 0x89, 0xAC, 0xA7, 0x60, 0x11, 0x65),
         Pick(lo, 0xF8, 0xD9, 0x7C, 0x63, 0xB8, 0xF6, 0x6E, 0x9A, 0xE8, 0xE1, 0x81, 0xEB, 0xCF, 0xCA, 0xF5, 0x4C),
         Pick(lo, 0x9E, 0xBB, 0x51, 0xF7, 0x08, 0xB9, 0x33, 0xAA, 0xFA, 0x83, 0x3D, 0xDA, 0x2A, 0xE0, 0x05, 0xC2),
         Pick(lo, 0x61, 0xCD, 0x30, 0x43, 0x55, 0x0D, 0x8A, 0xA4, 0x95, 0x2F, 0x58, 0x5A, 0x70, 0xBF, 0x4A, 0xAB),
         Pick(lo, 0xEA, 0x3B, 0x48, 0x4B, 0xD5, 0x77, 0x59, 0xC1, 0xC9, 0xF3, 0x40, 0x0B, 0x22, 0x57, 0xA1, 0x67),
         Pick(lo, 0xFD, 0x84, 0x29, 0xB7, 0x3F, 0x99, 0xA9, 0x04, 0x20, 0xC0, 0xD3, 0x0F, 0x8F, 0x45, 0xE7, 0xD0),
         Pick(lo, 0xC6, 0xF1, 0x1F, 0x2B, 0x10, 0x62, 0x66, 0xCB, 0x1A, 0x21, 0xA3, 0x80, 0xE4, 0x23, 0x09, 0x44),
         Pick(lo, 0xFE, 0x94, 0x98, 0x96, 0x5F, 0x8C, 0xA2, 0xA6, 0x8E, 0xD2, 0x6F, 0xE2, 0x87, 0xB5, 0x64, 0x7D))
  }

  /** Table `X_TIME`. */
  function XTime(x: bv8): bv8 {
    var lo := x & 15;
    Pick(x >> 4,
         Pick(lo,   0,   2,   4,   6,   8,  10,  12,  14,  16,  18,  20,  22,  24,  26,  28,  30),
         Pick(lo,  32,  34,  36,  38,  40,  42,  44,  46,  48,  50,  52,  54,  56,  58,  60,  62),
         Pick(lo,  64,  66,  68,  70,  72,  74,  76,  78,  80,  82,  84,  86,  88,  90,  92,  94),
         Pick(lo,  96,  98, 100, 102, 104, 106, 108, 110, 112, 114, 116, 118, 120, 122, 124, 126),
         Pick(lo, 128, 130, 132, 134, 136, 138, 140, 142, 144, 146, 148, 150, 152, 154, 156, 158),
         Pick(lo, 160, 162, 164, 166, 168, 170, 172, 174, 176, 178, 180, 182, 184, 186, 188, 190),
         Pick(lo, 192, 194, 196, 198, 200, 202, 204, 206, 208, 210, 212, 214, 216, 218, 220, 222),
         Pick(lo, 224, 226, 228, 230, 232, 234, 236, 238, 240, 242, 244, 246, 248, 250, 252, 254),
         Pick(lo,  27,  25,  31,  29,  19,  17,  23,  21,  11,   9,  15,  13,   3,   1,   7,   5),
         Pick(lo,  59,  57,  63,  61,  51,  49,  55,  53,  43,  41,  47,  45,  35,  33,  39,  37),
         Pick(lo,  91,  89,  95,  93,  83,  81,  87,  85,  75,  73,  79,  77,  67,  65,  71,  69),
         Pick(lo, 123, 121, 127, 125, 115, 113, 119, 117, 107, 105, 111, 109,  99,  97, 103, 101),
         Pick(lo, 155, 153, 159, 157, 147, 145, 151, 149, 139, 137, 143, 141, 131, 129, 135, 133),
         Pick(lo, 187, 185, 191, 189, 179, 177, 183, 181, 171, 169, 175, 173, 163, 161, 167, 165),
         Pick(lo, 219, 217, 223, 221, 211, 209, 215, 213, 203, 201, 207, 205, 195, 193, 199, 197),
         Pick(lo, 251, 249, 255, 253, 243, 241, 247, 245, 235, 233, 239, 237, 227, 225, 231, 229))
  }

  lemma SInverseUndoesS(x: bv8)
    ensures SInverse(S(x)) == x
  {
  }

  lemma SUndoesSInverse(x: bv8)
    ensures S(SInverse(x)) == x
  {
  }

  lemma SQInverseUndoesSQ(x: bv8)
    ensures SQInverse(SQ(x)) == x
  {
  }

  lemma SQUndoesSQInverse(x: bv8)
    ensures SQ(SQInverse(x)) == x
  {
  }

  /** `X_TIME[x]` is x times the polynomial "x", reduced by 0x1b. */
  lemma XTimeDoubles(x: bv8)
    ensures XTime(x) == (x << 1) ^ (if x & 0x80 != 0 then 0x1b else 0)
  {
  }
}
