/** The example of FIPS 197 appendix B through the key schedule and the ten rounds, one lemma a round. */
module RijndaelTestSet {
  import opened SBoxes
  import opened SBoxTables
  import opened MixColumns
  import opened Rijndael
  import Machine = RijndaelMachine

  const K0: Block :=
    Block(Quad(0x2b, 0x7e, 0x15, 0x16), Quad(0x28, 0xae, 0xd2, 0xa6),
          Quad(0xab, 0xf7, 0x15, 0x88), Quad(0x09, 0xcf, 0x4f, 0x3c))

  const K1: Block :=
    Block(Quad(0xa0, 0xfa, 0xfe, 0x17), Quad(0x88, 0x54, 0x2c, 0xb1),
          Quad(0x23, 0xa3, 0x39, 0x39), Quad(0x2a, 0x6c, 0x76, 0x05))

  const K2: Block :=
    Block(Quad(0xf2, 0xc2, 0x95, 0xf2), Quad(0x7a, 0x96, 0xb9, 0x43),
          Quad(0x59, 0x35, 0x80, 0x7a), Quad(0x73, 0x59, 0xf6, 0x7f))

  const K3: Block :=
    Block(Quad(0x3d, 0x80, 0x47, 0x7d), Quad(0x47, 0x16, 0xfe, 0x3e),
          Quad(0x1e, 0x23, 0x7e, 0x44), Quad(0x6d, 0x7a, 0x88, 0x3b))

  const K4: Block :=
    Block(Quad(0xef, 0x44, 0xa5, 0x41), Quad(0xa8, 0x52, 0x5b, 0x7f),
          Quad(0xb6, 0x71, 0x25, 0x3b), Quad(0xdb, 0x0b, 0xad, 0x00))

  const K5: Block :=
    Block(Quad(0xd4, 0xd1, 0xc6, 0xf8), Quad(0x7c, 0x83, 0x9d, 0x87),
          Quad(0xca, 0xf2, 0xb8, 0xbc), Quad(0x11, 0xf9, 0x15, 0xbc))

  const K6: Block :=
    Block(Quad(0x6d, 0x88, 0xa3, 0x7a), Quad(0x11, 0x0b, 0x3e, 0xfd),
          Quad(0xdb, 0xf9, 0x86, 0x41), Quad(0xca, 0x00, 0x93, 0xfd))

  const K7: Block :=
    Block(Quad(0x4e, 0x54, 0xf7, 0x0e), Quad(0x5f, 0x5f, 0xc9, 0xf3),
          Quad(0x84, 0xa6, 0x4f, 0xb2), Quad(0x4e, 0xa6, 0xdc, 0x4f))

  const K8: Block :=
    Block(Quad(0xea, 0xd2, 0x73, 0x21), Quad(0xb5, 0x8d, 0xba, 0xd2),
          Quad(0x31, 0x2b, 0xf5, 0x60), Quad(0x7f, 0x8d, 0x29, 0x2f))

  const K9: Block :=
    Block(Quad(0xac, 0x77, 0x66, 0xf3), Quad(0x19, 0xfa, 0xdc, 0x21),
          Quad(0x28, 0xd1, 0x29, 0x41), Quad(0x57, 0x5c, 0x00, 0x6e))

  const K10: Block :=
    Block(Quad(0xd0, 0x14, 0xf9, 0xa8), Quad(0xc9, 0xee, 0x25, 0x89),
          Quad(0xe1, 0x3f, 0x0c, 0xc8), Quad(0xb6, 0x63, 0x0c, 0xa6))

  const B0: Block :=
    Block(Quad(0x19, 0x3d, 0xe3, 0xbe), Quad(0xa0, 0xf4, 0xe2, 0x2b),
          Quad(0x9a, 0xc6, 0x8d, 0x2a), Quad(0xe9, 0xf8, 0x48, 0x08))

  const B1: Block :=
    Block(Quad(0xa4, 0x9c, 0x7f, 0xf2), Quad(0x68, 0x9f, 0x35, 0x2b),
          Quad(0x6b, 0x5b, 0xea, 0x43), Quad(0x02, 0x6a, 0x50, 0x49))

  const B2: Block :=
    Block(Quad(0xaa, 0x8f, 0x5f, 0x03), Quad(0x61, 0xdd, 0xe3, 0xef),
          Quad(0x82, 0xd2, 0x4a, 0xd2), Quad(0x68, 0x32, 0x46, 0x9a))

  const B3: Block :=
    Block(Quad(0x48, 0x6c, 0x4e, 0xee), Quad(0x67, 0x1d, 0x9d, 0x0d),
          Quad(0x4d, 0xe3, 0xb1, 0x38), Quad(0xd6, 0x5f, 0x58, 0xe7))

  const B4: Block :=
    Block(Quad(0xe0, 0x92, 0x7f, 0xe8), Quad(0xc8, 0x63, 0x63, 0xc0),
          Quad(0xd9, 0xb1, 0x35, 0x50), Quad(0x85, 0xb8, 0xbe, 0x01))

  const B5: Block :=
    Block(Quad(0xf1, 0x00, 0x6f, 0x55), Quad(0xc1, 0x92, 0x4c, 0xef),
          Quad(0x7c, 0xc8, 0x8b, 0x32), Quad(0x5d, 0xb5, 0xd5, 0x0c))

  const B6: Block :=
    Block(Quad(0x26, 0x0e, 0x2e, 0x17), Quad(0x3d, 0x41, 0xb7, 0x7d),
          Quad(0xe8, 0x64, 0x72, 0xa9), Quad(0xfd, 0xd2, 0x8b, 0x25))

  const B7: Block :=
    Block(Quad(0x5a, 0x41, 0x42, 0xb1), Quad(0x19, 0x49, 0xdc, 0x1f),
          Quad(0xa3, 0xe0, 0x19, 0x65), Quad(0x7a, 0x8c, 0x04, 0x0c))

  const B8: Block :=
    Block(Quad(0xea, 0x83, 0x5c, 0xf0), Quad(0x04, 0x45, 0x33, 0x2d),
          Quad(0x65, 0x5d, 0x98, 0xad), Quad(0x85, 0x96, 0xb0, 0xc5))

  const B9: Block :=
    Block(Quad(0xeb, 0x40, 0xf2, 0x1e), Quad(0x59, 0x2e, 0x38, 0x84),
          Quad(0x8b, 0xa1, 0x13, 0xe7), Quad(0x1b, 0xc3, 0x42, 0xd2))

  const B10: Block :=
    Block(Quad(0x39, 0x25, 0x84, 0x1d), Quad(0x02, 0xdc, 0x09, 0xfb),
          Quad(0xdc, 0x11, 0x85, 0x97), Quad(0x19, 0x6a, 0x0b, 0x32))

  lemma Constants()
    ensures RoundConstant(1) == 0x01 && RoundConstant(2) == 0x02 && RoundConstant(3) == 0x04
    ensures RoundConstant(4) == 0x08 && RoundConstant(5) == 0x10 && RoundConstant(6) == 0x20
    ensures RoundConstant(7) == 0x40 && RoundConstant(8) == 0x80 && RoundConstant(9) == 0x1b
    ensures RoundConstant(10) == 0x36
  {
    assert RoundConstant(2) == 0x02;
    assert RoundConstant(3) == 0x04;
    assert RoundConstant(4) == 0x08;
    assert RoundConstant(5) == 0x10;
    assert RoundConstant(6) == 0x20;
    assert RoundConstant(7) == 0x40;
    assert RoundConstant(8) == 0x80;
    assert RoundConstant(9) == 0x1b;
  }

  lemma NextKey1()
    ensures NextKey(K0, 0x01) == K1
  {
    hide S;
    SRow0(); SRow3(); SRow4(); SRowC();
  }

  lemma NextKey2()
    ensures NextKey(K1, 0x02) == K2
  {
    hide S;
    SRow0(); SRow2(); SRow6(); SRow7();
  }

  lemma NextKey3()
    ensures NextKey(K2, 0x04) == K3
  {
    hide S;
    SRow5(); SRow7(); SRowF();
  }

  lemma NextKey4()
    ensures NextKey(K3, 0x08) == K4
  {
    hide S;
    SRow3(); SRow6(); SRow7(); SRow8();
  }

  lemma NextKey5()
    ensures NextKey(K4, 0x10) == K5
  {
    hide S;
    SRow0(); SRowA(); SRowD();
  }

  lemma NextKey6()
    ensures NextKey(K5, 0x20) == K6
  {
    hide S;
    SRow1(); SRowB(); SRowF();
  }

  lemma NextKey7()
    ensures NextKey(K6, 0x40) == K7
  {
    hide S;
    SRow0(); SRow9(); SRowC(); SRowF();
  }

  lemma NextKey8()
    ensures NextKey(K7, 0x80) == K8
  {
    hide S;
    SRow4(); SRowA(); SRowD();
  }

  lemma NextKey9()
    ensures NextKey(K8, 0x1b) == K9
  {
    hide S;
    SRow2(); SRow7(); SRow8();
  }

  lemma NextKey10()
    ensures NextKey(K9, 0x36) == K10
  {
    hide S;
    SRow0(); SRow5(); SRow6();
  }

  lemma Round1()
    ensures Round(B0, K1) == B1
  {
    hide S, XTime;
    SRow0(); SRow1(); SRow2(); SRow3(); SRow4(); SRow8(); SRow9(); SRowA(); SRowB(); SRowC(); SRowE(); SRowF();
    XTimeRow3(); XTimeRow4(); XTimeRow5(); XTimeRow6(); XTimeRow7(); XTimeRowB(); XTimeRowE(); XTimeRowF();
  }

  lemma Round2()
    ensures Round(B1, K2) == B2
  {
    hide S, XTime;
    SRow0(); SRow2(); SRow3(); SRow4(); SRow5(); SRow6(); SRow7(); SRow9(); SRowA(); SRowE(); SRowF();
    XTimeRow2(); XTimeRow4(); XTimeRow5(); XTimeRow6(); XTimeRow7(); XTimeRow8(); XTimeRow9(); XTimeRowA();
    XTimeRowB(); XTimeRowC(); XTimeRowD();
  }

  lemma Round3()
    ensures Round(B2, K3) == B3
  {
    hide S, XTime;
    SRow0(); SRow3(); SRow4(); SRow5(); SRow6(); SRow8(); SRow9(); SRowA(); SRowD(); SRowE();
    XTimeRow1(); XTimeRow2(); XTimeRow3(); XTimeRow5(); XTimeRow6(); XTimeRow9(); XTimeRowA(); XTimeRowC();
    XTimeRowE(); XTimeRowF();
  }

  lemma Round4()
    ensures Round(B3, K4) == B4
  {
    hide S, XTime;
    SRow0(); SRow1(); SRow3(); SRow4(); SRow5(); SRow6(); SRow9(); SRowB(); SRowD(); SRowE();
    XTimeRow0(); XTimeRow2(); XTimeRow3(); XTimeRow4(); XTimeRow5(); XTimeRow6(); XTimeRow7(); XTimeRow9();
    XTimeRowA(); XTimeRowC(); XTimeRowE(); XTimeRowF();
  }

  lemma Round5()
    ensures Round(B4, K5) == B5
  {
    hide S, XTime;
    SRow0(); SRow3(); SRow5(); SRow6(); SRow7(); SRow8(); SRow9(); SRowB(); SRowC(); SRowD(); SRowE();
    XTimeRow1(); XTimeRow2(); XTimeRow3(); XTimeRow5(); XTimeRow6(); XTimeRow7(); XTimeRow8(); XTimeRow9();
    XTimeRowA(); XTimeRowB(); XTimeRowC(); XTimeRowD(); XTimeRowE();
  }

  lemma Round6()
    ensures Round(B5, K6) == B6
  {
    hide S, XTime;
    SRow0(); SRow3(); SRow4(); SRow5(); SRow6(); SRow7(); SRow8(); SRow9(); SRowB(); SRowC(); SRowD(); SRowE();
    SRowF();
    XTimeRow0(); XTimeRow2(); XTimeRow4(); XTimeRow5(); XTimeRow6(); XTimeRow7(); XTimeRow8(); XTimeRow9();
    XTimeRowC(); XTimeRowE(); XTimeRowF();
  }

  lemma Round7()
    ensures Round(B6, K7) == B7
  {
    hide S, XTime;
    SRow0(); SRow1(); SRow2(); SRow3(); SRow4(); SRow6(); SRow7(); SRow8(); SRowA(); SRowB(); SRowD(); SRowE();
    SRowF();
    XTimeRow0(); XTimeRow2(); XTimeRow6(); XTimeRow7(); XTimeRow8(); XTimeRowC(); XTimeRowD(); XTimeRowF();
  }

  lemma Round8()
    ensures Round(B7, K8) == B8
  {
    hide S, XTime;
    SRow0(); SRow1(); SRow4(); SRow5(); SRow6(); SRow7(); SRow8(); SRowA(); SRowB(); SRowD(); SRowE();
    XTimeRow0(); XTimeRow1(); XTimeRow2(); XTimeRow3(); XTimeRow4(); XTimeRow5(); XTimeRow6(); XTimeRow8();
    XTimeRow9(); XTimeRowC(); XTimeRowE();
  }

  lemma Round9()
    ensures Round(B8, K9) == B9
  {
    hide S, XTime;
    SRow0(); SRow2(); SRow3(); SRow4(); SRow5(); SRow6(); SRow8(); SRow9(); SRowA(); SRowB(); SRowC(); SRowE();
    SRowF();
    XTimeRow0(); XTimeRow2(); XTimeRow5(); XTimeRow6(); XTimeRow7(); XTimeRow9(); XTimeRowA(); XTimeRowB();
    XTimeRowD(); XTimeRowE();
  }

  lemma Round10()
    ensures LastRound(B9, K10) == B10
  {
    hide S, XTime;
    SRow1(); SRow2(); SRow3(); SRow4(); SRow5(); SRow8(); SRowA(); SRowC(); SRowD(); SRowE(); SRowF();
  }

  lemma Schedule()
    ensures RoundKey(K0, 0) == K0 && RoundKey(K0, 1) == K1 && RoundKey(K0, 2) == K2 && RoundKey(K0, 3) == K3
    ensures RoundKey(K0, 4) == K4 && RoundKey(K0, 5) == K5 && RoundKey(K0, 6) == K6 && RoundKey(K0, 7) == K7
    ensures RoundKey(K0, 8) == K8 && RoundKey(K0, 9) == K9 && RoundKey(K0, 10) == K10
  {
    assert RoundKey(K0, 0) == K0;
    hide *;
    Constants();
    RoundKeyStep(K0, 1); NextKey1();
    RoundKeyStep(K0, 2); NextKey2();
    RoundKeyStep(K0, 3); NextKey3();
    RoundKeyStep(K0, 4); NextKey4();
    RoundKeyStep(K0, 5); NextKey5();
    RoundKeyStep(K0, 6); NextKey6();
    RoundKeyStep(K0, 7); NextKey7();
    RoundKeyStep(K0, 8); NextKey8();
    RoundKeyStep(K0, 9); NextKey9();
    RoundKeyStep(K0, 10); NextKey10();
  }

  lemma RoundStep(b: Block, rk: seq<Block>, n: nat)
    requires 0 < n < |rk|
    ensures Rounds(b, rk, n) == Round(Rounds(b, rk, n - 1), rk[n])
  {
    hide Round;
  }

  lemma FirstAddition(p: Block)
    requires p == Block(Quad(0x32, 0x43, 0xf6, 0xa8), Quad(0x88, 0x5a, 0x30, 0x8d),
                        Quad(0x31, 0x31, 0x98, 0xa2), Quad(0xe0, 0x37, 0x07, 0x34))
    ensures AddKey(p, K0) == B0
  {
  }

  lemma NoRound(b: Block, rk: seq<Block>)
    requires |rk| > 0
    ensures Rounds(b, rk, 0) == AddKey(b, rk[0])
  {
    hide AddKey;
  }

  ghost predicate Expanded(rk: seq<Block>) {
    && |rk| == 11 && rk[0] == K0 && rk[1] == K1 && rk[2] == K2 && rk[3] == K3 && rk[4] == K4 && rk[5] == K5
    && rk[6] == K6 && rk[7] == K7 && rk[8] == K8 && rk[9] == K9 && rk[10] == K10
  }

  lemma StatesTo5(p: Block, rk: seq<Block>)
    requires Expanded(rk) && AddKey(p, K0) == B0
    ensures Rounds(p, rk, 5) == B5
  {
    hide AddKey, Rounds, Round, LastRound;
    NoRound(p, rk);
    RoundStep(p, rk, 1); Round1();
    RoundStep(p, rk, 2); Round2();
    RoundStep(p, rk, 3); Round3();
    RoundStep(p, rk, 4); Round4();
    RoundStep(p, rk, 5); Round5();
  }

  lemma StatesTo9(p: Block, rk: seq<Block>)
    requires Expanded(rk) && Rounds(p, rk, 5) == B5
    ensures Rounds(p, rk, 9) == B9
  {
    hide AddKey, Rounds, Round, LastRound;
    RoundStep(p, rk, 6); Round6();
    RoundStep(p, rk, 7); Round7();
    RoundStep(p, rk, 8); Round8();
    RoundStep(p, rk, 9); Round9();
  }

  lemma ElevenKeys(rk: seq<Block>)
    requires rk == RoundKeys(K0)
    ensures Expanded(rk)
  {
    hide RoundKey;
    Schedule();
  }

  /** Key and plaintext of the appendix in, ciphertext out. */
  lemma PublishedBlock(key: Block, p: Block)
    requires key == Block(Quad(0x2b, 0x7e, 0x15, 0x16), Quad(0x28, 0xae, 0xd2, 0xa6),
                          Quad(0xab, 0xf7, 0x15, 0x88), Quad(0x09, 0xcf, 0x4f, 0x3c))
    requires p == Block(Quad(0x32, 0x43, 0xf6, 0xa8), Quad(0x88, 0x5a, 0x30, 0x8d),
                        Quad(0x31, 0x31, 0x98, 0xa2), Quad(0xe0, 0x37, 0x07, 0x34))
    ensures Encrypt(p, RoundKeys(key))
            == Block(Quad(0x39, 0x25, 0x84, 0x1d), Quad(0x02, 0xdc, 0x09, 0xfb),
                     Quad(0xdc, 0x11, 0x85, 0x97), Quad(0x19, 0x6a, 0x0b, 0x32))
  {
    assert key == K0 && B10 == Block(Quad(0x39, 0x25, 0x84, 0x1d), Quad(0x02, 0xdc, 0x09, 0xfb),
                                        Quad(0xdc, 0x11, 0x85, 0x97), Quad(0x19, 0x6a, 0x0b, 0x32));
    hide AddKey, Rounds, Round, LastRound, RoundKeys, Encrypt;
    ElevenKeys(RoundKeys(K0));
    FirstAddition(p);
    StatesTo5(p, RoundKeys(K0));
    StatesTo9(p, RoundKeys(K0));
    Round10();
    EncryptOpened(p, RoundKeys(K0));
  }

  lemma EncryptOpened(p: Block, rk: seq<Block>)
    requires |rk| == 11
    ensures Encrypt(p, rk) == LastRound(Rounds(p, rk, 9), rk[10])
  {
    hide LastRound, Rounds;
  }

  lemma LoadedBlock(s: seq<bv8>, b: Block)
    requires |s| == 16 && b == Machine.FromBytes(s)
    ensures b == Block(Quad(s[0], s[1], s[2], s[3]), Quad(s[4], s[5], s[6], s[7]),
                       Quad(s[8], s[9], s[10], s[11]), Quad(s[12], s[13], s[14], s[15]))
  {
  }

  lemma SameBytes(s: seq<bv8>, t: seq<bv8>)
    requires |s| == 16 && |t| == 16
    requires s[0] == t[0] && s[1] == t[1] && s[2] == t[2] && s[3] == t[3] && s[4] == t[4] && s[5] == t[5]
    requires s[6] == t[6] && s[7] == t[7] && s[8] == t[8] && s[9] == t[9] && s[10] == t[10] && s[11] == t[11]
    requires s[12] == t[12] && s[13] == t[13] && s[14] == t[14] && s[15] == t[15]
    ensures s == t
  {
  }

  /** The same from byte arrays: byte i is row i % 4 of column i / 4. */
  lemma PublishedBytes(key: seq<bv8>, p: seq<bv8>, c: seq<bv8>)
    requires key == [0x2b, 0x7e, 0x15, 0x16, 0x28, 0xae, 0xd2, 0xa6,
                     0xab, 0xf7, 0x15, 0x88, 0x09, 0xcf, 0x4f, 0x3c]
    requires p == [0x32, 0x43, 0xf6, 0xa8, 0x88, 0x5a, 0x30, 0x8d,
                     0x31, 0x31, 0x98, 0xa2, 0xe0, 0x37, 0x07, 0x34]
    requires |c| == 16 && Machine.FromBytes(c) == Encrypt(Machine.FromBytes(p), RoundKeys(Machine.FromBytes(key)))
    ensures c == [0x39, 0x25, 0x84, 0x1d, 0x02, 0xdc, 0x09, 0xfb,
                     0xdc, 0x11, 0x85, 0x97, 0x19, 0x6a, 0x0b, 0x32]
  {
    hide *;
    LoadedBlock(key, Machine.FromBytes(key));
    LoadedBlock(p, Machine.FromBytes(p));
    LoadedBlock(c, Machine.FromBytes(c));
    PublishedBlock(Machine.FromBytes(key), Machine.FromBytes(p));
    SameBytes(c, [0x39, 0x25, 0x84, 0x1d, 0x02, 0xdc, 0x09, 0xfb,
                     0xdc, 0x11, 0x85, 0x97, 0x19, 0x6a, 0x0b, 0x32]);
  }
}
