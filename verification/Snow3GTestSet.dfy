/** The first published test set of the cipher (UEA2 & UIA2 D4 v1.0, repeated in
    lib/test/common/test_eea1.cc), worked out clock by clock in literal numbers. */
module Snow3GTestSet {
  import opened SBoxes
  import opened SBoxTables
  import opened AlphaField
  import opened Snow3G
  import opened Snow3GRecurrence

  /** The key d3c5d592 327fb11c 4035c668 0af8c6d1 as words, and the vector of count 398a59b4, bearer 15 and
      direction 1. */
  const KEY: seq<bv32> := [0x0af8c6d1, 0x4035c668, 0x327fb11c, 0xd3c5d592]
  const VECTOR: seq<bv32> := [0xac000000, 0x398a59b4, 0xac000000, 0x398a59b4]

  ghost function St(t: nat): bv32 { Stage(KEY, VECTOR, t) }

  /** The FSM registers at time `t`. */
  ghost predicate Fsm(t: nat, r1: bv32, r2: bv32, r3: bv32) {
    R1(KEY, VECTOR, t) == r1 && R2(KEY, VECTOR, t) == r2 && R3(KEY, VECTOR, t) == r3
  }

  /** One clock, with the values it needs. */
  lemma Step(t: nat, s0: bv32, s2: bv32, s5: bv32, s11: bv32, s15: bv32, r1: bv32, r2: bv32, r3: bv32)
    requires St(t) == s0 && St(t + 2) == s2 && St(t + 5) == s5 && St(t + 11) == s11 && St(t + 15) == s15
    requires Fsm(t, r1, r2, r3)
    ensures var v := Xor32(Xor32(TimesAlpha(s0), s2), OverAlpha(s11));
            St(t + 16) == if t < 32 then Xor32(v, Xor32(Add32(s15, r1), r2)) else v
    ensures Fsm(t + 1, Add32(r2, Xor32(r3, s5)), S1(r1), S2(r2))
  {
    StageStep(KEY, VECTOR, t);
    hide *;
  }

  const FIRST: seq<bv32> := [0xf507392e, 0xbfca3997, 0xcd804ee3, 0x2c3a2a6d,
                             0x0af8c6d1, 0x4035c668, 0x327fb11c, 0xd3c5d592,
                             0xf507392e, 0x86406023, 0x61804ee3, 0x2c3a2a6d,
                             0x33729f65, 0x4035c668, 0x327fb11c, 0x7fc5d592]

  lemma FirstStages()
    ensures Load(KEY, VECTOR) == FIRST
  {
  }

  /** A stage that was loaded. */
  lemma First(t: nat, w: bv32)
    requires t < 16 && FIRST[t] == w
    ensures St(t) == w
  {
    hide Load, Stage;
    FirstStages();
    StageStart(KEY, VECTOR, t);
  }

  lemma FirstRegisters()
    ensures Fsm(0, 0, 0, 0)
  {
  }

  lemma Clock0()
    ensures St(16) == 0xaaa3a8cf && Fsm(1, 0x4035c668, 0x63636363, 0x25252525)
  {
    hide St, Fsm, MulAlpha, DivAlpha, S, SQ;
    FirstRegisters(); First(0, 0xf507392e); First(2, 0xcd804ee3); First(5, 0x4035c668);
    First(11, 0x2c3a2a6d); First(15, 0x7fc5d592);
    Step(0, 0xf507392e, 0xcd804ee3, 0x4035c668, 0x2c3a2a6d, 0x7fc5d592,
         0x00000000, 0x00000000, 0x00000000);
    AlphaTables(0xf5);
    AlphaTables(0x6d);
    SRow0(); SQRow0();
  }

  lemma Clock1()
    ensures St(17) == 0xf6ffb0df && Fsm(2, 0x7abdf79c, 0xffdd9ed2, 0x93939393)
  {
    hide St, Fsm, MulAlpha, DivAlpha, S, SQ;
    First(1, 0xbfca3997); First(3, 0x2c3a2a6d); First(6, 0x327fb11c); First(12, 0x33729f65); Clock0();
    Step(1, 0xbfca3997, 0x2c3a2a6d, 0x327fb11c, 0x33729f65, 0xaaa3a8cf,
         0x4035c668, 0x63636363, 0x25252525);
    AlphaTables(0xbf);
    AlphaTables(0x65);
    SRow3(); SRow4(); SRow6(); SRowC(); SQRow6();
  }

  lemma Clock2()
    ensures St(18) == 0x7871071b && Fsm(3, 0x4033e4d3, 0xc4375abf, 0xd156cce2)
  {
    hide St, Fsm, MulAlpha, DivAlpha, S, SQ;
    First(2, 0xcd804ee3); First(4, 0x0af8c6d1); First(7, 0xd3c5d592); First(13, 0x4035c668); Clock1();
    Step(2, 0xcd804ee3, 0x0af8c6d1, 0xd3c5d592, 0x4035c668, 0xf6ffb0df,
         0x7abdf79c, 0xffdd9ed2, 0x93939393);
    AlphaTables(0xcd);
    AlphaTables(0x68);
    SRow7(); SRow9(); SRowB(); SRowF(); SQRow9(); SQRowD(); SQRowF();
  }

  lemma Clock3()
    ensures St(19) == 0x484df85c && Fsm(4, 0xe889508b, 0x1289e3bd, 0x94a88dca)
  {
    hide St, Fsm, MulAlpha, DivAlpha, S, SQ;
    First(3, 0x2c3a2a6d); First(5, 0x4035c668); First(8, 0xf507392e); First(14, 0x327fb11c); Clock2();
    Step(3, 0x2c3a2a6d, 0x4035c668, 0xf507392e, 0x327fb11c, 0x7871071b,
         0x4033e4d3, 0xc4375abf, 0xd156cce2);
    AlphaTables(0x2c);
    AlphaTables(0x1c);
    SRow3(); SRow4(); SRowD(); SRowE(); SQRow3(); SQRow5(); SQRowB(); SQRowC();
  }

  lemma Clock4()
    ensures St(20) == 0x7ecb390e && Fsm(5, 0x2572d1a6, 0x9e8df2b3, 0x808f03e4)
  {
    hide St, Fsm, MulAlpha, DivAlpha, S, SQ;
    First(4, 0x0af8c6d1); First(6, 0x327fb11c); First(9, 0x86406023); First(15, 0x7fc5d592); Clock3();
    Step(4, 0x0af8c6d1, 0x327fb11c, 0x86406023, 0x7fc5d592, 0x484df85c,
         0xe889508b, 0x1289e3bd, 0x94a88dca);
    AlphaTables(0x0a);
    AlphaTables(0x92);
    SRow5(); SRow8(); SRowE(); SQRow1(); SQRow8(); SQRowB(); SQRowE();
  }

  lemma Clock5()
    ensures St(21) == 0x399ee613 && Fsm(6, 0x7f9d3fba, 0x6cdba775, 0x20c67c6b)
  {
    hide St, Fsm, MulAlpha, DivAlpha, S, SQ;
    First(5, 0x4035c668); First(7, 0xd3c5d592); First(10, 0x61804ee3); Clock0(); Clock4();
    Step(5, 0x4035c668, 0xd3c5d592, 0x61804ee3, 0xaaa3a8cf, 0x7ecb390e,
         0x2572d1a6, 0x9e8df2b3, 0x808f03e4);
    AlphaTables(0x40);
    AlphaTables(0xcf);
    SRow2(); SRow7(); SRowA(); SRowD(); SQRow8(); SQRow9(); SQRowB(); SQRowF();
  }

  lemma Clock6()
    ensures St(22) == 0xce0a4782 && Fsm(7, 0x79d7fd7b, 0x93502ee0, 0x3bcc7946)
  {
    hide St, Fsm, MulAlpha, DivAlpha, S, SQ;
    First(6, 0x327fb11c); First(8, 0xf507392e); First(11, 0x2c3a2a6d); Clock1(); Clock5();
    Step(6, 0x327fb11c, 0xf507392e, 0x2c3a2a6d, 0xf6ffb0df, 0x399ee613,
         0x7f9d3fba, 0x6cdba775, 0x20c67c6b);
    AlphaTables(0x32);
    AlphaTables(0xdf);
    SRow3(); SRow7(); SRow9(); SRowB(); SQRow6(); SQRow7(); SQRowA(); SQRowD();
  }

  lemma Clock7()
    ensures St(23) == 0xaed2a89e && Fsm(8, 0x9c0f1503, 0x4ea82d06, 0x74924ea4)
  {
    hide St, Fsm, MulAlpha, DivAlpha, S, SQ;
    First(7, 0xd3c5d592); First(9, 0x86406023); First(12, 0x33729f65); Clock2(); Clock6();
    Step(7, 0xd3c5d592, 0x86406023, 0x33729f65, 0x7871071b, 0xce0a4782,
         0x79d7fd7b, 0x93502ee0, 0x3bcc7946);
    AlphaTables(0xd3);
    AlphaTables(0x1b);
    SRow7(); SRowD(); SRowF(); SQRow2(); SQRow5(); SQRow9(); SQRowE();
  }

  lemma Clock8()
    ensures St(24) == 0x1efd3bb6 && Fsm(9, 0x834fb5d2, 0x05b78db5, 0x106fb1b2)
  {
    hide St, Fsm, MulAlpha, DivAlpha, S, SQ;
    First(8, 0xf507392e); First(10, 0x61804ee3); First(13, 0x4035c668); Clock3(); Clock7();
    Step(8, 0xf507392e, 0x61804ee3, 0x4035c668, 0x484df85c, 0xaed2a89e,
         0x9c0f1503, 0x4ea82d06, 0x74924ea4);
    AlphaTables(0xf5);
    AlphaTables(0x5c);
    SRow0(); SRow1(); SRow9(); SQRow0(); SQRow2(); SQRow4(); SQRowA();
  }

  lemma Clock9()
    ensures St(25) == 0xb6a0bd0d && Fsm(10, 0x27c78e63, 0x565c7f7d, 0x82a35bf0)
  {
    hide St, Fsm, MulAlpha, DivAlpha, S, SQ;
    First(9, 0x86406023); First(11, 0x2c3a2a6d); First(14, 0x327fb11c); Clock4(); Clock8();
    Step(9, 0x86406023, 0x2c3a2a6d, 0x327fb11c, 0x7ecb390e, 0x1efd3bb6,
         0x834fb5d2, 0x05b78db5, 0x106fb1b2);
    AlphaTables(0x86);
    AlphaTables(0x0e);
    SRow4(); SRow8(); SRowB(); SRowD(); SQRow0(); SQRow8(); SQRowB();
  }

  lemma Clock10()
    ensures St(26) == 0xe7e6e056 && Fsm(11, 0x53c30ddf, 0x4a3a54cc, 0xfdfcdd75)
  {
    hide St, Fsm, MulAlpha, DivAlpha, S, SQ;
    First(10, 0x61804ee3); First(12, 0x33729f65); First(15, 0x7fc5d592); Clock5(); Clock9();
    Step(10, 0x61804ee3, 0x33729f65, 0x7fc5d592, 0x399ee613, 0xb6a0bd0d,
         0x27c78e63, 0x565c7f7d, 0x82a35bf0);
    AlphaTables(0x61);
    AlphaTables(0x13);
    SRow2(); SRow6(); SRow8(); SRowC(); SQRow5(); SQRow7();
  }

  lemma Clock11()
    ensures St(27) == 0x1d96088b && Fsm(12, 0xa199ca86, 0x8139b486, 0x34b09ead)
  {
    hide St, Fsm, MulAlpha, DivAlpha, S, SQ;
    First(11, 0x2c3a2a6d); First(13, 0x4035c668); Clock0(); Clock6(); Clock10();
    Step(11, 0x2c3a2a6d, 0x4035c668, 0xaaa3a8cf, 0xce0a4782, 0xe7e6e056,
         0x53c30ddf, 0x4a3a54cc, 0xfdfcdd75);
    AlphaTables(0x2c);
    AlphaTables(0x82);
    SRow0(); SRow5(); SRowC(); SRowD(); SQRow3(); SQRow4(); SQRow5(); SQRowC();
  }

  lemma Clock12()
    ensures St(28) == 0xb2f7249d && Fsm(13, 0x4388e2f8, 0x32a1b7c8, 0x613c8a6b)
  {
    hide St, Fsm, MulAlpha, DivAlpha, S, SQ;
    First(12, 0x33729f65); First(14, 0x327fb11c); Clock1(); Clock7(); Clock11();
    Step(12, 0x33729f65, 0x327fb11c, 0xf6ffb0df, 0xaed2a89e, 0x1d96088b,
         0xa199ca86, 0x8139b486, 0x34b09ead);
    AlphaTables(0x33);
    AlphaTables(0x9e);
    SRow8(); SRow9(); SRowA(); SRowC(); SQRow3(); SQRow8(); SQRowB();
  }

  lemma Clock13()
    ensures St(29) == 0x6ce47f4c && Fsm(14, 0x4bef4538, 0xab6427ef, 0x72c4755f)
  {
    hide St, Fsm, MulAlpha, DivAlpha, S, SQ;
    First(13, 0x4035c668); First(15, 0x7fc5d592); Clock2(); Clock8(); Clock12();
    Step(13, 0x4035c668, 0x7fc5d592, 0x7871071b, 0x1efd3bb6, 0xb2f7249d,
         0x4388e2f8, 0x32a1b7c8, 0x613c8a6b);
    AlphaTables(0x40);
    AlphaTables(0xb6);
    SRow4(); SRow8(); SRowE(); SRowF(); SQRow3(); SQRowA(); SQRowB(); SQRowC();
  }

  lemma Clock14()
    ensures St(30) == 0x0b4fe15a && Fsm(15, 0xe5edb4f2, 0xc50212d0, 0x8f2fbe4d)
  {
    hide St, Fsm, MulAlpha, DivAlpha, S, SQ;
    First(14, 0x327fb11c); Clock0(); Clock3(); Clock9(); Clock13();
    Step(14, 0x327fb11c, 0xaaa3a8cf, 0x484df85c, 0xb6a0bd0d, 0x6ce47f4c,
         0x4bef4538, 0xab6427ef, 0x72c4755f);
    AlphaTables(0x32);
    AlphaTables(0x0d);
    SRow3(); SRow4(); SRowE(); SQRow2(); SQRow6(); SQRowA(); SQRowE();
  }

  lemma Clock15()
    ensures St(31) == 0xb5d4de7f && Fsm(16, 0xb6e69a13, 0xf1deae09, 0x256cd177)
  {
    hide St, Fsm, MulAlpha, DivAlpha, S, SQ;
    First(15, 0x7fc5d592); Clock1(); Clock4(); Clock10(); Clock14();
    Step(15, 0x7fc5d592, 0xf6ffb0df, 0x7ecb390e, 0xe7e6e056, 0x0b4fe15a,
         0xe5edb4f2, 0xc50212d0, 0x8f2fbe4d);
    AlphaTables(0x7f);
    AlphaTables(0x56);
    SRowB(); SRowE(); SRowF(); SQRow0(); SQRow1(); SQRowC(); SQRowD();
  }

  lemma Clock16()
    ensures St(32) == 0x6527f129 && Fsm(17, 0x0ed0e56d, 0x2d10d1e9, 0xdbd36d41)
  {
    hide St, Fsm, MulAlpha, DivAlpha, S, SQ;
    Clock0(); Clock2(); Clock5(); Clock11(); Clock15();
    Step(16, 0xaaa3a8cf, 0x7871071b, 0x399ee613, 0x1d96088b, 0xb5d4de7f,
         0xb6e69a13, 0xf1deae09, 0x256cd177);
    AlphaTables(0xaa);
    AlphaTables(0x8b);
    SRow1(); SRow9(); SRowB(); SRowE(); SQRow0(); SQRowA(); SQRowD(); SQRowF();
  }

  lemma Clock17()
    ensures St(33) == 0x42fa3f10 && Fsm(18, 0x42e9fcac, 0xa0e3aed3, 0xeccab536)
  {
    hide St, Fsm, MulAlpha, DivAlpha, S, SQ;
    Clock1(); Clock3(); Clock6(); Clock12(); Clock16();
    Step(17, 0xf6ffb0df, 0x484df85c, 0xce0a4782, 0xb2f7249d, 0x6527f129,
         0x0ed0e56d, 0x2d10d1e9, 0xdbd36d41);
    AlphaTables(0xf6);
    AlphaTables(0x9d);
    SRow0(); SRow6(); SRowD(); SRowE(); SQRow1(); SQRow2(); SQRowD(); SQRowE();
  }

  lemma Clock18()
    ensures St(34) == 0x1d987f75 && Fsm(19, 0xe2fbcc7b, 0x5e69e4c0, 0x662b7488)
  {
    hide St, Fsm, MulAlpha, DivAlpha, S, SQ;
    Clock2(); Clock4(); Clock7(); Clock13(); Clock17();
    Step(18, 0x7871071b, 0x7ecb390e, 0xaed2a89e, 0x6ce47f4c, 0x42fa3f10,
         0x42e9fcac, 0xa0e3aed3, 0xeccab536);
    AlphaTables(0x78);
    AlphaTables(0x4c);
    SRow4(); SRowA(); SRowE(); SRowF(); SQRowA(); SQRowD(); SQRowE();
  }

  lemma Clock19()
    ensures St(35) == 0x7afd33cf && Fsm(20, 0xd74033fe, 0x0cc73e08, 0xe9dc86e2)
  {
    hide St, Fsm, MulAlpha, DivAlpha, S, SQ;
    Clock3(); Clock5(); Clock8(); Clock14(); Clock18();
    Step(19, 0x484df85c, 0x399ee613, 0x1efd3bb6, 0x0b4fe15a, 0x1d987f75,
         0xe2fbcc7b, 0x5e69e4c0, 0x662b7488);
    AlphaTables(0x48);
    AlphaTables(0x5a);
    SRow7(); SRowC(); SRowE(); SRowF(); SQRow5(); SQRow6(); SQRowC(); SQRowE();
  }

  lemma Clock20()
    ensures St(36) == 0x82fb9035 && Fsm(21, 0x6c4379f7, 0x00783334, 0xcedaea96)
  {
    hide St, Fsm, MulAlpha, DivAlpha, S, SQ;
    Clock4(); Clock6(); Clock9(); Clock15(); Clock19();
    Step(20, 0x7ecb390e, 0xce0a4782, 0xb6a0bd0d, 0xb5d4de7f, 0x7afd33cf,
         0xd74033fe, 0x0cc73e08, 0xe9dc86e2);
    AlphaTables(0x7e);
    AlphaTables(0x7f);
    SRow3(); SRow4(); SRowD(); SRowF(); SQRow0(); SQRow3(); SQRowC();
  }

  lemma Clock21()
    ensures St(37) == 0xaf90809d && Fsm(22, 0x29b43df4, 0xb41a615b, 0xd07bfcb4)
  {
    hide St, Fsm, MulAlpha, DivAlpha, S, SQ;
    Clock5(); Clock7(); Clock10(); Clock16(); Clock20();
    Step(21, 0x399ee613, 0xaed2a89e, 0xe7e6e056, 0x6527f129, 0x82fb9035,
         0x6c4379f7, 0x00783334, 0xcedaea96);
    AlphaTables(0x39);
    AlphaTables(0x29);
    SRow4(); SRow6(); SRow7(); SRowF(); SQRow0(); SQRow3(); SQRow7();
  }

  lemma Clock22()
    ensures St(38) == 0x901a8a88 && Fsm(23, 0x8208559a, 0x216dd824, 0x2fc455eb)
  {
    hide St, Fsm, MulAlpha, DivAlpha, S, SQ;
    Clock6(); Clock8(); Clock11(); Clock17(); Clock21();
    Step(22, 0xce0a4782, 0x1efd3bb6, 0x1d96088b, 0x42fa3f10, 0xaf90809d,
         0x29b43df4, 0xb41a615b, 0xd07bfcb4);
    AlphaTables(0xce);
    AlphaTables(0x10);
    SRow2(); SRow3(); SRowB(); SRowF(); SQRow1(); SQRow5(); SQRow6(); SQRowB();
  }

  lemma Clock23()
    ensures St(39) == 0x0ca771b6 && Fsm(24, 0xbea1499a, 0x39111857, 0x390a1bc3)
  {
    hide St, Fsm, MulAlpha, DivAlpha, S, SQ;
    Clock7(); Clock9(); Clock12(); Clock18(); Clock22();
    Step(23, 0xaed2a89e, 0xb6a0bd0d, 0xb2f7249d, 0x1d987f75, 0x901a8a88,
         0x8208559a, 0x216dd824, 0x2fc455eb);
    AlphaTables(0xae);
    AlphaTables(0x75);
    SRow0(); SRow5(); SRow8(); SRow9(); SQRow2(); SQRow6(); SQRowD();
  }

  lemma Clock24()
    ensures St(40) == 0x97e4d8b8 && Fsm(25, 0x8eff7ce6, 0x9d0e36ba, 0x56159da6)
  {
    hide St, Fsm, MulAlpha, DivAlpha, S, SQ;
    Clock8(); Clock10(); Clock13(); Clock19(); Clock23();
    Step(24, 0x1efd3bb6, 0xe7e6e056, 0x6ce47f4c, 0x7afd33cf, 0x0ca771b6,
         0xbea1499a, 0x39111857, 0x390a1bc3);
    AlphaTables(0x1e);
    AlphaTables(0xcf);
    SRow4(); SRow9(); SRowA(); SRowB(); SQRow1(); SQRow3(); SQRow5();
  }

  lemma Clock25()
    ensures St(41) == 0xf66c7738 && Fsm(26, 0xfa68b3b6, 0xbd998d38, 0x25002f81)
  {
    hide St, Fsm, MulAlpha, DivAlpha, S, SQ;
    Clock9(); Clock11(); Clock14(); Clock20(); Clock24();
    Step(25, 0xb6a0bd0d, 0x1d96088b, 0x0b4fe15a, 0x82fb9035, 0x97e4d8b8,
         0x8eff7ce6, 0x9d0e36ba, 0x56159da6);
    AlphaTables(0xb6);
    AlphaTables(0x35);
    SRow7(); SRow8(); SRowE(); SRowF(); SQRow0(); SQRow3(); SQRow9(); SQRowB();
  }

  lemma Clock26()
    ensures St(42) == 0x59d17356 && Fsm(27, 0x4e6e7f36, 0xa0de7643, 0x66265d9d)
  {
    hide St, Fsm, MulAlpha, DivAlpha, S, SQ;
    Clock10(); Clock12(); Clock15(); Clock21(); Clock25();
    Step(26, 0xe7e6e056, 0xb2f7249d, 0xb5d4de7f, 0xaf90809d, 0xf66c7738,
         0xfa68b3b6, 0xbd998d38, 0x25002f81);
    AlphaTables(0xe7);
    AlphaTables(0x9d);
    SRow6(); SRowB(); SRowF(); SQRow3(); SQRow8(); SQRow9(); SQRowB();
  }

  lemma Clock27()
    ensures St(43) == 0xeb30feba && Fsm(28, 0xa3e022f7, 0x1c832fd7, 0x9ecbdd13)
  {
    hide St, Fsm, MulAlpha, DivAlpha, S, SQ;
    Clock11(); Clock13(); Clock16(); Clock22(); Clock26();
    Step(27, 0x1d96088b, 0x6ce47f4c, 0x6527f129, 0x901a8a88, 0x59d17356,
         0x4e6e7f36, 0xa0de7643, 0x66265d9d);
    AlphaTables(0x1d);
    AlphaTables(0x88);
    SRow3(); SRow4(); SRow6(); SRow7(); SQRow4(); SQRow7(); SQRowA(); SQRowD();
  }

  lemma Clock28()
    ensures St(44) == 0x80c192d9 && Fsm(29, 0xf8b511da, 0xde3c6795, 0x9676c179)
  {
    hide St, Fsm, MulAlpha, DivAlpha, S, SQ;
    Clock12(); Clock14(); Clock17(); Clock23(); Clock27();
    Step(28, 0xb2f7249d, 0x0b4fe15a, 0x42fa3f10, 0x0ca771b6, 0xeb30feba,
         0xa3e022f7, 0x1c832fd7, 0x9ecbdd13);
    AlphaTables(0xb2);
    AlphaTables(0xb6);
    SRow2(); SRowA(); SRowE(); SRowF(); SQRow1(); SQRow2(); SQRow8(); SQRowD();
  }

  lemma Clock29()
    ensures St(45) == 0x43b378ef && Fsm(30, 0x6a2b25a1, 0x2ca76da7, 0x57898844)
  {
    hide St, Fsm, MulAlpha, DivAlpha, S, SQ;
    Clock13(); Clock15(); Clock18(); Clock24(); Clock28();
    Step(29, 0x6ce47f4c, 0xb5d4de7f, 0x1d987f75, 0x97e4d8b8, 0x80c192d9,
         0xf8b511da, 0xde3c6795, 0x9676c179);
    AlphaTables(0x6c);
    AlphaTables(0xb8);
    SRow1(); SRowB(); SRowD(); SRowF(); SQRow3(); SQRow6(); SQRow9(); SQRowD();
  }

  lemma Clock30()
    ensures St(46) == 0x9f270a5b && Fsm(31, 0x5a1c2932, 0x9cf246d6, 0xd31557ed)
  {
    hide St, Fsm, MulAlpha, DivAlpha, S, SQ;
    Clock14(); Clock16(); Clock19(); Clock25(); Clock29();
    Step(30, 0x0b4fe15a, 0x6527f129, 0x7afd33cf, 0xf66c7738, 0x43b378ef,
         0x6a2b25a1, 0x2ca76da7, 0x57898844);
    AlphaTables(0x0b);
    AlphaTables(0x38);
    SRow2(); SRow6(); SRowA(); SQRow2(); SQRow6(); SQRowA();
  }

  lemma Clock31()
    ensures St(47) == 0x57215d52 && Fsm(32, 0xeee10eae, 0x3b7c7390, 0xb319c988)
  {
    hide St, Fsm, MulAlpha, DivAlpha, S, SQ;
    Clock15(); Clock17(); Clock20(); Clock26(); Clock30();
    Step(31, 0xb5d4de7f, 0x42fa3f10, 0x82fb9035, 0x59d17356, 0x9f270a5b,
         0x5a1c2932, 0x9cf246d6, 0xd31557ed);
    AlphaTables(0xb5);
    AlphaTables(0x56);
    SRow1(); SRow2(); SRow3(); SRow5(); SQRow4(); SQRow9(); SQRowD(); SQRowF();
  }

  lemma Clock32()
    ensures St(48) == 0x5b61385d && Fsm(33, 0x5805bca5, 0x34dc92e5, 0x2e36b9a3)
  {
    hide St, Fsm, MulAlpha, DivAlpha, S, SQ;
    Clock16(); Clock18(); Clock21(); Clock27(); Clock31();
    Step(32, 0x6527f129, 0x1d987f75, 0xaf90809d, 0xeb30feba, 0x57215d52,
         0xeee10eae, 0x3b7c7390, 0xb319c988);
    AlphaTables(0x65);
    AlphaTables(0xba);
    SRow0(); SRowA(); SRowE(); SQRow3(); SQRow7(); SQRow9();
  }

  lemma Clock33()
    ensures St(49) == 0x7783a331 && Fsm(34, 0xf308c610, 0xd00b1ba2, 0x648fa63d)
  {
    hide St, Fsm, MulAlpha, DivAlpha, S, SQ;
    Clock17(); Clock19(); Clock22(); Clock28(); Clock32();
    Step(33, 0x42fa3f10, 0x7afd33cf, 0x901a8a88, 0x80c192d9, 0x5b61385d,
         0x5805bca5, 0x34dc92e5, 0x2e36b9a3);
    AlphaTables(0x42);
    AlphaTables(0xd9);
    SRow0(); SRow5(); SRowA(); SRowB(); SQRow3(); SQRow9(); SQRowD(); SQRowE();
  }

  lemma Clock34()
    ensures St(50) == 0xbd9cc0c0 && Fsm(35, 0x3833f32d, 0xdb09e475, 0x305ea370)
  {
    hide St, Fsm, MulAlpha, DivAlpha, S, SQ;
    Clock18(); Clock20(); Clock23(); Clock29(); Clock33();
    Step(34, 0x1d987f75, 0x82fb9035, 0x0ca771b6, 0x43b378ef, 0x7783a331,
         0xf308c610, 0xd00b1ba2, 0x648fa63d);
    AlphaTables(0x1d);
    AlphaTables(0xef);
    SRow0(); SRow1(); SRowC(); SRowF(); SQRow0(); SQRow1(); SQRowA(); SQRowD();
  }

  lemma Clock35()
    ensures St(51) == 0x6f494573 && Fsm(36, 0x82c4603d, 0xb3419b78, 0xb166993f)
  {
    hide St, Fsm, MulAlpha, DivAlpha, S, SQ;
    Clock19(); Clock21(); Clock24(); Clock30(); Clock34();
    Step(35, 0x7afd33cf, 0xaf90809d, 0x97e4d8b8, 0x9f270a5b, 0xbd9cc0c0,
         0x3833f32d, 0xdb09e475, 0x305ea370);
    AlphaTables(0x7a);
    AlphaTables(0x5b);
    SRow2(); SRow3(); SRowF(); SQRow0(); SQRow7(); SQRowD(); SQRowE();
  }

  lemma Clock36()
    ensures St(52) == 0xed032ba2 && Fsm(37, 0xfa4c897f, 0x83faab2a, 0xed5ead1b)
  {
    hide St, Fsm, MulAlpha, DivAlpha, S, SQ;
    Clock20(); Clock22(); Clock25(); Clock31(); Clock35();
    Step(36, 0x82fb9035, 0x901a8a88, 0xf66c7738, 0x57215d52, 0x6f494573,
         0x82c4603d, 0xb3419b78, 0xb166993f);
    AlphaTables(0x82);
    AlphaTables(0x52);
    SRow3(); SRow6(); SRow8(); SRowC(); SQRow4(); SQRow7(); SQRow9(); SQRowB();
  }

  lemma Clock37()
    ensures St(53) == 0xb42ff5f1 && Fsm(38, 0x388a8977, 0xb950d149, 0xb1b88398)
  {
    hide St, Fsm, MulAlpha, DivAlpha, S, SQ;
    Clock21(); Clock23(); Clock26(); Clock32(); Clock36();
    Step(37, 0xaf90809d, 0x0ca771b6, 0x59d17356, 0x5b61385d, 0xed032ba2,
         0xfa4c897f, 0x83faab2a, 0xed5ead1b);
    AlphaTables(0xaf);
    AlphaTables(0x5d);
    SRow4(); SRow7(); SRow8(); SRowF(); SQRow2(); SQRow8(); SQRowA(); SQRowF();
  }

  lemma Clock38()
    ensures St(54) == 0xb47deb8b && Fsm(39, 0x13d94e6b, 0xd3a7257a, 0x4ef9e869)
  {
    hide St, Fsm, MulAlpha, DivAlpha, S, SQ;
    Clock22(); Clock24(); Clock27(); Clock33(); Clock37();
    Step(38, 0x901a8a88, 0x97e4d8b8, 0xeb30feba, 0x7783a331, 0xb42ff5f1,
         0x388a8977, 0xb950d149, 0xb1b88398);
    AlphaTables(0x90);
    AlphaTables(0x31);
    SRow3(); SRow7(); SRow8(); SQRow4(); SQRow5(); SQRowB(); SQRowD();
  }

  lemma Clock39()
    ensures St(55) == 0xc79f39c9 && Fsm(40, 0xa1dfa02a, 0x61bd03c7, 0xc53010f5)
  {
    hide St, Fsm, MulAlpha, DivAlpha, S, SQ;
    Clock23(); Clock25(); Clock28(); Clock34(); Clock38();
    Step(39, 0x0ca771b6, 0xf66c7738, 0x80c192d9, 0xbd9cc0c0, 0xb47deb8b,
         0x13d94e6b, 0xd3a7257a, 0x4ef9e869);
    AlphaTables(0x0c);
    AlphaTables(0xc0);
    SRow1(); SRow4(); SRow6(); SRowD(); SQRow2(); SQRow7(); SQRowA(); SQRowD();
  }

  lemma Word0()
    ensures Word(KEY, VECTOR, 0) == 0xc54058f7
  {
    hide Stage, R1, R2, R3;
    Clock32(); Clock17();
  }

  lemma Word1()
    ensures Word(KEY, VECTOR, 1) == 0xa71f0d96
  {
    hide Stage, R1, R2, R3;
    Clock33(); Clock18();
  }

  lemma Word2()
    ensures Word(KEY, VECTOR, 2) == 0x54246457
  {
    hide Stage, R1, R2, R3;
    Clock34(); Clock19();
  }

  lemma Word3()
    ensures Word(KEY, VECTOR, 3) == 0xc3b7aefd
  {
    hide Stage, R1, R2, R3;
    Clock35(); Clock20();
  }

  lemma Word4()
    ensures Word(KEY, VECTOR, 4) == 0xcb259e96
  {
    hide Stage, R1, R2, R3;
    Clock36(); Clock21();
  }

  lemma Word5()
    ensures Word(KEY, VECTOR, 5) == 0xc5f024a9
  {
    hide Stage, R1, R2, R3;
    Clock37(); Clock22();
  }

  lemma Word6()
    ensures Word(KEY, VECTOR, 6) == 0x17576d3a
  {
    hide Stage, R1, R2, R3;
    Clock38(); Clock23();
  }

  lemma Word7()
    ensures Word(KEY, VECTOR, 7) == 0x9f27028c
  {
    hide Stage, R1, R2, R3;
    Clock39(); Clock24();
  }

  lemma EightWords(ks: seq<bv32>, w0: bv32, w1: bv32, w2: bv32, w3: bv32, w4: bv32, w5: bv32, w6: bv32, w7: bv32)
    requires |ks| == 8 && ks[0] == w0 && ks[1] == w1 && ks[2] == w2 && ks[3] == w3
    requires ks[4] == w4 && ks[5] == w5 && ks[6] == w6 && ks[7] == w7
    ensures ks == [w0, w1, w2, w3, w4, w5, w6, w7]
  {
  }

  /** The keystream of the set. */
  lemma PublishedKeystream()
    ensures Keystream(Initialized(KEY, VECTOR), 8)
            == [0xc54058f7, 0xa71f0d96, 0x54246457, 0xc3b7aefd,
                0xcb259e96, 0xc5f024a9, 0x17576d3a, 0x9f27028c]
  {
    hide Initialized, Word, Keystream;
    KeystreamIsTheRecurrence(KEY, VECTOR, 8);
    Word0(); Word1(); Word2(); Word3(); Word4(); Word5(); Word6(); Word7();
    EightWords(Keystream(Initialized(KEY, VECTOR), 8),
               0xc54058f7, 0xa71f0d96, 0x54246457, 0xc3b7aefd,
               0xcb259e96, 0xc5f024a9, 0x17576d3a, 0x9f27028c);
  }
}
