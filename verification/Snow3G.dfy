/** The SNOW 3G keystream generator of lib/src/common/liblte_security.cc (`s3g_*`; UEA2 & UIA2 D2
    v1.1 sections 3.3, 3.4, 4.1 and 4.2).

    The generator never merges two states: one clock of the combined machine (FSM, then LFSR) has
    an explicit inverse, in initialisation mode as in keystream mode.  The LFSR step is undone by
    dividing by alpha, the FSM step by inverting S1 and S2.  So the key and the initialisation
    vector can be read back from the state after any number of keystream clocks. */
module Snow3G {
  import opened SBoxes
  import opened AlphaField
  import opened MixColumns
  import opened ColumnBoxes

  // ---------- the 32-bit S-boxes ----------

  function Split(w: bv32): Quad {
    Quad(((w >> 24) & 0xff) as bv8, ((w >> 16) & 0xff) as bv8, ((w >> 8) & 0xff) as bv8, (w & 0xff) as bv8)
  }

  function Joined(q: Quad): bv32 { Join(q.b0, q.b1, q.b2, q.b3) }

  /** The rows of `s3g_s1` and `s3g_s2`, over the field of the polynomial `c`. */
  function Product(q: Quad, c: bv8): Quad {
    Quad(Row(q.b0, q.b1, q.b2, q.b3, c), Row(q.b1, q.b2, q.b3, q.b0, c),
         Row(q.b2, q.b3, q.b0, q.b1, c), Row(q.b3, q.b0, q.b1, q.b2, c))
  }

  function SubSQ(q: Quad): Quad { Quad(SQ(q.b0), SQ(q.b1), SQ(q.b2), SQ(q.b3)) }

  function S1(w: bv32): bv32 { Joined(Product(SubS(Split(w)), 0x1b)) }

  function S2(w: bv32): bv32 { Joined(Product(SubSQ(Split(w)), 0x69)) }

  function UnsubSQ(q: Quad): Quad { Quad(SQInverse(q.b0), SQInverse(q.b1), SQInverse(q.b2), SQInverse(q.b3)) }

  function S1Inverse(w: bv32): bv32 { Joined(UnsubS(Unmix(Split(w), 0x1b))) }

  function S2Inverse(w: bv32): bv32 { Joined(UnsubSQ(Unmix(Split(w), 0x69))) }

  lemma SplitJoined(q: Quad)
    ensures Split(Joined(q)) == q
  {
  }

  lemma JoinedSplit(w: bv32)
    ensures Joined(Split(w)) == w
  {
  }

  lemma UnmixUndoesProduct(q: Quad, c: bv8)
    ensures Unmix(Product(q, c), c) == q
    ensures Product(Unmix(q, c), c) == q
  {
    hide Mix, Row;
    MixIsMatrixProduct(q, c);
    MixIsMatrixProduct(Unmix(q, c), c);
    MixHasOrderFour(q, c);
  }

  lemma SubSQHasInverse(q: Quad)
    ensures UnsubSQ(SubSQ(q)) == q && SubSQ(UnsubSQ(q)) == q
  {
    hide SQ, SQInverse;
    forall x: bv8
      ensures SQInverse(SQ(x)) == x && SQ(SQInverse(x)) == x
    {
      SQInverseUndoesSQ(x);
      SQUndoesSQInverse(x);
    }
  }

  /** S1 and S2 are permutations of the 32-bit words. */
  lemma S1HasInverse(w: bv32)
    ensures S1Inverse(S1(w)) == w && S1(S1Inverse(w)) == w
  {
    hide Split, Joined, Product, Unmix, SubS, UnsubS;
    var p := Product(SubS(Split(w)), 0x1b);
    SplitJoined(p);
    UnmixUndoesProduct(SubS(Split(w)), 0x1b);
    SubSHasInverse(Split(w));
    JoinedSplit(w);
    var u := Unmix(Split(w), 0x1b);
    SplitJoined(UnsubS(u));
    SubSHasInverse(u);
    UnmixUndoesProduct(Split(w), 0x1b);
  }

  lemma S2HasInverse(w: bv32)
    ensures S2Inverse(S2(w)) == w && S2(S2Inverse(w)) == w
  {
    hide Split, Joined, Product, Unmix, SubSQ, UnsubSQ;
    var p := Product(SubSQ(Split(w)), 0x69);
    SplitJoined(p);
    UnmixUndoesProduct(SubSQ(Split(w)), 0x69);
    SubSQHasInverse(Split(w));
    JoinedSplit(w);
    var u := Unmix(Split(w), 0x69);
    SplitJoined(UnsubSQ(u));
    SubSQHasInverse(u);
    UnmixUndoesProduct(Split(w), 0x69);
  }

  // ---------- one clock ----------

  /** The sixteen LFSR stages and the three FSM registers. */
  datatype State = State(lfsr: seq<bv32>, r1: bv32, r2: bv32, r3: bv32)
  {
    predicate Valid() { |lfsr| == 16 }
  }

  function Xor32(a: bv32, b: bv32): bv32 { a ^ b }

  function Add32(a: bv32, b: bv32): bv32 { a + b }

  function Sub32(a: bv32, b: bv32): bv32 { a - b }

  function Feedback(s0: bv32, s2: bv32, s11: bv32, f: bv32): bv32 {
    Xor32(Xor32(Xor32(TimesAlpha(s0), s2), OverAlpha(s11)), f)
  }

  /** The stage that must have been dropped for the feedback to be `v`. */
  function Unfeedback(v: bv32, s2: bv32, s11: bv32, f: bv32): bv32 {
    OverAlpha(Xor32(Xor32(Xor32(v, f), OverAlpha(s11)), s2))
  }

  function LfsrStep(s: State, f: bv32): (r: State)
    requires s.Valid()
    ensures r.Valid()
  {
    s.(lfsr := s.lfsr[1..] + [Feedback(s.lfsr[0], s.lfsr[2], s.lfsr[11], f)])
  }

  function UnclockLfsr(s: State, f: bv32): (r: State)
    requires s.Valid()
    ensures r.Valid()
  {
    s.(lfsr := [Unfeedback(s.lfsr[15], s.lfsr[1], s.lfsr[10], f)] + s.lfsr[..15])
  }

  function FsmOutput(s: State): bv32
    requires s.Valid()
  {
    Xor32(Add32(s.lfsr[15], s.r1), s.r2)
  }

  function FsmStep(s: State): (r: State)
    requires s.Valid()
    ensures r.Valid()
  {
    State(s.lfsr, Add32(s.r2, Xor32(s.r3, s.lfsr[5])), S1(s.r1), S2(s.r2))
  }

  function UnclockFsm(s: State): (r: State)
    requires s.Valid()
    ensures r.Valid()
  {
    var r2 := S2Inverse(s.r3);
    State(s.lfsr, S1Inverse(s.r2), r2, Xor32(Sub32(s.r1, r2), s.lfsr[5]))
  }

  /** One clock in initialisation mode: the FSM output enters the LFSR feedback. */
  function InitClock(s: State): (r: State)
    requires s.Valid()
    ensures r.Valid()
  {
    LfsrStep(FsmStep(s), FsmOutput(s))
  }

  /** One clock in keystream mode. */
  function KeyClock(s: State): (r: State)
    requires s.Valid()
    ensures r.Valid()
  {
    LfsrStep(FsmStep(s), 0)
  }

  function UnclockKey(s: State): (r: State)
    requires s.Valid()
    ensures r.Valid()
  {
    UnclockFsm(UnclockLfsr(s, 0))
  }

  /** The FSM output is found first: it needs only stages that the clock kept. */
  function UnclockInit(s: State): (r: State)
    requires s.Valid()
    ensures r.Valid()
  {
    var f := FsmOutput(UnclockFsm(UnclockLfsr(s, 0)));
    UnclockFsm(UnclockLfsr(s, f))
  }

  // ---------- one clock is a bijection ----------

  lemma XorCancels(t: bv32, a: bv32, b: bv32, c: bv32)
    ensures Xor32(Xor32(Xor32(Xor32(Xor32(Xor32(t, a), b), c), c), b), a) == t
  {
    hide Xor32;
    XorTwice(Xor32(Xor32(t, a), b), c);
    XorTwice(Xor32(t, a), b);
    XorTwice(t, a);
  }

  lemma XorTwice(t: bv32, a: bv32)
    ensures Xor32(Xor32(t, a), a) == t
  {
  }

  lemma XorBack(k: bv32, v: bv32)
    ensures Xor32(Xor32(k, v), k) == v
  {
  }

  lemma AddOfDifference(a: bv32, b: bv32)
    ensures Add32(a, b - a) == b && Sub32(a + b, a) == b
  {
  }

  lemma SubUndoesAdd(a: bv32, b: bv32)
    ensures Sub32(Add32(a, b), a) == b
    ensures Add32(a, Sub32(b, a)) == b
  {
    assert Sub32(b, a) == b - a;
    assert Add32(a, b) == a + b;
    hide Add32, Sub32;
    AddOfDifference(a, b);
  }

  lemma FeedbackHasInverse(s0: bv32, s2: bv32, s11: bv32, f: bv32)
    ensures Unfeedback(Feedback(s0, s2, s11, f), s2, s11, f) == s0
    ensures Feedback(Unfeedback(s0, s2, s11, f), s2, s11, f) == s0
  {
    hide Xor32, TimesAlpha, OverAlpha;
    XorCancels(TimesAlpha(s0), s2, OverAlpha(s11), f);
    OverUndoesTimes(s0);
    XorCancels(s0, f, OverAlpha(s11), s2);
    TimesUndoesOver(Xor32(Xor32(Xor32(s0, f), OverAlpha(s11)), s2));
  }

  lemma LfsrHasInverse(s: State, f: bv32)
    requires s.Valid()
    ensures UnclockLfsr(LfsrStep(s, f), f) == s
    ensures LfsrStep(UnclockLfsr(s, f), f) == s
  {
    hide Feedback, Unfeedback;
    FeedbackHasInverse(s.lfsr[0], s.lfsr[2], s.lfsr[11], f);
    FeedbackHasInverse(s.lfsr[15], s.lfsr[1], s.lfsr[10], f);
    assert s.lfsr == [s.lfsr[0]] + s.lfsr[1..];
    assert s.lfsr == s.lfsr[..15] + [s.lfsr[15]];
  }

  lemma FsmHasInverse(s: State)
    requires s.Valid()
    ensures UnclockFsm(FsmStep(s)) == s
    ensures FsmStep(UnclockFsm(s)) == s
  {
    hide S1, S2, S1Inverse, S2Inverse, Xor32, Add32, Sub32;
    S1HasInverse(s.r1);
    S1HasInverse(s.r2);
    S2HasInverse(s.r2);
    S2HasInverse(s.r3);
    var x := Xor32(s.r3, s.lfsr[5]);
    SubUndoesAdd(s.r2, x);
    XorTwice(s.r3, s.lfsr[5]);
    var r2 := S2Inverse(s.r3);
    XorTwice(Sub32(s.r1, r2), s.lfsr[5]);
    SubUndoesAdd(r2, s.r1);
  }

  /** The output read through a wrong feedback word is still the right one. */
  lemma OutputIgnoresFeedback(s: State, f: bv32, g: bv32)
    requires s.Valid()
    ensures FsmOutput(UnclockFsm(UnclockLfsr(s, f))) == FsmOutput(UnclockFsm(UnclockLfsr(s, g)))
  {
    hide S1Inverse, S2Inverse, Unfeedback, Xor32, Add32, Sub32;
  }

  lemma KeyClockHasInverse(s: State)
    requires s.Valid()
    ensures UnclockKey(KeyClock(s)) == s
    ensures KeyClock(UnclockKey(s)) == s
  {
    hide LfsrStep, FsmStep, UnclockLfsr, UnclockFsm;
    LfsrHasInverse(FsmStep(s), 0);
    FsmHasInverse(s);
    LfsrHasInverse(s, 0);
    FsmHasInverse(UnclockLfsr(s, 0));
  }

  lemma InitClockHasInverse(s: State)
    requires s.Valid()
    ensures UnclockInit(InitClock(s)) == s
    ensures InitClock(UnclockInit(s)) == s
  {
    hide LfsrStep, FsmStep, UnclockLfsr, UnclockFsm, FsmOutput;
    var f := FsmOutput(s);
    LfsrHasInverse(FsmStep(s), f);
    FsmHasInverse(s);
    OutputIgnoresFeedback(InitClock(s), 0, f);
    var g := FsmOutput(UnclockFsm(UnclockLfsr(s, 0)));
    OutputIgnoresFeedback(s, 0, g);
    FsmHasInverse(UnclockLfsr(s, g));
    LfsrHasInverse(s, g);
  }

  // ---------- whole runs ----------

  function InitClocks(s: State, n: nat): (r: State)
    requires s.Valid()
    ensures r.Valid()
  {
    if n == 0 then s else InitClock(InitClocks(s, n - 1))
  }

  function KeyClocks(s: State, n: nat): (r: State)
    requires s.Valid()
    ensures r.Valid()
  {
    if n == 0 then s else KeyClock(KeyClocks(s, n - 1))
  }

  function UnclockInits(s: State, n: nat): (r: State)
    requires s.Valid()
    ensures r.Valid()
    decreases n
  {
    if n == 0 then s else UnclockInits(UnclockInit(s), n - 1)
  }

  function UnclockKeys(s: State, n: nat): (r: State)
    requires s.Valid()
    ensures r.Valid()
    decreases n
  {
    if n == 0 then s else UnclockKeys(UnclockKey(s), n - 1)
  }

  lemma {:induction false} InitClocksHaveInverse(s: State, n: nat)
    requires s.Valid()
    ensures UnclockInits(InitClocks(s, n), n) == s
  {
    hide InitClock, UnclockInit;
    if n > 0 {
      InitClockHasInverse(InitClocks(s, n - 1));
      InitClocksHaveInverse(s, n - 1);
    }
  }

  lemma {:induction false} KeyClocksHaveInverse(s: State, n: nat)
    requires s.Valid()
    ensures UnclockKeys(KeyClocks(s, n), n) == s
  {
    hide KeyClock, UnclockKey;
    if n > 0 {
      KeyClockHasInverse(KeyClocks(s, n - 1));
      KeyClocksHaveInverse(s, n - 1);
    }
  }

  const ONES: bv32 := 0xffffffff

  /** The state `s3g_initialize` loads from the key words and the initialisation vector. */
  function Loaded(k: seq<bv32>, iv: seq<bv32>): (r: State)
    requires |k| == 4 && |iv| == 4
    ensures r.Valid()
  {
    var c0, c1, c2, c3 := Xor32(k[0], ONES), Xor32(k[1], ONES), Xor32(k[2], ONES), Xor32(k[3], ONES);
    State([c0, c1, c2, c3,
           k[0], k[1], k[2], k[3],
           c0, Xor32(c1, iv[3]), Xor32(c2, iv[2]), c3,
           Xor32(k[0], iv[1]), k[1], k[2], Xor32(k[3], iv[0])], 0, 0, 0)
  }

  function KeyOf(s: State): seq<bv32>
    requires s.Valid()
  {
    s.lfsr[4..8]
  }

  function VectorOf(s: State): seq<bv32>
    requires s.Valid()
  {
    [Xor32(s.lfsr[15], s.lfsr[7]), Xor32(s.lfsr[12], s.lfsr[4]),
     Xor32(s.lfsr[10], s.lfsr[2]), Xor32(s.lfsr[9], s.lfsr[1])]
  }

  lemma LoadIsReadable(k: seq<bv32>, iv: seq<bv32>)
    requires |k| == 4 && |iv| == 4
    ensures KeyOf(Loaded(k, iv)) == k
    ensures VectorOf(Loaded(k, iv)) == iv
  {
    hide Xor32;
    XorBack(k[3], iv[0]);
    XorBack(k[0], iv[1]);
    XorBack(Xor32(k[2], ONES), iv[2]);
    XorBack(Xor32(k[1], ONES), iv[3]);
  }

  function Initialized(k: seq<bv32>, iv: seq<bv32>): (r: State)
    requires |k| == 4 && |iv| == 4
    ensures r.Valid()
  {
    InitClocks(Loaded(k, iv), 32)
  }

  /** The key and the vector that lead to the state `s` after `n` keystream clocks. */
  function Recover(s: State, n: nat): (seq<bv32>, seq<bv32>)
    requires s.Valid()
  {
    var start := UnclockInits(UnclockKeys(s, n), 32);
    (KeyOf(start), VectorOf(start))
  }

  /** Whatever the number of keystream clocks, the state still determines the key and the vector. */
  lemma StateDeterminesKey(k: seq<bv32>, iv: seq<bv32>, n: nat)
    requires |k| == 4 && |iv| == 4
    ensures Recover(KeyClocks(Initialized(k, iv), n), n) == (k, iv)
  {
    hide Loaded, KeyOf, VectorOf, KeyClocks, UnclockKeys, InitClocks, UnclockInits;
    KeyClocksHaveInverse(Initialized(k, iv), n);
    InitClocksHaveInverse(Loaded(k, iv), 32);
    LoadIsReadable(k, iv);
  }

  /** Two different (key, vector) pairs never reach the same state at the same time. */
  lemma StatesNeverMerge(k: seq<bv32>, iv: seq<bv32>, k': seq<bv32>, iv': seq<bv32>, n: nat)
    requires |k| == 4 && |iv| == 4 && |k'| == 4 && |iv'| == 4
    requires (k, iv) != (k', iv')
    ensures Initialized(k, iv) != Initialized(k', iv')
    ensures KeyClocks(Initialized(k, iv), n) != KeyClocks(Initialized(k', iv'), n)
  {
    hide Initialized, KeyClocks, Recover;
    StateDeterminesKey(k, iv, n);
    StateDeterminesKey(k', iv', n);
  }

  // ---------- the machine in place ----------

  function KeyWord(s: State): bv32
    requires s.Valid()
  {
    Xor32(FsmOutput(s), s.lfsr[0])
  }

  /** The words z_1 .. z_n that follow the state `s`; the first keystream clock is discarded. */
  function Keystream(s: State, n: nat): (z: seq<bv32>)
    requires s.Valid()
    ensures |z| == n
  {
    seq(n, t requires 0 <= t < n => KeyWord(KeyClocks(s, t + 1)))
  }

  /** `S3G_STATE`: the LFSR and FSM registers, clocked in place. */
  class Machine {
    var lfsr: array<bv32>
    var fsm: array<bv32>

    ghost predicate Valid()
      reads this
    {
      lfsr.Length == 16 && fsm.Length == 3 && lfsr != fsm
    }

    ghost function Model(): (s: State)
      requires Valid()
      reads this, lfsr, fsm
      ensures s.Valid()
    {
      State(lfsr[..], fsm[0], fsm[1], fsm[2])
    }

    /** `s3g_initialize`: load the key and the vector, then 32 clocks in initialisation mode. */
    constructor (k: seq<bv32>, iv: seq<bv32>)
      requires |k| == 4 && |iv| == 4
      ensures Valid() && fresh(lfsr) && fresh(fsm)
      ensures Model() == Initialized(k, iv)
    {
      lfsr := new bv32[16];
      fsm := new bv32[3];
      new;
      Load(k, iv);
      RunInitialisation();
    }

    method Load(k: seq<bv32>, iv: seq<bv32>)
      requires Valid() && |k| == 4 && |iv| == 4
      modifies lfsr, fsm
      ensures Model() == Loaded(k, iv)
    {
      hide Loaded;
      var start := Loaded(k, iv);
      for i := 0 to 16
        invariant forall j :: 0 <= j < i ==> lfsr[j] == start.lfsr[j]
      {
        lfsr[i] := start.lfsr[i];
      }
      fsm[0], fsm[1], fsm[2] := start.r1, start.r2, start.r3;
    }

    method RunInitialisation()
      requires Valid()
      modifies lfsr, fsm
      ensures Model() == InitClocks(old(Model()), 32)
    {
      hide LfsrStep, FsmStep, FsmOutput;
      for i := 0 to 32
        invariant Model() == InitClocks(old(Model()), i)
      {
        var f := ClockFsm();
        ClockLfsr(f);
      }
    }

    /** `s3g_clock_lfsr`: shift the register down by one stage, in place. */
    method ClockLfsr(f: bv32)
      requires Valid()
      modifies lfsr
      ensures Model() == LfsrStep(old(Model()), f)
    {
      hide Feedback;
      var v := Feedback(lfsr[0], lfsr[2], lfsr[11], f);
      for i := 0 to 15
        invariant forall j :: 0 <= j < i ==> lfsr[j] == old(lfsr[j + 1])
        invariant forall j :: i <= j < 16 ==> lfsr[j] == old(lfsr[j])
      {
        lfsr[i] := lfsr[i + 1];
      }
      lfsr[15] := v;
    }

    /** `s3g_clock_fsm`. */
    method ClockFsm() returns (f: bv32)
      requires Valid()
      modifies fsm
      ensures f == FsmOutput(old(Model()))
      ensures Model() == FsmStep(old(Model()))
    {
      hide Xor32, Add32, S1, S2;
      f := Xor32(Add32(lfsr[15], fsm[0]), fsm[1]);
      var r := Add32(fsm[1], Xor32(fsm[2], lfsr[5]));
      fsm[2] := S2(fsm[1]);
      fsm[1] := S1(fsm[0]);
      fsm[0] := r;
    }

    /** `s3g_generate_keystream`. */
    method GenerateKeystream(n: nat, ks: array<bv32>)
      requires Valid() && ks.Length == n && ks != lfsr && ks != fsm
      modifies lfsr, fsm, ks
      ensures ks[..] == Keystream(old(Model()), n)
      ensures Model() == KeyClocks(old(Model()), n + 1)
    {
      hide FsmOutput, Xor32, FsmStep, LfsrStep;
      ghost var start := Model();
      var discarded := ClockFsm();
      ClockLfsr(0);
      assert Model() == KeyClocks(start, 1) by {
        assert KeyClocks(start, 0) == start;
      }
      for t := 0 to n
        invariant Model() == KeyClocks(start, t + 1)
        invariant forall j :: 0 <= j < t ==> ks[j] == KeyWord(KeyClocks(start, j + 1))
      {
        var f := ClockFsm();
        ks[t] := Xor32(f, lfsr[0]);
        ClockLfsr(0);
      }
    }
  }
}
