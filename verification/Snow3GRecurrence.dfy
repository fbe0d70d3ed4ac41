/** The SNOW 3G keystream as the recurrences of UEA2 & UIA2 D2 v1.1 sections 3.4, 4.1 and 4.2, over an
    unbounded time and without a machine state: `Stage(t)` is s_t, and R1, R2 and R3 at time `t` are the
    FSM registers after `t` clocks.  The generator of `Snow3G` runs through exactly these values. */
module Snow3GRecurrence {
  import opened AlphaField
  import opened Snow3G

  /** The complement of a word. */
  function Not(w: bv32): bv32 { Xor32(w, 0xffffffff) }

  /** The first sixteen stages, from the key and the initialisation vector (section 4.1). */
  function Load(k: seq<bv32>, iv: seq<bv32>): (s: seq<bv32>)
    requires |k| == 4 && |iv| == 4
    ensures |s| == 16
  {
    [Not(k[0]), Not(k[1]), Not(k[2]), Not(k[3]), k[0], k[1], k[2], k[3],
     Not(k[0]), Xor32(Not(k[1]), iv[3]), Xor32(Not(k[2]), iv[2]), Not(k[3]),
     Xor32(k[0], iv[1]), k[1], k[2], Xor32(k[3], iv[0])]
  }

  /** s_t: for the first thirty-two clocks the output of the FSM goes into the feedback. */
  ghost function Stage(k: seq<bv32>, iv: seq<bv32>, t: nat): bv32
    requires |k| == 4 && |iv| == 4
    decreases t, 0
  {
    if t < 16 then Load(k, iv)[t]
    else
      var u := t - 16;
      var v := Xor32(Xor32(TimesAlpha(Stage(k, iv, u)), Stage(k, iv, u + 2)), OverAlpha(Stage(k, iv, u + 11)));
      if u < 32 then Xor32(v, Output(k, iv, u)) else v
  }

  /** F at time `t`. */
  ghost function Output(k: seq<bv32>, iv: seq<bv32>, t: nat): bv32
    requires |k| == 4 && |iv| == 4
    decreases t + 15, 1
  {
    Xor32(Add32(Stage(k, iv, t + 15), R1(k, iv, t)), R2(k, iv, t))
  }

  ghost function R1(k: seq<bv32>, iv: seq<bv32>, t: nat): bv32
    requires |k| == 4 && |iv| == 4
    decreases t + 5, 0
  {
    if t == 0 then 0 else Add32(R2(k, iv, t - 1), Xor32(R3(k, iv, t - 1), Stage(k, iv, t + 4)))
  }

  ghost function R2(k: seq<bv32>, iv: seq<bv32>, t: nat): bv32
    requires |k| == 4 && |iv| == 4
    decreases t + 5, 0
  {
    if t == 0 then 0 else S1(R1(k, iv, t - 1))
  }

  ghost function R3(k: seq<bv32>, iv: seq<bv32>, t: nat): bv32
    requires |k| == 4 && |iv| == 4
    decreases t + 5, 0
  {
    if t == 0 then 0 else S2(R2(k, iv, t - 1))
  }

  /** z_(j+1): one clock after the initialisation is discarded. */
  ghost function Word(k: seq<bv32>, iv: seq<bv32>, j: nat): bv32
    requires |k| == 4 && |iv| == 4
  {
    Xor32(Output(k, iv, 33 + j), Stage(k, iv, 33 + j))
  }

  lemma StageStart(k: seq<bv32>, iv: seq<bv32>, t: nat)
    requires |k| == 4 && |iv| == 4 && t < 16
    ensures Stage(k, iv, t) == Load(k, iv)[t]
  {
    hide Load;
  }

  lemma StageStep(k: seq<bv32>, iv: seq<bv32>, t: nat)
    requires |k| == 4 && |iv| == 4
    ensures var v := Xor32(Xor32(TimesAlpha(Stage(k, iv, t)), Stage(k, iv, t + 2)), OverAlpha(Stage(k, iv, t + 11)));
            Stage(k, iv, t + 16) == if t < 32 then Xor32(v, Output(k, iv, t)) else v
    ensures R1(k, iv, t + 1) == Add32(R2(k, iv, t), Xor32(R3(k, iv, t), Stage(k, iv, t + 5)))
    ensures R2(k, iv, t + 1) == S1(R1(k, iv, t)) && R3(k, iv, t + 1) == S2(R2(k, iv, t))
  {
    hide Load, Xor32, Add32, S1, S2, TimesAlpha, OverAlpha;
  }

  // ---------- the generator runs through these values ----------

  /** What the registers hold at time `t`: stage i is s_(t+i). */
  ghost function At(k: seq<bv32>, iv: seq<bv32>, t: nat): (s: State)
    requires |k| == 4 && |iv| == 4
    ensures s.Valid()
  {
    State(seq(16, i requires 0 <= i < 16 => Stage(k, iv, t + i)), R1(k, iv, t), R2(k, iv, t), R3(k, iv, t))
  }

  lemma LoadedIsTheStart(k: seq<bv32>, iv: seq<bv32>)
    requires |k| == 4 && |iv| == 4
    ensures Loaded(k, iv) == At(k, iv, 0)
  {
    hide Xor32, Load, Loaded;
    LoadedStages(k, iv);
    var s := At(k, iv, 0).lfsr;
    forall i | 0 <= i < 16
      ensures s[i] == Load(k, iv)[i]
    {
      assert s[i] == Stage(k, iv, i);
    }
  }

  lemma LoadedStages(k: seq<bv32>, iv: seq<bv32>)
    requires |k| == 4 && |iv| == 4
    ensures Loaded(k, iv) == State(Load(k, iv), 0, 0, 0)
  {
    hide Xor32;
  }

  lemma XorNothing(v: bv32)
    ensures Xor32(v, 0) == v
  {
  }

  lemma ClockAdvances(k: seq<bv32>, iv: seq<bv32>, t: nat)
    requires |k| == 4 && |iv| == 4
    ensures t < 32 ==> InitClock(At(k, iv, t)) == At(k, iv, t + 1)
    ensures t >= 32 ==> KeyClock(At(k, iv, t)) == At(k, iv, t + 1)
  {
    hide Xor32, Add32, S1, S2, TimesAlpha, OverAlpha, Load;
    var s, n := At(k, iv, t), At(k, iv, t + 1);
    assert Stage(k, iv, t + 16) == n.lfsr[15];
    if t < 32 {
      assert FsmOutput(s) == Output(k, iv, t);
      assert InitClock(s).lfsr == n.lfsr;
    } else {
      var v := Xor32(Xor32(TimesAlpha(s.lfsr[0]), s.lfsr[2]), OverAlpha(s.lfsr[11]));
      XorNothing(v);
      assert KeyClock(s).lfsr == n.lfsr;
    }
  }

  lemma {:induction false} InitialisationRuns(k: seq<bv32>, iv: seq<bv32>, t: nat)
    requires |k| == 4 && |iv| == 4 && t <= 32
    ensures InitClocks(Loaded(k, iv), t) == At(k, iv, t)
  {
    hide At, InitClock, Loaded;
    if t == 0 {
      LoadedIsTheStart(k, iv);
    } else {
      InitialisationRuns(k, iv, t - 1);
      ClockAdvances(k, iv, t - 1);
    }
  }

  /** After the initialisation and `n` clocks, stage i is s_(32+n+i), and the registers are R1, R2 and R3
      at that time. */
  lemma {:induction false} GeneratorRuns(k: seq<bv32>, iv: seq<bv32>, n: nat)
    requires |k| == 4 && |iv| == 4
    ensures KeyClocks(Initialized(k, iv), n) == At(k, iv, 32 + n)
  {
    hide At, KeyClock, Loaded, InitClocks;
    if n == 0 {
      InitialisationRuns(k, iv, 32);
    } else {
      GeneratorRuns(k, iv, n - 1);
      ClockAdvances(k, iv, 32 + n - 1);
    }
  }

  lemma WordAt(k: seq<bv32>, iv: seq<bv32>, t: nat)
    requires |k| == 4 && |iv| == 4
    ensures KeyWord(At(k, iv, t)) == Xor32(Output(k, iv, t), Stage(k, iv, t))
  {
    hide Xor32, Add32, Stage, R1, R2, R3;
  }

  /** The keystream is ((s_(t+15) + R1_t) ^ R2_t) ^ s_t from time 33 on. */
  lemma KeystreamIsTheRecurrence(k: seq<bv32>, iv: seq<bv32>, n: nat)
    requires |k| == 4 && |iv| == 4
    ensures forall j :: 0 <= j < n ==> Keystream(Initialized(k, iv), n)[j] == Word(k, iv, j)
  {
    hide At, KeyClocks, Initialized, KeyWord, Stage, Output;
    forall j | 0 <= j < n
      ensures Keystream(Initialized(k, iv), n)[j] == Word(k, iv, j)
    {
      GeneratorRuns(k, iv, j + 1);
      WordAt(k, iv, 33 + j);
    }
  }
}
