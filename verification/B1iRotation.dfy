// When a shifted BeiDou B1I code is a rotation of the unshifted one: exactly, for every satellite
// and every 32-bit shift.
module B1iRotation {
  import opened Arithmetic
  import opened ShiftRegister
  import opened CodeGenerators
  import opened BeidouCodes

  // ---- the sequences -------------------------------------------------------------------------------

  function First(t: nat): bool {
    Out(B1iSeed(), B1I_G1, t)
  }

  function Second(t: nat): bool {
    Out(B1iSeed(), B1I_G2, t)
  }

  lemma {:induction false} FirstRecurs(t: nat)
    ensures First(t + 11)
            == (First(t + 10) != (First(t + 4) != (First(t + 3) != (First(t + 2) != (First(t + 1) != First(t))))))
  {
    hide Parity, Run, Out;
    var s := Run(B1iSeed(), B1I_G1, t);
    Parity5(s, 1, 2, 3, 4, 10);
    RunStep(B1iSeed(), B1I_G1, t, Parity(s, B1I_G1));
    Window(B1iSeed(), B1I_G1, t, 0);
    Window(B1iSeed(), B1I_G1, t, 1);
    Window(B1iSeed(), B1I_G1, t, 2);
    Window(B1iSeed(), B1I_G1, t, 3);
    Window(B1iSeed(), B1I_G1, t, 4);
    Window(B1iSeed(), B1I_G1, t, 10);
    Window(B1iSeed(), B1I_G1, t + 1, 10);
  }

  lemma {:induction false} SecondRecurs(t: nat)
    ensures Second(t + 11)
            == (Second(t + 10) != (Second(t + 9) != (Second(t + 8) != (Second(t + 7) != (Second(t + 6)
                != (Second(t + 3) != (Second(t + 2) != Second(t))))))))
  {
    hide Parity, Run, Out;
    var s := Run(B1iSeed(), B1I_G2, t);
    Parity7(s, 2, 3, 6, 7, 8, 9, 10);
    RunStep(B1iSeed(), B1I_G2, t, Parity(s, B1I_G2));
    Window(B1iSeed(), B1I_G2, t, 0);
    Window(B1iSeed(), B1I_G2, t, 2);
    Window(B1iSeed(), B1I_G2, t, 3);
    Window(B1iSeed(), B1I_G2, t, 6);
    Window(B1iSeed(), B1I_G2, t, 7);
    Window(B1iSeed(), B1I_G2, t, 8);
    Window(B1iSeed(), B1I_G2, t, 9);
    Window(B1iSeed(), B1I_G2, t, 10);
    Window(B1iSeed(), B1I_G2, t + 1, 10);
  }

  lemma {:induction false} SeedEmitted(t: nat)
    requires t < 11
    ensures First(t) == Second(t) == (t % 2 == 1)
  {
    Window(B1iSeed(), B1I_G1, 0, t);
    Window(B1iSeed(), B1I_G2, 0, t);
  }

  lemma {:induction false} AllSeedEmitted()
    ensures !First(0) && !First(2) && !First(4) && !First(6) && !First(8) && !First(10)
    ensures First(1) && First(3) && First(5) && First(7) && First(9)
    ensures !Second(0) && !Second(2) && !Second(4) && !Second(6) && !Second(8) && !Second(10)
    ensures Second(1) && Second(3) && Second(5) && Second(7) && Second(9)
  {
    hide First, Second;
    forall t: nat | t < 11
      ensures First(t) == Second(t) == (t % 2 == 1)
    {
      SeedEmitted(t);
    }
  }

  // Whether a sequence changes over four steps.
  predicate FirstTurns(t: nat) {
    First(t) != First(t + 4)
  }

  predicate SecondTurns(t: nat) {
    Second(t) != Second(t + 4)
  }

  predicate CodeTurns(p: Phases, t: nat) {
    ThreeDelayed(t, p) != ThreeDelayed(t + 4, p)
  }

  lemma {:induction false} FirstTurnsRecur(t: nat)
    ensures FirstTurns(t + 11)
            == (FirstTurns(t + 10) != (FirstTurns(t + 4) != (FirstTurns(t + 3) != (FirstTurns(t + 2)
                != (FirstTurns(t + 1) != FirstTurns(t))))))
  {
    hide First;
    FirstRecurs(t);
    FirstRecurs(t + 4);
  }

  lemma {:induction false} SecondTurnsRecur(t: nat)
    ensures SecondTurns(t + 11)
            == (SecondTurns(t + 10) != (SecondTurns(t + 9) != (SecondTurns(t + 8) != (SecondTurns(t + 7)
                != (SecondTurns(t + 6) != (SecondTurns(t + 3) != (SecondTurns(t + 2) != SecondTurns(t))))))))
  {
    hide Second;
    SecondRecurs(t);
    SecondRecurs(t + 4);
  }

  predicate PhaseTurns(phase: Phase, t: nat) {
    phase > 0 && SecondTurns(t + 11 - phase)
  }

  lemma {:induction false} CodeTurnsByPhase(p: Phases, t: nat)
    ensures CodeTurns(p, t) == ((PhaseTurns(p.first, t) != PhaseTurns(p.second, t)) != PhaseTurns(p.third, t))
  {
    hide Out;
  }

  lemma {:induction false} PhaseTurnsRecur(phase: Phase, t: nat)
    ensures PhaseTurns(phase, t + 11)
            == (PhaseTurns(phase, t + 10) != (PhaseTurns(phase, t + 9) != (PhaseTurns(phase, t + 8)
                != (PhaseTurns(phase, t + 7) != (PhaseTurns(phase, t + 6) != (PhaseTurns(phase, t + 3)
                != (PhaseTurns(phase, t + 2) != PhaseTurns(phase, t))))))))
  {
    hide SecondTurns;
    if phase > 0 {
      SecondTurnsRecur(t + 11 - phase);
    }
  }

  lemma {:induction false} CodeTurnsRecur(p: Phases, t: nat)
    ensures CodeTurns(p, t + 11)
            == (CodeTurns(p, t + 10) != (CodeTurns(p, t + 9) != (CodeTurns(p, t + 8) != (CodeTurns(p, t + 7)
                != (CodeTurns(p, t + 6) != (CodeTurns(p, t + 3) != (CodeTurns(p, t + 2) != CodeTurns(p, t))))))))
  {
    hide CodeTurns, PhaseTurns;
    PhaseTurnsRecur(p.first, t);
    PhaseTurnsRecur(p.second, t);
    PhaseTurnsRecur(p.third, t);
    CodeTurnsByPhase(p, t);
    CodeTurnsByPhase(p, t + 2);
    CodeTurnsByPhase(p, t + 3);
    CodeTurnsByPhase(p, t + 6);
    CodeTurnsByPhase(p, t + 7);
    CodeTurnsByPhase(p, t + 8);
    CodeTurnsByPhase(p, t + 9);
    CodeTurnsByPhase(p, t + 10);
    CodeTurnsByPhase(p, t + 11);
  }

  // ---- the taps have no common factor --------------------------------------------------------------

  // Twenty-two bits that obey the recurrences of both registers are zero in front. The steps are
  // those of Euclid's algorithm.
  ghost predicate Obeys(x: seq<bool>, n: nat)
    requires |x| == 22 && n < 11
  {
    && x[n + 11] == (x[n + 10] != (x[n + 4] != (x[n + 3] != (x[n + 2] != (x[n + 1] != x[n])))))
    && x[n + 11] == (x[n + 10] != (x[n + 9] != (x[n + 8] != (x[n + 7] != (x[n + 6] != (x[n + 3]
                     != (x[n + 2] != x[n])))))))
  }

  ghost predicate ObeysBoth(x: seq<bool>)
    requires |x| == 22
  {
    forall n :: 0 <= n < 11 ==> Obeys(x, n)
  }

  lemma {:induction false} DegreeNine(x: seq<bool>, n: nat)
    requires |x| == 22 && ObeysBoth(x) && n < 11
    ensures x[n + 9] == (x[n + 8] != (x[n + 7] != (x[n + 6] != (x[n + 4] != x[n + 1]))))
  {
    assert Obeys(x, n);
  }

  lemma {:induction false} DegreeSeven(x: seq<bool>, n: nat)
    requires |x| == 22 && ObeysBoth(x) && n < 9
    ensures x[n + 7] == (x[n + 2] != x[n])
  {
    assert Obeys(x, n);
    DegreeNine(x, n + 2);
  }

  lemma {:induction false} DegreeSix(x: seq<bool>, n: nat)
    requires |x| == 22 && ObeysBoth(x) && n < 7
    ensures x[n + 6] == (x[n + 3] != x[n])
  {
    DegreeNine(x, n);
    DegreeSeven(x, n);
    DegreeSeven(x, n + 1);
    DegreeSeven(x, n + 2);
  }

  lemma {:induction false} DegreeFour(x: seq<bool>, n: nat)
    requires |x| == 22 && ObeysBoth(x) && n < 6
    ensures x[n + 4] == (x[n + 2] != (x[n + 1] != x[n]))
  {
    DegreeSeven(x, n);
    DegreeSix(x, n + 1);
  }

  lemma {:induction false} CommonIsZero(x: seq<bool>)
    requires |x| == 22 && ObeysBoth(x)
    ensures !x[3]
  {
    DegreeSix(x, 2);
    DegreeFour(x, 2);
    DegreeFour(x, 4);
  }

  // ---- one chip ------------------------------------------------------------------------------------

  function G1(): Bits {
    Emitted(B1iSeed(), B1I_G1, B1I_LENGTH)
  }

  // Chip i of the code shifted by chipShift is the chip a rotation would put there.
  predicate Rotates(idx: nat, chipShift: nat, i: nat)
    requires idx < 63 && i < B1I_LENGTH
  {
    B1iChip(idx, chipShift, i) == B1iChip(idx, 0, Mod(i + chipShift, B1I_LENGTH))
  }

  lemma {:induction false} ChipWithWrap(idx: nat, e: nat, i: nat)
    requires idx < 63 && e < B1I_LENGTH && i < B1I_LENGTH
    ensures var chipShift := UINT32 - B1I_LENGTH + e;
            var p := PHASES[idx];
            && (i + e + 4 < B1I_LENGTH ==> (Rotates(idx, chipShift, i) <==> !CodeTurns(p, e + i)))
            && (B1I_LENGTH <= i + e && i + e + 4 < 2 * B1I_LENGTH ==>
                  var j := i + e - B1I_LENGTH;
                  Rotates(idx, chipShift, i) <==> FirstTurns(j) == CodeTurns(p, j))
  {
    hide Mod, Out, ThreeDelayed, StartOf, Chip;
    assert UINT32 % B1I_LENGTH == 4;
    RotatesWithWrap(G1(), B1iG2(idx), e, i);
    assert Rotates(idx, UINT32 - B1I_LENGTH + e, i) <==> ChipRotates(G1(), B1iG2(idx), UINT32 - B1I_LENGTH + e, i);
  }

  // ---- the start wraps a little --------------------------------------------------------------------

  // The places up to 17 where the second register's output changes over four steps.
  predicate Turn(t: nat) {
    8 <= t <= 11 || t == 14 || t == 15
  }

  lemma {:induction false} FirstTurnsAt7()
    ensures FirstTurns(7)
  {
    hide First;
    AllSeedEmitted();
    FirstRecurs(0);
  }

  lemma {:induction false} SecondBits()
    ensures Second(11) && Second(12) && !Second(13) && Second(14) && !Second(15) && Second(16) && !Second(17)
    ensures !Second(18) && Second(19) && Second(20) && !Second(21)
  {
    hide Second;
    AllSeedEmitted();
    SecondRecurs(0);
    SecondRecurs(1);
    SecondRecurs(2);
    SecondRecurs(3);
    SecondRecurs(4);
    SecondRecurs(5);
    SecondRecurs(6);
    SecondRecurs(7);
    SecondRecurs(8);
    SecondRecurs(9);
    SecondRecurs(10);
  }

  lemma {:induction false} TurnIsTurn(t: nat)
    requires t < 18
    ensures SecondTurns(t) == Turn(t)
  {
    hide Second;
    AllSeedEmitted();
    SecondBits();
  }

  predicate PhasesTurn(p: Phases, t: nat) {
    ((p.first > 0 && Turn(t + 11 - p.first)) != (p.second > 0 && Turn(t + 11 - p.second)))
    != (p.third > 0 && Turn(t + 11 - p.third))
  }

  // Whatever the phases, the second sequence of a satellite changes over four steps early on.
  lemma {:induction false} SomePhaseTurns(p: Phases)
    ensures PhasesTurn(p, 0) || PhasesTurn(p, 1) || PhasesTurn(p, 2) || PhasesTurn(p, 3) || PhasesTurn(p, 4)
            || PhasesTurn(p, 5) || PhasesTurn(p, 6) || PhasesTurn(p, 7)
  {
  }

  lemma {:induction false} CodeTurnsEarly(p: Phases) returns (t: nat)
    ensures t < 11 && CodeTurns(p, t)
  {
    hide CodeTurns, PhasesTurn;
    SomePhaseTurns(p);
    t :| t < 8 && PhasesTurn(p, t);
    PhasesTurnIsTurn(p, t);
  }

  lemma {:induction false} PhasesTurnIsTurn(p: Phases, t: nat)
    requires t < 8
    ensures CodeTurns(p, t) == PhasesTurn(p, t)
  {
    hide CodeTurns, SecondTurns, Turn;
    CodeTurnsByPhase(p, t);
    if p.first > 0 { TurnIsTurn(t + 11 - p.first); }
    if p.second > 0 { TurnIsTurn(t + 11 - p.second); }
    if p.third > 0 { TurnIsTurn(t + 11 - p.third); }
  }

  // The recurrence runs backwards too, so that of any eleven places in a row one is a turn.
  lemma {:induction false} CodeTurnsFrom(p: Phases, e: nat) returns (i: nat)
    ensures i < 11 && CodeTurns(p, e + i)
    decreases e
  {
    hide CodeTurns;
    if e == 0 {
      i := CodeTurnsEarly(p);
    } else {
      i := CodeTurnsFrom(p, e - 1);
      if i > 0 {
        i := i - 1;
      } else {
        CodeTurnsRecur(p, e - 1);
        i := if CodeTurns(p, e + 1) then 1
             else if CodeTurns(p, e + 2) then 2
             else if CodeTurns(p, e + 5) then 5
             else if CodeTurns(p, e + 6) then 6
             else if CodeTurns(p, e + 7) then 7
             else if CodeTurns(p, e + 8) then 8
             else if CodeTurns(p, e + 9) then 9
             else 10;
      }
    }
  }

  lemma {:induction false} EarlyChipFails(idx: nat, e: nat) returns (i: nat)
    requires idx < 63 && e < 26
    ensures i < B1I_LENGTH && !Rotates(idx, UINT32 - B1I_LENGTH + e, i)
  {
    hide Rotates, CodeTurns;
    i := CodeTurnsFrom(PHASES[idx], e);
    ChipWithWrap(idx, e, i);
  }

  // ---- the start wraps further ---------------------------------------------------------------------

  predicate TurnApart(p: Phases, j: nat) {
    FirstTurns(j) != CodeTurns(p, j)
  }

  // If the chips behind the wrap of the first sequence rotated, both sequences would turn together
  // over twenty-two steps, and the first one could not turn at step 7.
  lemma {:induction false} TurnTogether(p: Phases) returns (j: nat)
    ensures 4 <= j < 26 && TurnApart(p, j)
  {
    hide FirstTurns, CodeTurns;
    if exists k: nat :: 4 <= k < 26 && TurnApart(p, k) {
      j :| 4 <= j < 26 && TurnApart(p, j);
    } else {
      var x := seq(22, k requires 0 <= k => FirstTurns(4 + k));
      forall k: nat | k < 22
        ensures x[k] == FirstTurns(4 + k) == CodeTurns(p, 4 + k)
      {
        assert !TurnApart(p, 4 + k);
      }
      forall k | 0 <= k < 11
        ensures Obeys(x, k)
      {
        FirstTurnsRecur(4 + k);
        CodeTurnsRecur(p, 4 + k);
      }
      CommonIsZero(x);
      FirstTurnsAt7();
      assert false;
    }
  }

  lemma {:induction false} LateChipFails(idx: nat, e: nat) returns (i: nat)
    requires idx < 63 && 26 <= e < B1I_LENGTH
    ensures i < B1I_LENGTH && !Rotates(idx, UINT32 - B1I_LENGTH + e, i)
  {
    hide Rotates, CodeTurns, FirstTurns;
    var j := TurnTogether(PHASES[idx]);
    i := B1I_LENGTH - e + j;
    ChipWithWrap(idx, e, i);
  }

  // ---- exactly -------------------------------------------------------------------------------------

  lemma {:induction false} SmallShiftRotates(idx: nat, chipShift: nat, i: nat)
    requires idx < 63 && i < B1I_LENGTH && chipShift + B1I_LENGTH < UINT32
    ensures Rotates(idx, chipShift, i)
  {
    hide B1iChip, Mod;
    B1iRotates(idx, chipShift, i);
  }

  // A shifted code is a rotation of the unshifted one if and only if the sum of the code length and
  // the shift does not wrap around 32 bits.
  lemma {:induction false} RotatesExactly(idx: nat, chipShift: nat)
    requires idx < 63 && chipShift < UINT32
    ensures (forall i: nat :: i < B1I_LENGTH ==> Rotates(idx, chipShift, i)) <==> chipShift + B1I_LENGTH < UINT32
  {
    hide Rotates;
    if chipShift + B1I_LENGTH < UINT32 {
      forall i: nat | i < B1I_LENGTH
        ensures Rotates(idx, chipShift, i)
      {
        SmallShiftRotates(idx, chipShift, i);
      }
    } else {
      var e := chipShift + B1I_LENGTH - UINT32;
      var i;
      if e < 26 {
        i := EarlyChipFails(idx, e);
      } else {
        i := LateChipFails(idx, e);
      }
    }
  }
}
