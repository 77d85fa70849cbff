// When a shifted BeiDou B3I code is a rotation of the unshifted one: exactly, for every satellite
// and every 32-bit shift.
module B3iRotation {
  import opened Arithmetic
  import opened ShiftRegister
  import opened CodeGenerators
  import opened BeidouCodes

  // 2^32 modulo 10230.
  const LAG := 4096

  // ---- the second sequence -------------------------------------------------------------------------

  function Second(seed: Seed13, t: nat): bool {
    Out(BitsOf(seed, 13), B3I_G2, t)
  }

  predicate SecondTurns(seed: Seed13, t: nat) {
    Second(seed, t) != Second(seed, t + LAG)
  }

  lemma {:induction false} SecondRecurs(seed: Seed13, t: nat)
    ensures Second(seed, t + 13)
            == (Second(seed, t + 12) != (Second(seed, t + 8) != (Second(seed, t + 7) != (Second(seed, t + 6)
                != (Second(seed, t + 4) != (Second(seed, t + 3) != (Second(seed, t + 1) != Second(seed, t))))))))
  {
    hide Parity, Run, Out, BitsOf;
    var s := BitsOf(seed, 13);
    var r := Run(s, B3I_G2, t);
    Parity7(r, 1, 3, 4, 6, 7, 8, 12);
    RunStep(s, B3I_G2, t, Parity(r, B3I_G2));
    Window(s, B3I_G2, t, 0);
    Window(s, B3I_G2, t, 1);
    Window(s, B3I_G2, t, 3);
    Window(s, B3I_G2, t, 4);
    Window(s, B3I_G2, t, 6);
    Window(s, B3I_G2, t, 7);
    Window(s, B3I_G2, t, 8);
    Window(s, B3I_G2, t, 12);
    Window(s, B3I_G2, t + 1, 12);
  }

  lemma {:induction false} SecondTurnsRecur(seed: Seed13, t: nat)
    ensures SecondTurns(seed, t + 13)
            == (SecondTurns(seed, t + 12) != (SecondTurns(seed, t + 8) != (SecondTurns(seed, t + 7)
                != (SecondTurns(seed, t + 6) != (SecondTurns(seed, t + 4) != (SecondTurns(seed, t + 3)
                != (SecondTurns(seed, t + 1) != SecondTurns(seed, t))))))))
  {
    hide Second;
    SecondRecurs(seed, t);
    SecondRecurs(seed, t + LAG);
  }

  lemma {:induction false} BitsOfZero(x: nat, n: nat)
    requires BitsOf(x, n) == Zero(n)
    ensures x % Pow2(n) == 0
  {
    if n > 0 {
      assert BitsOf(x, n)[0] == Zero(n)[0];
      assert BitsOf(x, n)[1..] == BitsOf(x / 2, n - 1);
      assert Zero(n)[1..] == Zero(n - 1);
      BitsOfZero(x / 2, n - 1);
      Doubled(x / 2, Pow2(n - 1));
      assert x == 2 * (x / 2);
    }
  }

  lemma {:induction false} Doubled(y: nat, p: int)
    requires p > 0 && y % p == 0
    ensures (2 * y) % (2 * p) == 0
  {
    var q := y / p;
    assert y == q * p;
    DivModUnique(2 * y, 2 * p, q, 0);
  }

  lemma {:induction false} SeedNotZero(seed: Seed13)
    ensures BitsOf(seed, 13) != Zero(13)
  {
    assert Pow2(13) == 8192;
    if BitsOf(seed, 13) == Zero(13) {
      BitsOfZero(seed, 13);
    }
  }

  lemma {:induction false} OnesTogether()
    ensures !Parity(Ones(13), B3I_G2)
  {
    Parity7(Ones(13), 1, 3, 4, 6, 7, 8, 12);
  }

  predicate SecondTurnsFrom(seed: Seed13, b: nat, k: nat) {
    SecondTurns(seed, b + k)
  }

  // Of any thirteen places in a row one is a turn: otherwise the register would be in one state
  // twice, 2^12 steps apart.
  lemma {:induction false} SecondTurnsWithin(seed: Seed13, b: nat) returns (k: nat)
    ensures k < 13 && SecondTurns(seed, b + k)
  {
    hide Out, Run, Parity, BitsOf;
    if exists i: nat :: i < 13 && SecondTurnsFrom(seed, b, i) {
      k :| k < 13 && SecondTurnsFrom(seed, b, k);
    } else {
      var s := BitsOf(seed, 13);
      forall i: nat | i < 13
        ensures Run(s, B3I_G2, b)[i] == Run(s, B3I_G2, LAG + b)[i]
      {
        assert !SecondTurnsFrom(seed, b, i);
        Window(s, B3I_G2, b, i);
        Window(s, B3I_G2, LAG + b, i);
        assert b + i + LAG == LAG + b + i;
      }
      assert Run(s, B3I_G2, b) == Run(s, B3I_G2, LAG + b);
      RunTwice(s, B3I_G2, LAG, b);
      RunInjective(s, Run(s, B3I_G2, LAG), B3I_G2, b);
      NoReturnAfterLag(seed);
      assert false;
    }
  }

  lemma {:induction false} NoReturnAfterLag(seed: Seed13)
    ensures Run(BitsOf(seed, 13), B3I_G2, LAG) != BitsOf(seed, 13)
  {
    hide Run, Parity, BitsOf;
    var s := BitsOf(seed, 13);
    if Run(s, B3I_G2, LAG) == s {
      assert Pow2(12) == LAG;
      OnesTogether();
      PowerOfTwoPeriod(s, B3I_G2, 12);
      SeedNotZero(seed);
    }
  }

  // ---- the first sequence, with its resets ---------------------------------------------------------

  function First(t: nat): bool {
    G1Run(t)[0]
  }

  predicate FirstTurns(t: nat) {
    First(t) != First(t + LAG)
  }

  function Feedback(s: Bits): bool
    requires |s| == 13
  {
    s[12] != (s[10] != (s[9] != s[0]))
  }

  const LAST: Bits := [false, false] + Ones(11)

  // The register is set to all ones at step t.
  predicate Resets(t: nat) {
    t > 0 && G1Run(t - 1)[1..] + [Feedback(G1Run(t - 1))] == LAST
  }

  // No reset in the n steps behind t.
  ghost predicate Quiet(t: nat, n: nat) {
    forall s: nat :: t < s <= t + n ==> !Resets(s)
  }

  lemma {:induction false} FirstStep(t: nat)
    ensures G1Run(t + 1) == if Resets(t + 1) then Ones(13) else G1Run(t)[1..] + [Feedback(G1Run(t))]
  {
    hide G1Run;
    G1Next(t, Feedback(G1Run(t)));
  }

  lemma {:induction false} FirstWindow(t: nat, i: nat)
    requires i < 13 && Quiet(t, i)
    ensures G1Run(t)[i] == First(t + i)
    decreases i
  {
    if i > 0 {
      hide G1Run, Resets;
      FirstStep(t);
      assert !Resets(t + 1);
      FirstWindow(t + 1, i - 1);
    }
  }

  lemma {:induction false} FirstRecurs(t: nat)
    requires Quiet(t, 13)
    ensures First(t + 13) == (First(t + 12) != (First(t + 10) != (First(t + 9) != First(t))))
  {
    hide G1Run, Resets, First;
    FirstStep(t);
    assert !Resets(t + 1);
    FirstWindow(t, 0);
    FirstWindow(t, 9);
    FirstWindow(t, 10);
    FirstWindow(t, 12);
    FirstWindow(t + 1, 12);
  }

  lemma {:induction false} FirstTurnsRecur(t: nat)
    requires Quiet(t, 13) && Quiet(t + LAG, 13)
    ensures FirstTurns(t + 13)
            == (FirstTurns(t + 12) != (FirstTurns(t + 10) != (FirstTurns(t + 9) != FirstTurns(t))))
  {
    hide First, Resets, Quiet;
    FirstRecurs(t);
    FirstRecurs(t + LAG);
  }

  // ---- resets are far apart ------------------------------------------------------------------------

  const FREE: seq<nat> := [9, 10, 12]

  // The sequence of the register if it were never reset.
  function Reference(t: nat): bool {
    Out(Ones(13), FREE, t)
  }

  lemma {:induction false} FreeParity(s: Bits)
    requires |s| == 13
    ensures Parity(s, FREE) == Feedback(s)
  {
    assert FREE[1..] == [10, 12] && [10, 12][1..] == [12];
    Parity1(s, 12);
    assert Parity(s, [10, 12]) == (Parity(s, [12]) != s[10]);
  }

  lemma {:induction false} ReferenceRecurs(t: nat)
    ensures Reference(t + 13) == (Reference(t + 12) != (Reference(t + 10) != (Reference(t + 9) != Reference(t))))
  {
    hide Parity, Run, Out;
    var s := Run(Ones(13), FREE, t);
    FreeParity(s);
    RunStep(Ones(13), FREE, t, Parity(s, FREE));
    Window(Ones(13), FREE, t, 0);
    Window(Ones(13), FREE, t, 9);
    Window(Ones(13), FREE, t, 10);
    Window(Ones(13), FREE, t, 12);
    Window(Ones(13), FREE, t + 1, 12);
  }

  lemma {:induction false} OnesFirst()
    ensures forall t: nat :: t < 13 ==> Reference(t)
  {
    forall t: nat | t < 13
      ensures Reference(t)
    {
      Window(Ones(13), FREE, 0, t);
    }
  }

  lemma {:induction false} Bits13()
    ensures !Reference(13) && Reference(14) && !Reference(15) && !Reference(16) && !Reference(17)
    ensures !Reference(18) && Reference(19) && !Reference(20) && Reference(21) && Reference(22) && Reference(23)
  {
    hide Reference;
    OnesFirst();
    ReferenceRecurs(0);
    ReferenceRecurs(1);
    ReferenceRecurs(2);
    ReferenceRecurs(3);
    ReferenceRecurs(4);
    ReferenceRecurs(5);
    ReferenceRecurs(6);
    ReferenceRecurs(7);
    ReferenceRecurs(8);
    ReferenceRecurs(9);
    ReferenceRecurs(10);
  }

  lemma {:induction false} Bits24()
    ensures Reference(24) && !Reference(25) && !Reference(26) && Reference(27) && !Reference(28)
    ensures !Reference(29) && Reference(30) && !Reference(31) && Reference(32) && !Reference(33)
    ensures !Reference(34)
  {
    hide Reference;
    OnesFirst();
    Bits13();
    ReferenceRecurs(11);
    ReferenceRecurs(12);
    ReferenceRecurs(13);
    ReferenceRecurs(14);
    ReferenceRecurs(15);
    ReferenceRecurs(16);
    ReferenceRecurs(17);
    ReferenceRecurs(18);
    ReferenceRecurs(19);
    ReferenceRecurs(20);
    ReferenceRecurs(21);
  }

  lemma {:induction false} Bits35()
    ensures !Reference(35) && !Reference(36) && Reference(37) && Reference(38) && Reference(39) && Reference(40)
    ensures Reference(41) && Reference(42) && !Reference(43) && !Reference(44) && Reference(45)
  {
    hide Reference;
    Bits13();
    Bits24();
    ReferenceRecurs(22);
    ReferenceRecurs(23);
    ReferenceRecurs(24);
    ReferenceRecurs(25);
    ReferenceRecurs(26);
    ReferenceRecurs(27);
    ReferenceRecurs(28);
    ReferenceRecurs(29);
    ReferenceRecurs(30);
    ReferenceRecurs(31);
    ReferenceRecurs(32);
  }

  lemma {:induction false} Bits46()
    ensures !Reference(46) && !Reference(47) && Reference(48) && !Reference(49) && Reference(50)
    ensures Reference(51) && Reference(52) && Reference(53) && !Reference(54)
  {
    hide Reference;
    Bits24();
    Bits35();
    ReferenceRecurs(33);
    ReferenceRecurs(34);
    ReferenceRecurs(35);
    ReferenceRecurs(36);
    ReferenceRecurs(37);
    ReferenceRecurs(38);
    ReferenceRecurs(39);
    ReferenceRecurs(40);
    ReferenceRecurs(41);
  }

  // Less than 52 steps behind the state of all ones, the state that is reset is not met.
  lemma {:induction false} NotLast(s: nat)
    requires s < 52
    ensures Run(Ones(13), FREE, s) != LAST
  {
    hide Run, Reference;
    var zero := if s < 1 then 0 else if s < 12 then 13 else if s < 19 then 20 else if s < 24 then 25
                else if s < 34 then 35 else if s < 43 then 44 else 54;
    if Run(Ones(13), FREE, s) == LAST {
      OnesFirst();
      Bits13();
      Bits24();
      Bits35();
      Bits46();
      ReferenceAt(s, zero - s);
    }
  }

  lemma {:induction false} ReferenceAt(t: nat, i: nat)
    requires i < 13
    ensures Run(Ones(13), FREE, t)[i] == Reference(t + i)
  {
    Window(Ones(13), FREE, t, i);
  }

  lemma {:induction false} FreeRun(t: nat, s: nat)
    requires G1Run(t) == Ones(13) && s < 52
    ensures G1Run(t + s) == Run(Ones(13), FREE, s) && (s > 0 ==> !Resets(t + s))
    decreases s
  {
    hide G1Run, Run;
    if s == 0 {
      RunStart(Ones(13), FREE);
    } else {
      FreeRun(t, s - 1);
      var r := Run(Ones(13), FREE, s - 1);
      FreeParity(r);
      RunStep(Ones(13), FREE, s - 1, Parity(r, FREE));
      NotLast(s);
      FirstStep(t + s - 1);
    }
  }

  lemma {:induction false} QuietAfter(t: nat)
    requires t == 0 || Resets(t)
    ensures Quiet(t, 51)
  {
    hide G1Run, Resets;
    if t == 0 {
      G1Start();
    } else {
      FirstStep(t - 1);
    }
    forall s: nat | t < s <= t + 51
      ensures !Resets(s)
    {
      FreeRun(t, s - t);
    }
  }

  // Two of the first windows of 25 steps, LAG apart, are both without a reset.
  lemma {:induction false} QuietWindow() returns (t: nat)
    ensures t + 26 <= 52 && Quiet(t, 25) && Quiet(t + LAG, 25)
  {
    hide Resets;
    QuietAfter(0);
    if Quiet(LAG, 25) {
      t := 0;
    } else {
      var a: nat :| LAG < a <= LAG + 25 && Resets(a);
      QuietAfter(a);
      t := 26;
    }
  }

  // ---- the taps have no common factor --------------------------------------------------------------

  // Twenty-six bits that obey the recurrences of both registers are zero. The steps are those of
  // Euclid's algorithm.
  ghost predicate Obeys(x: seq<bool>, n: nat)
    requires |x| == 26 && n < 13
  {
    && x[n + 13] == (x[n + 12] != (x[n + 10] != (x[n + 9] != x[n])))
    && x[n + 13] == (x[n + 12] != (x[n + 8] != (x[n + 7] != (x[n + 6]
                     != (x[n + 4] != (x[n + 3] != (x[n + 1] != x[n])))))))
  }

  ghost predicate ObeysBoth(x: seq<bool>)
    requires |x| == 26
  {
    forall n :: 0 <= n < 13 ==> Obeys(x, n)
  }

  lemma {:induction false} DegreeTen(x: seq<bool>, n: nat)
    requires |x| == 26 && ObeysBoth(x) && n < 13
    ensures x[n + 10] == (x[n + 9] != (x[n + 8] != (x[n + 7] != (x[n + 6] != (x[n + 4] != (x[n + 3] != x[n + 1]))))))
  {
    assert Obeys(x, n);
  }

  lemma {:induction false} DegreeSeven(x: seq<bool>, n: nat)
    requires |x| == 26 && ObeysBoth(x) && n < 10
    ensures x[n + 7] == (x[n + 5] != (x[n + 4] != (x[n + 3] != (x[n + 2] != (x[n + 1] != x[n])))))
  {
    assert Obeys(x, n);
    DegreeTen(x, n + 1);
    DegreeTen(x, n + 3);
  }

  lemma {:induction false} DegreeSix(x: seq<bool>, n: nat)
    requires |x| == 26 && ObeysBoth(x) && n < 7
    ensures x[n + 6] == (x[n + 5] != x[n])
  {
    DegreeTen(x, n);
    DegreeSeven(x, n);
    DegreeSeven(x, n + 2);
    DegreeSeven(x, n + 3);
  }

  lemma {:induction false} DegreeFour(x: seq<bool>, n: nat)
    requires |x| == 26 && ObeysBoth(x) && n < 6
    ensures x[n + 4] == (x[n + 3] != x[n + 2])
  {
    DegreeSeven(x, n);
    DegreeSix(x, n);
    DegreeSix(x, n + 1);
  }

  lemma {:induction false} DegreeThree(x: seq<bool>, n: nat)
    requires |x| == 26 && ObeysBoth(x) && n < 4
    ensures x[n + 3] == (x[n + 2] != x[n])
  {
    DegreeSix(x, n);
    DegreeFour(x, n);
    DegreeFour(x, n + 2);
  }

  lemma {:induction false} DegreeTwo(x: seq<bool>, n: nat)
    requires |x| == 26 && ObeysBoth(x) && n < 3
    ensures x[n + 2] == x[n + 1]
  {
    DegreeFour(x, n);
    DegreeThree(x, n + 1);
  }

  lemma {:induction false} FirstFiveZero(x: seq<bool>)
    requires |x| == 26 && ObeysBoth(x)
    ensures !x[0] && !x[1] && !x[2] && !x[3] && !x[4]
  {
    DegreeThree(x, 0);
    DegreeThree(x, 1);
    DegreeTwo(x, 0);
    DegreeTwo(x, 1);
    DegreeTwo(x, 2);
  }

  lemma {:induction false} CommonIsZero(x: seq<bool>, k: nat)
    requires |x| == 26 && ObeysBoth(x) && k < 13
    ensures !x[k]
    decreases k
  {
    FirstFiveZero(x);
    if 5 <= k < 10 {
      CommonIsZero(x, k - 1);
      CommonIsZero(x, k - 2);
      DegreeFour(x, k - 4);
    } else if 10 <= k {
      CommonIsZero(x, k - 2);
      CommonIsZero(x, k - 3);
      CommonIsZero(x, k - 4);
      CommonIsZero(x, k - 5);
      CommonIsZero(x, k - 6);
      CommonIsZero(x, k - 7);
      DegreeSeven(x, k - 7);
    }
  }

  // ---- one chip ------------------------------------------------------------------------------------

  function G2(idx: nat): Bits
    requires idx < 63
  {
    Emitted(BitsOf(B3I_SEEDS[idx], 13), B3I_G2, B3I_LENGTH)
  }

  // Chip i of the code shifted by chipShift is the chip a rotation would put there.
  predicate Rotates(idx: nat, chipShift: nat, i: nat)
    requires idx < 63 && i < B3I_LENGTH
  {
    B3iChip(idx, chipShift, i) == B3iChip(idx, 0, Mod(i + chipShift, B3I_LENGTH))
  }

  lemma {:induction false} ChipWithWrap(idx: nat, e: nat, i: nat)
    requires idx < 63 && e < B3I_LENGTH && i < B3I_LENGTH
    ensures var chipShift := UINT32 - B3I_LENGTH + e;
            var seed := B3I_SEEDS[idx];
            && (i + e + LAG < B3I_LENGTH ==> (Rotates(idx, chipShift, i) <==> !SecondTurns(seed, e + i)))
            && (B3I_LENGTH <= i + e && i + e + LAG < 2 * B3I_LENGTH ==>
                  var j := i + e - B3I_LENGTH;
                  Rotates(idx, chipShift, i) <==> FirstTurns(j) == SecondTurns(seed, j))
  {
    hide Mod, Out, G1Run, StartOf, Chip, BitsOf;
    assert UINT32 % B3I_LENGTH == LAG;
    RotatesWithWrap(B3iG1(), G2(idx), e, i);
    assert Rotates(idx, UINT32 - B3I_LENGTH + e, i) <==> ChipRotates(B3iG1(), G2(idx), UINT32 - B3I_LENGTH + e, i);
  }

  lemma {:induction false} EarlyChipFails(idx: nat, e: nat) returns (i: nat)
    requires idx < 63 && e + 13 + LAG <= B3I_LENGTH
    ensures i < B3I_LENGTH && !Rotates(idx, UINT32 - B3I_LENGTH + e, i)
  {
    hide Rotates, SecondTurns;
    i := SecondTurnsWithin(B3I_SEEDS[idx], e);
    ChipWithWrap(idx, e, i);
  }

  predicate TurnApart(seed: Seed13, j: nat) {
    FirstTurns(j) != SecondTurns(seed, j)
  }

  // If the chips behind the wrap of the first sequence rotated, both sequences would turn together
  // in a window without a reset, and the second one would not turn at all.
  lemma {:induction false} TurnTogether(seed: Seed13) returns (j: nat)
    ensures j < 52 && TurnApart(seed, j)
  {
    hide FirstTurns, SecondTurns, Quiet;
    if exists k: nat :: k < 52 && TurnApart(seed, k) {
      j :| j < 52 && TurnApart(seed, j);
    } else {
      var t := QuietWindow();
      var x := seq(26, k requires 0 <= k => FirstTurns(t + k));
      forall k: nat | k < 26
        ensures x[k] == FirstTurns(t + k) == SecondTurns(seed, t + k)
      {
        assert !TurnApart(seed, t + k);
      }
      forall k | 0 <= k < 13
        ensures Obeys(x, k)
      {
        QuietPart(t, k);
        QuietPart(t + LAG, k);
        FirstTurnsRecur(t + k);
        SecondTurnsRecur(seed, t + k);
      }
      var k := SecondTurnsWithin(seed, t);
      CommonIsZero(x, k);
      assert false;
    }
  }

  lemma {:induction false} QuietPart(t: nat, k: nat)
    requires Quiet(t, 25) && k < 13
    ensures Quiet(t + k, 13)
  {
    hide Resets;
  }

  lemma {:induction false} LateChipFails(idx: nat, e: nat) returns (i: nat)
    requires idx < 63 && B3I_LENGTH < e + 13 + LAG && e < B3I_LENGTH
    ensures i < B3I_LENGTH && !Rotates(idx, UINT32 - B3I_LENGTH + e, i)
  {
    hide Rotates, FirstTurns, SecondTurns;
    var j := TurnTogether(B3I_SEEDS[idx]);
    i := B3I_LENGTH - e + j;
    ChipWithWrap(idx, e, i);
  }

  // ---- exactly -------------------------------------------------------------------------------------

  lemma {:induction false} SmallShiftRotates(idx: nat, chipShift: nat, i: nat)
    requires idx < 63 && i < B3I_LENGTH && chipShift + B3I_LENGTH < UINT32
    ensures Rotates(idx, chipShift, i)
  {
    hide B3iChip, Mod;
    B3iRotates(idx, chipShift, i);
  }

  // A shifted code is a rotation of the unshifted one if and only if the sum of the code length and
  // the shift does not wrap around 32 bits.
  lemma {:induction false} RotatesExactly(idx: nat, chipShift: nat)
    requires idx < 63 && chipShift < UINT32
    ensures (forall i: nat :: i < B3I_LENGTH ==> Rotates(idx, chipShift, i)) <==> chipShift + B3I_LENGTH < UINT32
  {
    hide Rotates;
    if chipShift + B3I_LENGTH < UINT32 {
      forall i: nat | i < B3I_LENGTH
        ensures Rotates(idx, chipShift, i)
      {
        SmallShiftRotates(idx, chipShift, i);
      }
    } else {
      var e := chipShift + B3I_LENGTH - UINT32;
      var i;
      if e + 13 + LAG <= B3I_LENGTH {
        i := EarlyChipFails(idx, e);
      } else {
        i := LateChipFails(idx, e);
      }
    }
  }
}
