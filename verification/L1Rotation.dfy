// When a shifted GPS L1 C/A code is a rotation of the unshifted one: exactly, for every satellite
// and every 32-bit shift.
module L1Rotation {
  import opened Arithmetic
  import opened ShiftRegister
  import opened CodeGenerators

  // ---- the two sequences ---------------------------------------------------------------------------

  function G1(t: nat): bool {
    Out(Ones(10), L1_G1, t)
  }

  function G2(t: nat): bool {
    Out(Ones(10), L1_G2, t)
  }

  lemma {:induction false} G1Recurs(t: nat)
    ensures G1(t + 10) == (G1(t + 7) != G1(t))
  {
    hide Parity, Run, Out;
    var s := Run(Ones(10), L1_G1, t);
    Parity1(s, 7);
    RunStep(Ones(10), L1_G1, t, Parity(s, L1_G1));
    Window(Ones(10), L1_G1, t, 0);
    Window(Ones(10), L1_G1, t, 7);
    Window(Ones(10), L1_G1, t + 1, 9);
  }

  lemma {:induction false} G2Recurs(t: nat)
    ensures G2(t + 10) == (G2(t + 8) != (G2(t + 7) != (G2(t + 4) != (G2(t + 2) != (G2(t + 1) != G2(t))))))
  {
    hide Parity, Run, Out;
    var s := Run(Ones(10), L1_G2, t);
    Parity5(s, 1, 2, 4, 7, 8);
    RunStep(Ones(10), L1_G2, t, Parity(s, L1_G2));
    Window(Ones(10), L1_G2, t, 0);
    Window(Ones(10), L1_G2, t, 1);
    Window(Ones(10), L1_G2, t, 2);
    Window(Ones(10), L1_G2, t, 4);
    Window(Ones(10), L1_G2, t, 7);
    Window(Ones(10), L1_G2, t, 8);
    Window(Ones(10), L1_G2, t + 1, 9);
  }

  // Both sequences start with ten ones and a zero.
  lemma {:induction false} FirstBits(t: nat)
    ensures t < 10 ==> G1(t) && G2(t)
    ensures !G1(10) && !G2(10)
  {
    hide Out;
    if t < 10 {
      OnesEmitted(t);
    }
    OnesEmitted(0);
    OnesEmitted(1);
    OnesEmitted(2);
    OnesEmitted(4);
    OnesEmitted(7);
    OnesEmitted(8);
    G1Recurs(0);
    G2Recurs(0);
  }

  lemma {:induction false} OnesEmitted(t: nat)
    requires t < 10
    ensures G1(t) && G2(t)
  {
    Window(Ones(10), L1_G1, 0, t);
    Window(Ones(10), L1_G2, 0, t);
  }

  // Whether a sequence changes over four steps.
  predicate Turns1(t: nat) {
    G1(t) != G1(t + 4)
  }

  predicate Turns2(t: nat) {
    G2(t) != G2(t + 4)
  }

  lemma {:induction false} TurnsRecur(t: nat)
    ensures Turns1(t + 10) == (Turns1(t + 7) != Turns1(t))
    ensures Turns2(t + 10)
            == (Turns2(t + 8) != (Turns2(t + 7) != (Turns2(t + 4) != (Turns2(t + 2) != (Turns2(t + 1) != Turns2(t))))))
  {
    hide G1, G2;
    G1Recurs(t);
    G1Recurs(t + 4);
    G2Recurs(t);
    G2Recurs(t + 4);
  }

  // The taps of the two registers have no common factor: twenty bits that obey both recurrences are
  // zero in the middle. The steps are those of Euclid's algorithm.
  ghost predicate Obeys(x: seq<bool>, n: nat)
    requires |x| == 20 && n < 10
  {
    && x[n + 10] == (x[n + 7] != x[n])
    && x[n + 10] == (x[n + 8] != (x[n + 7] != (x[n + 4] != (x[n + 2] != (x[n + 1] != x[n])))))
  }

  ghost predicate ObeysBoth(x: seq<bool>)
    requires |x| == 20
  {
    forall n :: 0 <= n < 10 ==> Obeys(x, n)
  }

  lemma {:induction false} DegreeSeven(x: seq<bool>, n: nat)
    requires |x| == 20 && ObeysBoth(x) && 1 <= n <= 10
    ensures x[n + 7] == (x[n + 3] != (x[n + 1] != x[n]))
  {
    assert Obeys(x, n - 1);
  }

  lemma {:induction false} DegreeFive(x: seq<bool>, n: nat)
    requires |x| == 20 && ObeysBoth(x) && 1 <= n <= 7
    ensures x[n + 6] == (x[n + 4] != x[n + 1])
  {
    assert Obeys(x, n);
    DegreeSeven(x, n);
    DegreeSeven(x, n + 3);
  }

  lemma {:induction false} DegreeOne(x: seq<bool>, n: nat)
    requires |x| == 20 && ObeysBoth(x) && 2 <= n <= 6
    ensures x[n + 2] == x[n + 1]
  {
    DegreeSeven(x, n);
    DegreeFive(x, n + 1);
    DegreeFive(x, n - 1);
  }

  lemma {:induction false} CommonIsZero(x: seq<bool>)
    requires |x| == 20 && ObeysBoth(x)
    ensures !x[6]
  {
    DegreeOne(x, 2);
    DegreeOne(x, 3);
    DegreeOne(x, 4);
    DegreeOne(x, 5);
    DegreeOne(x, 6);
    DegreeFive(x, 2);
  }

  // ---- one chip ------------------------------------------------------------------------------------

  predicate Listed(prn: int) {
    0 <= L1Index(prn) < |L1_DELAYS|
  }

  function Delay(prn: int): L1Delay
    requires Listed(prn)
  {
    L1_DELAYS[L1Index(prn)]
  }

  // Chip i of the code shifted by chipShift is the chip a rotation would put there.
  predicate Rotates(prn: int, chipShift: nat, i: nat)
    requires Listed(prn) && i < L1_LENGTH
  {
    L1Chip(prn, chipShift, i) == L1Chip(prn, 0, Mod(i + chipShift, L1_LENGTH))
  }

  lemma {:induction false} ChipBits(prn: int, chipShift: nat, i: nat)
    requires Listed(prn) && i < L1_LENGTH
    ensures L1Chip(prn, chipShift, i)
            == Level(G1(Index(i + chipShift, L1_LENGTH))
                     != G2(Mod(StartOf(L1_LENGTH, Delay(prn), chipShift) + i, L1_LENGTH)))
  {
    hide Mod, Index, Out;
  }

  // A chip rotates when the first sequence and the second one are both off, or neither is.
  lemma {:induction false} RotatesIff(prn: int, chipShift: nat, i: nat)
    requires Listed(prn) && i < L1_LENGTH
    ensures var n := L1_LENGTH;
            var r := Mod(i + chipShift, n);
            Rotates(prn, chipShift, i) <==>
            ((G1(Index(i + chipShift, n)) != G1(r))
             == (G2(Mod(StartOf(n, Delay(prn), chipShift) + i, n)) != G2(Mod(n - Delay(prn) + r, n))))
  {
    hide Mod, G1, G2, L1Chip;
    var n := L1_LENGTH;
    var r := Mod(i + chipShift, n);
    ChipBits(prn, chipShift, i);
    ChipBits(prn, 0, r);
    ModSmall(r, UINT32);
    ModSmall(r, n);
    ModSmall(n - Delay(prn), UINT32);
    ModSmall(n - Delay(prn), n);
  }

  // 2^32 is 4 modulo 1023.
  lemma {:induction false} WrapIsFour(y: nat)
    ensures Mod(UINT32 + y, L1_LENGTH) == Mod(y + 4, L1_LENGTH)
  {
    var q, r := (y + 4) / L1_LENGTH, (y + 4) % L1_LENGTH;
    DivModUnique(UINT32 + y, L1_LENGTH, 4198404 + q, r);
  }

  // Where the second sequence is read, and where a rotation would read it.
  lemma {:induction false} SecondRead(prn: int, chipShift: nat, i: nat)
    requires Listed(prn) && chipShift < UINT32 && i < L1_LENGTH
    ensures var n, sum := L1_LENGTH, L1_LENGTH - Delay(prn) + chipShift;
            && Mod(n - Delay(prn) + Mod(i + chipShift, n), n) == Mod(sum + i, n)
            && (sum < UINT32 ==> Mod(StartOf(n, Delay(prn), chipShift) + i, n) == Mod(sum + i, n))
            && (sum >= UINT32 ==>
                  && Mod(StartOf(n, Delay(prn), chipShift) + i, n) == Mod(sum - UINT32 + i, n)
                  && Mod(sum + i, n) == Mod(sum - UINT32 + i + 4, n))
  {
    hide Mod;
    var n, sum := L1_LENGTH, L1_LENGTH - Delay(prn) + chipShift;
    ModAdd(i + chipShift, n - Delay(prn), n);
    if sum < UINT32 {
      ModSmall(sum, UINT32);
      ModAdd(sum, i, n);
    } else {
      SumWraps(sum);
      ModSmall(sum - UINT32, n);
      WrapIsFour(sum - UINT32 + i);
    }
  }

  // Where the first sequence is read, and where a rotation would read it.
  lemma {:induction false} FirstRead(chipShift: nat, i: nat)
    requires chipShift < UINT32 && i < L1_LENGTH
    ensures var n, x := L1_LENGTH, i + chipShift;
            if x < UINT32 then Index(x, n) == Mod(x, n)
            else Index(x, n) == x - UINT32 && Mod(x, n) == Mod(x - UINT32 + 4, n)
  {
    hide Mod;
    var n, x := L1_LENGTH, i + chipShift;
    if x < UINT32 {
      ModSmall(x, UINT32);
    } else {
      SumWraps(x);
      ModSmall(x - UINT32, n);
      WrapIsFour(x - UINT32);
    }
  }

  // ---- the start does not wrap ---------------------------------------------------------------------

  lemma {:induction false} ChipWithoutStartWrap(prn: int, chipShift: nat, i: nat)
    requires Listed(prn) && i < L1_LENGTH && chipShift < UINT32
    requires L1_LENGTH - Delay(prn) + chipShift < UINT32
    ensures i + chipShift < UINT32 ==> Rotates(prn, chipShift, i)
    ensures i + chipShift >= UINT32 ==> (Rotates(prn, chipShift, i) <==> !Turns1(i + chipShift - UINT32))
  {
    hide Mod, Index, G1, G2, Rotates, StartOf;
    RotatesIff(prn, chipShift, i);
    SecondRead(prn, chipShift, i);
    FirstRead(chipShift, i);
    if i + chipShift >= UINT32 {
      ModSmall(i + chipShift - UINT32 + 4, L1_LENGTH);
    }
  }

  // ---- the start wraps -----------------------------------------------------------------------------

  // `e` is how far the start has wrapped, so that chips from 1023 - delay - e on wrap too.
  lemma {:induction false} ChipWithStartWrap(prn: int, e: nat, i: nat)
    requires Listed(prn) && i < L1_LENGTH && e + Delay(prn) < L1_LENGTH
    ensures var d := Delay(prn);
            var chipShift := UINT32 - L1_LENGTH + d + e;
            var b, b' := Mod(e + i, L1_LENGTH), Mod(e + i + 4, L1_LENGTH);
            && (i < L1_LENGTH - d - e ==> (Rotates(prn, chipShift, i) <==> G2(b) == G2(b')))
            && (i >= L1_LENGTH - d - e ==>
                  var j := i - (L1_LENGTH - d - e);
                  Rotates(prn, chipShift, i) <==> (G1(j) != G1(Mod(j + 4, L1_LENGTH))) == (G2(b) != G2(b')))
  {
    hide Mod, Index, G1, G2, Rotates, StartOf;
    var chipShift := UINT32 - L1_LENGTH + Delay(prn) + e;
    RotatesIff(prn, chipShift, i);
    SecondRead(prn, chipShift, i);
    FirstRead(chipShift, i);
  }

  // With ten chips before the wrap: if they rotated, the second register would be in one state
  // twice, four steps apart.
  lemma {:induction false} EarlyChipFails(prn: int, e: nat) returns (i: nat)
    requires Listed(prn) && e + Delay(prn) + 10 <= L1_LENGTH
    ensures i < 10 && !Rotates(prn, UINT32 - L1_LENGTH + Delay(prn) + e, i)
  {
    i := SecondTurns(e);
    ChipWithStartWrap(prn, e, i);
    ModSmall(e + i, L1_LENGTH);
    ModSmall(e + i + 4, L1_LENGTH);
  }

  predicate Turns2From(e: nat, k: nat) {
    Turns2(e + k)
  }

  lemma {:induction false} SecondOut(t: nat)
    ensures G2(t) == Out(Ones(10), L1_G2, t)
  {
  }

  lemma {:induction false} SecondTurns(e: nat) returns (i: nat)
    ensures i < 10 && Turns2(e + i)
  {
    hide Out, Run, G2;
    if exists k: nat :: k < 10 && Turns2From(e, k) {
      i :| i < 10 && Turns2From(e, i);
    } else {
      var s := Ones(10);
      forall k: nat | k < 10
        ensures Run(s, L1_G2, e)[k] == Run(s, L1_G2, 4 + e)[k]
      {
        assert !Turns2From(e, k);
        SecondOut(e + k);
        SecondOut(e + k + 4);
        Window(s, L1_G2, e, k);
        Window(s, L1_G2, 4 + e, k);
        assert e + k + 4 == 4 + e + k;
      }
      assert Run(s, L1_G2, e) == Run(s, L1_G2, 4 + e);
      RunTwice(s, L1_G2, 4, e);
      RunInjective(s, Run(s, L1_G2, 4), L1_G2, e);
      Window(s, L1_G2, 4, 6);
      SecondOut(10);
      FirstBits(6);
      assert false;
    }
  }

  // With fewer: if the chips behind the wrap rotated, both sequences would turn together over
  // twenty steps, and neither could turn at all.
  lemma {:induction false} TurnTogether(a: nat, b: nat) returns (n: nat)
    requires Turns1(a + 6) || Turns2(b + 6)
    ensures n < 20 && Turns1(a + n) != Turns2(b + n)
  {
    hide Turns1, Turns2;
    if exists k: nat :: k < 20 && TurnApart(a, b, k) {
      n :| n < 20 && TurnApart(a, b, n);
    } else {
      var x := seq(20, k requires 0 <= k => Turns1(a + k));
      forall k: nat | k < 20
        ensures x[k] == Turns1(a + k) == Turns2(b + k)
      {
        assert !TurnApart(a, b, k);
      }
      forall k | 0 <= k < 10
        ensures Obeys(x, k)
      {
        TurnsRecur(a + k);
        TurnsRecur(b + k);
      }
      CommonIsZero(x);
      assert false;
    }
  }

  predicate TurnApart(a: nat, b: nat, k: nat) {
    Turns1(a + k) != Turns2(b + k)
  }

  lemma {:induction false} LateChipFails(prn: int, e: nat) returns (i: nat)
    requires Listed(prn) && e + Delay(prn) < L1_LENGTH < e + Delay(prn) + 10
    ensures i < L1_LENGTH && !Rotates(prn, UINT32 - L1_LENGTH + Delay(prn) + e, i)
  {
    hide G1, G2, Rotates;
    var d := Delay(prn);
    FirstBits(6);
    var j, k, n;
    if d >= 507 {
      n := TurnTogether(0, L1_LENGTH - d);
      j, k := n, L1_LENGTH - d + n;
    } else {
      n := TurnTogether(d, 0);
      j, k := d + n, n;
    }
    i := j + (L1_LENGTH - d - e);
    ChipWithStartWrap(prn, e, i);
    ModSmall(j + 4, L1_LENGTH);
    ReadAt(e + i, k);
  }

  lemma {:induction false} ReadAt(x: nat, k: nat)
    requires x == k || x == k + L1_LENGTH
    requires k + 4 < L1_LENGTH
    ensures Mod(x, L1_LENGTH) == k && Mod(x + 4, L1_LENGTH) == k + 4
  {
  }

  // ---- exactly -----------------------------------------------------------------------------------------

  // A shifted code is a rotation of the unshifted one if and only if the sum that gives the start of
  // the second sequence does not wrap around 32 bits, and no index of the first one wraps by more
  // than five: the first ten bits of that sequence are equal, so smaller wraps do not show.
  lemma {:induction false} RotatesExactly(prn: int, chipShift: nat)
    requires Listed(prn) && chipShift < UINT32
    ensures (forall i: nat :: i < L1_LENGTH ==> Rotates(prn, chipShift, i))
            <==> chipShift <= UINT32 - 1017 && L1_LENGTH - Delay(prn) + chipShift < UINT32
  {
    hide Rotates, G1, G2;
    var sum := L1_LENGTH - Delay(prn) + chipShift;
    if sum >= UINT32 {
      var e := sum - UINT32;
      var i;
      if e + Delay(prn) + 10 <= L1_LENGTH {
        i := EarlyChipFails(prn, e);
      } else {
        i := LateChipFails(prn, e);
      }
    } else if chipShift > UINT32 - 1017 {
      var i := UINT32 + 6 - chipShift;
      ChipWithoutStartWrap(prn, chipShift, i);
      FirstBits(6);
    } else {
      forall i: nat | i < L1_LENGTH
        ensures Rotates(prn, chipShift, i)
      {
        ChipWithoutStartWrap(prn, chipShift, i);
        if i + chipShift >= UINT32 {
          FirstBits(i + chipShift - UINT32);
          FirstBits(i + chipShift - UINT32 + 4);
        }
      }
    }
  }

  // One shift above the bound the last chip fails, for every satellite whose start does not wrap.
  lemma {:induction false} LastChipFails(prn: int)
    requires Listed(prn) && Delay(prn) >= 8
    ensures !Rotates(prn, UINT32 - 1016, 1022)
  {
    hide G1, G2, Rotates;
    ChipWithoutStartWrap(prn, UINT32 - 1016, 1022);
    FirstBits(6);
  }

  // A concrete one: PRN 138.
  lemma {:induction false} LastChipOf138()
    ensures L1Chip(138, UINT32 - 1016, 1022) != L1Chip(138, 0, Mod(1022 + UINT32 - 1016, L1_LENGTH))
  {
    hide G1, G2, L1Chip;
    assert L1Index(138) == 50 && L1_DELAYS[50] == 386;
    LastChipFails(138);
  }
}
