// The GPS L2C M-code generator (IS-GPS-200, section 3.3.2.4): a 27-bit register in Galois form.
module GpsL2c {

  type Register = x: bv32 | x < 0x800_0000

  const FEEDBACK: bv32 := 0x494_953C  // 0445112474 in octal

  // gps_l2c_m_shift
  function Shift(x: bv32): bv32 {
    (x >> 1) ^ Feedback(x)
  }

  // (x & 1U) * 0445112474U
  function Feedback(x: bv32): bv32 {
    if x & 1 == 1 then FEEDBACK else 0
  }

  // The only register that Shift takes to y.
  function Unshift(y: bv32): bv32 {
    if y & 0x400_0000 != 0 then ((y ^ FEEDBACK) << 1) | 1 else y << 1
  }

  lemma {:induction false} LowBit(x: bv32)
    ensures x & 1 == 0 || x & 1 == 1
  {
  }

  lemma {:induction false} XorTwice(x: bv32, f: bv32)
    ensures (x ^ f) ^ f == x && x ^ 0 == x && (x ^ f == 0 ==> x == f)
  {
  }

  lemma {:induction false} Doubled(h: bv32)
    requires h < 0x400_0000
    ensures h << 1 < 0x800_0000 && (h << 1) & 1 == 0 && (h << 1) >> 1 == h
    ensures (h << 1) | 1 < 0x800_0000 && ((h << 1) | 1) & 1 == 1 && ((h << 1) | 1) >> 1 == h
  {
  }

  lemma {:induction false} TopBitOff(y: bv32)
    requires y < 0x800_0000
    ensures y & 0x400_0000 == 0 ==> y < 0x400_0000
    ensures y & 0x400_0000 != 0 ==> y ^ FEEDBACK < 0x400_0000
  {
  }

  // On 27-bit states the step is a bijection: Unshift is its inverse on both sides.
  lemma {:induction false} Unshifted(x: Register)
    ensures Shift(x) < 0x800_0000 && Unshift(Shift(x)) == x
  {
    hide Shift, Unshift;
    if IsOdd(x) {
      var y := OddShift(x);
      UnshiftOdd(x, y);
    } else {
      var y := EvenShift(x);
      UnshiftEven(x, y);
    }
  }

  predicate IsOdd(x: bv32) {
    x & 1 == 1
  }

  lemma {:induction false} OddShift(x: bv32) returns (y: bv32)
    requires x < 0x800_0000 && IsOdd(x)
    ensures y == Shift(x) && y == (x >> 1) ^ FEEDBACK
  {
    y := Shift(x);
  }

  lemma {:induction false} EvenShift(x: bv32) returns (y: bv32)
    requires x < 0x800_0000 && !IsOdd(x)
    ensures y == Shift(x) && y == (x >> 1) ^ 0
  {
    y := Shift(x);
  }

  lemma {:induction false} UnshiftOdd(x: bv32, y: bv32)
    requires x < 0x800_0000 && IsOdd(x) && y == (x >> 1) ^ FEEDBACK
    ensures y < 0x800_0000 && Unshift(y) == x
  {
  }

  lemma {:induction false} UnshiftEven(x: bv32, y: bv32)
    requires x < 0x800_0000 && !IsOdd(x) && y == (x >> 1) ^ 0
    ensures y < 0x800_0000 && Unshift(y) == x
  {
  }

  lemma {:induction false} ShiftDoubled(h: bv32)
    requires h < 0x400_0000
    ensures Shift((h << 1) | 1) == h ^ FEEDBACK && Shift(h << 1) == h ^ 0
  {
    Doubled(h);
  }

  lemma {:induction false} Shifted(y: Register)
    ensures Unshift(y) < 0x800_0000 && Shift(Unshift(y)) == y
  {
    hide Shift;
    TopBitOff(y);
    if y & 0x400_0000 != 0 {
      ShiftedTop(y);
    } else {
      ShiftedLow(y);
    }
  }

  lemma {:induction false} ShiftedTop(y: bv32)
    requires y & 0x400_0000 != 0 && y ^ FEEDBACK < 0x400_0000
    ensures Unshift(y) < 0x800_0000 && Shift(Unshift(y)) == y
  {
    hide Shift;
    Doubled(y ^ FEEDBACK);
    ShiftDoubled(y ^ FEEDBACK);
    XorTwice(y, FEEDBACK);
  }

  lemma {:induction false} ShiftedLow(y: bv32)
    requires y & 0x400_0000 == 0 && y < 0x400_0000
    ensures Unshift(y) < 0x800_0000 && Shift(Unshift(y)) == y
  {
    hide Shift;
    Doubled(y);
    ShiftDoubled(y);
    XorTwice(y, 0);
  }

  // A state can only be fixed if its bits, from the top one down, are all zero.
  lemma {:induction false} ShiftFixesOnlyZero(x: Register)
    ensures Shift(x) == x <==> x == 0
  {
    LowBit(x);
    if x & 1 == 0 {
      XorTwice(x >> 1, 0);
      HalfIsSelf(x);
    } else {
      OddNotFixed(x);
    }
    ZeroBits();
  }

  lemma {:induction false} ZeroBits()
    ensures (0 as bv32) & 1 == 0 && (0 as bv32) >> 1 == 0 && (0 as bv32) ^ 0 == 0
  {
  }

  lemma {:induction false} HalfIsSelf(x: bv32)
    ensures x >> 1 == x ==> x == 0
  {
  }

  lemma {:induction false} OddNotFixed(x: bv32)
    requires x < 0x800_0000 && x & 1 == 1
    ensures (x >> 1) ^ FEEDBACK != x
  {
  }

  lemma {:induction false} HalvesLinear(x: bv32, y: bv32)
    ensures (x ^ y) >> 1 == (x >> 1) ^ (y >> 1)
    ensures (x ^ y) & 1 == (x & 1) ^ (y & 1)
    ensures (0 as bv32) ^ 0 == 0 && (0 as bv32) ^ 1 == 1 && (1 as bv32) ^ 0 == 1 && (1 as bv32) ^ 1 == 0
  {
  }

  lemma {:induction false} Regroup(a: bv32, b: bv32, f: bv32)
    ensures (a ^ f) ^ (b ^ f) == (a ^ b) ^ 0
    ensures (a ^ f) ^ (b ^ 0) == (a ^ b) ^ f
    ensures (a ^ 0) ^ (b ^ f) == (a ^ b) ^ f
    ensures (a ^ 0) ^ (b ^ 0) == (a ^ b) ^ 0
  {
  }

  // The step is linear over exclusive or.
  lemma {:induction false} ShiftLinear(x: bv32, y: bv32)
    ensures Shift(x ^ y) == Shift(x) ^ Shift(y)
  {
    LowBit(x);
    LowBit(y);
    HalvesLinear(x, y);
    Regroup(x >> 1, y >> 1, FEEDBACK);
  }

  function Run(x: bv32, n: nat): bv32 {
    if n == 0 then x else Shift(Run(x, n - 1))
  }

  function Chip(x: bv32, n: nat): bv32 {
    Run(x, n) & 1
  }

  // gps_l2c_m_code, from the initial register of a satellite
  method MCode(dest: array<bv32>, seed: bv32)
    modifies dest
    ensures forall n :: 0 <= n < dest.Length ==> dest[n] == Chip(seed, n)
  {
    var x := seed;
    for n := 0 to dest.Length
      invariant x == Run(seed, n)
      invariant forall k :: 0 <= k < n ==> dest[k] == Chip(seed, k)
    {
      dest[n] := x & 1;
      x := Shift(x);
    }
  }

  function Xor(x: bv32, y: bv32): bv32 {
    x ^ y
  }

  lemma {:induction false} RunLinear(x: bv32, y: bv32, n: nat)
    ensures Run(Xor(x, y), n) == Xor(Run(x, n), Run(y, n))
  {
    hide Shift, Xor;
    if n > 0 {
      RunLinear(x, y, n - 1);
      XorStep(Run(x, n - 1), Run(y, n - 1));
    }
  }

  lemma {:induction false} XorStep(x: bv32, y: bv32)
    ensures Shift(Xor(x, y)) == Xor(Shift(x), Shift(y))
  {
    ShiftLinear(x, y);
  }

  lemma {:induction false} LastBitLinear(x: bv32, y: bv32)
    ensures (x ^ y) & 1 == (x & 1) ^ (y & 1)
  {
  }

  // For every length, the code of the exclusive or of two seeds is the chipwise exclusive or of
  // their codes; so the codes of the satellites are closed under addition with their seeds.
  lemma {:induction false} CodeLinear(x: bv32, y: bv32, n: nat)
    ensures Chip(x ^ y, n) == Chip(x, n) ^ Chip(y, n)
  {
    RunLinear(x, y, n);
    LastBitLinear(Run(x, n), Run(y, n));
  }

  // A nonzero 27-bit seed stays a nonzero 27-bit state, and different seeds never meet.
  lemma {:induction false} RunInjective(x: Register, y: Register, n: nat)
    ensures Run(x, n) < 0x800_0000 && Run(y, n) < 0x800_0000
    ensures Run(x, n) == Run(y, n) <==> x == y
    ensures Run(x, n) == 0 <==> x == 0
  {
    hide Shift, Unshift;
    if n > 0 {
      RunInjective(x, y, n - 1);
      Unshifted(Run(x, n - 1));
      Unshifted(Run(y, n - 1));
      ShiftZero();
      Unshifted(0);
    }
  }

  lemma {:induction false} ShiftZero()
    ensures Shift(0) == 0
  {
    ZeroBits();
  }

  // ---- the recurrence of the chips -------------------------------------------------------------------

  predicate Bit(x: bv32, j: bv32)
    requires j <= 27
  {
    (x >> j) & 1 == 1
  }

  // A step moves every bit down and adds the feedback where it has a one.
  lemma {:induction false} StepBit(x: Register, j: bv32)
    requires j < 27
    ensures Bit(Shift(x), j) == (Bit(x, j + 1) != (Bit(FEEDBACK, j) && Bit(x, 0)))
    ensures !Bit(x, 27)
  {
  }

  // Chip n of the code as a truth value.
  predicate One(x: bv32, n: nat) {
    Chip(x, n) == 1
  }

  lemma {:induction false} OneIsBit(x: bv32, n: nat)
    ensures One(x, n) == Bit(Run(x, n), 0)
  {
    LastBit(Run(x, n));
  }

  lemma {:induction false} LastBit(v: bv32)
    ensures v & 1 == 1 <==> Bit(v, 0)
  {
  }

  lemma {:induction false} FeedbackBits()
    ensures Bit(FEEDBACK, 2) && Bit(FEEDBACK, 3) && Bit(FEEDBACK, 4) && Bit(FEEDBACK, 5) && Bit(FEEDBACK, 8)
            && Bit(FEEDBACK, 10) && Bit(FEEDBACK, 12) && Bit(FEEDBACK, 15) && Bit(FEEDBACK, 18)
            && Bit(FEEDBACK, 20) && Bit(FEEDBACK, 23) && Bit(FEEDBACK, 26)
    ensures !Bit(FEEDBACK, 0) && !Bit(FEEDBACK, 1) && !Bit(FEEDBACK, 6) && !Bit(FEEDBACK, 7)
            && !Bit(FEEDBACK, 9) && !Bit(FEEDBACK, 11) && !Bit(FEEDBACK, 13) && !Bit(FEEDBACK, 14)
            && !Bit(FEEDBACK, 16) && !Bit(FEEDBACK, 17) && !Bit(FEEDBACK, 19) && !Bit(FEEDBACK, 21)
            && !Bit(FEEDBACK, 22) && !Bit(FEEDBACK, 24) && !Bit(FEEDBACK, 25)
  {
  }

  // One step of the register of a run, seen at one bit.
  lemma {:induction false} RunBit(x: Register, n: nat, j: bv32)
    requires j < 27
    ensures Bit(Run(x, n + 1), j) == (Bit(Run(x, n), j + 1) != (Bit(FEEDBACK, j) && One(x, n)))
    ensures !Bit(Run(x, n), 27)
  {
    hide Bit, Shift, One;
    RunInjective(x, x, n);
    OneIsBit(x, n);
    StepBit(Run(x, n), j);
  }

  // The chips of every satellite obey the recurrence of the generator polynomial of order 27.
  lemma {:induction false} ChipsRecur(x: Register, n: nat)
    ensures One(x, n + 27)
            == (One(x, n + 24) != (One(x, n + 23) != (One(x, n + 22) != (One(x, n + 21)
                != (One(x, n + 18) != (One(x, n + 16) != (One(x, n + 14) != (One(x, n + 11)
                != (One(x, n + 8) != (One(x, n + 6) != (One(x, n + 3) != One(x, n))))))))))))
  {
    hide Run, Bit, One;
    FeedbackBits();
    OneIsBit(x, n + 27);
    RunBit(x, n, 26);
    RunBit(x, n + 1, 25);
    RunBit(x, n + 2, 24);
    RunBit(x, n + 3, 23);
    RunBit(x, n + 4, 22);
    RunBit(x, n + 5, 21);
    RunBit(x, n + 6, 20);
    RunBit(x, n + 7, 19);
    RunBit(x, n + 8, 18);
    RunBit(x, n + 9, 17);
    RunBit(x, n + 10, 16);
    RunBit(x, n + 11, 15);
    RunBit(x, n + 12, 14);
    RunBit(x, n + 13, 13);
    RunBit(x, n + 14, 12);
    RunBit(x, n + 15, 11);
    RunBit(x, n + 16, 10);
    RunBit(x, n + 17, 9);
    RunBit(x, n + 18, 8);
    RunBit(x, n + 19, 7);
    RunBit(x, n + 20, 6);
    RunBit(x, n + 21, 5);
    RunBit(x, n + 22, 4);
    RunBit(x, n + 23, 3);
    RunBit(x, n + 24, 2);
    RunBit(x, n + 25, 1);
    RunBit(x, n + 26, 0);
  }
}
