// Feedback shift registers as the spreading-code generators use them: every step drops bit 0,
// moves the others down and appends the parity of the tapped bits, bit 0 among them.
module ShiftRegister {
  import opened Arithmetic

  type Bits = seq<bool>

  // Parity of bit 0 and of the bits at `taps`.
  function Parity(s: Bits, taps: seq<nat>): bool
    requires |s| > 0 && InRange(taps, |s|)
  {
    if taps == [] then s[0] else Parity(s, taps[1..]) != s[taps[0]]
  }

  // The taps other than bit 0.
  predicate InRange(taps: seq<nat>, n: nat) {
    forall k :: 0 <= k < |taps| ==> 0 < taps[k] < n
  }

  function Step(s: Bits, taps: seq<nat>): (r: Bits)
    requires |s| > 0 && InRange(taps, |s|)
    ensures |r| == |s|
  {
    s[1..] + [Parity(s, taps)]
  }

  // The register after t steps.
  function Run(s: Bits, taps: seq<nat>, t: nat): (r: Bits)
    requires |s| > 0 && InRange(taps, |s|)
    ensures |r| == |s|
  {
    if t == 0 then s else Step(Run(s, taps, t - 1), taps)
  }

  // The t-th bit that leaves the register.
  function Out(s: Bits, taps: seq<nat>, t: nat): bool
    requires |s| > 0 && InRange(taps, |s|)
  {
    Run(s, taps, t)[0]
  }

  function Zero(n: nat): Bits {
    seq(n, i => false)
  }

  function Ones(n: nat): Bits {
    seq(n, i => true)
  }

  // ---- injectivity ---------------------------------------------------------------------------------

  lemma {:induction false} ParityDiffers(s: Bits, u: Bits, taps: seq<nat>)
    requires |s| == |u| > 0 && InRange(taps, |s|) && s[1..] == u[1..]
    ensures Parity(s, taps) == Parity(u, taps) <==> s[0] == u[0]
  {
    if taps != [] {
      ParityDiffers(s, u, taps[1..]);
      assert s[taps[0]] == s[1..][taps[0] - 1] && u[taps[0]] == u[1..][taps[0] - 1];
    }
  }

  lemma {:induction false} StepInjective(s: Bits, u: Bits, taps: seq<nat>)
    requires |s| == |u| > 0 && InRange(taps, |s|) && Step(s, taps) == Step(u, taps)
    ensures s == u
  {
    var n := |s| - 1;
    assert s[1..] == Step(s, taps)[..n] == Step(u, taps)[..n] == u[1..];
    assert Step(s, taps)[n] == Step(u, taps)[n];
    ParityDiffers(s, u, taps);
    assert s == [s[0]] + s[1..] && u == [u[0]] + u[1..];
  }

  lemma {:induction false} ParityOfZero(n: nat, taps: seq<nat>)
    requires n > 0 && InRange(taps, n)
    ensures !Parity(Zero(n), taps)
  {
    if taps != [] {
      ParityOfZero(n, taps[1..]);
    }
  }

  lemma {:induction false} ZeroFixed(n: nat, taps: seq<nat>)
    requires n > 0 && InRange(taps, n)
    ensures Step(Zero(n), taps) == Zero(n)
  {
    ParityOfZero(n, taps);
  }

  // A nonzero seed never reaches the all-zero state.
  lemma {:induction false} NeverZero(s: Bits, taps: seq<nat>, t: nat)
    requires |s| > 0 && InRange(taps, |s|) && s != Zero(|s|)
    ensures Run(s, taps, t) != Zero(|s|)
  {
    if t > 0 {
      NeverZero(s, taps, t - 1);
      ZeroFixed(|s|, taps);
      if Run(s, taps, t) == Zero(|s|) {
        StepInjective(Run(s, taps, t - 1), Zero(|s|), taps);
      }
    }
  }

  lemma {:induction false} RunInjective(s: Bits, u: Bits, taps: seq<nat>, t: nat)
    requires |s| == |u| > 0 && InRange(taps, |s|) && Run(s, taps, t) == Run(u, taps, t)
    ensures s == u
  {
    if t > 0 {
      StepInjective(Run(s, taps, t - 1), Run(u, taps, t - 1), taps);
      RunInjective(s, u, taps, t - 1);
    }
  }

  lemma {:induction false} RunTwice(s: Bits, taps: seq<nat>, a: nat, b: nat)
    requires |s| > 0 && InRange(taps, |s|)
    ensures Run(Run(s, taps, a), taps, b) == Run(s, taps, a + b)
  {
    if b > 0 {
      RunTwice(s, taps, a, b - 1);
    }
  }

  // ---- the register returns to its seed ----------------------------------------------------------------

  // All registers of n bits.
  ghost function AllBits(n: nat): (r: set<Bits>)
    ensures forall s: Bits :: s in r <==> |s| == n
  {
    if n == 0 then {[]}
    else
      var shorter := AllBits(n - 1);
      var r := Headed(true, shorter) + Headed(false, shorter);
      assert forall s: Bits :: |s| == n ==> s == [s[0]] + s[1..] && s[1..] in shorter;
      r
  }

  ghost function Headed(b: bool, ss: set<Bits>): (r: set<Bits>)
    ensures forall s: Bits :: s in r <==> s != [] && s[0] == b && s[1..] in ss
  {
    var r := set s | s in ss :: [b] + s;
    assert forall s: Bits :: s in ss ==> ([b] + s)[1..] == s;
    assert forall s: Bits :: s != [] && s[0] == b && s[1..] in ss ==> s == [b] + s[1..];
    r
  }

  lemma {:induction false} HeadedSize(b: bool, ss: set<Bits>)
    ensures |Headed(b, ss)| == |ss|
  {
    hide Headed;
    if ss != {} {
      var s :| s in ss;
      HeadedSize(b, ss - {s});
      HeadedSplit(b, ss, s);
    } else {
      assert Headed(b, ss) == {};
    }
  }

  lemma {:induction false} HeadedSplit(b: bool, ss: set<Bits>, s: Bits)
    requires s in ss
    ensures Headed(b, ss) == Headed(b, ss - {s}) + {[b] + s} && [b] + s !in Headed(b, ss - {s})
  {
    hide Headed;
    forall y: Bits
      ensures y in Headed(b, ss) <==> y in Headed(b, ss - {s}) || y == [b] + s
    {
      HeadAndTail(y, b, s);
    }
    HeadAndTail([b] + s, b, s);
  }

  lemma {:induction false} HeadAndTail(y: Bits, b: bool, s: Bits)
    ensures y == [b] + s <==> y != [] && y[0] == b && y[1..] == s
  {
    if y != [] {
      assert y == [y[0]] + y[1..];
    }
  }

  lemma {:induction false} AllBitsSize(n: nat)
    ensures |AllBits(n)| == Pow2(n)
  {
    if n == 0 {
      assert AllBits(0) == {[]};
    } else {
      AllBitsSize(n - 1);
      var shorter := AllBits(n - 1);
      HeadedSize(true, shorter);
      HeadedSize(false, shorter);
      assert AllBits(n) == Headed(true, shorter) + Headed(false, shorter);
      assert Headed(true, shorter) !! Headed(false, shorter);
    }
  }

  // The states of steps 0 to t - 1.
  ghost function Visited(s: Bits, taps: seq<nat>, t: nat): (r: set<Bits>)
    requires |s| > 0 && InRange(taps, |s|)
  {
    set k: nat | k < t :: Run(s, taps, k)
  }

  ghost predicate Returns(s: Bits, taps: seq<nat>, period: nat)
    requires |s| > 0 && InRange(taps, |s|)
  {
    period > 0 && Run(s, taps, period) == s
  }

  lemma {:induction false} NewStates(s: Bits, taps: seq<nat>, t: nat)
    requires |s| > 0 && InRange(taps, |s|) && forall p :: 0 < p < t ==> !Returns(s, taps, p)
    ensures |Visited(s, taps, t)| == t
  {
    hide Step, Run;
    if t > 0 {
      NewStates(s, taps, t - 1);
      assert Visited(s, taps, t) == Visited(s, taps, t - 1) + {Run(s, taps, t - 1)};
      if k :| 0 <= k < t - 1 && Run(s, taps, k) == Run(s, taps, t - 1) {
        EarlierMeansReturn(s, taps, k, t - 1);
      }
    }
  }

  lemma {:induction false} EarlierMeansReturn(s: Bits, taps: seq<nat>, k: nat, t: nat)
    requires |s| > 0 && InRange(taps, |s|) && k < t && Run(s, taps, k) == Run(s, taps, t)
    ensures Returns(s, taps, t - k)
  {
    hide Step, Run;
    RunTwice(s, taps, t - k, k);
    RunInjective(Run(s, taps, t - k), s, taps, k);
  }

  // Every nonzero seed of n bits comes back within 2^n - 1 steps.
  lemma {:induction false} SeedReturns(s: Bits, taps: seq<nat>)
    requires |s| > 0 && InRange(taps, |s|) && s != Zero(|s|)
    ensures exists p :: 0 < p <= Pow2(|s|) - 1 && Returns(s, taps, p)
  {
    hide Step, Run, AllBits, Pow2;
    var n := Pow2(|s|);
    if forall p :: 0 < p < n ==> !Returns(s, taps, p) {
      NewStates(s, taps, n);
      AllBitsSize(|s|);
      var states := AllBits(|s|) - {Zero(|s|)};
      forall u | u in Visited(s, taps, n)
        ensures u in states
      {
        var k :| 0 <= k < n && Run(s, taps, k) == u;
        NeverZero(s, taps, k);
      }
      Smaller(Visited(s, taps, n), states);
    }
  }

  lemma {:induction false} Smaller(a: set<Bits>, b: set<Bits>)
    requires a <= b
    ensures |a| <= |b|
  {
    if a != {} {
      var x :| x in a;
      Smaller(a - {x}, b - {x});
    }
  }

  // Once returned, the whole run repeats.
  lemma {:induction false} RunRepeats(s: Bits, taps: seq<nat>, period: nat, t: nat)
    requires |s| > 0 && InRange(taps, |s|) && Returns(s, taps, period)
    ensures Run(s, taps, t + period) == Run(s, taps, t)
  {
    RunTwice(s, taps, period, t);
  }

  // ---- linearity -----------------------------------------------------------------------------------

  function Xor(s: Bits, u: Bits): (r: Bits)
    requires |s| == |u|
    ensures |r| == |s|
  {
    seq(|s|, i requires 0 <= i < |s| => s[i] != u[i])
  }

  lemma {:induction false} ParityXor(s: Bits, u: Bits, taps: seq<nat>)
    requires |s| == |u| > 0 && InRange(taps, |s|)
    ensures Parity(Xor(s, u), taps) == (Parity(s, taps) != Parity(u, taps))
  {
    if taps != [] {
      var rest := taps[1..];
      ParityXor(s, u, rest);
      assert Xor(s, u)[taps[0]] == (s[taps[0]] != u[taps[0]]);
    }
  }

  lemma {:induction false} StepXor(s: Bits, u: Bits, taps: seq<nat>)
    requires |s| == |u| > 0 && InRange(taps, |s|)
    ensures Step(Xor(s, u), taps) == Xor(Step(s, taps), Step(u, taps))
  {
    ParityXor(s, u, taps);
    assert Xor(s, u)[1..] == Xor(s[1..], u[1..]);
  }

  lemma {:induction false} RunXor(s: Bits, u: Bits, taps: seq<nat>, t: nat)
    requires |s| == |u| > 0 && InRange(taps, |s|)
    ensures Run(Xor(s, u), taps, t) == Xor(Run(s, taps, t), Run(u, taps, t))
  {
    hide Step, Xor;
    if t > 0 {
      RunXor(s, u, taps, t - 1);
      StepXor(Run(s, taps, t - 1), Run(u, taps, t - 1), taps);
    }
  }

  // A register that does not keep the state of all ones comes back after a power of two of steps
  // from no state but zero: the sum of the states half a period apart has half the period.
  lemma {:induction false} PowerOfTwoPeriod(s: Bits, taps: seq<nat>, k: nat)
    requires |s| > 0 && InRange(taps, |s|) && !Parity(Ones(|s|), taps)
    requires Run(s, taps, Pow2(k)) == s
    ensures s == Zero(|s|)
    decreases k
  {
    if k == 0 {
      assert Run(s, taps, 0) == s;
      FixedIsConstant(s, taps);
    } else {
      hide Run, Parity;
      var h := Pow2(k - 1);
      var half := Run(s, taps, h);
      RunTwice(s, taps, h, h);
      RunXor(s, half, taps, h);
      assert Xor(half, s) == Xor(s, half);
      PowerOfTwoPeriod(Xor(s, half), taps, k - 1);
      forall i | 0 <= i < |s|
        ensures s[i] == half[i]
      {
        assert Xor(s, half)[i] == Zero(|s|)[i];
      }
      PowerOfTwoPeriod(s, taps, k - 1);
    }
  }

  lemma {:induction false} FixedIsConstant(s: Bits, taps: seq<nat>)
    requires |s| > 0 && InRange(taps, |s|) && !Parity(Ones(|s|), taps)
    requires Step(s, taps) == s
    ensures s == Zero(|s|)
  {
    hide Parity;
    AllAsFirst(s, |s| - 1);
    OnesMove(|s|, taps);
    assert s == Ones(|s|) || s == Zero(|s|);
  }

  lemma {:induction false} OnesMove(n: nat, taps: seq<nat>)
    requires n > 0 && InRange(taps, n) && !Parity(Ones(n), taps)
    ensures Step(Ones(n), taps) != Ones(n)
  {
    assert Step(Ones(n), taps)[n - 1] == Parity(Ones(n), taps);
  }

  lemma {:induction false} AllAsFirst(s: Bits, n: nat)
    requires n < |s| && forall i :: 0 <= i < |s| - 1 ==> s[i] == s[1..][i]
    ensures forall i :: 0 <= i <= n ==> s[i] == s[0]
  {
    if n > 0 {
      AllAsFirst(s, n - 1);
      assert s[n - 1] == s[1..][n - 1];
    }
  }

  // ---- linear recurrence ----------------------------------------------------------------------------------

  // The register is a window on the bits it is going to emit.
  lemma {:induction false} Window(s: Bits, taps: seq<nat>, t: nat, i: nat)
    requires |s| > 0 && InRange(taps, |s|) && i < |s|
    ensures Run(s, taps, t)[i] == Out(s, taps, t + i)
    decreases i
  {
    if i > 0 {
      assert Run(s, taps, t)[i] == Run(s, taps, t + 1)[i - 1];
      Window(s, taps, t + 1, i - 1);
    }
  }

  // Sum modulo 2 of the emitted bits t and t + tap.
  function Sum(s: Bits, taps: seq<nat>, all: seq<nat>, t: nat): bool
    requires |s| > 0 && InRange(all, |s|)
  {
    if taps == [] then Out(s, all, t) else Sum(s, taps[1..], all, t) != Out(s, all, t + taps[0])
  }

  lemma {:induction false} ParityIsSum(s: Bits, taps: seq<nat>, all: seq<nat>, t: nat)
    requires |s| > 0 && InRange(all, |s|) && InRange(taps, |s|)
    ensures Parity(Run(s, all, t), taps) == Sum(s, taps, all, t)
  {
    if taps != [] {
      ParityIsSum(s, taps[1..], all, t);
      Window(s, all, t, taps[0]);
    }
  }

  // The emitted bits satisfy the linear recurrence read off the taps.
  lemma {:induction false} Recurrence(s: Bits, taps: seq<nat>, t: nat)
    requires |s| > 0 && InRange(taps, |s|)
    ensures Out(s, taps, t + |s|) == Sum(s, taps, taps, t)
  {
    ParityIsSum(s, taps, taps, t);
    Window(s, taps, t + 1, |s| - 1);
  }

  // ---- in place ----------------------------------------------------------------------------------------------

  // The shift of a register in place, as the generators write it.
  method ShiftInPlace(reg: array<bool>, feedback: bool)
    requires reg.Length > 0
    modifies reg
    ensures reg[..] == old(reg[..])[1..] + [feedback]
  {
    var last := reg.Length - 1;
    for k := 0 to last
      invariant forall i :: 0 <= i < k ==> reg[i] == old(reg[i + 1])
      invariant forall i :: k <= i < reg.Length ==> reg[i] == old(reg[i])
    {
      reg[k] := reg[k + 1];
    }
    reg[last] := feedback;
  }
}
