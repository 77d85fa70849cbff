// The XB registers of GPS L5 (IS-GPS-705, section 3.3.2.2), kept as deques whose front is new.
module GpsL5 {
  import opened Arithmetic
  import opened ShiftRegister
  import opened CodeGenerators
  import opened BeidouCodes

  const XB_TAPS: seq<nat> := [1, 5, 6, 7, 9, 10, 12]

  // l5i_xb_shift and l5q_xb_shift
  function XbShift(xb: Bits): (r: Bits)
    requires |xb| == 13
    ensures |r| == 13
  {
    [xb[12] != (xb[11] != (xb[7] != (xb[6] != (xb[5] != (xb[3] != (xb[2] != xb[0]))))))] + xb[..12]
  }

  function Reversed(s: Bits): (r: Bits)
    ensures |r| == |s|
  {
    seq(|s|, i requires 0 <= i < |s| => s[|s| - 1 - i])
  }

  // Read backwards, the deque is a shift register like the others.
  lemma {:induction false} XbIsShiftRegister(xb: Bits)
    requires |xb| == 13
    ensures Reversed(XbShift(xb)) == Step(Reversed(xb), XB_TAPS)
  {
    Parity7(Reversed(xb), 1, 5, 6, 7, 9, 10, 12);
    var r, s := Reversed(XbShift(xb)), Step(Reversed(xb), XB_TAPS);
    forall i | 0 <= i < 13
      ensures r[i] == s[i]
    {
    }
  }

  // make_l5i_xb and make_l5q_xb
  method MakeXb(length: nat) returns (y: seq<bool>)
    ensures y == Emitted(Ones(13), XB_TAPS, length)
  {
    hide Step, Out, Parity, XbShift;
    var xb := Ones(13);
    y := seq(length, i => false);
    assert Reversed(xb) == Ones(13);
    for i := 0 to length
      invariant |xb| == 13 && Reversed(xb) == Run(Ones(13), XB_TAPS, i)
      invariant |y| == length && forall t :: 0 <= t < i ==> y[t] == Out(Ones(13), XB_TAPS, t)
    {
      OutIsHead(Ones(13), XB_TAPS, i);
      y := y[i := xb[12]];
      XbIsShiftRegister(xb);
      xb := XbShift(xb);
    }
    assert y == Emitted(Ones(13), XB_TAPS, length);
  }

  // Distinct XB states have distinct successors, so from any nonzero state the register returns to
  // it within 8191 steps, and the code satisfies the recurrence of its taps.
  lemma {:induction false} XbInjective(a: Bits, b: Bits)
    requires |a| == |b| == 13 && XbShift(a) == XbShift(b)
    ensures a == b
  {
    XbIsShiftRegister(a);
    XbIsShiftRegister(b);
    StepInjective(Reversed(a), Reversed(b), XB_TAPS);
    forall i | 0 <= i < 13
      ensures a[i] == b[i]
    {
      assert Reversed(a)[12 - i] == a[i] && Reversed(b)[12 - i] == b[i];
    }
  }

  lemma {:induction false} XbCode(t: nat)
    ensures exists p :: 0 < p <= 8191 && Returns(Ones(13), XB_TAPS, p)
    ensures Out(Ones(13), XB_TAPS, t + 13) == Sum(Ones(13), XB_TAPS, XB_TAPS, t)
  {
    assert Ones(13)[0] != Zero(13)[0];
    SeedReturns(Ones(13), XB_TAPS);
    assert Pow2(13) == 8192;
    Recurrence(Ones(13), XB_TAPS, t);
  }

  // The recurrence with the places of the generator polynomial as numbers.
  lemma {:induction false} XbRecurs(t: nat)
    ensures var s := Ones(13);
            Out(s, XB_TAPS, t + 13)
            == (Out(s, XB_TAPS, t + 12) != (Out(s, XB_TAPS, t + 10) != (Out(s, XB_TAPS, t + 9)
                != (Out(s, XB_TAPS, t + 7) != (Out(s, XB_TAPS, t + 6) != (Out(s, XB_TAPS, t + 5)
                != (Out(s, XB_TAPS, t + 1) != Out(s, XB_TAPS, t))))))))
  {
    hide Parity, Run, Out;
    var s := Ones(13);
    var r := Run(s, XB_TAPS, t);
    Parity7(r, 1, 5, 6, 7, 9, 10, 12);
    RunStep(s, XB_TAPS, t, Parity(r, XB_TAPS));
    Window(s, XB_TAPS, t, 0);
    Window(s, XB_TAPS, t, 1);
    Window(s, XB_TAPS, t, 5);
    Window(s, XB_TAPS, t, 6);
    Window(s, XB_TAPS, t, 7);
    Window(s, XB_TAPS, t, 9);
    Window(s, XB_TAPS, t, 10);
    Window(s, XB_TAPS, t, 12);
    Window(s, XB_TAPS, t + 1, 12);
  }
}
