// The BeiDou B1I and B3I code generators.
module BeidouCodes {
  import opened Arithmetic
  import opened ShiftRegister
  import opened CodeGenerators

  // ---- B1I -----------------------------------------------------------------------------------------

  const B1I_LENGTH := 2046
  const B1I_G1: seq<nat> := [1, 2, 3, 4, 10]
  const B1I_G2: seq<nat> := [2, 3, 6, 7, 8, 9, 10]

  // Phase selectors of PRN 1 to 63, one row per satellite; 0 means no third phase.
  type Phase = p: nat | p <= 11

  datatype Selector = Of(first: Phase, second: Phase, third: Phase)

  type Phases = s: Selector | s.third < s.first < s.second witness Of(1, 3, 0)

  const PHASES: seq<Phases> :=
    [Of(1, 3, 0), Of(1, 4, 0), Of(1, 5, 0), Of(1, 6, 0), Of(1, 8, 0), Of(1, 9, 0), Of(1, 10, 0)] +
    [Of(1, 11, 0), Of(2, 7, 0), Of(3, 4, 0), Of(3, 5, 0), Of(3, 6, 0), Of(3, 8, 0), Of(3, 9, 0)] +
    [Of(3, 10, 0), Of(3, 11, 0), Of(4, 5, 0), Of(4, 6, 0), Of(4, 8, 0), Of(4, 9, 0), Of(4, 10, 0)] +
    [Of(4, 11, 0), Of(5, 6, 0), Of(5, 8, 0), Of(5, 9, 0), Of(5, 10, 0), Of(5, 11, 0), Of(6, 8, 0)] +
    [Of(6, 9, 0), Of(6, 10, 0), Of(6, 11, 0), Of(8, 9, 0), Of(8, 10, 0), Of(8, 11, 0), Of(9, 10, 0)] +
    [Of(9, 11, 0), Of(10, 11, 0), Of(2, 7, 1), Of(3, 4, 1), Of(3, 6, 1), Of(3, 8, 1), Of(3, 10, 1)] +
    [Of(3, 11, 1), Of(4, 5, 1), Of(4, 9, 1), Of(5, 6, 1), Of(5, 8, 1), Of(5, 10, 1), Of(5, 11, 1)] +
    [Of(6, 9, 1), Of(8, 9, 1), Of(9, 10, 1), Of(9, 11, 1), Of(3, 7, 2), Of(5, 7, 2), Of(7, 9, 2)] +
    [Of(4, 5, 3), Of(4, 9, 3), Of(5, 6, 3), Of(5, 8, 3), Of(5, 10, 3), Of(5, 11, 3), Of(6, 9, 3)]

  // Phases in the order in which the table lists them: two phases before three, then by phase.
  predicate Before(p: Phases, q: Phases) {
    || p.third < q.third
    || (p.third == q.third && (p.first < q.first || (p.first == q.first && p.second < q.second)))
  }

  lemma {:induction false} Phases0(idx: nat)
    requires 0 <= idx < 8
    ensures Before(PHASES[idx], PHASES[idx + 1])
  {
    match idx
    case 0 => case 1 => case 2 => case 3 => case 4 => case 5 => case 6 => case 7 =>
  }

  lemma {:induction false} Phases8(idx: nat)
    requires 8 <= idx < 16
    ensures Before(PHASES[idx], PHASES[idx + 1])
  {
    match idx
    case 8 => case 9 => case 10 => case 11 => case 12 => case 13 => case 14 => case 15 =>
  }

  lemma {:induction false} Phases16(idx: nat)
    requires 16 <= idx < 24
    ensures Before(PHASES[idx], PHASES[idx + 1])
  {
    match idx
    case 16 => case 17 => case 18 => case 19 => case 20 => case 21 => case 22 => case 23 =>
  }

  lemma {:induction false} Phases24(idx: nat)
    requires 24 <= idx < 32
    ensures Before(PHASES[idx], PHASES[idx + 1])
  {
    match idx
    case 24 => case 25 => case 26 => case 27 => case 28 => case 29 => case 30 => case 31 =>
  }

  lemma {:induction false} Phases32(idx: nat)
    requires 32 <= idx < 40
    ensures Before(PHASES[idx], PHASES[idx + 1])
  {
    match idx
    case 32 => case 33 => case 34 => case 35 => case 36 => case 37 => case 38 => case 39 =>
  }

  lemma {:induction false} Phases40(idx: nat)
    requires 40 <= idx < 48
    ensures Before(PHASES[idx], PHASES[idx + 1])
  {
    match idx
    case 40 => case 41 => case 42 => case 43 => case 44 => case 45 => case 46 => case 47 =>
  }

  lemma {:induction false} Phases48(idx: nat)
    requires 48 <= idx < 56
    ensures Before(PHASES[idx], PHASES[idx + 1])
  {
    match idx
    case 48 => case 49 => case 50 => case 51 => case 52 => case 53 => case 54 => case 55 =>
  }

  lemma {:induction false} Phases56(idx: nat)
    requires 56 <= idx < 62
    ensures Before(PHASES[idx], PHASES[idx + 1])
  {
    match idx
    case 56 => case 57 => case 58 => case 59 => case 60 => case 61 =>
  }

  lemma {:induction false} PhasesAscend(idx: nat)
    requires idx < 62
    ensures Before(PHASES[idx], PHASES[idx + 1])
  {
    hide Before;
    if idx < 8 {
      Phases0(idx);
    } else if idx < 16 {
      Phases8(idx);
    } else if idx < 24 {
      Phases16(idx);
    } else if idx < 32 {
      Phases24(idx);
    } else if idx < 40 {
      Phases32(idx);
    } else if idx < 48 {
      Phases40(idx);
    } else if idx < 56 {
      Phases48(idx);
    } else {
      Phases56(idx);
    }
  }

  // No two satellites select the same phases, and the table lists them in order.
  lemma {:induction false} PhasesDistinct(i: nat, j: nat)
    requires i < j < 63
    ensures Before(PHASES[i], PHASES[j]) && PHASES[i] != PHASES[j]
    decreases j
  {
    PhasesAscend(j - 1);
    if i < j - 1 {
      PhasesDistinct(i, j - 1);
    }
  }

  // bitset<11>("01010101010"): the odd positions are set.
  function B1iSeed(): (s: Bits)
    ensures |s| == 11
  {
    seq(11, i => i % 2 == 1)
  }

  // Bit 11 - phase of a register; no contribution for phase 0.
  function Tapped(s: Bits, phase: Phase): bool
    requires |s| == 11
  {
    phase > 0 && s[11 - phase]
  }

  function Selected(s: Bits, p: Phases): bool
    requires |s| == 11
  {
    (Tapped(s, p.first) != Tapped(s, p.second)) != Tapped(s, p.third)
  }

  // The second sequence of a satellite, told from the bits the register emits: the sum of two or
  // three later bits.
  function Delayed(t: nat, phase: Phase): bool {
    phase > 0 && Out(B1iSeed(), B1I_G2, t + 11 - phase)
  }

  function ThreeDelayed(t: nat, p: Phases): bool {
    (Delayed(t, p.first) != Delayed(t, p.second)) != Delayed(t, p.third)
  }

  function B1iG2(idx: nat): (r: Bits)
    requires idx < 63
    ensures |r| == B1I_LENGTH
  {
    seq(B1I_LENGTH, t requires 0 <= t => ThreeDelayed(t, PHASES[idx]))
  }

  function B1iChip(idx: nat, chipShift: nat, i: nat): int
    requires idx < 63
  {
    Chip(Emitted(B1iSeed(), B1I_G1, B1I_LENGTH), B1iG2(idx), StartOf(B1I_LENGTH, 0, chipShift), chipShift, i)
  }

  // Adding phases of the register is adding shifted copies of its output.
  lemma {:induction false} TappedIsDelayed(t: nat, phase: Phase)
    ensures Tapped(Run(B1iSeed(), B1I_G2, t), phase) == Delayed(t, phase)
  {
    if phase > 0 {
      Window(B1iSeed(), B1I_G2, t, 11 - phase);
    }
  }

  // Chip i of the unshifted code: the first register and the phases selected of the second.
  lemma {:induction false} CodeOfPhases(idx: nat, i: nat)
    requires idx < 63 && i < B1I_LENGTH
    ensures B1iChip(idx, 0, i)
            == if Out(B1iSeed(), B1I_G1, i) != Selected(Run(B1iSeed(), B1I_G2, i), PHASES[idx]) then 1 else -1
  {
    hide Out, Run, Tapped, Delayed, StartOf, Chip;
    UnshiftedChip(Emitted(B1iSeed(), B1I_G1, B1I_LENGTH), B1iG2(idx), i);
    TappedIsDelayed(i, PHASES[idx].first);
    TappedIsDelayed(i, PHASES[idx].second);
    TappedIsDelayed(i, PHASES[idx].third);
  }

  // beidou_b1i_code_gen_int
  method BeidouB1iCodeGenInt(dest: array<int>, prn: int, chipShift: nat)
    requires dest.Length >= B1I_LENGTH && chipShift < UINT32
    modifies dest
    ensures prn < 1 || prn > 63 ==> dest[..] == old(dest[..])
    ensures 1 <= prn <= 63 ==> forall i :: 0 <= i < B1I_LENGTH ==> dest[i] == B1iChip(prn - 1, chipShift, i)
  {
    var prnIdx := prn - 1;
    if prnIdx < 0 || prnIdx > 62 { return; }
    var g1, g2 := GenerateB1i(prnIdx);
    var delay := Index(B1I_LENGTH + chipShift, B1I_LENGTH);
    Combine(dest, g1, g2, B1I_LENGTH, delay, chipShift);
  }

  method GenerateB1i(idx: nat) returns (g1: array<bool>, g2: array<bool>)
    requires idx < 63
    ensures fresh(g1) && fresh(g2)
    ensures g1[..] == Emitted(B1iSeed(), B1I_G1, B1I_LENGTH) && g2[..] == B1iG2(idx)
  {
    hide Parity, Out, Run;
    RunStart(B1iSeed(), B1I_G1);
    RunStart(B1iSeed(), B1I_G2);
    g1, g2 := new bool[B1I_LENGTH](i => false), new bool[B1I_LENGTH](i => false);
    var reg1, reg2 := new bool[11](i => i % 2 == 1), new bool[11](i => i % 2 == 1);
    var phases := PHASES[idx];
    ghost var seed := B1iSeed();
    assert reg1[..] == seed && reg2[..] == seed;
    for lcv := 0 to B1I_LENGTH
      invariant reg1[..] == Run(seed, B1I_G1, lcv) && reg2[..] == Run(seed, B1I_G2, lcv)
      invariant forall t :: 0 <= t < lcv ==> g1[t] == Out(seed, B1I_G1, t) && g2[t] == B1iG2(idx)[t]
    {
      OutIsHead(seed, B1I_G1, lcv);
      assert reg1[0] == reg1[..][0];
      g1[lcv] := reg1[0];
      TappedIsDelayed(lcv, phases.first);
      TappedIsDelayed(lcv, phases.second);
      TappedIsDelayed(lcv, phases.third);
      g2[lcv] := Selected(reg2[..], phases);
      ClockB1i(reg1, reg2, lcv);
    }
    assert g1[..] == Emitted(seed, B1I_G1, B1I_LENGTH) && g2[..] == B1iG2(idx);
  }

  method ClockB1i(reg1: array<bool>, reg2: array<bool>, ghost t: nat)
    requires reg1 != reg2 && reg1.Length == reg2.Length == 11
    requires reg1[..] == Run(B1iSeed(), B1I_G1, t) && reg2[..] == Run(B1iSeed(), B1I_G2, t)
    modifies reg1, reg2
    ensures reg1[..] == Run(B1iSeed(), B1I_G1, t + 1) && reg2[..] == Run(B1iSeed(), B1I_G2, t + 1)
  {
    hide Parity, Run;
    var feedback1 := reg1[10] != (reg1[4] != (reg1[3] != (reg1[2] != (reg1[1] != reg1[0]))));
    var feedback2 := reg2[10] != (reg2[9] != (reg2[8] != (reg2[7] != (reg2[6] != (reg2[3] != (reg2[2] != reg2[0]))))));
    Parity5(reg1[..], 1, 2, 3, 4, 10);
    Parity7(reg2[..], 2, 3, 6, 7, 8, 9, 10);
    Clock(reg1, feedback1, B1iSeed(), B1I_G1, t);
    Clock(reg2, feedback2, B1iSeed(), B1I_G2, t);
  }

  lemma {:induction false} Parity7(s: Bits, a: nat, b: nat, c: nat, d: nat, e: nat, f: nat, g: nat)
    requires |s| > 0 && 0 < a < |s| && 0 < b < |s| && 0 < c < |s| && 0 < d < |s| && 0 < e < |s| && 0 < f < |s|
             && 0 < g < |s|
    ensures Parity(s, [a, b, c, d, e, f, g])
            == (s[g] != (s[f] != (s[e] != (s[d] != (s[c] != (s[b] != (s[a] != s[0])))))))
  {
    Parity5(s, c, d, e, f, g);
    assert [a, b, c, d, e, f, g][1..] == [b, c, d, e, f, g] && [b, c, d, e, f, g][1..] == [c, d, e, f, g];
    assert Parity(s, [b, c, d, e, f, g]) == (Parity(s, [c, d, e, f, g]) != s[b]);
  }

  // ---- B3I -----------------------------------------------------------------------------------------

  const B3I_LENGTH := 10230
  const B3I_G2: seq<nat> := [1, 3, 4, 6, 7, 8, 12]

  // Initial states of the second register for PRN 1 to 63, bit 0 being the lowest.
  type Seed13 = x: nat | 0 < x < 8192 witness 1

  const B3I_SEEDS: seq<Seed13> :=
    [0x15FF, 0x1E2B, 0x178A, 0x1FFB, 0x191F, 0x1264, 0x1FD2, 0x1DFD, 0x1402] +
    [0x041B, 0x1D70, 0x059E, 0x0C95, 0x0E26, 0x1189, 0x1C7C, 0x04C5, 0x00EC] +
    [0x1157, 0x02DE, 0x042D, 0x058A, 0x02CF, 0x0662, 0x0748, 0x0929, 0x16D3] +
    [0x15E2, 0x02F5, 0x0FFF, 0x0D8F, 0x1589, 0x12AB, 0x19A5, 0x1A5D, 0x1F74] +
    [0x0567, 0x1D10, 0x1B90, 0x1ACE, 0x1034, 0x0BD9, 0x0DBC, 0x1A71, 0x0722] +
    [0x0AC5, 0x13E6, 0x1F48, 0x0149, 0x10AC, 0x1E4C, 0x098F, 0x0018, 0x1004] +
    [0x06A6, 0x1646, 0x0E78, 0x05CA, 0x19F6, 0x1245, 0x0E20, 0x0642, 0x044E]

  function BitsOf(x: nat, n: nat): (s: Bits)
    ensures |s| == n
  {
    if n == 0 then [] else [x % 2 == 1] + BitsOf(x / 2, n - 1)
  }

  // One step of the first register, which starts again with all ones when it meets a fixed state.
  function G1Step(s: Bits): (r: Bits)
    requires |s| == 13
    ensures |r| == 13
  {
    var next := s[1..] + [s[12] != (s[10] != (s[9] != s[0]))];
    if next == [false, false] + Ones(11) then Ones(13) else next
  }

  function G1Run(t: nat): (r: Bits)
    ensures |r| == 13
  {
    if t == 0 then Ones(13) else G1Step(G1Run(t - 1))
  }

  function B3iG1(): (r: Bits)
    ensures |r| == B3I_LENGTH
  {
    seq(B3I_LENGTH, t requires 0 <= t => G1Run(t)[0])
  }

  function B3iChip(idx: nat, chipShift: nat, i: nat): int
    requires idx < 63
  {
    Chip(B3iG1(), Emitted(BitsOf(B3I_SEEDS[idx], 13), B3I_G2, B3I_LENGTH), StartOf(B3I_LENGTH, 0, chipShift), chipShift,
         i)
  }

  // beidou_b3i_code_gen_int. Its check lets index 63 pass, which is past the table of 63 states.
  method BeidouB3iCodeGenInt(dest: array<int>, prn: int, chipShift: nat)
    requires dest.Length >= B3I_LENGTH && chipShift < UINT32 && prn != 64
    modifies dest
    ensures prn < 1 || prn > 64 ==> dest[..] == old(dest[..])
    ensures 1 <= prn <= 63 ==> forall i :: 0 <= i < B3I_LENGTH ==> dest[i] == B3iChip(prn - 1, chipShift, i)
  {
    var prnIdx := prn - 1;
    if prnIdx < 0 || prnIdx > 63 { return; }
    var g1, g2 := GenerateB3i(prnIdx);
    var delay := Index(B3I_LENGTH + chipShift, B3I_LENGTH);
    Combine(dest, g1, g2, B3I_LENGTH, delay, chipShift);
  }

  // The check lets a PRN pass whose index is past the table: PRN 64, and no other.
  lemma {:induction false} B3iCheckExactly(prn: int)
    ensures !(prn - 1 < 0 || prn - 1 > 63) && prn - 1 >= |B3I_SEEDS| <==> prn == 64
  {
    assert |B3I_SEEDS| == 63;
  }

  method GenerateB3i(idx: nat) returns (g1: array<bool>, g2: array<bool>)
    requires idx < 63
    ensures fresh(g1) && fresh(g2)
    ensures g1[..] == B3iG1() && g2[..] == Emitted(BitsOf(B3I_SEEDS[idx], 13), B3I_G2, B3I_LENGTH)
  {
    hide Parity, Run, Out, BitsOf, G1Run, G1Step;
    G1Start();
    var seed := BitsOf(B3I_SEEDS[idx], 13);
    RunStart(seed, B3I_G2);
    g1, g2 := new bool[B3I_LENGTH](i => false), new bool[B3I_LENGTH](i => false);
    var reg1, reg2 := new bool[13](i => true), new bool[13](i requires 0 <= i < 13 => seed[i]);
    assert reg1[..] == Ones(13) && reg2[..] == seed;
    for lcv := 0 to B3I_LENGTH
      invariant reg1[..] == G1Run(lcv) && reg2[..] == Run(seed, B3I_G2, lcv)
      invariant forall t :: 0 <= t < lcv ==> g1[t] == G1Run(t)[0] && g2[t] == Out(seed, B3I_G2, t)
    {
      OutIsHead(seed, B3I_G2, lcv);
      assert reg1[0] == reg1[..][0] && reg2[0] == reg2[..][0];
      g1[lcv] := reg1[0];
      g2[lcv] := reg2[0];
      ClockB3i(reg1, reg2, seed, lcv);
    }
    assert g1[..] == B3iG1() && g2[..] == Emitted(seed, B3I_G2, B3I_LENGTH);
  }

  method ClockB3i(reg1: array<bool>, reg2: array<bool>, ghost seed: Bits, ghost t: nat)
    requires reg1 != reg2 && reg1.Length == reg2.Length == |seed| == 13
    requires reg1[..] == G1Run(t) && reg2[..] == Run(seed, B3I_G2, t)
    modifies reg1, reg2
    ensures reg1[..] == G1Run(t + 1) && reg2[..] == Run(seed, B3I_G2, t + 1)
  {
    hide Parity, Run, G1Run, G1Step;
    var feedback1 := reg1[12] != (reg1[10] != (reg1[9] != reg1[0]));
    var feedback2 := reg2[12] != (reg2[8] != (reg2[7] != (reg2[6] != (reg2[4] != (reg2[3] != (reg2[1] != reg2[0]))))));
    Parity7(reg2[..], 1, 3, 4, 6, 7, 8, 12);
    G1Next(t, feedback1);
    ShiftInPlace(reg1, feedback1);
    Clock(reg2, feedback2, seed, B3I_G2, t);
    ResetG1(reg1);
  }

  lemma {:induction false} G1Start()
    ensures G1Run(0) == Ones(13)
  {
  }

  lemma {:induction false} G1Next(t: nat, feedback: bool)
    requires var s := G1Run(t); feedback == (s[12] != (s[10] != (s[9] != s[0])))
    ensures var next := G1Run(t)[1..] + [feedback];
            G1Run(t + 1) == if next == [false, false] + Ones(11) then Ones(13) else next
  {
  }

  // beidou_b3i_signal_replica.cc, lines 138-142.
  method ResetG1(reg: array<bool>)
    requires reg.Length == 13
    modifies reg
    ensures reg[..] == if old(reg[..]) == [false, false] + Ones(11) then Ones(13) else old(reg[..])
  {
    if reg[..] == [false, false] + Ones(11) {
      for i := 0 to 13
        invariant forall k :: 0 <= k < i ==> reg[k]
      {
        reg[i] := true;
      }
      assert reg[..] == Ones(13);
    }
  }

  // ---- both registers come back --------------------------------------------------------------------

  // The shifted codes of every satellite are rotations of the unshifted one, and every register
  // without a reset returns to its seed within 2^n - 1 steps.
  lemma {:induction false} B1iRotates(idx: nat, chipShift: nat, i: nat)
    requires idx < 63 && i < B1I_LENGTH && chipShift + B1I_LENGTH < UINT32
    ensures B1iChip(idx, chipShift, i) == B1iChip(idx, 0, Mod(i + chipShift, B1I_LENGTH))
  {
    ChipShiftRotates(Emitted(B1iSeed(), B1I_G1, B1I_LENGTH), B1iG2(idx), 0, chipShift, i);
  }

  lemma {:induction false} B3iRotates(idx: nat, chipShift: nat, i: nat)
    requires idx < 63 && i < B3I_LENGTH && chipShift + B3I_LENGTH < UINT32
    ensures B3iChip(idx, chipShift, i) == B3iChip(idx, 0, Mod(i + chipShift, B3I_LENGTH))
  {
    ChipShiftRotates(B3iG1(), Emitted(BitsOf(B3I_SEEDS[idx], 13), B3I_G2, B3I_LENGTH), 0, chipShift, i);
  }

  lemma {:induction false} B1iRegistersReturn()
    ensures exists p :: 0 < p <= 2047 && Returns(B1iSeed(), B1I_G1, p)
    ensures exists p :: 0 < p <= 2047 && Returns(B1iSeed(), B1I_G2, p)
  {
    assert B1iSeed()[1] != Zero(11)[1];
    SeedReturns(B1iSeed(), B1I_G1);
    SeedReturns(B1iSeed(), B1I_G2);
    assert Pow2(11) == 2048;
  }
}
