// Gold-like spreading codes from two shift registers: GPS L1 C/A (IS-GPS-200, section 3.3.2.3),
// BeiDou B1I and B3I, and the XB register of GPS L5 (IS-GPS-705, section 3.3.2.2).
module CodeGenerators {
  import opened Arithmetic
  import opened ShiftRegister

  const UINT32 := 0x1_0000_0000

  // ---- combining two code sequences, shifted -------------------------------------------------------

  function Level(b: bool): int {
    if b then 1 else -1
  }

  // Chip i: the first sequence from chipShift on, the second from `start` on. The index of the
  // first is computed in 32 bits.
  function Chip(g1: Bits, g2: Bits, start: nat, chipShift: nat, i: nat): int
    requires |g1| == |g2| > 0
  {
    Level(g1[Index(i + chipShift, |g1|)] != g2[Mod(start + i, |g2|)])
  }

  // Remainder of a 32-bit sum.
  function Index(sum: nat, length: nat): (k: nat)
    requires length > 0
    ensures k < length
  {
    Mod(Mod(sum, UINT32), length)
  }

  // Position in the second sequence of chip 0, for a delay.
  function StartOf(length: nat, delay: nat, chipShift: nat): (start: nat)
    requires 0 < length && delay <= length
    ensures start < length
  {
    Index(length - delay + chipShift, length)
  }

  // The last loop of the generators.
  method Combine(dest: array<int>, g1: array<bool>, g2: array<bool>, length: nat, start: nat, chipShift: nat)
    requires g1.Length == g2.Length == length > 0 && dest.Length >= length && start < length && chipShift < UINT32
    modifies dest
    ensures forall i :: 0 <= i < length ==> dest[i] == Chip(g1[..], g2[..], start, chipShift, i)
    ensures forall i :: length <= i < dest.Length ==> dest[i] == old(dest[i])
  {
    hide Mod, Index;
    var delay := start;
    ModSmall(start, length);
    for lcv := 0 to length
      invariant delay == Mod(start + lcv, length)
      invariant forall i :: 0 <= i < lcv ==> dest[i] == Chip(g1[..], g2[..], start, chipShift, i)
      invariant forall i :: lcv <= i < dest.Length ==> dest[i] == old(dest[i])
    {
      var aux := g1[Index(lcv + chipShift, length)] != g2[delay];
      if aux {
        dest[lcv] := 1;
      } else {
        dest[lcv] := -1;
      }
      ModAdd(start + lcv, 1, length);
      delay := Mod(delay + 1, length);
    }
  }

  // Chip shift is rotation: without overflow of the 32-bit sums, chip i of the shifted code is chip
  // (i + shift) mod length of the unshifted one.
  lemma {:induction false} ChipShiftRotates(g1: Bits, g2: Bits, delay: nat, chipShift: nat, i: nat)
    requires |g1| == |g2| > 0 && delay <= |g1| && 2 * |g1| < UINT32 && i < |g1|
    requires chipShift + |g1| <= UINT32 && |g1| - delay + chipShift < UINT32
    ensures var n := |g1|;
            Chip(g1, g2, StartOf(n, delay, chipShift), chipShift, i)
            == Chip(g1, g2, StartOf(n, delay, 0), 0, Mod(i + chipShift, n))
  {
    hide Mod;
    var n := |g1|;
    var k := Mod(i + chipShift, n);
    ModSmall(i + chipShift, UINT32);
    ModSmall(k, UINT32);
    ModSmall(k, n);
    SecondIndex(n, delay, chipShift, i);
  }

  lemma {:induction false} SecondIndex(n: nat, delay: nat, chipShift: nat, i: nat)
    requires 0 < n < UINT32 && delay <= n && n - delay + chipShift < UINT32
    ensures Mod(StartOf(n, delay, chipShift) + i, n) == Mod(StartOf(n, delay, 0) + Mod(i + chipShift, n), n)
  {
    hide Mod;
    var base := n - delay;
    ModSmall(base + chipShift, UINT32);
    ModSmall(base, UINT32);
    ModAdd(base + chipShift, i, n);
    ModAdd(base, Mod(i + chipShift, n), n);
    ModAdd(i + chipShift, base, n);
    assert base + chipShift + i == i + chipShift + base;
  }

  lemma {:induction false} SumWraps(sum: nat)
    requires UINT32 <= sum < 2 * UINT32
    ensures Mod(sum, UINT32) == sum - UINT32
  {
    DivModUnique(sum, UINT32, 1, sum - UINT32);
  }

  // With overflow the index changes: where 2^32 is no multiple of the length, the index into the first
  // sequence is the rotated one exactly for the chips whose sum still fits 32 bits.
  lemma {:induction false} RotatedIndexExactly(length: nat, chipShift: nat, i: nat)
    requires 0 < length < UINT32 && UINT32 % length != 0 && chipShift < UINT32 && i < length
    ensures Index(i + chipShift, length) == Mod(i + chipShift, length) <==> i + chipShift < UINT32
  {
    var x := i + chipShift;
    if x < UINT32 {
      ModSmall(x, UINT32);
    } else {
      var y := x - UINT32;
      DivModUnique(x, UINT32, 1, y);
      if y % length == x % length {
        var q := x / length - y / length;
        assert UINT32 == q * length;
        DivModUnique(UINT32, length, q, 0);
      }
    }
  }

  // Without a delay: chip i of the code shifted by chipShift is the chip a rotation would put there.
  predicate ChipRotates(g1: Bits, g2: Bits, chipShift: nat, i: nat)
    requires |g1| == |g2| > 0
  {
    var n := |g1|;
    Chip(g1, g2, StartOf(n, 0, chipShift), chipShift, i) == Chip(g1, g2, StartOf(n, 0, 0), 0, Mod(i + chipShift, n))
  }

  // `e` is how far the start of the second sequence has wrapped. Before the first sequence wraps too,
  // only the second one is read off its place, by what 2^32 leaves; behind, both are.
  lemma {:induction false} RotatesWithWrap(g1: Bits, g2: Bits, e: nat, i: nat)
    requires |g1| == |g2| && 0 < 2 * |g1| < UINT32 && e < |g1| && i < |g1|
    ensures var n, lag := |g1|, UINT32 % |g1|;
            var chipShift := UINT32 - n + e;
            && (i + e + lag < n ==> (ChipRotates(g1, g2, chipShift, i) <==> g2[i + e] == g2[i + e + lag]))
            && (n <= i + e && i + e - n + lag < n ==>
                  var j := i + e - n;
                  ChipRotates(g1, g2, chipShift, i) <==> (g1[j] != g1[j + lag]) == (g2[j] != g2[j + lag]))
  {
    hide Mod;
    var n, lag := |g1|, UINT32 % |g1|;
    var chipShift := UINT32 - n + e;
    SumWraps(n + chipShift);
    ModSmall(e, n);
    WrapIsLag(i + e, n);
    ModOnce(i + chipShift, n);
    UnshiftedChip(g1, g2, Mod(i + chipShift, n));
    if i + e < n {
      ModSmall(i + chipShift, UINT32);
      ModSmall(i + e, n);
    } else {
      SumWraps(i + chipShift);
      ModOnce(i + e - n, n);
      ModSmall(i + e - n, n);
    }
    if i + e + lag < n {
      ModSmall(i + e + lag, n);
    } else if n <= i + e && i + e - n + lag < n {
      ModOnce(i + e - n + lag, n);
      ModSmall(i + e - n + lag, n);
    }
  }

  lemma {:induction false} WrapIsLag(y: nat, n: nat)
    requires n > 0
    ensures Mod(UINT32 + y, n) == Mod(y + UINT32 % n, n)
  {
    ModAdd(UINT32, y, n);
  }

  lemma {:induction false} ModOnce(x: nat, n: nat)
    requires n > 0
    ensures Mod(x + n, n) == Mod(x, n)
  {
    ModAdd(n, x, n);
    DivModUnique(n, n, 1, 0);
  }

  lemma {:induction false} UnshiftedChip(g1: Bits, g2: Bits, r: nat)
    requires |g1| == |g2| && r < |g1| < UINT32
    ensures Chip(g1, g2, StartOf(|g1|, 0, 0), 0, r) == Level(g1[r] != g2[r])
  {
    hide Mod;
    var n := |g1|;
    ModSmall(n, UINT32);
    ModSmall(r, UINT32);
    ModSmall(r, n);
    ModOnce(0, n);
    ModSmall(0, n);
  }

  // ---- GPS L1 C/A ----------------------------------------------------------------------------------------

  const L1_LENGTH := 1023
  const L1_G1: seq<nat> := [7]
  const L1_G2: seq<nat> := [1, 2, 4, 7, 8]

  // G2 delays of PRN 1 to 32 and 120 to 138.
  type L1Delay = d: nat | 5 <= d <= 1012 witness 5

  const L1_DELAYS: seq<L1Delay> :=
    [5, 6, 7, 8, 17, 18, 139, 140] +
    [141, 251, 252, 254, 255, 256, 257, 258] +
    [469, 470, 471, 472, 473, 474, 509, 512] +
    [513, 514, 515, 516, 859, 860, 861, 862] +
    [145, 175, 52, 21, 237, 235, 886, 657, 634, 762] +
    [355, 1012, 176, 603, 130, 359, 595, 68, 386]

  function L1Index(prn: int): int {
    if 120 <= prn <= 138 then prn - 88 else prn - 1
  }

  // The first n bits a register emits.
  function Emitted(s: Bits, taps: seq<nat>, n: nat): (r: Bits)
    requires |s| > 0 && InRange(taps, |s|)
    ensures |r| == n
  {
    seq(n, t requires 0 <= t => Out(s, taps, t))
  }

  function L1Chip(prn: int, chipShift: nat, i: nat): int
    requires 0 <= L1Index(prn) < |L1_DELAYS|
  {
    Chip(Emitted(Ones(10), L1_G1, L1_LENGTH), Emitted(Ones(10), L1_G2, L1_LENGTH),
         StartOf(L1_LENGTH, L1_DELAYS[L1Index(prn)], chipShift), chipShift, i)
  }

  // gps_l1_ca_code_gen_int. Its check lets index 51 pass, which is past the table of 51 delays.
  method GpsL1CaCodeGenInt(dest: array<int>, prn: int, chipShift: nat)
    requires dest.Length >= L1_LENGTH && chipShift < UINT32 && L1Index(prn) != 51
    modifies dest
    ensures L1Index(prn) < 0 || L1Index(prn) > 51 ==> dest[..] == old(dest[..])
    ensures 0 <= L1Index(prn) < 51 ==> forall i :: 0 <= i < L1_LENGTH ==> dest[i] == L1Chip(prn, chipShift, i)
  {
    var prnIdx := L1Index(prn);
    if prnIdx < 0 || prnIdx > 51 { return; }
    var g1, g2 := GenerateL1();
    var delay := Index(L1_LENGTH - L1_DELAYS[prnIdx] + chipShift, L1_LENGTH);
    Combine(dest, g1, g2, L1_LENGTH, delay, chipShift);
  }

  // The check lets a PRN pass whose index is past the table: PRN 52, and no other.
  lemma {:induction false} L1CheckExactly(prn: int)
    ensures !(L1Index(prn) < 0 || L1Index(prn) > 51) && L1Index(prn) >= |L1_DELAYS| <==> prn == 52
  {
    assert |L1_DELAYS| == 51;
  }

  method GenerateL1() returns (g1: array<bool>, g2: array<bool>)
    ensures fresh(g1) && fresh(g2)
    ensures g1[..] == Emitted(Ones(10), L1_G1, L1_LENGTH) && g2[..] == Emitted(Ones(10), L1_G2, L1_LENGTH)
  {
    hide Parity, Out, Run;
    RunStart(Ones(10), L1_G1);
    RunStart(Ones(10), L1_G2);
    g1, g2 := new bool[L1_LENGTH](i => false), new bool[L1_LENGTH](i => false);
    var reg1, reg2 := new bool[10](i => true), new bool[10](i => true);
    assert reg1[..] == Ones(10) && reg2[..] == Ones(10);
    for lcv := 0 to L1_LENGTH
      invariant reg1[..] == Run(Ones(10), L1_G1, lcv) && reg2[..] == Run(Ones(10), L1_G2, lcv)
      invariant forall t :: 0 <= t < lcv ==> g1[t] == Out(Ones(10), L1_G1, t) && g2[t] == Out(Ones(10), L1_G2, t)
    {
      OutIsHead(Ones(10), L1_G1, lcv);
      OutIsHead(Ones(10), L1_G2, lcv);
      assert reg1[0] == reg1[..][0] && reg2[0] == reg2[..][0];
      g1[lcv] := reg1[0];
      g2[lcv] := reg2[0];
      ClockL1(reg1, reg2, lcv);
    }
    assert g1[..] == Emitted(Ones(10), L1_G1, L1_LENGTH) && g2[..] == Emitted(Ones(10), L1_G2, L1_LENGTH);
  }

  method ClockL1(reg1: array<bool>, reg2: array<bool>, ghost t: nat)
    requires reg1 != reg2 && reg1.Length == reg2.Length == 10
    requires reg1[..] == Run(Ones(10), L1_G1, t) && reg2[..] == Run(Ones(10), L1_G2, t)
    modifies reg1, reg2
    ensures reg1[..] == Run(Ones(10), L1_G1, t + 1) && reg2[..] == Run(Ones(10), L1_G2, t + 1)
  {
    hide Parity, Run;
    var feedback1 := reg1[7] != reg1[0];
    var feedback2 := reg2[8] != (reg2[7] != (reg2[4] != (reg2[2] != (reg2[1] != reg2[0]))));
    Parity1(reg1[..], 7);
    Parity5(reg2[..], 1, 2, 4, 7, 8);
    Clock(reg1, feedback1, Ones(10), L1_G1, t);
    Clock(reg2, feedback2, Ones(10), L1_G2, t);
  }

  lemma {:induction false} OutIsHead(s: Bits, taps: seq<nat>, t: nat)
    requires |s| > 0 && InRange(taps, |s|)
    ensures Out(s, taps, t) == Run(s, taps, t)[0]
  {
  }

  lemma {:induction false} RunStart(s: Bits, taps: seq<nat>)
    requires |s| > 0 && InRange(taps, |s|)
    ensures Run(s, taps, 0) == s
  {
  }

  lemma {:induction false} RunStep(s: Bits, taps: seq<nat>, t: nat, feedback: bool)
    requires |s| > 0 && InRange(taps, |s|) && feedback == Parity(Run(s, taps, t), taps)
    ensures Run(s, taps, t + 1) == Run(s, taps, t)[1..] + [feedback]
  {
  }

  // One clock of a register in place.
  method Clock(reg: array<bool>, feedback: bool, ghost seed: Bits, ghost taps: seq<nat>, ghost t: nat)
    requires reg.Length == |seed| > 0 && InRange(taps, |seed|)
    requires reg[..] == Run(seed, taps, t) && feedback == Parity(reg[..], taps)
    modifies reg
    ensures reg[..] == Run(seed, taps, t + 1)
  {
    hide Run, Parity;
    RunStep(seed, taps, t, feedback);
    ShiftInPlace(reg, feedback);
  }

  lemma {:induction false} Parity1(s: Bits, a: nat)
    requires 0 < a < |s|
    ensures Parity(s, [a]) == (s[a] != s[0])
  {
    assert [a][1..] == [];
  }

  lemma {:induction false} Parity5(s: Bits, a: nat, b: nat, c: nat, d: nat, e: nat)
    requires InRange([a, b, c, d, e], |s|) && |s| > 0 && 0 < a < |s| && 0 < b < |s| && 0 < c < |s| && 0 < d < |s|
             && 0 < e < |s|
    ensures Parity(s, [a, b, c, d, e]) == (s[e] != (s[d] != (s[c] != (s[b] != (s[a] != s[0])))))
  {
    assert [a, b, c, d, e][1..] == [b, c, d, e] && [b, c, d, e][1..] == [c, d, e] && [c, d, e][1..] == [d, e];
    assert [d, e][1..] == [e];
    Parity1(s, e);
    assert Parity(s, [d, e]) == (Parity(s, [e]) != s[d]);
    assert Parity(s, [c, d, e]) == (Parity(s, [d, e]) != s[c]);
    assert Parity(s, [b, c, d, e]) == (Parity(s, [c, d, e]) != s[b]);
  }
}
