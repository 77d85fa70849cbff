// The GPS L1 C/A codes by the other description of IS-GPS-200 (section 3.3.2.3): for PRN 1 to 32 the
// second sequence is the sum of two stages of the G2 register, for PRN 120 to 138 the G2 register starts
// from a setting of its own.
module L1Codes {
  import opened Arithmetic
  import opened ShiftRegister
  import opened CodeGenerators
  import opened L1Rotation
  import opened RegisterMaps

  // Stage k of the G2 register at time t; stage 10 is the one that is emitted.
  function Stage(k: nat, t: nat): bool
    requires 1 <= k <= 10
  {
    Run(Ones(10), L1_G2, t)[10 - k]
  }

  datatype Stages = Two(a: nat, b: nat)

  // The two stages selected for a PRN, Table 3-I of IS-GPS-200.
  function StagesOf(prn: nat): Stages
    requires 1 <= prn <= 32
  {
    match prn
    case 1 => Two(2, 6) case 2 => Two(3, 7) case 3 => Two(4, 8) case 4 => Two(5, 9) case 5 => Two(1, 9)
    case 6 => Two(2, 10) case 7 => Two(1, 8) case 8 => Two(2, 9) case 9 => Two(3, 10) case 10 => Two(2, 3)
    case 11 => Two(3, 4) case 12 => Two(5, 6) case 13 => Two(6, 7) case 14 => Two(7, 8) case 15 => Two(8, 9)
    case 16 => Two(9, 10) case 17 => Two(1, 4) case 18 => Two(2, 5) case 19 => Two(3, 6) case 20 => Two(4, 7)
    case 21 => Two(5, 8) case 22 => Two(6, 9) case 23 => Two(1, 3) case 24 => Two(4, 6) case 25 => Two(5, 7)
    case 26 => Two(6, 8) case 27 => Two(7, 9) case 28 => Two(8, 10) case 29 => Two(1, 6) case 30 => Two(2, 7)
    case 31 => Two(3, 8) case _ => Two(4, 9)
  }

  // The setting of the G2 register for a PRN, first bit first; in octal 1106, 1241, 0267, 0232, ...
  function SettingOf(prn: nat): (text: string)
    requires 120 <= prn <= 138
    ensures |text| == 10
  {
    match prn
    case 120 => "1001000110" case 121 => "1010100001" case 122 => "0010110111" case 123 => "0010011010"
    case 124 => "1110001111" case 125 => "1000111110" case 126 => "1111110100" case 127 => "0111001111"
    case 128 => "1101011010" case 129 => "1010101000" case 130 => "0011100001" case 131 => "0101101001"
    case 132 => "0101010000" case 133 => "1111011001" case 134 => "0111000110" case 135 => "1010001110"
    case 136 => "0111100000" case 137 => "1000000111" case _ => "0100101000"
  }

  function FromText(text: string): (s: Bits)
    ensures |s| == |text|
  {
    seq(|text|, i requires 0 <= i < |text| => text[i] == '1')
  }

  // ---- states far ahead -------------------------------------------------------------------------------

  lemma {:induction false} Path1()
    ensures At(L1, 9, 0x169) && At(L1, 11, 0x25A) && At(L1, 13, 0x296) && At(L1, 18, 0x3D4)
    ensures At(L1, 26, 0x2B)
  {
    hide At, Same;
    StartOnes();
    Hop(L1, 0, 3, 0x3FF, 0x2D3);
    Hop(L1, 8, 0, 0x2D3, 0x169);
    Hop(L1, 9, 1, 0x169, 0x25A);
    Hop(L1, 11, 1, 0x25A, 0x296);
    Hop(L1, 13, 2, 0x296, 0x3A9);
    Hop(L1, 17, 0, 0x3A9, 0x3D4);
    Hop(L1, 18, 3, 0x3D4, 0x2B);
  }

  lemma {:induction false} Path2()
    ensures At(L1, 137, 0xBF) && At(L1, 141, 0x24B) && At(L1, 148, 0x1B4) && At(L1, 258, 0x2AA)
    ensures At(L1, 259, 0x155)
  {
    hide At, Same;
    StartOnes();
    Path1();
    Hop(L1, 9, 7, 0x169, 0xBF);
    Hop(L1, 137, 2, 0xBF, 0x24B);
    Hop(L1, 18, 7, 0x3D4, 0x2D2);
    Hop(L1, 146, 1, 0x2D2, 0x1B4);
    Hop(L1, 0, 8, 0x3FF, 0x2A9);
    Hop(L1, 256, 1, 0x2A9, 0x2AA);
    Hop(L1, 258, 0, 0x2AA, 0x155);
  }

  lemma {:induction false} Path3()
    ensures At(L1, 261, 0x55) && At(L1, 325, 0x3A) && At(L1, 365, 0x39D) && At(L1, 366, 0x3CE)
    ensures At(L1, 389, 0x16B) && At(L1, 404, 0x9C)
  {
    hide At, Same;
    Path2();
    Hop(L1, 259, 1, 0x155, 0x55);
    Hop(L1, 261, 6, 0x55, 0x3A);
    Hop(L1, 325, 5, 0x3A, 0x172);
    Hop(L1, 357, 3, 0x172, 0x39D);
    Hop(L1, 365, 0, 0x39D, 0x3CE);
    Hop(L1, 357, 5, 0x172, 0x16B);
    Hop(L1, 148, 8, 0x1B4, 0x9C);
  }

  lemma {:induction false} Path4()
    ensures At(L1, 420, 0x26F) && At(L1, 428, 0x1E) && At(L1, 468, 0x36) && At(L1, 472, 0x1C3)
    ensures At(L1, 474, 0x70) && At(L1, 475, 0x238) && At(L1, 478, 0x1C7)
  {
    hide At, Same;
    Path3();
    Hop(L1, 404, 4, 0x9C, 0x26F);
    Hop(L1, 420, 3, 0x26F, 0x1E);
    Hop(L1, 404, 6, 0x9C, 0x36);
    Hop(L1, 468, 2, 0x36, 0x1C3);
    Hop(L1, 472, 1, 0x1C3, 0x70);
    Hop(L1, 474, 0, 0x70, 0x238);
    Hop(L1, 474, 2, 0x70, 0x1C7);
  }

  lemma {:induction false} Path5()
    ensures At(L1, 516, 0x333) && At(L1, 518, 0xCC) && At(L1, 637, 0x52) && At(L1, 664, 0x1C5)
  {
    hide At, Same;
    Path3();
    Path4();
    Hop(L1, 468, 5, 0x36, 0x5C);
    Hop(L1, 500, 4, 0x5C, 0x333);
    Hop(L1, 516, 1, 0x333, 0xCC);
    Hop(L1, 365, 8, 0x39D, 0x3A6);
    Hop(L1, 621, 4, 0x3A6, 0x52);
    Hop(L1, 472, 7, 0x1C3, 0x269);
    Hop(L1, 600, 6, 0x269, 0x1C5);
  }

  lemma {:induction false} Path6()
    ensures At(L1, 668, 0x21C) && At(L1, 786, 0x3C7) && At(L1, 788, 0x1F1) && At(L1, 847, 0x2A)
  {
    hide At, Same;
    Path2();
    Path3();
    Path5();
    Hop(L1, 664, 2, 0x1C5, 0x21C);
    Hop(L1, 258, 9, 0x2AA, 0x1D0);
    Hop(L1, 770, 4, 0x1D0, 0x3C7);
    Hop(L1, 786, 1, 0x3C7, 0x1F1);
    Hop(L1, 325, 9, 0x3A, 0x1D1);
    Hop(L1, 837, 3, 0x1D1, 0xA9);
    Hop(L1, 845, 1, 0xA9, 0x2A);
  }

  lemma {:induction false} Path7()
    ensures At(L1, 848, 0x215) && At(L1, 863, 0x5D) && At(L1, 868, 0x3A2) && At(L1, 878, 0x189)
    ensures At(L1, 893, 0x18E) && At(L1, 931, 0x19F)
  {
    hide At, Same;
    Path3();
    Path5();
    Path6();
    Hop(L1, 847, 0, 0x2A, 0x215);
    Hop(L1, 847, 4, 0x2A, 0x5D);
    Hop(L1, 863, 2, 0x5D, 0x345);
    Hop(L1, 867, 0, 0x345, 0x3A2);
    Hop(L1, 366, 9, 0x3CE, 0x189);
    Hop(L1, 637, 8, 0x52, 0x18E);
    Hop(L1, 867, 6, 0x345, 0x19F);
  }

  lemma {:induction false} Path8()
    ensures At(L1, 955, 0x381) && At(L1, 971, 0x3B4) && At(L1, 1002, 0x164) && At(L1, 1023, 0x3FF)
  {
    hide At, Same;
    Path4();
    Path7();
    Hop(L1, 931, 4, 0x19F, 0x1FC);
    Hop(L1, 947, 3, 0x1FC, 0x381);
    Hop(L1, 955, 4, 0x381, 0x3B4);
    Hop(L1, 474, 9, 0x70, 0x15B);
    Hop(L1, 986, 4, 0x15B, 0x164);
    Hop(L1, 955, 6, 0x381, 0x3F6);
    Hop(L1, 1019, 2, 0x3F6, 0x3FF);
  }

  // ---- the period ------------------------------------------------------------------------------------------

  // The G2 register is in its first state again after 1023 steps.
  lemma {:induction false} G2Returns()
    ensures Run(Ones(10), L1_G2, 1023) == Ones(10)
  {
    hide Run, Same;
    Path8();
    StartOnes();
    RunStart(Ones(10), L1_G2);
    SameUnique(0x3FF, Run(Ones(10), L1_G2, 1023), Ones(10));
  }

  lemma {:induction false} G2Repeats(t: nat)
    ensures G2(t + 1023) == G2(t)
  {
    hide Run;
    G2Returns();
    RunRepeats(Ones(10), L1_G2, 1023, t);
  }

  // ---- sums of two stages -----------------------------------------------------------------------------------

  predicate IsGap(gap: nat) {
    gap == 1 || gap == 2 || gap == 3 || gap == 4 || gap == 5 || gap == 7 || gap == 8
  }

  // Where the sequence and the sequence `gap` places before add up to the sequence from its start.
  function Far(gap: nat): (n: nat)
    requires IsGap(gap)
    ensures n >= gap
  {
    match gap
    case 1 => 259
    case 2 => 518
    case 3 => 478
    case 4 => 13
    case 5 => 868
    case 7 => 148
    case _ => 26
  }

  lemma {:induction false} AddUp(n: nat, p: nat, v: Word, w: Word)
    requires At(L1, n, v) && At(L1, p, w) && v ^ w == 0x3FF
    ensures Xor(Run(Ones(10), L1_G2, n), Run(Ones(10), L1_G2, p)) == Ones(10)
  {
    hide Run, Same;
    StartOnes();
    RunStart(Ones(10), L1_G2);
    var s, u := Run(Ones(10), L1_G2, n), Run(Ones(10), L1_G2, p);
    SameXor(v, s, w, u);
    SameUnique(0x3FF, Xor(s, u), Ones(10));
  }

  lemma {:induction false} GapAddsUp(gap: nat)
    requires IsGap(gap)
    ensures Xor(Run(Ones(10), L1_G2, Far(gap)), Run(Ones(10), L1_G2, Far(gap) - gap)) == Ones(10)
  {
    hide Run, At, Xor;
    match gap
    case 1 =>
      Path2();
      AddUp(259, 258, 0x155, 0x2AA);
    case 2 =>
      Path5();
      AddUp(518, 516, 0xCC, 0x333);
    case 3 =>
      Path4();
      AddUp(478, 475, 0x1C7, 0x238);
    case 4 =>
      Path1();
      AddUp(13, 9, 0x296, 0x169);
    case 5 =>
      Path7();
      AddUp(868, 863, 0x3A2, 0x5D);
    case 7 =>
      Path2();
      AddUp(148, 141, 0x1B4, 0x24B);
    case 8 =>
      Path1();
      AddUp(26, 18, 0x2B, 0x3D4);
  }

  lemma {:induction false} GapForever(gap: nat, t: nat)
    requires IsGap(gap)
    ensures G2(t) == (G2(t + Far(gap)) != G2(t + Far(gap) - gap))
  {
    hide Run, Far;
    var n, p := Far(gap), Far(gap) - gap;
    var one := Ones(10);
    GapAddsUp(gap);
    var s, u := Run(one, L1_G2, n), Run(one, L1_G2, p);
    RunXor(s, u, L1_G2, t);
    RunTwice(one, L1_G2, n, t);
    RunTwice(one, L1_G2, p, t);
    XorHead(Run(one, L1_G2, t + n), Run(one, L1_G2, t + p));
    assert n + t == t + n && p + t == t + p;
  }

  lemma {:induction false} XorHead(s: Bits, u: Bits)
    requires |s| == |u| > 0
    ensures Xor(s, u)[0] == (s[0] != u[0])
  {
  }

  lemma {:induction false} Delays1(prn: nat)
    requires 1 <= prn <= 8
    ensures DelayFits(prn)
  {
    match prn
    case 1 => assert L1_DELAYS[0] == 5;
    case 2 => assert L1_DELAYS[1] == 6;
    case 3 => assert L1_DELAYS[2] == 7;
    case 4 => assert L1_DELAYS[3] == 8;
    case 5 => assert L1_DELAYS[4] == 17;
    case 6 => assert L1_DELAYS[5] == 18;
    case 7 => assert L1_DELAYS[6] == 139;
    case 8 => assert L1_DELAYS[7] == 140;
  }

  lemma {:induction false} Delays9(prn: nat)
    requires 9 <= prn <= 16
    ensures DelayFits(prn)
  {
    match prn
    case 9 => assert L1_DELAYS[8] == 141;
    case 10 => assert L1_DELAYS[9] == 251;
    case 11 => assert L1_DELAYS[10] == 252;
    case 12 => assert L1_DELAYS[11] == 254;
    case 13 => assert L1_DELAYS[12] == 255;
    case 14 => assert L1_DELAYS[13] == 256;
    case 15 => assert L1_DELAYS[14] == 257;
    case 16 => assert L1_DELAYS[15] == 258;
  }

  lemma {:induction false} Delays17(prn: nat)
    requires 17 <= prn <= 24
    ensures DelayFits(prn)
  {
    match prn
    case 17 => assert L1_DELAYS[16] == 469;
    case 18 => assert L1_DELAYS[17] == 470;
    case 19 => assert L1_DELAYS[18] == 471;
    case 20 => assert L1_DELAYS[19] == 472;
    case 21 => assert L1_DELAYS[20] == 473;
    case 22 => assert L1_DELAYS[21] == 474;
    case 23 => assert L1_DELAYS[22] == 509;
    case 24 => assert L1_DELAYS[23] == 512;
  }

  lemma {:induction false} Delays25(prn: nat)
    requires 25 <= prn <= 32
    ensures DelayFits(prn)
  {
    match prn
    case 25 => assert L1_DELAYS[24] == 513;
    case 26 => assert L1_DELAYS[25] == 514;
    case 27 => assert L1_DELAYS[26] == 515;
    case 28 => assert L1_DELAYS[27] == 516;
    case 29 => assert L1_DELAYS[28] == 859;
    case 30 => assert L1_DELAYS[29] == 860;
    case 31 => assert L1_DELAYS[30] == 861;
    case 32 => assert L1_DELAYS[31] == 862;
  }

  // The delay that the table gives is the one at which the two stages add up.
  predicate DelayFits(prn: nat)
    requires 1 <= prn <= 32
  {
    var two := StagesOf(prn);
    && 1 <= two.a < two.b <= 10 && IsGap(two.b - two.a)
    && Delay(prn) + 10 == two.a + Far(two.b - two.a)
  }

  lemma {:induction false} AllDelaysFit(prn: nat)
    requires 1 <= prn <= 32
    ensures DelayFits(prn)
  {
    hide DelayFits;
    if prn <= 8 {
      Delays1(prn);
    } else if prn <= 16 {
      Delays9(prn);
    } else if prn <= 24 {
      Delays17(prn);
    } else {
      Delays25(prn);
    }
  }

  // The delayed G2 sequence of PRN 1 to 32 is the sum of the two stages selected for it.
  lemma {:induction false} DelayedIsStages(prn: nat, t: nat)
    requires 1 <= prn <= 32
    ensures DelayFits(prn)
    ensures G2(1023 - Delay(prn) + t) == (Stage(StagesOf(prn).a, t) != Stage(StagesOf(prn).b, t))
  {
    AllDelaysFit(prn);
    hide Run, Far, StagesOf, Delay, G2;
    var two := StagesOf(prn);
    var gap := two.b - two.a;
    GapForever(gap, 1023 - Delay(prn) + t);
    assert 1023 - Delay(prn) + t + Far(gap) == t + 10 - two.a + 1023;
    assert 1023 - Delay(prn) + t + Far(gap) - gap == t + 10 - two.b + 1023;
    G2Repeats(t + 10 - two.a);
    G2Repeats(t + 10 - two.b);
    StageIsLater(two.a, t);
    StageIsLater(two.b, t);
  }

  lemma {:induction false} StageIsLater(k: nat, t: nat)
    requires 1 <= k <= 10
    ensures Stage(k, t) == G2(t + 10 - k)
  {
    Window(Ones(10), L1_G2, t, 10 - k);
  }

  // ---- the codes ------------------------------------------------------------------------------------------------

  // Chip i of the unshifted code, with the delayed sequence not wrapped.
  lemma {:induction false} ChipOfDelay(prn: int, i: nat)
    requires Listed(prn) && i < L1_LENGTH
    ensures L1Chip(prn, 0, i) == if G1(i) != G2(1023 - Delay(prn) + i) then 1 else -1
  {
    hide Mod, G1, G2, L1Chip;
    ChipBits(prn, 0, i);
    var start := 1023 - Delay(prn);
    ModSmall(i, UINT32);
    ModSmall(i, L1_LENGTH);
    ModSmall(start, UINT32);
    ModSmall(start, L1_LENGTH);
    if start + i < 1023 {
      ModSmall(start + i, L1_LENGTH);
    } else {
      ModOnce(start + i - 1023, L1_LENGTH);
      ModSmall(start + i - 1023, L1_LENGTH);
      G2Repeats(start + i - 1023);
    }
  }

  // The code of PRN 1 to 32, chip by chip: G1 and the two stages of G2 of the table of IS-GPS-200.
  lemma {:induction false} CodeOfStages(prn: nat, i: nat)
    requires 1 <= prn <= 32 && i < 1023
    ensures DelayFits(prn)
    ensures L1Chip(prn, 0, i)
            == if Out(Ones(10), L1_G1, i) != (Stage(StagesOf(prn).a, i) != Stage(StagesOf(prn).b, i)) then 1 else -1
  {
    hide L1Chip, StagesOf, Stage, G2, Out, DelayFits;
    DelayedIsStages(prn, i);
    ChipOfDelay(prn, i);
  }

  lemma {:induction false} Settings120(prn: nat)
    requires 120 <= prn <= 123
    ensures SettingReached(prn)
  {
    hide Run;
    match prn
    case 120 =>
      assert L1_DELAYS[32] == 145;
      Path7();
      Reached(878, 0x189, SettingOf(120));
    case 121 =>
      assert L1_DELAYS[33] == 175;
      Path7();
      Reached(848, 0x215, SettingOf(121));
    case 122 =>
      assert L1_DELAYS[34] == 52;
      Path8();
      Reached(971, 0x3B4, SettingOf(122));
    case 123 =>
      assert L1_DELAYS[35] == 21;
      Path8();
      Reached(1002, 0x164, SettingOf(123));
  }

  lemma {:induction false} Settings124(prn: nat)
    requires 124 <= prn <= 128
    ensures SettingReached(prn)
  {
    hide Run;
    match prn
    case 124 =>
      assert L1_DELAYS[36] == 237;
      Path6();
      Reached(786, 0x3C7, SettingOf(124));
    case 125 =>
      assert L1_DELAYS[37] == 235;
      Path6();
      Reached(788, 0x1F1, SettingOf(125));
    case 126 =>
      assert L1_DELAYS[38] == 886;
      Path2();
      Reached(137, 0xBF, SettingOf(126));
    case 127 =>
      assert L1_DELAYS[39] == 657;
      Path3();
      Reached(366, 0x3CE, SettingOf(127));
    case 128 =>
      assert L1_DELAYS[40] == 634;
      Path3();
      Reached(389, 0x16B, SettingOf(128));
  }

  lemma {:induction false} Settings129(prn: nat)
    requires 129 <= prn <= 133
    ensures SettingReached(prn)
  {
    hide Run;
    match prn
    case 129 =>
      assert L1_DELAYS[41] == 762;
      Path3();
      Reached(261, 0x55, SettingOf(129));
    case 130 =>
      assert L1_DELAYS[42] == 355;
      Path6();
      Reached(668, 0x21C, SettingOf(130));
    case 131 =>
      assert L1_DELAYS[43] == 1012;
      Path1();
      Reached(11, 0x25A, SettingOf(131));
    case 132 =>
      assert L1_DELAYS[44] == 176;
      Path6();
      Reached(847, 0x2A, SettingOf(132));
    case 133 =>
      assert L1_DELAYS[45] == 603;
      Path4();
      Reached(420, 0x26F, SettingOf(133));
  }

  lemma {:induction false} Settings134(prn: nat)
    requires 134 <= prn <= 138
    ensures SettingReached(prn)
  {
    hide Run;
    match prn
    case 134 =>
      assert L1_DELAYS[46] == 130;
      Path7();
      Reached(893, 0x18E, SettingOf(134));
    case 135 =>
      assert L1_DELAYS[47] == 359;
      Path5();
      Reached(664, 0x1C5, SettingOf(135));
    case 136 =>
      assert L1_DELAYS[48] == 595;
      Path4();
      Reached(428, 0x1E, SettingOf(136));
    case 137 =>
      assert L1_DELAYS[49] == 68;
      Path8();
      Reached(955, 0x381, SettingOf(137));
    case 138 =>
      assert L1_DELAYS[50] == 386;
      Path5();
      Reached(637, 0x52, SettingOf(138));
  }

  // The word of a text of ones and zeros.
  predicate Spells(v: Word, text: string)
    requires |text| == 10
  {
    && On(v, 0x1) == (text[0] == '1') && On(v, 0x2) == (text[1] == '1') && On(v, 0x4) == (text[2] == '1')
    && On(v, 0x8) == (text[3] == '1') && On(v, 0x10) == (text[4] == '1') && On(v, 0x20) == (text[5] == '1')
    && On(v, 0x40) == (text[6] == '1') && On(v, 0x80) == (text[7] == '1') && On(v, 0x100) == (text[8] == '1')
    && On(v, 0x200) == (text[9] == '1')
    && !On(v, 0x400) && !On(v, 0x800) && !On(v, 0x1000)
  }

  lemma {:induction false} Reached(n: nat, v: Word, text: string)
    requires At(L1, n, v) && |text| == 10 && Spells(v, text)
    ensures Run(Ones(10), L1_G2, n) == FromText(text)
  {
    hide Run, On;
    forall j | 0 <= j < 13
      ensures SameBit(v, FromText(text), j)
    {
    }
    SameUnique(v, Run(Ones(10), L1_G2, n), FromText(text));
  }

  // The G2 register has the setting of the PRN where the delayed sequence starts.
  predicate SettingReached(prn: nat)
    requires 120 <= prn <= 138
  {
    Run(Ones(10), L1_G2, 1023 - Delay(prn)) == FromText(SettingOf(prn))
  }

  lemma {:induction false} AllSettingsReached(prn: nat)
    requires 120 <= prn <= 138
    ensures SettingReached(prn)
  {
    hide SettingReached;
    if prn < 124 {
      Settings120(prn);
    } else if prn < 129 {
      Settings124(prn);
    } else if prn < 134 {
      Settings129(prn);
    } else {
      Settings134(prn);
    }
  }

  // The code of PRN 120 to 138, chip by chip: G1, and G2 started from the setting of the PRN.
  lemma {:induction false} CodeOfSetting(prn: nat, i: nat)
    requires 120 <= prn <= 138 && i < 1023
    ensures L1Chip(prn, 0, i)
            == if Out(Ones(10), L1_G1, i) != Out(FromText(SettingOf(prn)), L1_G2, i) then 1 else -1
  {
    hide L1Chip, SettingOf, FromText, Run;
    AllSettingsReached(prn);
    ChipOfDelay(prn, i);
    RunTwice(Ones(10), L1_G2, 1023 - Delay(prn), i);
  }
}
