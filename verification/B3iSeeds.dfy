// The initial states of the second BeiDou B3I register (BDS-SIS-ICD-B3I): for every satellite the state of
// one and the same register, started with all ones, after a number of shifts of its own.
module B3iSeeds {
  import opened Arithmetic
  import opened ShiftRegister
  import opened CodeGenerators
  import opened BeidouCodes
  import opened RegisterMaps

  // The number of shifts for a PRN.
  function ShiftsOf(prn: nat): nat
    requires 1 <= prn <= 63
  {
    match prn
    case 1 => 4 case 2 => 11 case 3 => 13 case 4 => 22 case 5 => 30 case 6 => 36
    case 7 => 44 case 8 => 48 case 9 => 88 case 10 => 104 case 11 => 116 case 12 => 129
    case 13 => 376 case 14 => 418 case 15 => 458 case 16 => 682 case 17 => 696 case 18 => 707
    case 19 => 1078 case 20 => 2069 case 21 => 2248 case 22 => 2574 case 23 => 2596 case 24 => 2731
    case 25 => 4294 case 26 => 4436 case 27 => 4647 case 28 => 4978 case 29 => 4986 case 30 => 1
    case 31 => 5209 case 32 => 5539 case 33 => 6061 case 34 => 6488 case 35 => 7130 case 36 => 7165
    case 37 => 7403 case 38 => 5879 case 39 => 1681 case 40 => 5080 case 41 => 5938 case 42 => 3983
    case 43 => 6208 case 44 => 7223 case 45 => 2996 case 46 => 1814 case 47 => 6906 case 48 => 6144
    case 49 => 4713 case 50 => 7406 case 51 => 7264 case 52 => 1766 case 53 => 5347 case 54 => 3515
    case 55 => 7951 case 56 => 7054 case 57 => 3884 case 58 => 6067 case 59 => 4230 case 60 => 3803
    case 61 => 869 case 62 => 3683 case _ => 1205
  }

  // ---- states far ahead ---------------------------------------------------------------------------------

  lemma {:induction false} Path1()
    ensures At(B3i, 1, 0xFFF) && At(B3i, 4, 0x15FF) && At(B3i, 11, 0x1E2B) && At(B3i, 13, 0x178A)
  {
    hide At, Same;
    StartOnes();
    Hop(B3i, 0, 0, 0x1FFF, 0xFFF);
    Hop(B3i, 0, 2, 0x1FFF, 0x15FF);
    Hop(B3i, 1, 3, 0xFFF, 0x18AF);
    Hop(B3i, 9, 1, 0x18AF, 0x1E2B);
    Hop(B3i, 11, 1, 0x1E2B, 0x178A);
  }

  lemma {:induction false} Path2()
    ensures At(B3i, 21, 0x1FF7) && At(B3i, 22, 0x1FFB) && At(B3i, 30, 0x191F) && At(B3i, 36, 0x1264)
    ensures At(B3i, 44, 0x1FD2)
  {
    hide At, Same;
    Path1();
    Hop(B3i, 13, 3, 0x178A, 0x1FF7);
    Hop(B3i, 21, 0, 0x1FF7, 0x1FFB);
    Hop(B3i, 22, 3, 0x1FFB, 0x191F);
    Hop(B3i, 4, 5, 0x15FF, 0x1264);
    Hop(B3i, 36, 3, 0x1264, 0x1FD2);
  }

  lemma {:induction false} Path3()
    ensures At(B3i, 48, 0x1DFD) && At(B3i, 88, 0x1402) && At(B3i, 104, 0x41B) && At(B3i, 112, 0x1704)
  {
    hide At, Same;
    Path2();
    Hop(B3i, 44, 2, 0x1FD2, 0x1DFD);
    Hop(B3i, 48, 5, 0x1DFD, 0x2EA);
    Hop(B3i, 80, 3, 0x2EA, 0x1402);
    Hop(B3i, 88, 4, 0x1402, 0x41B);
    Hop(B3i, 104, 3, 0x41B, 0x1704);
  }

  lemma {:induction false} Path4()
    ensures At(B3i, 116, 0x1D70) && At(B3i, 129, 0x59E) && At(B3i, 376, 0xC95) && At(B3i, 408, 0x1A44)
  {
    hide At, Same;
    Path1();
    Path3();
    Hop(B3i, 112, 2, 0x1704, 0x1D70);
    Hop(B3i, 1, 7, 0xFFF, 0x59E);
    Hop(B3i, 116, 8, 0x1D70, 0x952);
    Hop(B3i, 372, 2, 0x952, 0xC95);
    Hop(B3i, 376, 5, 0xC95, 0x1A44);
  }

  lemma {:induction false} Path5()
    ensures At(B3i, 418, 0xE26) && At(B3i, 458, 0x1189) && At(B3i, 674, 0x1C1C)
  {
    hide At, Same;
    Path4();
    Hop(B3i, 408, 3, 0x1A44, 0x189A);
    Hop(B3i, 416, 1, 0x189A, 0xE26);
    Hop(B3i, 418, 5, 0xE26, 0x910);
    Hop(B3i, 450, 3, 0x910, 0x1189);
    Hop(B3i, 418, 8, 0xE26, 0x1C1C);
  }

  lemma {:induction false} Path6()
    ensures At(B3i, 682, 0x1C7C) && At(B3i, 696, 0x4C5) && At(B3i, 707, 0xEC)
  {
    hide At, Same;
    Path4();
    Path5();
    Hop(B3i, 674, 3, 0x1C1C, 0x1C7C);
    Hop(B3i, 408, 8, 0x1A44, 0x108B);
    Hop(B3i, 664, 5, 0x108B, 0x4C5);
    Hop(B3i, 674, 5, 0x1C1C, 0x1D9);
    Hop(B3i, 706, 0, 0x1D9, 0xEC);
  }

  lemma {:induction false} Path7()
    ensures At(B3i, 869, 0xE20) && At(B3i, 1078, 0x1157)
  {
    hide At, Same;
    Path2();
    Path6();
    Hop(B3i, 707, 7, 0xEC, 0xEC5);
    Hop(B3i, 835, 5, 0xEC5, 0x1881);
    Hop(B3i, 867, 1, 0x1881, 0xE20);
    Hop(B3i, 22, 10, 0x1FFB, 0x141E);
    Hop(B3i, 1046, 5, 0x141E, 0x1157);
  }

  lemma {:induction false} Path8()
    ensures At(B3i, 1189, 0x1115) && At(B3i, 1205, 0x44E) && At(B3i, 1665, 0x1AEA)
  {
    hide At, Same;
    Path4();
    Path7();
    Hop(B3i, 869, 8, 0xE20, 0x1038);
    Hop(B3i, 1125, 6, 0x1038, 0x1115);
    Hop(B3i, 1189, 4, 0x1115, 0x44E);
    Hop(B3i, 129, 10, 0x59E, 0x646);
    Hop(B3i, 1153, 9, 0x646, 0x1AEA);
  }

  lemma {:induction false} Path9()
    ensures At(B3i, 1681, 0x1B90) && At(B3i, 1766, 0x98F) && At(B3i, 1798, 0xD3D)
  {
    hide At, Same;
    Path8();
    Hop(B3i, 1665, 4, 0x1AEA, 0x1B90);
    Hop(B3i, 1189, 9, 0x1115, 0xDB);
    Hop(B3i, 1701, 6, 0xDB, 0x131F);
    Hop(B3i, 1765, 0, 0x131F, 0x98F);
    Hop(B3i, 1766, 5, 0x98F, 0xD3D);
  }

  lemma {:induction false} Path10()
    ensures At(B3i, 1814, 0xAC5) && At(B3i, 2069, 0x2DE) && At(B3i, 2248, 0x42D)
  {
    hide At, Same;
    Path2();
    Path6();
    Path9();
    Hop(B3i, 1798, 4, 0xD3D, 0xAC5);
    Hop(B3i, 21, 11, 0x1FF7, 0x2DE);
    Hop(B3i, 696, 10, 0x4C5, 0x1DB5);
    Hop(B3i, 1720, 9, 0x1DB5, 0xCBB);
    Hop(B3i, 2232, 4, 0xCBB, 0x42D);
  }

  lemma {:induction false} Path11()
    ensures At(B3i, 2566, 0xA3B) && At(B3i, 2574, 0x58A) && At(B3i, 2596, 0x2CF)
  {
    hide At, Same;
    Path2();
    Path9();
    Hop(B3i, 1798, 9, 0xD3D, 0x5B9);
    Hop(B3i, 2310, 8, 0x5B9, 0xA3B);
    Hop(B3i, 2566, 3, 0xA3B, 0x58A);
    Hop(B3i, 36, 11, 0x1264, 0x906);
    Hop(B3i, 2084, 9, 0x906, 0x2CF);
  }

  lemma {:induction false} Path12()
    ensures At(B3i, 2731, 0x662) && At(B3i, 2995, 0xE45) && At(B3i, 2996, 0x722)
  {
    hide At, Same;
    Path6();
    Hop(B3i, 682, 11, 0x1C7C, 0xCC4);
    Hop(B3i, 2730, 0, 0xCC4, 0x662);
    Hop(B3i, 2731, 8, 0x662, 0x52C);
    Hop(B3i, 2987, 3, 0x52C, 0xE45);
    Hop(B3i, 2995, 0, 0xE45, 0x722);
  }

  lemma {:induction false} Path13()
    ensures At(B3i, 3515, 0x1004) && At(B3i, 3675, 0x2BA) && At(B3i, 3683, 0x642)
  {
    hide At, Same;
    Path12();
    Hop(B3i, 2995, 9, 0xE45, 0x465);
    Hop(B3i, 3507, 3, 0x465, 0x1004);
    Hop(B3i, 3515, 7, 0x1004, 0x136);
    Hop(B3i, 3643, 5, 0x136, 0x2BA);
    Hop(B3i, 3675, 3, 0x2BA, 0x642);
  }

  lemma {:induction false} Path14()
    ensures At(B3i, 3803, 0x1245) && At(B3i, 3884, 0xE78) && At(B3i, 3947, 0x170C)
  {
    hide At, Same;
    Path13();
    Hop(B3i, 3675, 7, 0x2BA, 0x1245);
    Hop(B3i, 3803, 6, 0x1245, 0x1A7E);
    Hop(B3i, 3867, 4, 0x1A7E, 0x1CF0);
    Hop(B3i, 3883, 0, 0x1CF0, 0xE78);
    Hop(B3i, 3883, 6, 0x1CF0, 0x170C);
  }

  lemma {:induction false} Path15()
    ensures At(B3i, 3983, 0xBD9) && At(B3i, 4102, 0xB01) && At(B3i, 4230, 0x19F6)
  {
    hide At, Same;
    Path11();
    Path14();
    Hop(B3i, 3947, 5, 0x170C, 0x1D98);
    Hop(B3i, 3979, 2, 0x1D98, 0xBD9);
    Hop(B3i, 2566, 10, 0xA3B, 0x30D);
    Hop(B3i, 3590, 9, 0x30D, 0xB01);
    Hop(B3i, 4102, 7, 0xB01, 0x19F6);
  }

  lemma {:induction false} Path16()
    ensures At(B3i, 4294, 0x748) && At(B3i, 4436, 0x929) && At(B3i, 4614, 0x1ACD)
  {
    hide At, Same;
    Path14();
    Path15();
    Hop(B3i, 4230, 6, 0x19F6, 0x748);
    Hop(B3i, 3884, 9, 0xE78, 0x16AA);
    Hop(B3i, 4396, 5, 0x16AA, 0x923);
    Hop(B3i, 4428, 3, 0x923, 0x929);
    Hop(B3i, 4102, 9, 0xB01, 0x1ACD);
  }

  lemma {:induction false} Path17()
    ensures At(B3i, 4647, 0x16D3) && At(B3i, 4713, 0x149) && At(B3i, 4969, 0x45E)
  {
    hide At, Same;
    Path16();
    Hop(B3i, 4614, 5, 0x1ACD, 0xDA6);
    Hop(B3i, 4646, 0, 0xDA6, 0x16D3);
    Hop(B3i, 4647, 6, 0x16D3, 0x526);
    Hop(B3i, 4711, 1, 0x526, 0x149);
    Hop(B3i, 4713, 8, 0x149, 0x45E);
  }

  lemma {:induction false} Path18()
    ensures At(B3i, 4978, 0x15E2) && At(B3i, 4986, 0x2F5) && At(B3i, 5076, 0xCE2)
  {
    hide At, Same;
    Path16();
    Path17();
    Hop(B3i, 4969, 3, 0x45E, 0xBC4);
    Hop(B3i, 4977, 0, 0xBC4, 0x15E2);
    Hop(B3i, 4978, 3, 0x15E2, 0x2F5);
    Hop(B3i, 4436, 9, 0x929, 0xE04);
    Hop(B3i, 4948, 7, 0xE04, 0xCE2);
  }

  lemma {:induction false} Path19()
    ensures At(B3i, 5080, 0x1ACE) && At(B3i, 5208, 0x1B1F) && At(B3i, 5209, 0xD8F) && At(B3i, 5345, 0x62)
  {
    hide At, Same;
    Path18();
    Hop(B3i, 5076, 2, 0xCE2, 0x1ACE);
    Hop(B3i, 5080, 7, 0x1ACE, 0x1B1F);
    Hop(B3i, 5208, 0, 0x1B1F, 0xD8F);
    Hop(B3i, 5209, 7, 0xD8F, 0x27C);
    Hop(B3i, 5337, 3, 0x27C, 0x62);
  }

  lemma {:induction false} Path20()
    ensures At(B3i, 5347, 0x18) && At(B3i, 5539, 0x1589) && At(B3i, 5875, 0x1107)
  {
    hide At, Same;
    Path19();
    Hop(B3i, 5345, 1, 0x62, 0x18);
    Hop(B3i, 5347, 7, 0x18, 0x1BF2);
    Hop(B3i, 5475, 6, 0x1BF2, 0x1589);
    Hop(B3i, 5347, 9, 0x18, 0x1479);
    Hop(B3i, 5859, 4, 0x1479, 0x1107);
  }

  lemma {:induction false} Path21()
    ensures At(B3i, 5879, 0x1D10) && At(B3i, 5938, 0x1034) && At(B3i, 6060, 0x557)
  {
    hide At, Same;
    Path14();
    Path20();
    Hop(B3i, 5875, 2, 0x1107, 0x1D10);
    Hop(B3i, 3884, 11, 0xE78, 0xD26);
    Hop(B3i, 5932, 2, 0xD26, 0xD2);
    Hop(B3i, 5936, 1, 0xD2, 0x1034);
    Hop(B3i, 5932, 7, 0xD26, 0x557);
  }

  lemma {:induction false} Path22()
    ensures At(B3i, 6061, 0x12AB) && At(B3i, 6067, 0x5CA) && At(B3i, 6144, 0x1F48)
  {
    hide At, Same;
    StartOnes();
    Path21();
    Hop(B3i, 6060, 0, 0x557, 0x12AB);
    Hop(B3i, 6061, 2, 0x12AB, 0x172A);
    Hop(B3i, 6065, 1, 0x172A, 0x5CA);
    Hop(B3i, 0, 12, 0x1FFF, 0x59);
    Hop(B3i, 4096, 11, 0x59, 0x1F48);
  }

  lemma {:induction false} Path23()
    ensures At(B3i, 6208, 0xDBC) && At(B3i, 6232, 0xEC8) && At(B3i, 6488, 0x19A5) && At(B3i, 6903, 0x1F36)
    ensures At(B3i, 6905, 0x7CD)
  {
    hide At, Same;
    Path19();
    Path21();
    Path22();
    Hop(B3i, 6144, 6, 0x1F48, 0xDBC);
    Hop(B3i, 5208, 10, 0x1B1F, 0xEC8);
    Hop(B3i, 6232, 8, 0xEC8, 0x19A5);
    Hop(B3i, 5879, 10, 0x1D10, 0x1F36);
    Hop(B3i, 6903, 1, 0x1F36, 0x7CD);
  }

  lemma {:induction false} Path24()
    ensures At(B3i, 6906, 0x13E6) && At(B3i, 7054, 0x1646) && At(B3i, 7114, 0x1B36)
  {
    hide At, Same;
    Path23();
    Hop(B3i, 6905, 0, 0x7CD, 0x13E6);
    Hop(B3i, 6906, 7, 0x13E6, 0x1882);
    Hop(B3i, 7034, 4, 0x1882, 0x46D);
    Hop(B3i, 7050, 2, 0x46D, 0x1646);
    Hop(B3i, 7050, 6, 0x46D, 0x1B36);
  }

  lemma {:induction false} Path25()
    ensures At(B3i, 7130, 0x1A5D) && At(B3i, 7165, 0x1F74) && At(B3i, 7223, 0x1A71)
  {
    hide At, Same;
    Path23();
    Path24();
    Hop(B3i, 7114, 4, 0x1B36, 0x1A5D);
    Hop(B3i, 6905, 8, 0x7CD, 0x174E);
    Hop(B3i, 7161, 2, 0x174E, 0x1F74);
    Hop(B3i, 6903, 8, 0x1F36, 0x1D38);
    Hop(B3i, 7159, 6, 0x1D38, 0x1A71);
  }

  lemma {:induction false} Path26()
    ensures At(B3i, 7264, 0x1E4C) && At(B3i, 7403, 0x567) && At(B3i, 7405, 0x159)
  {
    hide At, Same;
    Path20();
    Path23();
    Hop(B3i, 6232, 10, 0xEC8, 0xCC7);
    Hop(B3i, 7256, 3, 0xCC7, 0x1E4C);
    Hop(B3i, 5347, 11, 0x18, 0x762);
    Hop(B3i, 7395, 3, 0x762, 0x567);
    Hop(B3i, 7403, 1, 0x567, 0x159);
  }

  lemma {:induction false} Path27()
    ensures At(B3i, 7406, 0x10AC) && At(B3i, 7951, 0x6A6)
  {
    hide At, Same;
    Path26();
    Hop(B3i, 7405, 0, 0x159, 0x10AC);
    Hop(B3i, 7406, 9, 0x10AC, 0x150B);
    Hop(B3i, 7918, 5, 0x150B, 0xD4D);
    Hop(B3i, 7950, 0, 0xD4D, 0x6A6);
  }

  // ---- the seeds ----------------------------------------------------------------------------------------

  // The seed of the satellite is the state after its shifts.
  predicate SeedReached(prn: nat)
    requires 1 <= prn <= 63
  {
    Run(Ones(13), B3I_G2, ShiftsOf(prn)) == BitsOf(B3I_SEEDS[prn - 1], 13)
  }

  predicate Odd(x: nat) {
    x % 2 == 1
  }

  // The word of a number.
  predicate Denotes(v: Word, x: nat) {
    && On(v, 0x1) == Odd(x / 1) && On(v, 0x2) == Odd(x / 2) && On(v, 0x4) == Odd(x / 4)
    && On(v, 0x8) == Odd(x / 8) && On(v, 0x10) == Odd(x / 16) && On(v, 0x20) == Odd(x / 32)
    && On(v, 0x40) == Odd(x / 64) && On(v, 0x80) == Odd(x / 128) && On(v, 0x100) == Odd(x / 256)
    && On(v, 0x200) == Odd(x / 512) && On(v, 0x400) == Odd(x / 1024) && On(v, 0x800) == Odd(x / 2048)
    && On(v, 0x1000) == Odd(x / 4096)
  }

  lemma {:induction false} BitOf(x: nat, n: nat, j: nat)
    requires j < n
    ensures BitsOf(x, n)[j] == Odd(x / Pow2(j))
  {
    if j > 0 {
      BitOf(x / 2, n - 1, j - 1);
      Halves(x, Pow2(j - 1));
    }
  }

  lemma {:induction false} Halves(x: nat, p: int)
    requires p > 0
    ensures x / (2 * p) == x / 2 / p
  {
    var q, r := x / 2 / p, x / 2 % p;
    assert x == 2 * (q * p + r) + x % 2;
    assert x == q * (2 * p) + (2 * r + x % 2);
    DivModUnique(x, 2 * p, q, 2 * r + x % 2);
  }

  lemma {:induction false} DenotesIsSame(v: Word, x: nat)
    requires Denotes(v, x)
    ensures Same(v, BitsOf(x, 13))
  {
    hide On, Odd, BitsOf;
    forall j | 0 <= j < 13
      ensures SameBit(v, BitsOf(x, 13), j)
    {
      BitOf(x, 13, j);
      Powers(j);
      MaskOfBit(v, x, j);
    }
  }

  lemma {:induction false} MaskOfBit(v: Word, x: nat, j: nat)
    requires Denotes(v, x) && j < 13
    ensures On(v, Mask(j)) == Odd(x / Power(j))
  {
    hide On, Odd;
  }

  lemma {:induction false} Powers(j: nat)
    requires j < 13
    ensures Pow2(j) == Power(j)
  {
    PowerIsPow2(j);
  }

  lemma {:induction false} Reached(n: nat, v: Word, x: nat)
    requires At(B3i, n, v) && Denotes(v, x)
    ensures Run(Ones(13), B3I_G2, n) == BitsOf(x, 13)
  {
    hide Run, Same, Denotes, BitsOf;
    DenotesIsSame(v, x);
    SameUnique(v, Run(Ones(13), B3I_G2, n), BitsOf(x, 13));
  }

  lemma {:induction false} Seeds1(prn: nat)
    requires 1 <= prn <= 4
    ensures SeedReached(prn)
  {
    hide Run, BitsOf, At, Same;
    match prn
    case 1 =>
      Path1();
      Reached(4, 0x15FF, 0x15FF);
    case 2 =>
      Path1();
      Reached(11, 0x1E2B, 0x1E2B);
    case 3 =>
      Path1();
      Reached(13, 0x178A, 0x178A);
    case 4 =>
      Path2();
      Reached(22, 0x1FFB, 0x1FFB);
  }

  lemma {:induction false} Seeds5(prn: nat)
    requires 5 <= prn <= 8
    ensures SeedReached(prn)
  {
    hide Run, BitsOf, At, Same;
    match prn
    case 5 =>
      Path2();
      Reached(30, 0x191F, 0x191F);
    case 6 =>
      Path2();
      Reached(36, 0x1264, 0x1264);
    case 7 =>
      Path2();
      Reached(44, 0x1FD2, 0x1FD2);
    case 8 =>
      Path3();
      Reached(48, 0x1DFD, 0x1DFD);
  }

  lemma {:induction false} Seeds9(prn: nat)
    requires 9 <= prn <= 12
    ensures SeedReached(prn)
  {
    hide Run, BitsOf, At, Same;
    match prn
    case 9 =>
      Path3();
      Reached(88, 0x1402, 0x1402);
    case 10 =>
      Path3();
      Reached(104, 0x41B, 0x41B);
    case 11 =>
      Path4();
      Reached(116, 0x1D70, 0x1D70);
    case 12 =>
      Path4();
      Reached(129, 0x59E, 0x59E);
  }

  lemma {:induction false} Seeds13(prn: nat)
    requires 13 <= prn <= 16
    ensures SeedReached(prn)
  {
    hide Run, BitsOf, At, Same;
    match prn
    case 13 =>
      Path4();
      Reached(376, 0xC95, 0xC95);
    case 14 =>
      Path5();
      Reached(418, 0xE26, 0xE26);
    case 15 =>
      Path5();
      Reached(458, 0x1189, 0x1189);
    case 16 =>
      Path6();
      Reached(682, 0x1C7C, 0x1C7C);
  }

  lemma {:induction false} Seeds17(prn: nat)
    requires 17 <= prn <= 20
    ensures SeedReached(prn)
  {
    hide Run, BitsOf, At, Same;
    match prn
    case 17 =>
      Path6();
      Reached(696, 0x4C5, 0x4C5);
    case 18 =>
      Path6();
      Reached(707, 0xEC, 0xEC);
    case 19 =>
      Path7();
      Reached(1078, 0x1157, 0x1157);
    case 20 =>
      Path10();
      Reached(2069, 0x2DE, 0x2DE);
  }

  lemma {:induction false} Seeds21(prn: nat)
    requires 21 <= prn <= 24
    ensures SeedReached(prn)
  {
    hide Run, BitsOf, At, Same;
    match prn
    case 21 =>
      Path10();
      Reached(2248, 0x42D, 0x42D);
    case 22 =>
      Path11();
      Reached(2574, 0x58A, 0x58A);
    case 23 =>
      Path11();
      Reached(2596, 0x2CF, 0x2CF);
    case 24 =>
      Path12();
      Reached(2731, 0x662, 0x662);
  }

  lemma {:induction false} Seeds25(prn: nat)
    requires 25 <= prn <= 28
    ensures SeedReached(prn)
  {
    hide Run, BitsOf, At, Same;
    match prn
    case 25 =>
      Path16();
      Reached(4294, 0x748, 0x748);
    case 26 =>
      Path16();
      Reached(4436, 0x929, 0x929);
    case 27 =>
      Path17();
      Reached(4647, 0x16D3, 0x16D3);
    case 28 =>
      Path18();
      Reached(4978, 0x15E2, 0x15E2);
  }

  lemma {:induction false} Seeds29(prn: nat)
    requires 29 <= prn <= 32
    ensures SeedReached(prn)
  {
    hide Run, BitsOf, At, Same;
    match prn
    case 29 =>
      Path18();
      Reached(4986, 0x2F5, 0x2F5);
    case 30 =>
      Path1();
      Reached(1, 0xFFF, 0xFFF);
    case 31 =>
      Path19();
      Reached(5209, 0xD8F, 0xD8F);
    case 32 =>
      Path20();
      Reached(5539, 0x1589, 0x1589);
  }

  lemma {:induction false} Seeds33(prn: nat)
    requires 33 <= prn <= 36
    ensures SeedReached(prn)
  {
    hide Run, BitsOf, At, Same;
    match prn
    case 33 =>
      Path22();
      Reached(6061, 0x12AB, 0x12AB);
    case 34 =>
      Path23();
      Reached(6488, 0x19A5, 0x19A5);
    case 35 =>
      Path25();
      Reached(7130, 0x1A5D, 0x1A5D);
    case 36 =>
      Path25();
      Reached(7165, 0x1F74, 0x1F74);
  }

  lemma {:induction false} Seeds37(prn: nat)
    requires 37 <= prn <= 40
    ensures SeedReached(prn)
  {
    hide Run, BitsOf, At, Same;
    match prn
    case 37 =>
      Path26();
      Reached(7403, 0x567, 0x567);
    case 38 =>
      Path21();
      Reached(5879, 0x1D10, 0x1D10);
    case 39 =>
      Path9();
      Reached(1681, 0x1B90, 0x1B90);
    case 40 =>
      Path19();
      Reached(5080, 0x1ACE, 0x1ACE);
  }

  lemma {:induction false} Seeds41(prn: nat)
    requires 41 <= prn <= 44
    ensures SeedReached(prn)
  {
    hide Run, BitsOf, At, Same;
    match prn
    case 41 =>
      Path21();
      Reached(5938, 0x1034, 0x1034);
    case 42 =>
      Path15();
      Reached(3983, 0xBD9, 0xBD9);
    case 43 =>
      Path23();
      Reached(6208, 0xDBC, 0xDBC);
    case 44 =>
      Path25();
      Reached(7223, 0x1A71, 0x1A71);
  }

  lemma {:induction false} Seeds45(prn: nat)
    requires 45 <= prn <= 48
    ensures SeedReached(prn)
  {
    hide Run, BitsOf, At, Same;
    match prn
    case 45 =>
      Path12();
      Reached(2996, 0x722, 0x722);
    case 46 =>
      Path10();
      Reached(1814, 0xAC5, 0xAC5);
    case 47 =>
      Path24();
      Reached(6906, 0x13E6, 0x13E6);
    case 48 =>
      Path22();
      Reached(6144, 0x1F48, 0x1F48);
  }

  lemma {:induction false} Seeds49(prn: nat)
    requires 49 <= prn <= 52
    ensures SeedReached(prn)
  {
    hide Run, BitsOf, At, Same;
    match prn
    case 49 =>
      Path17();
      Reached(4713, 0x149, 0x149);
    case 50 =>
      Path27();
      Reached(7406, 0x10AC, 0x10AC);
    case 51 =>
      Path26();
      Reached(7264, 0x1E4C, 0x1E4C);
    case 52 =>
      Path9();
      Reached(1766, 0x98F, 0x98F);
  }

  lemma {:induction false} Seeds53(prn: nat)
    requires 53 <= prn <= 56
    ensures SeedReached(prn)
  {
    hide Run, BitsOf, At, Same;
    match prn
    case 53 =>
      Path20();
      Reached(5347, 0x18, 0x18);
    case 54 =>
      Path13();
      Reached(3515, 0x1004, 0x1004);
    case 55 =>
      Path27();
      Reached(7951, 0x6A6, 0x6A6);
    case 56 =>
      Path24();
      Reached(7054, 0x1646, 0x1646);
  }

  lemma {:induction false} Seeds57(prn: nat)
    requires 57 <= prn <= 60
    ensures SeedReached(prn)
  {
    hide Run, BitsOf, At, Same;
    match prn
    case 57 =>
      Path14();
      Reached(3884, 0xE78, 0xE78);
    case 58 =>
      Path22();
      Reached(6067, 0x5CA, 0x5CA);
    case 59 =>
      Path15();
      Reached(4230, 0x19F6, 0x19F6);
    case 60 =>
      Path14();
      Reached(3803, 0x1245, 0x1245);
  }

  lemma {:induction false} Seeds61(prn: nat)
    requires 61 <= prn <= 63
    ensures SeedReached(prn)
  {
    hide Run, BitsOf, At, Same;
    match prn
    case 61 =>
      Path7();
      Reached(869, 0xE20, 0xE20);
    case 62 =>
      Path13();
      Reached(3683, 0x642, 0x642);
    case 63 =>
      Path8();
      Reached(1205, 0x44E, 0x44E);
  }

  // For every satellite.
  lemma {:induction false} EverySeed(prn: nat)
    requires 1 <= prn <= 63
    ensures SeedReached(prn)
  {
    hide SeedReached;
    if prn <= 4 {
      Seeds1(prn);
    } else if prn <= 8 {
      Seeds5(prn);
    } else if prn <= 12 {
      Seeds9(prn);
    } else if prn <= 16 {
      Seeds13(prn);
    } else if prn <= 20 {
      Seeds17(prn);
    } else if prn <= 24 {
      Seeds21(prn);
    } else if prn <= 28 {
      Seeds25(prn);
    } else if prn <= 32 {
      Seeds29(prn);
    } else if prn <= 36 {
      Seeds33(prn);
    } else if prn <= 40 {
      Seeds37(prn);
    } else if prn <= 44 {
      Seeds41(prn);
    } else if prn <= 48 {
      Seeds45(prn);
    } else if prn <= 52 {
      Seeds49(prn);
    } else if prn <= 56 {
      Seeds53(prn);
    } else if prn <= 60 {
      Seeds57(prn);
    } else {
      Seeds61(prn);
    }
  }

  // So the second sequence of every satellite is the one of the first, shifted.
  lemma {:induction false} SeedsAreShifts(prn: nat, t: nat)
    requires 1 <= prn <= 63
    ensures Out(BitsOf(B3I_SEEDS[prn - 1], 13), B3I_G2, t) == Out(Ones(13), B3I_G2, ShiftsOf(prn) + t)
  {
    hide Run, BitsOf, ShiftsOf;
    EverySeed(prn);
    RunTwice(Ones(13), B3I_G2, ShiftsOf(prn), t);
  }

  // Chip i of the unshifted code of a PRN: the first register and the shifted sequence.
  lemma {:induction false} CodeOfShifts(prn: nat, i: nat)
    requires 1 <= prn <= 63 && i < B3I_LENGTH
    ensures B3iChip(prn - 1, 0, i)
            == if G1Run(i)[0] != Out(Ones(13), B3I_G2, ShiftsOf(prn) + i) then 1 else -1
  {
    hide Out, G1Run, BitsOf, ShiftsOf, StartOf, Chip;
    SeedsAreShifts(prn, i);
    UnshiftedChip(B3iG1(), Emitted(BitsOf(B3I_SEEDS[prn - 1], 13), B3I_G2, B3I_LENGTH), i);
  }
}
