// Looking far ahead in the sequences of the spreading codes: the linear maps of 2^k steps of a register,
// given by their columns. Each table entry is the square of the one before.
module RegisterMaps {
  import opened Arithmetic
  import opened ShiftRegister
  import opened CodeGenerators
  import opened BeidouCodes

  type Word = bv13

  // Column j is the image of bit j.
  datatype Map = Map(c0: Word, c1: Word, c2: Word, c3: Word, c4: Word, c5: Word, c6: Word, c7: Word, c8: Word, c9: Word,
                     c10: Word, c11: Word, c12: Word)

  function Column(m: Map, j: nat): Word
    requires j < 13
  {
    match j
    case 0 => m.c0
    case 1 => m.c1
    case 2 => m.c2
    case 3 => m.c3
    case 4 => m.c4
    case 5 => m.c5
    case 6 => m.c6
    case 7 => m.c7
    case 8 => m.c8
    case 9 => m.c9
    case 10 => m.c10
    case 11 => m.c11
    case 12 => m.c12
  }

  function Mask(j: nat): Word
    requires j < 13
  {
    match j
    case 0 => 0x1
    case 1 => 0x2
    case 2 => 0x4
    case 3 => 0x8
    case 4 => 0x10
    case 5 => 0x20
    case 6 => 0x40
    case 7 => 0x80
    case 8 => 0x100
    case 9 => 0x200
    case 10 => 0x400
    case 11 => 0x800
    case 12 => 0x1000
  }

  predicate On(v: Word, mask: Word) {
    v & mask != 0
  }

  // p, and c where v is on.
  function Add(p: Word, v: Word, mask: Word, c: Word): Word {
    if v & mask != 0 then p ^ c else p
  }

  // The sum of the columns where v is on.
  function Apply(m: Map, v: Word): Word {
    var p0 := Add(0, v, 0x1, m.c0);
    var p1 := Add(p0, v, 0x2, m.c1);
    var p2 := Add(p1, v, 0x4, m.c2);
    var p3 := Add(p2, v, 0x8, m.c3);
    var p4 := Add(p3, v, 0x10, m.c4);
    var p5 := Add(p4, v, 0x20, m.c5);
    var p6 := Add(p5, v, 0x40, m.c6);
    var p7 := Add(p6, v, 0x80, m.c7);
    var p8 := Add(p7, v, 0x100, m.c8);
    var p9 := Add(p8, v, 0x200, m.c9);
    var p10 := Add(p9, v, 0x400, m.c10);
    var p11 := Add(p10, v, 0x800, m.c11);
    Add(p11, v, 0x1000, m.c12)
  }

  // ---- words and registers -----------------------------------------------------------------------------

  predicate SameBit(v: Word, s: Bits, j: nat)
    requires j < 13
  {
    On(v, Mask(j)) == (j < |s| && s[j])
  }

  ghost predicate Same(v: Word, s: Bits) {
    |s| <= 13 && forall j :: 0 <= j < 13 ==> SameBit(v, s, j)
  }

  lemma {:induction false} LowXor(v: Word, w: Word, j: nat)
    requires j < 7
    ensures On(v ^ w, Mask(j)) == (On(v, Mask(j)) != On(w, Mask(j)))
  {
    match j
    case 0 => case 1 => case 2 => case 3 => case 4 => case 5 => case 6 =>
  }

  lemma {:induction false} HighXor(v: Word, w: Word, j: nat)
    requires 7 <= j < 13
    ensures On(v ^ w, Mask(j)) == (On(v, Mask(j)) != On(w, Mask(j)))
  {
    match j
    case 7 => case 8 => case 9 => case 10 => case 11 => case 12 =>
  }

  lemma {:induction false} SameXor(v: Word, s: Bits, w: Word, u: Bits)
    requires Same(v, s) && Same(w, u) && |s| == |u|
    ensures Same(v ^ w, Xor(s, u))
  {
    hide On, Mask;
    var x, y := v ^ w, Xor(s, u);
    forall j | 0 <= j < 13
      ensures SameBit(x, y, j)
    {
      assert SameBit(v, s, j) && SameBit(w, u, j);
      if j < 7 {
        LowXor(v, w, j);
      } else {
        HighXor(v, w, j);
      }
    }
  }

  function Nothing(): Word {
    0
  }

  lemma {:induction false} SameZero(n: nat)
    requires n <= 13
    ensures Same(Nothing(), Zero(n))
  {
    forall j | 0 <= j < 13
      ensures SameBit(Nothing(), Zero(n), j)
    {
      NothingOn(j);
    }
  }

  lemma {:induction false} NothingOn(j: nat)
    requires j < 13
    ensures !On(Nothing(), Mask(j))
  {
  }

  // ---- maps of n steps -----------------------------------------------------------------------------------

  function Unit(w: nat, j: nat): (s: Bits)
    ensures |s| == w
  {
    seq(w, i => i == j)
  }

  // The first k bits of s, zeros behind.
  function Front(s: Bits, k: nat): (r: Bits)
    ensures |r| == |s|
  {
    seq(|s|, i requires 0 <= i < |s| => i < k && s[i])
  }

  // Column j is where n steps take bit j of a register of w bits.
  ghost predicate Moves(m: Map, w: nat, taps: seq<nat>, n: nat)
    requires 0 < w && InRange(taps, w)
  {
    w <= 13 && forall j :: 0 <= j < w ==> MovesBit(m, w, taps, n, j)
  }

  ghost predicate MovesBit(m: Map, w: nat, taps: seq<nat>, n: nat, j: nat)
    requires 0 < w && InRange(taps, w) && j < 13
  {
    Same(Column(m, j), Run(Unit(w, j), taps, n))
  }

  lemma {:induction false} AddBit(m: Map, taps: seq<nat>, n: nat, v: Word, s: Bits, p: Word, j: nat)
    requires 0 < |s| && InRange(taps, |s|) && Moves(m, |s|, taps, n) && j < 13
    requires Same(v, s) && Same(p, Run(Front(s, j), taps, n))
    ensures Same(Add(p, v, Mask(j), Column(m, j)), Run(Front(s, j + 1), taps, n))
  {
    hide Run, Mask, Column;
    assert SameBit(v, s, j);
    if j < |s| && s[j] {
      assert MovesBit(m, |s|, taps, n, j);
      assert Front(s, j + 1) == Xor(Front(s, j), Unit(|s|, j));
      RunXor(Front(s, j), Unit(|s|, j), taps, n);
      SameXor(p, Run(Front(s, j), taps, n), Column(m, j), Run(Unit(|s|, j), taps, n));
    } else {
      assert Front(s, j + 1) == Front(s, j);
    }
  }

  lemma {:induction false} RunZero(w: nat, taps: seq<nat>, n: nat)
    requires 0 < w && InRange(taps, w)
    ensures Run(Zero(w), taps, n) == Zero(w)
  {
    if n > 0 {
      RunZero(w, taps, n - 1);
      ZeroFixed(w, taps);
    }
  }

  lemma {:induction false} ApplyMoves(m: Map, taps: seq<nat>, n: nat, v: Word, s: Bits)
    requires 0 < |s| <= 13 && InRange(taps, |s|) && Moves(m, |s|, taps, n) && Same(v, s)
    ensures Same(Apply(m, v), Run(s, taps, n))
  {
    hide Run, Add, Same, Moves;
    RunZero(|s|, taps, n);
    SameZero(|s|);
    assert Front(s, 0) == Zero(|s|);
    var p0 := Nothing();
    var p1 := Add(p0, v, 0x1, m.c0);
    AddBit(m, taps, n, v, s, p0, 0);
    var p2 := Add(p1, v, 0x2, m.c1);
    AddBit(m, taps, n, v, s, p1, 1);
    var p3 := Add(p2, v, 0x4, m.c2);
    AddBit(m, taps, n, v, s, p2, 2);
    var p4 := Add(p3, v, 0x8, m.c3);
    AddBit(m, taps, n, v, s, p3, 3);
    var p5 := Add(p4, v, 0x10, m.c4);
    AddBit(m, taps, n, v, s, p4, 4);
    var p6 := Add(p5, v, 0x20, m.c5);
    AddBit(m, taps, n, v, s, p5, 5);
    var p7 := Add(p6, v, 0x40, m.c6);
    AddBit(m, taps, n, v, s, p6, 6);
    var p8 := Add(p7, v, 0x80, m.c7);
    AddBit(m, taps, n, v, s, p7, 7);
    var p9 := Add(p8, v, 0x100, m.c8);
    AddBit(m, taps, n, v, s, p8, 8);
    var p10 := Add(p9, v, 0x200, m.c9);
    AddBit(m, taps, n, v, s, p9, 9);
    var p11 := Add(p10, v, 0x400, m.c10);
    AddBit(m, taps, n, v, s, p10, 10);
    var p12 := Add(p11, v, 0x800, m.c11);
    AddBit(m, taps, n, v, s, p11, 11);
    var p13 := Add(p12, v, 0x1000, m.c12);
    AddBit(m, taps, n, v, s, p12, 12);
    assert Front(s, 13) == s;
  }

  // Twice the steps: every column is moved once more.
  predicate Squares(m: Map, m2: Map) {
    && m2.c0 == Apply(m, m.c0)
    && m2.c1 == Apply(m, m.c1)
    && m2.c2 == Apply(m, m.c2)
    && m2.c3 == Apply(m, m.c3)
    && m2.c4 == Apply(m, m.c4)
    && m2.c5 == Apply(m, m.c5)
    && m2.c6 == Apply(m, m.c6)
    && m2.c7 == Apply(m, m.c7)
    && m2.c8 == Apply(m, m.c8)
    && m2.c9 == Apply(m, m.c9)
    && m2.c10 == Apply(m, m.c10)
    && m2.c11 == Apply(m, m.c11)
    && m2.c12 == Apply(m, m.c12)
  }

  lemma {:induction false} ColumnSquared(m: Map, m2: Map, j: nat)
    requires Squares(m, m2) && j < 13
    ensures Column(m2, j) == Apply(m, Column(m, j))
  {
    hide Apply;
  }

  lemma {:induction false} SquareMoves(m: Map, m2: Map, w: nat, taps: seq<nat>, n: nat)
    requires 0 < w && InRange(taps, w) && Moves(m, w, taps, n) && Squares(m, m2)
    ensures Moves(m2, w, taps, 2 * n)
  {
    forall j | 0 <= j < w
      ensures MovesBit(m2, w, taps, 2 * n, j)
    {
      hide Run, Apply, Squares, Column;
      assert MovesBit(m, w, taps, n, j);
      ApplyMoves(m, taps, n, Column(m, j), Run(Unit(w, j), taps, n));
      RunTwice(Unit(w, j), taps, n, n);
      ColumnSquared(m, m2, j);
    }
  }

  // ---- the registers of GPS L1 C/A and BeiDou B3I ----------------------------------------------------------

  datatype Register = L1 | B3i

  function Width(r: Register): (w: nat)
    ensures 0 < w <= 13
  {
    if r == L1 then 10 else 13
  }

  function Taps(r: Register): (taps: seq<nat>)
    ensures InRange(taps, Width(r))
  {
    if r == L1 then L1_G2 else B3I_G2
  }

  // How many maps a register has.
  function Levels(r: Register): (n: nat)
    ensures n <= 13
  {
    if r == L1 then 10 else 13
  }

  // The map of 2^k steps.
  function Table(r: Register, k: nat): Map
    requires k < Levels(r)
  {
    if r == L1 then L1Table(k) else B3iTable(k)
  }

  function L1Table(k: nat): Map
    requires k < 10
  {
    match k
    case 0 => Map(0x200, 0x201, 0x202, 0x4, 0x208, 0x10, 0x20, 0x240, 0x280, 0x100, 0x0, 0x0, 0x0)
    case 1 => Map(0x100, 0x300, 0x301, 0x202, 0x104, 0x208, 0x10, 0x120, 0x340, 0x280, 0x0, 0x0, 0x0)
    case 2 => Map(0x340, 0x1C0, 0xC0, 0x180, 0x41, 0x82, 0x104, 0x148, 0x1D0, 0x3A0, 0x0, 0x0, 0x0)
    case 3 => Map(0x374, 0x19C, 0x4C, 0x98, 0x244, 0x88, 0x110, 0x154, 0x1DD, 0x3BA, 0x0, 0x0, 0x0)
    case 4 => Map(0x1F7, 0x219, 0x1C4, 0x388, 0x2E6, 0x1CC, 0x399, 0x2C5, 0x7D, 0xFB, 0x0, 0x0, 0x0)
    case 5 => Map(0x21, 0x62, 0xE5, 0x1CB, 0x3B6, 0x36D, 0x2DA, 0x194, 0x308, 0x210, 0x0, 0x0, 0x0)
    case 6 => Map(0x34C, 0x1D5, 0xE7, 0x1CE, 0xD0, 0x1A0, 0x341, 0x1CF, 0xD3, 0x1A6, 0x0, 0x0, 0x0)
    case 7 => Map(0x31D, 0x126, 0x150, 0x2A1, 0x25E, 0xBC, 0x178, 0x1ED, 0xC7, 0x18E, 0x0, 0x0, 0x0)
    case 8 => Map(0x3FB, 0xD, 0x3E1, 0x3C2, 0x7F, 0xFE, 0x1FC, 0x2, 0x3FE, 0x3FD, 0x0, 0x0, 0x0)
    case 9 => Map(0x148, 0x3D8, 0x2F8, 0x1F0, 0x2A8, 0x151, 0x2A2, 0xD, 0x152, 0x2A4, 0x0, 0x0, 0x0)
  }

  function B3iTable(k: nat): Map
    requires k < 13
  {
    match k
    case 0 => Map(0x1000, 0x1001, 0x2, 0x1004, 0x1008, 0x10, 0x1020, 0x1040, 0x1080, 0x100, 0x200, 0x400, 0x1800)
    case 1 => Map(0x1800, 0x800, 0x1001, 0x1802, 0x804, 0x1008, 0x1810, 0x820, 0x840, 0x1080, 0x100, 0x200, 0x1C00)
    case 2 => Map(0x1E00, 0x200, 0x400, 0x1600, 0x1201, 0x402, 0x1604, 0x1208, 0x1A10, 0x1420, 0x840, 0x1080, 0x1F00)
    case 3 => Map(0x13E0, 0x1420, 0x840, 0x360, 0x1520, 0xA40, 0x760, 0x1D20, 0x9A1, 0x1342, 0x684, 0xD08, 0x9F0)
    case 4 => Map(0x313, 0x534, 0xA68, 0x17C3, 0xC95, 0x192A, 0x1147, 0x19D, 0x29, 0x53, 0xA6, 0x14D, 0x189)
    case 5 => Map(0xAC8, 0x1F58, 0x1EB0, 0x17A8, 0x598, 0xB30, 0x1CA8, 0x1399, 0xDFA, 0x1BF5, 0x17EB, 0xFD6, 0x1564)
    case 6 => Map(0xCBA, 0x15CE, 0xB9D, 0x1B81, 0x1BB8, 0x1771, 0x258, 0x80A, 0x1CAE, 0x195C, 0x12B9, 0x573, 0x65D)
    case 7 => Map(0x1D46, 0x7CA, 0xF95, 0x26C, 0x199E, 0x133D, 0x1B3D, 0xB3C, 0xB3E, 0x167C, 0xCF9, 0x19F2, 0xEA3)
    case 8 => Map(0x3F4, 0x41C, 0x838, 0x1385, 0x4FE, 0x9FD, 0x100F, 0x3EA, 0x420, 0x841, 0x1083, 0x107, 0x1FA)
    case 9 => Map(0x1ABF, 0xFC0, 0x1F81, 0x5BD, 0x11C4, 0x388, 0x1DAF, 0x1E0, 0x197E, 0x12FC, 0x5F8, 0xBF0, 0xD5F)
    case 10 => Map(0x8BC, 0x19C5, 0x138A, 0xFA9, 0x17EF, 0xFDF, 0x1702, 0x6B9, 0x5CE, 0xB9C, 0x1738, 0xE71, 0x145E)
    case 11 => Map(0xCDB, 0x156C, 0xAD9, 0x1968, 0x1E0A, 0x1C15, 0x14F1, 0x538, 0x6AB, 0xD56, 0x1AAD, 0x155B, 0x66D)
    case 12 => Map(0xEA, 0x13E, 0x27D, 0x411, 0x8C9, 0x1193, 0x3CD, 0x771, 0xE09, 0x1C13, 0x1827, 0x104F, 0x75)
  }

  lemma {:induction false} L1Square0(k: nat)
    requires k == 0
    ensures Squares(L1Table(k), L1Table(k + 1))
  {
  }

  lemma {:induction false} L1Square1(k: nat)
    requires k == 1
    ensures Squares(L1Table(k), L1Table(k + 1))
  {
  }

  lemma {:induction false} L1Square2(k: nat)
    requires k == 2
    ensures Squares(L1Table(k), L1Table(k + 1))
  {
  }

  lemma {:induction false} L1Square3(k: nat)
    requires k == 3
    ensures Squares(L1Table(k), L1Table(k + 1))
  {
  }

  lemma {:induction false} L1Square4(k: nat)
    requires k == 4
    ensures Squares(L1Table(k), L1Table(k + 1))
  {
  }

  lemma {:induction false} L1Square5(k: nat)
    requires k == 5
    ensures Squares(L1Table(k), L1Table(k + 1))
  {
  }

  lemma {:induction false} L1Square6(k: nat)
    requires k == 6
    ensures Squares(L1Table(k), L1Table(k + 1))
  {
  }

  lemma {:induction false} L1Square7(k: nat)
    requires k == 7
    ensures Squares(L1Table(k), L1Table(k + 1))
  {
  }

  lemma {:induction false} L1Square8(k: nat)
    requires k == 8
    ensures Squares(L1Table(k), L1Table(k + 1))
  {
  }

  lemma {:induction false} B3iSquare0(k: nat)
    requires k == 0
    ensures Squares(B3iTable(k), B3iTable(k + 1))
  {
  }

  lemma {:induction false} B3iSquare1(k: nat)
    requires k == 1
    ensures Squares(B3iTable(k), B3iTable(k + 1))
  {
  }

  lemma {:induction false} B3iSquare2(k: nat)
    requires k == 2
    ensures Squares(B3iTable(k), B3iTable(k + 1))
  {
  }

  lemma {:induction false} B3iSquare3(k: nat)
    requires k == 3
    ensures Squares(B3iTable(k), B3iTable(k + 1))
  {
  }

  lemma {:induction false} B3iSquare4(k: nat)
    requires k == 4
    ensures Squares(B3iTable(k), B3iTable(k + 1))
  {
  }

  lemma {:induction false} B3iSquare5(k: nat)
    requires k == 5
    ensures Squares(B3iTable(k), B3iTable(k + 1))
  {
  }

  lemma {:induction false} B3iSquare6(k: nat)
    requires k == 6
    ensures Squares(B3iTable(k), B3iTable(k + 1))
  {
  }

  lemma {:induction false} B3iSquare7(k: nat)
    requires k == 7
    ensures Squares(B3iTable(k), B3iTable(k + 1))
  {
  }

  lemma {:induction false} B3iSquare8(k: nat)
    requires k == 8
    ensures Squares(B3iTable(k), B3iTable(k + 1))
  {
  }

  lemma {:induction false} B3iSquare9(k: nat)
    requires k == 9
    ensures Squares(B3iTable(k), B3iTable(k + 1))
  {
  }

  lemma {:induction false} B3iSquare10(k: nat)
    requires k == 10
    ensures Squares(B3iTable(k), B3iTable(k + 1))
  {
  }

  lemma {:induction false} B3iSquare11(k: nat)
    requires k == 11
    ensures Squares(B3iTable(k), B3iTable(k + 1))
  {
  }

  lemma {:induction false} L1Squares(k: nat)
    requires k < 9
    ensures Squares(L1Table(k), L1Table(k + 1))
  {
    hide Squares, L1Table;
    match k
    case 0 => L1Square0(k);
    case 1 => L1Square1(k);
    case 2 => L1Square2(k);
    case 3 => L1Square3(k);
    case 4 => L1Square4(k);
    case 5 => L1Square5(k);
    case 6 => L1Square6(k);
    case 7 => L1Square7(k);
    case 8 => L1Square8(k);
  }

  lemma {:induction false} B3iSquares(k: nat)
    requires k < 12
    ensures Squares(B3iTable(k), B3iTable(k + 1))
  {
    hide Squares, B3iTable;
    match k
    case 0 => B3iSquare0(k);
    case 1 => B3iSquare1(k);
    case 2 => B3iSquare2(k);
    case 3 => B3iSquare3(k);
    case 4 => B3iSquare4(k);
    case 5 => B3iSquare5(k);
    case 6 => B3iSquare6(k);
    case 7 => B3iSquare7(k);
    case 8 => B3iSquare8(k);
    case 9 => B3iSquare9(k);
    case 10 => B3iSquare10(k);
    case 11 => B3iSquare11(k);
  }

  lemma {:induction false} TableSquares(r: Register, k: nat)
    requires k + 1 < Levels(r)
    ensures Squares(Table(r, k), Table(r, k + 1))
  {
    hide Squares, L1Table, B3iTable;
    if r == L1 {
      L1Squares(k);
    } else {
      B3iSquares(k);
    }
  }

  // ---- one step --------------------------------------------------------------------------------------------

  lemma {:induction false} L1Step(s: Bits)
    requires |s| == 10
    ensures Run(s, L1_G2, 1) == s[1..] + [s[8] != (s[7] != (s[4] != (s[2] != (s[1] != s[0]))))]
  {
    hide Parity;
    assert Run(s, L1_G2, 0) == s;
    Parity5(s, 1, 2, 4, 7, 8);
  }

  lemma {:induction false} B3iStep(s: Bits)
    requires |s| == 13
    ensures Run(s, B3I_G2, 1)
            == s[1..] + [s[12] != (s[8] != (s[7] != (s[6] != (s[4] != (s[3] != (s[1] != s[0]))))))]
  {
    hide Parity;
    assert Run(s, B3I_G2, 0) == s;
    Parity7(s, 1, 3, 4, 6, 7, 8, 12);
  }

  // Column j of the first map: bit j - 1, and the last bit where j is a tap.
  lemma {:induction false} L1First(j: nat)
    requires j < 10
    ensures MovesBit(L1Table(0), 10, L1_G2, 1, j)
  {
    hide Run;
    L1Step(Unit(10, j));
    match j
    case 0 => case 1 => case 2 => case 3 => case 4 => case 5 => case 6 => case 7 => case 8 => case 9 =>
  }

  lemma {:induction false} B3iLow(j: nat)
    requires j < 7
    ensures MovesBit(B3iTable(0), 13, B3I_G2, 1, j)
  {
    hide Run;
    B3iStep(Unit(13, j));
    match j
    case 0 => case 1 => case 2 => case 3 => case 4 => case 5 => case 6 =>
  }

  lemma {:induction false} B3iHigh(j: nat)
    requires 7 <= j < 13
    ensures MovesBit(B3iTable(0), 13, B3I_G2, 1, j)
  {
    hide Run;
    B3iStep(Unit(13, j));
    match j
    case 7 => case 8 => case 9 => case 10 => case 11 => case 12 =>
  }

  lemma {:induction false} FirstMoves(r: Register)
    ensures Moves(Table(r, 0), Width(r), Taps(r), 1)
  {
    hide Run, MovesBit, L1Table, B3iTable;
    forall j | 0 <= j < Width(r)
      ensures MovesBit(Table(r, 0), Width(r), Taps(r), 1, j)
    {
      if r == L1 { L1First(j); } else if j < 7 { B3iLow(j); } else { B3iHigh(j); }
    }
  }

  lemma {:induction false} TableMoves(r: Register, k: nat)
    requires k < Levels(r)
    ensures Moves(Table(r, k), Width(r), Taps(r), Pow2(k))
  {
    hide Run, Squares, Table, Moves;
    if k == 0 {
      FirstMoves(r);
    } else {
      TableMoves(r, k - 1);
      TableSquares(r, k - 1);
      SquareMoves(Table(r, k - 1), Table(r, k), Width(r), Taps(r), Pow2(k - 1));
    }
  }

  // ---- paths through a sequence ------------------------------------------------------------------------------

  // v is the register after n steps from all ones.
  ghost predicate At(r: Register, n: nat, v: Word) {
    Same(v, Run(Ones(Width(r)), Taps(r), n))
  }

  // One leap of 2^k steps.
  lemma {:induction false} Hop(r: Register, n: nat, k: nat, v: Word, w: Word)
    requires k < Levels(r) && At(r, n, v) && Apply(Table(r, k), v) == w
    ensures At(r, n + Power(k), w)
  {
    hide Run, Apply, Table, Moves, Same;
    var s := Run(Ones(Width(r)), Taps(r), n);
    PowerIsPow2(k);
    TableMoves(r, k);
    ApplyMoves(Table(r, k), Taps(r), Pow2(k), v, s);
    RunTwice(Ones(Width(r)), Taps(r), n, Pow2(k));
  }

  function Power(k: nat): (p: nat)
    requires k < 13
  {
    match k
    case 0 => 1
    case 1 => 2
    case 2 => 4
    case 3 => 8
    case 4 => 16
    case 5 => 32
    case 6 => 64
    case 7 => 128
    case 8 => 256
    case 9 => 512
    case 10 => 1024
    case 11 => 2048
    case 12 => 4096
  }

  lemma {:induction false} PowerIsPow2(k: nat)
    requires k < 13
    ensures Power(k) == Pow2(k)
  {
    if k > 0 {
      PowerIsPow2(k - 1);
    }
  }

  // A word stands for one register of each width.
  lemma {:induction false} SameUnique(v: Word, s: Bits, u: Bits)
    requires Same(v, s) && Same(v, u) && |s| == |u|
    ensures s == u
  {
    forall j | 0 <= j < |s|
      ensures s[j] == u[j]
    {
      assert SameBit(v, s, j) && SameBit(v, u, j);
    }
  }

  lemma {:induction false} StartOnes()
    ensures At(L1, 0, 0x3FF) && At(B3i, 0, 0x1FFF)
  {
    RunStart(Ones(10), L1_G2);
    RunStart(Ones(13), B3I_G2);
  }
}
