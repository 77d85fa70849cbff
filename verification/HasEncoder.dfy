// The sender's side of HAS SIS ICD 1.0, sections 5.1 and 5.2, with its field widths as numbers, and the
// proof that the receiver's parser inverts it.
module HasEncoder {
  import opened Arithmetic
  import opened HasBits
  import opened HasMessage
  import opened HasParser

  function Concat(parts: seq<string>): (s: string) {
    if parts == [] then "" else parts[0] + Concat(parts[1..])
  }

  function Flag(b: bool): (s: string)
    ensures |s| == 1
  {
    if b then "1" else "0"
  }

  function EncodeHeader(h: Header): (s: string)
    ensures |s| == 32
  {
    Write(h.toh, 12) + Flag(h.maskFlag) + Flag(h.orbitFlag) + Flag(h.clockFlag) + Flag(h.subsetFlag)
    + Flag(h.codeFlag) + Flag(h.phaseFlag) + Write(h.reserved, 4) + Write(h.maskId, 5) + Write(h.iodSet, 5)
  }

  function CellRow(row: seq<bool>): (s: string)
    ensures |s| == |row|
  {
    seq(|row|, g requires 0 <= g < |row| => if row[g] then '1' else '0')
  }

  function EncodeCells(m: CellMask): string {
    if m == [] then "" else CellRow(m[0]) + EncodeCells(m[1..])
  }

  function EncodeSystem(s: SystemMask, cells: CellMask): string {
    Write(s.gnssId, 4) + Write(s.satellites, 40) + Write(s.signals, 16) + Flag(s.cellFlag)
    + (if s.cellFlag then EncodeCells(cells) else "") + Write(s.nav, 3)
  }

  function SystemParts(systems: seq<SystemMask>, cells: seq<CellMask>): seq<string>
    requires |systems| == |cells|
  {
    seq(|systems|, i requires 0 <= i < |systems| => EncodeSystem(systems[i], cells[i]))
  }

  function EncodeMask(m: HasData): string
    requires |m.systems| == |m.cells|
  {
    if !m.header.maskFlag then ""
    else Write(|m.systems|, 4) + Concat(SystemParts(m.systems, m.cells)) + Write(0, 6)
  }

  function IodWidth(id: nat): nat {
    if id == 0 then 8 else 10
  }

  function EncodeOrbit(id: nat, o: Orbit): string {
    Write(o.iod, IodWidth(id)) + WriteSigned(o.radial, 13) + WriteSigned(o.inTrack, 12)
      + WriteSigned(o.crossTrack, 12)
  }

  function OrbitParts(systems: seq<SystemMask>, orbit: seq<Orbit>): seq<string> {
    seq(|orbit|, i requires 0 <= i < |orbit| => EncodeOrbit(GnssIdOf(systems, i), orbit[i]))
  }

  function EncodeOrbits(m: HasData): string {
    if m.header.orbitFlag then Write(m.orbitValidity, 4) + Concat(OrbitParts(m.systems, m.orbit)) else ""
  }

  function MultiplierParts(multipliers: seq<nat>): seq<string> {
    seq(|multipliers|, i requires 0 <= i < |multipliers| =>
      Write(if multipliers[i] > 0 then multipliers[i] - 1 else 0, 2))
  }

  function ClockParts(clock: seq<int>): seq<string> {
    seq(|clock|, i requires 0 <= i < |clock| => WriteSigned(clock[i], 13))
  }

  function EncodeClock(m: HasData): string {
    if m.header.clockFlag then
      Write(m.clockValidity, 4) + Concat(MultiplierParts(m.multipliers)) + Concat(ClockParts(m.clock))
    else ""
  }

  function EncodeBias(active: bool, phase: bool, cell: BiasCell): string {
    if !active then ""
    else WriteSigned(cell.value, 11) + (if phase then Write(cell.discontinuity, 2) else "")
  }

  function RowParts(active: seq<bool>, phase: bool, row: seq<BiasCell>): seq<string>
    requires |active| <= |row|
  {
    seq(|active|, c requires 0 <= c < |active| => EncodeBias(active[c], phase, row[c]))
  }

  ghost predicate ShapedMatrix(rows: Rows, biases: seq<seq<BiasCell>>) {
    && rows.Rows? && |biases| == |rows.active|
    && forall i :: 0 <= i < |biases| ==> |rows.active[i]| <= |biases[i]| == rows.width
  }

  function MatrixParts(rows: Rows, phase: bool, biases: seq<seq<BiasCell>>): seq<string>
    requires ShapedMatrix(rows, biases)
  {
    seq(|biases|, i requires 0 <= i < |biases| => Concat(RowParts(rows.active[i], phase, biases[i])))
  }

  function EncodeBiases(flag: bool, validity: nat, m: HasData, phase: bool, biases: seq<seq<BiasCell>>): string
    requires flag ==> ShapedMatrix(BiasRows(m.systems, 0, m.cells), biases)
  {
    if flag then Write(validity, 4) + Concat(MatrixParts(BiasRows(m.systems, 0, m.cells), phase, biases)) else ""
  }

  function EncodeBody(m: HasData): string
    requires WellFormed(m)
  {
    EncodeMask(m) + (EncodeOrbits(m) + (EncodeClock(m)
    + (EncodeBiases(m.header.codeFlag, m.codeValidity, m, false, m.codeBias)
    + EncodeBiases(m.header.phaseFlag, m.phaseValidity, m, true, m.phaseBias))))
  }

  // ---- which messages can be sent ------------------------------------------------------------------

  ghost predicate FitsHeader(h: Header) {
    && h.toh < Pow2(12) && h.reserved < 16 && h.maskId < 32 && h.iodSet < 32
  }

  ghost predicate FitsSigned(v: int, width: nat)
    requires width > 0
  {
    -Pow2(width - 1) <= v < Pow2(width - 1)
  }

  ghost predicate FitsCells(s: SystemMask, cells: CellMask) {
    && |cells| == SatellitesOf(s)
    && (forall r :: 0 <= r < |cells| ==> |cells[r]| == PopCount(s.signals))
    && (!s.cellFlag ==> forall r, g :: 0 <= r < |cells| && 0 <= g < |cells[r]| ==> !cells[r][g])
    && (s.cellFlag ==> |cells| > 0)
  }

  // A mask with 1 to 15 systems.
  ghost predicate FitsMask(systems: seq<SystemMask>, cells: seq<CellMask>) {
    && 1 <= |systems| == |cells| < 16
    && (forall i :: 0 <= i < |systems| ==> FitsSystem(systems[i]) && FitsCells(systems[i], cells[i]))
  }

  ghost predicate FitsOrbit(id: nat, o: Orbit) {
    && (id == 0 || id == 2) && o.iod < Pow2(IodWidth(id))
    && FitsSigned(o.radial, 13) && FitsSigned(o.inTrack, 12) && FitsSigned(o.crossTrack, 12)
  }

  ghost predicate FitsOrbits(m: HasData) {
    if m.header.orbitFlag then
      && m.orbitValidity < 16 && |m.orbit| == Satellites(m.systems)
      && forall i :: 0 <= i < |m.orbit| ==> FitsOrbit(GnssIdOf(m.systems, i), m.orbit[i])
    else m.orbitValidity == 0 && m.orbit == []
  }

  ghost predicate FitsClock(m: HasData) {
    if m.header.clockFlag then
      && m.clockValidity < 16 && |m.multipliers| == |m.systems| && |m.clock| == Satellites(m.systems)
      && (forall i :: 0 <= i < |m.multipliers| ==> 1 <= m.multipliers[i] <= 4)
      && forall i :: 0 <= i < |m.clock| ==> FitsSigned(m.clock[i], 13)
    else m.clockValidity == 0 && m.multipliers == [] && m.clock == []
  }

  ghost predicate FitsBias(active: bool, phase: bool, cell: BiasCell) {
    if active then FitsSigned(cell.value, 11) && (if phase then cell.discontinuity < 4 else cell.discontinuity == 0)
    else cell == BiasCell(0, 0)
  }

  ghost predicate FitsRow(active: seq<bool>, phase: bool, row: seq<BiasCell>) {
    forall c :: 0 <= c < |row| ==> FitsBias(c < |active| && active[c], phase, row[c])
  }

  ghost predicate FitsBiases(flag: bool, validity: nat, m: HasData, phase: bool, biases: seq<seq<BiasCell>>) {
    if flag then
      && validity < 16 && ShapedMatrix(BiasRows(m.systems, 0, m.cells), biases)
      && forall i :: 0 <= i < |biases| ==> FitsRow(BiasRows(m.systems, 0, m.cells).active[i], phase, biases[i])
    else validity == 0 && biases == []
  }

  // A message is well formed when its mask has a satellite, every block its flags announce has one
  // entry per satellite, every value fits its field and the blocks not announced are blank. A
  // message without a mask is read with the mask `systems`, `cells` that the receiver already holds.
  ghost predicate WellFormed(m: HasData) {
    && FitsHeader(m.header) && !m.header.subsetFlag
    && m.nsys == |m.systems| && FitsMask(m.systems, m.cells) && Satellites(m.systems) > 0
    && FitsOrbits(m) && FitsClock(m)
    && FitsBiases(m.header.codeFlag, m.codeValidity, m, false, m.codeBias)
    && FitsBiases(m.header.phaseFlag, m.phaseValidity, m, true, m.phaseBias)
  }

  // ---- round trip, field by field ------------------------------------------------------------------

  lemma {:induction false} Take(part: string, tail: string)
    ensures (part + tail)[..|part|] == part && (part + tail)[|part|..] == tail
  {
  }

  lemma {:induction false} FieldInverse(v: nat, width: nat, tail: string)
    requires v < Pow2(width)
    ensures Field(Write(v, width) + tail, width) == Got(v, tail)
  {
    Take(Write(v, width), tail);
    FieldRoundTrip(v, width);
  }

  lemma {:induction false} SignedFieldInverse(v: int, width: nat, tail: string)
    requires width > 0 && FitsSigned(v, width)
    ensures SignedField(WriteSigned(v, width) + tail, width) == Got(v, tail)
  {
    Take(WriteSigned(v, width), tail);
    SignedFieldRoundTrip(v, width);
  }

  // A list of items comes back when each item does.
  lemma {:induction false} ManyInverse<T>(p: ItemParser<T>, i: nat, parts: seq<string>, xs: seq<T>, tail: string)
    requires |parts| == |xs|
    requires forall k, t :: 0 <= k < |xs| ==> p(i + k, parts[k] + t) == Got(xs[k], t)
    ensures Many(p, i, i + |xs|, Concat(parts) + tail) == Got(xs, tail)
    decreases |xs|
  {
    if xs == [] {
      assert Concat(parts) + tail == tail;
    } else {
      var rest := Concat(parts[1..]) + tail;
      assert Concat(parts) + tail == parts[0] + rest;
      assert p(i + 0, parts[0] + rest) == Got(xs[0], rest);
      forall k, t | 0 <= k < |xs[1..]|
        ensures p(i + 1 + k, parts[1..][k] + t) == Got(xs[1..][k], t)
      {
        assert p(i + (k + 1), parts[k + 1] + t) == Got(xs[k + 1], t);
      }
      ManyInverse(p, i + 1, parts[1..], xs[1..], tail);
      assert xs == [xs[0]] + xs[1..];
    }
  }

  lemma {:induction false} HeaderSlices(a: string, b: string, c: string, d: string, e: string)
    requires |a| == 12 && |b| == 6 && |c| == 4 && |d| == 5 && |e| == 5
    ensures var s := a + b + c + d + e;
            && s[0..12] == a && s[18..22] == c && s[22..27] == d && s[27..32] == e
            && s[12..13] == [b[0]] && s[13..14] == [b[1]] && s[14..15] == [b[2]]
            && s[15..16] == [b[3]] && s[16..17] == [b[4]] && s[17..18] == [b[5]]
  {
  }

  lemma {:induction false} OneBit(c: char)
    ensures Unsigned([c]) == Bit(c)
  {
    assert [c][..0] == "";
  }

  lemma {:induction false} GroupFlags(a: string, f: seq<string>, c: string, d: string, e: string)
    requires |f| == 6 && forall i :: 0 <= i < 6 ==> |f[i]| == 1
    ensures var b := [f[0][0], f[1][0], f[2][0], f[3][0], f[4][0], f[5][0]];
            a + f[0] + f[1] + f[2] + f[3] + f[4] + f[5] + c + d + e == a + b + c + d + e
  {
    var b := [f[0][0], f[1][0], f[2][0], f[3][0], f[4][0], f[5][0]];
    assert f[0] + f[1] + f[2] + f[3] + f[4] + f[5] == b;
    assert a + f[0] + f[1] + f[2] + f[3] + f[4] + f[5] == a + b;
  }

  lemma {:induction false} HeaderInverse(h: Header)
    requires FitsHeader(h)
    ensures ParseHeader(EncodeHeader(h)) == h
  {
    hide ParseHeader, Unsigned, Write, FitsHeader;
    var a, c, d, e := Write(h.toh, 12), Write(h.reserved, 4), Write(h.maskId, 5), Write(h.iodSet, 5);
    var f := [Flag(h.maskFlag), Flag(h.orbitFlag), Flag(h.clockFlag), Flag(h.subsetFlag), Flag(h.codeFlag),
              Flag(h.phaseFlag)];
    var b := [f[0][0], f[1][0], f[2][0], f[3][0], f[4][0], f[5][0]];
    GroupFlags(a, f, c, d, e);
    assert EncodeHeader(h) == a + b + c + d + e;
    HeaderFields(h);
    HeaderLayout(h, a, b, c, d, e);
  }

  lemma {:induction false} HeaderFields(h: Header)
    requires FitsHeader(h)
    ensures Unsigned(Write(h.toh, 12)) == h.toh && Unsigned(Write(h.reserved, 4)) == h.reserved
    ensures Unsigned(Write(h.maskId, 5)) == h.maskId && Unsigned(Write(h.iodSet, 5)) == h.iodSet
  {
    assert Pow2(4) == 16 && Pow2(5) == 32;
    FieldRoundTrip(h.toh, 12);
    FieldRoundTrip(h.reserved, 4);
    FieldRoundTrip(h.maskId, 5);
    FieldRoundTrip(h.iodSet, 5);
  }

  lemma {:induction false} HeaderLayout(h: Header, a: string, b: string, c: string, d: string, e: string)
    requires |a| == 12 && |b| == 6 && |c| == 4 && |d| == 5 && |e| == 5
    requires Unsigned(a) == h.toh && Unsigned(c) == h.reserved && Unsigned(d) == h.maskId && Unsigned(e) == h.iodSet
    requires (b[0] == '1') == h.maskFlag && (b[1] == '1') == h.orbitFlag && (b[2] == '1') == h.clockFlag
    requires (b[3] == '1') == h.subsetFlag && (b[4] == '1') == h.codeFlag && (b[5] == '1') == h.phaseFlag
    ensures ParseHeader(a + b + c + d + e) == h
  {
    HeaderSlices(a, b, c, d, e);
    OneBit(b[0]);
    OneBit(b[1]);
    OneBit(b[2]);
    OneBit(b[3]);
    OneBit(b[4]);
    OneBit(b[5]);
  }

  lemma {:induction false} FlagInverse(b: bool)
    ensures Unsigned(Flag(b)) == (if b then 1 else 0)
  {
    assert Flag(b)[..0] == "";
  }

  lemma {:induction false} EncodeCellsLength(m: CellMask, columns: nat)
    requires forall r :: 0 <= r < |m| ==> |m[r]| == columns
    ensures |EncodeCells(m)| == |m| * columns
  {
    if m != [] {
      EncodeCellsLength(m[1..], columns);
      assert |m| * columns == columns + |m[1..]| * columns;
    }
  }

  lemma {:induction false} CellAt(m: CellMask, columns: nat, s: nat, g: nat, tail: string)
    requires forall r :: 0 <= r < |m| ==> |m[r]| == columns
    requires s < |m| && g < columns
    ensures BitAt(EncodeCells(m) + tail, s * columns + g) == m[s][g]
  {
    var row, rest := CellRow(m[0]), EncodeCells(m[1..]) + tail;
    assert EncodeCells(m) + tail == row + rest;
    if s > 0 {
      CellAt(m[1..], columns, s - 1, g, tail);
      assert s * columns + g == columns + ((s - 1) * columns + g);
      assert (s - 1) * columns >= 0;
    }
  }

  lemma {:induction false} CellsInverse(s: SystemMask, m: CellMask, tail: string)
    requires FitsCells(s, m)
    ensures var bits := (if s.cellFlag then EncodeCells(m) else "") + tail;
            ParseCells(s.cellFlag, bits, SatellitesOf(s), PopCount(s.signals)) == Got(m, tail)
  {
    var columns := PopCount(s.signals);
    if s.cellFlag {
      EncodeCellsLength(m, columns);
      Take(EncodeCells(m), tail);
      var read := CellsAt(EncodeCells(m) + tail, |m|, columns);
      forall r | 0 <= r < |m|
        ensures read[r] == m[r]
      {
        forall g | 0 <= g < columns
          ensures read[r][g] == m[r][g]
        {
          CellAt(m, columns, r, g, tail);
        }
      }
      assert read == m;
    } else {
      assert "" + tail == tail;
      var blank := seq(SatellitesOf(s), i => seq(columns, g => false));
      forall r | 0 <= r < |m|
        ensures blank[r] == m[r]
      {
      }
      assert blank == m;
    }
  }

  lemma {:induction false} SystemSteps(x: seq<string>, s: SystemMask, f: nat, m: CellMask)
    requires |x| == 7 && (f == 1) == s.cellFlag
    requires Field(x[0], GNSS_ID) == Got(s.gnssId, x[1])
    requires Field(x[1], SATELLITE_MASK) == Got(s.satellites, x[2])
    requires Field(x[2], SIGNAL_MASK) == Got(s.signals, x[3])
    requires Field(x[3], 1) == Got(f, x[4])
    requires ParseCells(s.cellFlag, x[4], SatellitesOf(s), PopCount(s.signals)) == Got(m, x[5])
    requires Field(x[5], NAV_MESSAGE) == Got(s.nav, x[6])
    ensures ParseSystem(x[0]) == Got(MaskItem(s, m), x[6])
  {
  }

  lemma {:induction false} Regroup(a: string, b: string, c: string, d: string, e: string, f: string, tail: string)
    ensures (a + b + c + d + e + f) + tail == a + (b + (c + (d + (e + (f + tail)))))
  {
  }

  lemma {:induction false} SystemInverse(s: SystemMask, m: CellMask, tail: string)
    requires FitsSystem(s) && FitsCells(s, m)
    ensures ParseSystem(EncodeSystem(s, m) + tail) == Got(MaskItem(s, m), tail)
  {
    hide ParseSystem, ParseCells, Field, Write, Unsigned, Pow2, FitsCells, EncodeCells, Flag, SatellitesOf, PopCount;
    var cells := if s.cellFlag then EncodeCells(m) else "";
    var x5 := Write(s.nav, NAV_MESSAGE) + tail;
    var x4 := cells + x5;
    var x3 := Flag(s.cellFlag) + x4;
    var x2 := Write(s.signals, SIGNAL_MASK) + x3;
    var x1 := Write(s.satellites, SATELLITE_MASK) + x2;
    var x0 := Write(s.gnssId, GNSS_ID) + x1;
    Regroup(Write(s.gnssId, GNSS_ID), Write(s.satellites, SATELLITE_MASK), Write(s.signals, SIGNAL_MASK),
            Flag(s.cellFlag), cells, Write(s.nav, NAV_MESSAGE), tail);
    SmallFields(s, x1, tail);
    FieldInverse(s.satellites, SATELLITE_MASK, x2);
    FieldInverse(s.signals, SIGNAL_MASK, x3);
    FlagFieldInverse(s.cellFlag, x4);
    CellsInverse(s, m, x5);
    SystemSteps([x0, x1, x2, x3, x4, x5, tail], s, if s.cellFlag then 1 else 0, m);
  }

  lemma {:induction false} FlagFieldInverse(b: bool, tail: string)
    ensures Field(Flag(b) + tail, 1) == Got(if b then 1 else 0, tail)
  {
    Take(Flag(b), tail);
    FlagInverse(b);
  }

  lemma {:induction false} SmallFields(s: SystemMask, x1: string, tail: string)
    requires FitsSystem(s)
    ensures Field(Write(s.gnssId, GNSS_ID) + x1, GNSS_ID) == Got(s.gnssId, x1)
    ensures Field(Write(s.nav, NAV_MESSAGE) + tail, NAV_MESSAGE) == Got(s.nav, tail)
  {
    SmallPowers();
    FieldInverse(s.gnssId, GNSS_ID, x1);
    FieldInverse(s.nav, NAV_MESSAGE, tail);
  }

  // ---- round trip, block by block --------------------------------------------------------------------

  // The store entry holds exactly this mask.
  ghost predicate Holds(slot: MaskSlot, systems: seq<SystemMask>, cells: seq<CellMask>) {
    && ValidSlot(slot) && slot.nsys == |systems| && slot.systems[..slot.nsys] == systems
    && slot.cells == cells && slot.nsat == Satellites(systems)
  }

  lemma {:induction false} MaskInverse(m: HasData, slot: MaskSlot, tail: string)
    requires FitsMask(m.systems, m.cells) && m.header.maskFlag && ValidSlot(slot)
    ensures var after := Store(slot, Items(m));
            && Holds(after, m.systems, m.cells)
            && NewMask(Blank(m.header), slot, EncodeMask(m) + tail)
               == Got(Reading(Masked(m), after, Satellites(m.systems), Satellites(m.systems) != 0), tail)
  {
    hide Store, Satellites, Holds, Concat, FitsSystem, FitsCells, Write, ValidSlot;
    var items := Items(m);
    var parts := SystemParts(m.systems, m.cells);
    var t2 := Write(0, MASK_RESERVED) + tail;
    var t1 := Concat(parts) + t2;
    var bits := EncodeMask(m) + tail;
    assert bits == Write(|m.systems|, NSYS) + t1;
    Take(Write(|m.systems|, NSYS), t1);
    CountOfSystems(|m.systems|);
    assert bits[NSYS..] == t1;
    SystemsInverse(m, t2);
    FieldInverse(0, MASK_RESERVED, tail);
    assert SystemsOf(items) == m.systems && CellsOf(items) == m.cells;
    StoreHolds(m, slot);
  }

  lemma {:induction false} CountOfSystems(n: nat)
    requires n < GNSS_IDS
    ensures Unsigned(Write(n, NSYS)) == n
  {
    SmallPowers();
    FieldRoundTrip(n, NSYS);
  }

  lemma {:induction false} SystemsInverse(m: HasData, tail: string)
    requires FitsMask(m.systems, m.cells)
    ensures Many(SystemParser(), 0, |m.systems|, Concat(SystemParts(m.systems, m.cells)) + tail) == Got(Items(m), tail)
  {
    var items := Items(m);
    var parts := SystemParts(m.systems, m.cells);
    forall k, t | 0 <= k < |items|
      ensures SystemParser()(0 + k, parts[k] + t) == Got(items[k], t)
    {
      SystemInverse(m.systems[k], m.cells[k], t);
    }
    ManyInverse(SystemParser(), 0, parts, items, tail);
  }

  function Items(m: HasData): (items: seq<MaskItem>)
    requires |m.systems| == |m.cells|
    ensures |items| == |m.systems|
  {
    seq(|m.systems|, i requires 0 <= i < |m.systems| => MaskItem(m.systems[i], m.cells[i]))
  }

  // The data of a message after its mask was read and before any correction was.
  function Masked(m: HasData): HasData {
    Blank(m.header).(nsys := |m.systems|, systems := m.systems, cells := m.cells)
  }

  lemma {:induction false} StoreHolds(m: HasData, slot: MaskSlot)
    requires FitsMask(m.systems, m.cells) && ValidSlot(slot)
    ensures Holds(Store(slot, Items(m)), m.systems, m.cells)
  {
    var items := Items(m);
    var after := Store(slot, items);
    assert SystemsOf(items) == m.systems && CellsOf(items) == m.cells;
    forall i | 0 <= i < GNSS_IDS
      ensures FitsSystem(after.systems[i])
    {
      if i < |items| {
        assert after.systems[i] == m.systems[i];
      } else {
        assert after.systems[i] == slot.systems[i];
      }
    }
    forall i | 0 <= i < |after.cells|
      ensures Rectangular(after.cells[i])
    {
      assert FitsCells(m.systems[i], m.cells[i]);
    }
    assert after.systems[..after.nsys] == m.systems;
  }

  lemma {:induction false} OrbitInverse(m: HasData, r: Reading, tail: string)
    requires WellFormed(m) && r.have && r.nsat == Satellites(m.systems)
    requires r.data == Masked(m)
    ensures OrbitStage(r, EncodeOrbits(m) + tail)
            == Got(r.(data := r.data.(orbitValidity := m.orbitValidity, orbit := m.orbit)), tail)
  {
    if m.header.orbitFlag {
      var t1 := Concat(OrbitParts(m.systems, m.orbit)) + tail;
      assert EncodeOrbits(m) + tail == Write(m.orbitValidity, VALIDITY) + t1;
      assert Pow2(VALIDITY) == 16;
      FieldInverse(m.orbitValidity, VALIDITY, t1);
      OrbitItemsInverse(m, tail);
      OrbitsKnown(m, |m.orbit|);
    } else {
      assert EncodeOrbits(m) + tail == tail;
    }
  }

  lemma {:induction false} OrbitItemsInverse(m: HasData, tail: string)
    requires WellFormed(m) && m.header.orbitFlag
    ensures Many(OrbitParser(m.systems), 0, Satellites(m.systems), Concat(OrbitParts(m.systems, m.orbit)) + tail)
            == Got(m.orbit, tail)
  {
    var parts := OrbitParts(m.systems, m.orbit);
    forall k, t | 0 <= k < |m.orbit|
      ensures OrbitParser(m.systems)(0 + k, parts[k] + t) == Got(m.orbit[k], t)
    {
      OrbitItemInverse(m, k, t);
    }
    ManyInverse(OrbitParser(m.systems), 0, parts, m.orbit, tail);
  }

  lemma {:induction false} OrbitsKnown(m: HasData, n: nat)
    requires m.header.orbitFlag && FitsOrbits(m) && n <= |m.orbit|
    ensures AllKnown(m.systems, n)
  {
    forall i: nat | i < n
      ensures Known(GnssIdOf(m.systems, i))
    {
      assert FitsOrbit(GnssIdOf(m.systems, i), m.orbit[i]);
    }
  }

  lemma {:induction false} OrbitItemInverse(m: HasData, k: nat, tail: string)
    requires m.header.orbitFlag && FitsOrbits(m) && k < |m.orbit|
    ensures ParseOrbit(m.systems, k, EncodeOrbit(GnssIdOf(m.systems, k), m.orbit[k]) + tail) == Got(m.orbit[k], tail)
  {
    var id, o := GnssIdOf(m.systems, k), m.orbit[k];
    assert FitsOrbit(id, o);
    OrbitsKnown(m, k + 1);
    var t3 := WriteSigned(o.crossTrack, CROSS_TRACK) + tail;
    var t2 := WriteSigned(o.inTrack, IN_TRACK) + t3;
    var t1 := WriteSigned(o.radial, RADIAL) + t2;
    assert EncodeOrbit(id, o) + tail == Write(o.iod, IodWidth(id)) + t1;
    FieldInverse(o.iod, IodWidth(id), t1);
    SignedFieldInverse(o.radial, RADIAL, t2);
    SignedFieldInverse(o.inTrack, IN_TRACK, t3);
    SignedFieldInverse(o.crossTrack, CROSS_TRACK, tail);
  }

  lemma {:induction false} ClockInverse(m: HasData, r: Reading, tail: string)
    requires WellFormed(m) && r.have && r.nsat == Satellites(m.systems)
    requires r.data.header == m.header && r.data.nsys == |m.systems|
    requires r.data.clockValidity == 0 && r.data.multipliers == [] && r.data.clock == []
    ensures ClockStage(r, EncodeClock(m) + tail)
            == Got(r.(data := r.data.(clockValidity := m.clockValidity, multipliers := m.multipliers,
                                      clock := m.clock)), tail)
  {
    if m.header.clockFlag {
      var t2 := Concat(ClockParts(m.clock)) + tail;
      var t1 := Concat(MultiplierParts(m.multipliers)) + t2;
      assert EncodeClock(m) + tail == Write(m.clockValidity, VALIDITY) + t1;
      assert Pow2(VALIDITY) == 16;
      FieldInverse(m.clockValidity, VALIDITY, t1);
      MultipliersInverse(m, t2);
      ClocksInverse(m, tail);
    } else {
      assert EncodeClock(m) + tail == tail;
    }
  }

  lemma {:induction false} MultipliersInverse(m: HasData, tail: string)
    requires WellFormed(m) && m.header.clockFlag
    ensures Many(MultiplierParser(), 0, |m.systems|, Concat(MultiplierParts(m.multipliers)) + tail)
            == Got(m.multipliers, tail)
  {
    var mults := MultiplierParts(m.multipliers);
    assert Pow2(MULTIPLIER) == 4;
    forall k, t | 0 <= k < |m.multipliers|
      ensures MultiplierParser()(0 + k, mults[k] + t) == Got(m.multipliers[k], t)
    {
      FieldInverse(m.multipliers[k] - 1, MULTIPLIER, t);
    }
    ManyInverse(MultiplierParser(), 0, mults, m.multipliers, tail);
  }

  lemma {:induction false} ClocksInverse(m: HasData, tail: string)
    requires WellFormed(m) && m.header.clockFlag
    ensures Many(ClockParser(), 0, Satellites(m.systems), Concat(ClockParts(m.clock)) + tail) == Got(m.clock, tail)
  {
    var clocks := ClockParts(m.clock);
    forall k, t | 0 <= k < |m.clock|
      ensures ClockParser()(0 + k, clocks[k] + t) == Got(m.clock[k], t)
    {
      SignedFieldInverse(m.clock[k], CLOCK, t);
    }
    ManyInverse(ClockParser(), 0, clocks, m.clock, tail);
  }

  // ---- biases --------------------------------------------------------------------------------------------

  // The bias blocks have one row for each satellite of the mask, so the row counter of the
  // nested loops ends at Nsat.
  lemma {:induction false} RowsPerSatellite(systems: seq<SystemMask>, k: nat, cells: seq<CellMask>)
    requires |systems| == |cells| && k <= |systems|
    requires forall i :: 0 <= i < |systems| ==> FitsCells(systems[i], cells[i])
    ensures BiasRows(systems, k, cells).Rows?
    ensures |BiasRows(systems, k, cells).active| == Satellites(systems[k..])
    ensures forall i :: 0 <= i < |BiasRows(systems, k, cells).active| ==>
                          |BiasRows(systems, k, cells).active[i]| <= BiasRows(systems, k, cells).width
    decreases |systems| - k
  {
    if k < |systems| {
      RowsPerSatellite(systems, k + 1, cells);
      assert systems[k..][1..] == systems[k + 1..];
      assert FitsCells(systems[k], cells[k]);
    }
  }

  // The rows of a mask, and which cells of them are sent.
  ghost predicate FitsAll(systems: seq<SystemMask>, cells: seq<CellMask>) {
    |systems| == |cells| && forall i :: 0 <= i < |systems| ==> FitsCells(systems[i], cells[i])
  }

  // Signal c of satellite j of a system: sent unless the cell mask says no.
  predicate SignalSent(s: SystemMask, cells: CellMask, j: nat, c: nat) {
    s.cellFlag ==> j < |cells| && c < |cells[j]| && cells[j][c]
  }

  // A row holds the signals of satellite j of a system.
  ghost predicate RowOf(row: seq<bool>, s: SystemMask, cells: CellMask, j: nat) {
    |row| == PopCount(s.signals) && forall c :: 0 <= c < |row| ==> row[c] == SignalSent(s, cells, j, c)
  }

  lemma {:induction false} SystemRowsOf(s: SystemMask, k: nat, cells: seq<CellMask>)
    requires k < |cells| && FitsCells(s, cells[k])
    ensures var r := SystemRows(s, k, cells);
            && r.Rows? && |r.active| == SatellitesOf(s) && r.width == PopCount(s.signals)
            && forall j :: 0 <= j < |r.active| ==> RowOf(r.active[j], s, cells[k], j)
  {
  }

  // The rows from system k on: where each satellite of each later system has its row.
  lemma {:induction false} RowPlaceFrom(systems: seq<SystemMask>, k: nat, cells: seq<CellMask>, sys: nat, j: nat)
    requires FitsAll(systems, cells) && k <= sys < |systems| && j < SatellitesOf(systems[sys])
    ensures var rows := BiasRows(systems, k, cells);
            var i := Satellites(systems[k..sys]) + j;
            rows.Rows? && i < |rows.active| && RowOf(rows.active[i], systems[sys], cells[sys], j)
    decreases sys - k
  {
    hide SystemRows, FitsCells, RowOf;
    SystemRowsOf(systems[k], k, cells);
    RowsPerSatellite(systems, k + 1, cells);
    if k < sys {
      RowPlaceFrom(systems, k + 1, cells, sys, j);
      assert systems[k..sys][0] == systems[k] && systems[k..sys][1..] == systems[k + 1..sys];
    }
  }

  // The place of every row of a bias matrix: the row of satellite j of a system is behind those of all
  // satellites of the systems before; it holds the signals of that system which its cell mask lets
  // through, or all of them without one; and the satellite is one of that system.
  lemma {:induction false} RowPlace(systems: seq<SystemMask>, cells: seq<CellMask>, sys: nat, j: nat)
    requires FitsAll(systems, cells) && sys < |systems| && j < SatellitesOf(systems[sys])
    ensures var rows := BiasRows(systems, 0, cells);
            var i := Satellites(systems[..sys]) + j;
            && rows.Rows? && i < |rows.active| == Satellites(systems)
            && |rows.active[i]| == PopCount(systems[sys].signals)
            && (forall c :: 0 <= c < |rows.active[i]| ==>
                  (rows.active[i][c] <==> !systems[sys].cellFlag || cells[sys][j][c]))
            && GnssIdOf(systems, i) == systems[sys].gnssId
  {
    RowPlaceFrom(systems, 0, cells, sys, j);
    assert systems[0..sys] == systems[..sys] && systems[0..] == systems;
    RowsPerSatellite(systems, 0, cells);
    GnssIdOwner(systems, sys, j);
    assert FitsCells(systems[sys], cells[sys]);
  }

  // The matrix is as wide as the system with the most signals.
  lemma {:induction false} WidthIsMost(systems: seq<SystemMask>, k: nat, cells: seq<CellMask>)
    requires FitsAll(systems, cells) && k < |systems|
    ensures var rows := BiasRows(systems, k, cells);
            && rows.Rows?
            && (forall i :: k <= i < |systems| ==> PopCount(systems[i].signals) <= rows.width)
            && (exists i :: k <= i < |systems| && PopCount(systems[i].signals) == rows.width)
    decreases |systems| - k
  {
    hide SystemRows, FitsCells, PopCount;
    SystemRowsOf(systems[k], k, cells);
    assert PopCount(systems[k].signals) == SystemRows(systems[k], k, cells).width;
    if k + 1 < |systems| {
      WidthIsMost(systems, k + 1, cells);
      var i :| k + 1 <= i < |systems|
               && PopCount(systems[i].signals) == BiasRows(systems, k + 1, cells).width;
    }
  }

  lemma {:induction false} BiasInverse(active: bool, phase: bool, cell: BiasCell, tail: string)
    requires FitsBias(active, phase, cell)
    ensures ParseBias(active, phase, EncodeBias(active, phase, cell) + tail) == Got(cell, tail)
  {
    if active {
      var t := (if phase then Write(cell.discontinuity, DISCONTINUITY) else "") + tail;
      assert EncodeBias(active, phase, cell) + tail == WriteSigned(cell.value, BIAS) + t;
      SignedFieldInverse(cell.value, BIAS, t);
      if phase {
        assert Pow2(DISCONTINUITY) == 4;
        FieldInverse(cell.discontinuity, DISCONTINUITY, tail);
      } else {
        assert t == tail;
      }
    } else {
      assert "" + tail == tail;
    }
  }

  lemma {:induction false} RowInverse(rows: Rows, nsat: nat, phase: bool, i: nat, row: seq<BiasCell>, tail: string)
    requires rows.Rows? && i < |rows.active| == nsat
    requires |rows.active[i]| <= |row| == rows.width && FitsRow(rows.active[i], phase, row)
    ensures ParseRow(rows, nsat, phase, i, Concat(RowParts(rows.active[i], phase, row)) + tail) == Got(row, tail)
  {
    var active := rows.active[i];
    var parts := RowParts(active, phase, row);
    forall k, t | 0 <= k < |active|
      ensures CellParser(active, phase)(0 + k, parts[k] + t) == Got(row[..|active|][k], t)
    {
      assert FitsBias(active[k], phase, row[k]);
      BiasInverse(active[k], phase, row[k], t);
    }
    ManyInverse(CellParser(active, phase), 0, parts, row[..|active|], tail);
    assert Padded(row[..|active|], rows.width) == row;
  }

  lemma {:induction false} MatrixInverse(rows: Rows, nsat: nat, phase: bool, biases: seq<seq<BiasCell>>, tail: string)
    requires ShapedMatrix(rows, biases) && |biases| == nsat
    requires forall i :: 0 <= i < nsat ==> FitsRow(rows.active[i], phase, biases[i])
    ensures Many(RowParser(rows, nsat, phase), 0, nsat, Concat(MatrixParts(rows, phase, biases)) + tail)
            == Got(biases, tail)
  {
    var parts := MatrixParts(rows, phase, biases);
    var p := RowParser(rows, nsat, phase);
    forall k, t | 0 <= k < nsat
      ensures p(0 + k, parts[k] + t) == Got(biases[k], t)
    {
      RowInverse(rows, nsat, phase, k, biases[k], t);
    }
    ManyInverse(p, 0, parts, biases, tail);
  }

  lemma {:induction false} BiasBlockInverse(m: HasData, validity: nat, phase: bool, biases: seq<seq<BiasCell>>,
                                            tail: string)
    requires FitsMask(m.systems, m.cells) && FitsBiases(true, validity, m, phase, biases)
    ensures ParseBiasBlock(m.systems, m.cells, Satellites(m.systems), phase,
                           EncodeBiases(true, validity, m, phase, biases) + tail)
            == Got(BiasBlock(validity, biases), tail)
  {
    var rows := BiasRows(m.systems, 0, m.cells);
    RowsPerSatellite(m.systems, 0, m.cells);
    assert m.systems[0..] == m.systems;
    var t1 := Concat(MatrixParts(rows, phase, biases)) + tail;
    assert EncodeBiases(true, validity, m, phase, biases) + tail == Write(validity, VALIDITY) + t1;
    assert Pow2(VALIDITY) == 16;
    FieldInverse(validity, VALIDITY, t1);
    MatrixInverse(rows, |biases|, phase, biases, tail);
    assert Matrix(biases, |biases|, rows.width) == biases;
  }

  // ---- the whole body ---------------------------------------------------------------------------------------

  lemma {:induction false} BodyStages(h: Header, slot: MaskSlot, bits: string, r1: Reading, b1: string, r2: Reading,
                                      b2: string,
                   r3: Reading, b3: string, r4: Reading, b4: string, r5: Reading, b5: string)
    requires ValidSlot(slot)
    requires MaskStage(Blank(h), slot, bits) == Got(r1, b1)
    requires OrbitStage(r1, b1) == Got(r2, b2)
    requires ClockStage(r2, b2) == Got(r3, b3) && !r3.data.header.subsetFlag
    requires CodeStage(r3, b3) == Got(r4, b4)
    requires PhaseStage(r4, b4) == Got(r5, b5)
    ensures Body(h, slot, bits) == Got(r5, b5)
  {
    CorrectionStages(r1, b1, r2, b2, r3, b3, r4, b4, r5, b5);
  }

  lemma {:induction false} CorrectionStages(r1: Reading, b1: string, r2: Reading, b2: string, r3: Reading, b3: string,
                                            r4: Reading, b4: string, r5: Reading, b5: string)
    requires OrbitStage(r1, b1) == Got(r2, b2) && ClockStage(r2, b2) == Got(r3, b3) && !r3.data.header.subsetFlag
    requires CodeStage(r3, b3) == Got(r4, b4) && PhaseStage(r4, b4) == Got(r5, b5)
    ensures Corrections(r1, b1) == Got(r5, b5)
  {
  }

  lemma {:induction false} RegroupBlocks(a: string, b: string, c: string, d: string, e: string, tail: string)
    ensures (a + (b + (c + (d + e)))) + tail == a + (b + (c + (d + (e + tail))))
  {
  }

  lemma {:induction false} MaskStageInverse(m: HasData, slot: MaskSlot, tail: string)
    requires WellFormed(m) && m.header.toh <= 3599 && ValidSlot(slot)
    requires !m.header.maskFlag ==> Holds(slot, m.systems, m.cells)
    ensures var after := if m.header.maskFlag then Store(slot, Items(m)) else slot;
            && Holds(after, m.systems, m.cells)
            && MaskStage(Blank(m.header), slot, EncodeMask(m) + tail)
               == Got(Reading(Masked(m), after, Satellites(m.systems), true), tail)
  {
    if m.header.maskFlag {
      MaskInverse(m, slot, tail);
    } else {
      assert EncodeMask(m) + tail == tail;
    }
  }

  lemma {:induction false} CodeStageInverse(m: HasData, r: Reading, tail: string)
    requires WellFormed(m) && r.have && r.nsat == Satellites(m.systems)
    requires r.data == m.(codeValidity := 0, codeBias := [], phaseValidity := 0, phaseBias := [])
    ensures CodeStage(r, EncodeBiases(m.header.codeFlag, m.codeValidity, m, false, m.codeBias) + tail)
            == Got(r.(data := m.(phaseValidity := 0, phaseBias := [])), tail)
  {
    if m.header.codeFlag {
      BiasBlockInverse(m, m.codeValidity, false, m.codeBias, tail);
    } else {
      assert "" + tail == tail;
    }
  }

  lemma {:induction false} PhaseStageInverse(m: HasData, r: Reading, tail: string)
    requires WellFormed(m) && r.have && r.nsat == Satellites(m.systems)
    requires r.data == m.(phaseValidity := 0, phaseBias := [])
    ensures PhaseStage(r, EncodeBiases(m.header.phaseFlag, m.phaseValidity, m, true, m.phaseBias) + tail)
            == Got(r.(data := m), tail)
  {
    if m.header.phaseFlag {
      BiasBlockInverse(m, m.phaseValidity, true, m.phaseBias, tail);
    } else {
      assert "" + tail == tail;
    }
  }

  // Parsing the encoding of a well-formed message returns that message and leaves exactly the
  // bits that follow it, whether the mask travels in the message or is the one already stored.
  lemma {:induction false} BodyInverse(m: HasData, slot: MaskSlot, tail: string)
    requires WellFormed(m) && m.header.toh <= 3599 && ValidSlot(slot)
    requires !m.header.maskFlag ==> Holds(slot, m.systems, m.cells)
    ensures var after := if m.header.maskFlag then Store(slot, Items(m)) else slot;
            && Holds(after, m.systems, m.cells)
            && Body(m.header, slot, EncodeBody(m) + tail) == Got(Reading(m, after, Satellites(m.systems), true), tail)
  {
    var nsat := Satellites(m.systems);
    var after := if m.header.maskFlag then Store(slot, Items(m)) else slot;
    var t4 := EncodeBiases(m.header.phaseFlag, m.phaseValidity, m, true, m.phaseBias) + tail;
    var t3 := EncodeBiases(m.header.codeFlag, m.codeValidity, m, false, m.codeBias) + t4;
    var t2 := EncodeClock(m) + t3;
    var t1 := EncodeOrbits(m) + t2;
    var bits := EncodeBody(m) + tail;
    RegroupBlocks(EncodeMask(m), EncodeOrbits(m), EncodeClock(m),
                  EncodeBiases(m.header.codeFlag, m.codeValidity, m, false, m.codeBias),
                  EncodeBiases(m.header.phaseFlag, m.phaseValidity, m, true, m.phaseBias), tail);
    var r1 := Reading(Masked(m), after, nsat, true);
    var r2 := r1.(data := r1.data.(orbitValidity := m.orbitValidity, orbit := m.orbit));
    var r3 := r2.(data := m.(codeValidity := 0, codeBias := [], phaseValidity := 0, phaseBias := []));
    var r4 := r3.(data := m.(phaseValidity := 0, phaseBias := []));
    MaskStageInverse(m, slot, t1);
    OrbitInverse(m, r1, t2);
    ClockInverse(m, r2, t3);
    CodeStageInverse(m, r3, t4);
    PhaseStageInverse(m, r4, tail);
    BodyStages(m.header, slot, bits, r1, t1, r2, t2, r3, t3, r4, t4, r4.(data := m), tail);
  }
}
