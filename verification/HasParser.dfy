// What read_MT1_header and read_MT1_body extract from a decoded message, as functions on bit
// strings. Parsing fails where the source would cut a message beyond its end or index outside
// one of its vectors.
module HasParser {
  import opened Arithmetic
  import opened HasBits
  import opened HasMessage

  datatype Parse<+T> = Got(value: T, rest: string) | Failed {
    predicate IsFailure() { Failed? }
    function PropagateFailure<U>(): Parse<U>
      requires Failed?
    {
      Failed
    }
    function Extract(): (T, string)
      requires Got?
    {
      (value, rest)
    }
  }

  type ItemParser<!T> = (nat, string) -> Parse<T>

  function Field(bits: string, width: nat): Parse<nat> {
    if |bits| < width then Failed else Got(Unsigned(bits[..width]), bits[width..])
  }

  function SignedField(bits: string, width: nat): Parse<int> {
    if |bits| < width then Failed else Got(Signed(bits[..width]), bits[width..])
  }

  // Items i, i + 1, ..., n - 1, one after the other.
  function Many<T>(p: ItemParser<T>, i: nat, n: nat, bits: string): Parse<seq<T>>
    decreases n - i
  {
    if i >= n then Got([], bits)
    else
      var (x, rest) :- p(i, bits);
      var (xs, rest') :- Many(p, i + 1, n, rest);
      Got([x] + xs, rest')
  }

  function Prepend<T>(done: seq<T>, p: Parse<seq<T>>): Parse<seq<T>> {
    match p
    case Failed => Failed
    case Got(xs, rest) => Got(done + xs, rest)
  }

  // ---- header (HAS SIS ICD 1.0, Table 13) ----------------------------------------------------

  // A header parameter given by its first bit (counted from 1) and its length.
  function Parameter(h: string, first: nat, length: nat): nat
    requires 1 <= first && first - 1 + length <= |h|
  {
    Unsigned(h[first - 1..first - 1 + length])
  }

  function ParseHeader(h: string): (r: Header)
    requires |h| == HEADER_BITS
    ensures r.maskId < MASK_IDS
  {
    UnsignedBound(h[22..27]);
    assert Pow2(5) == 32;
    Header(Parameter(h, 1, 12), Parameter(h, 13, 1) == 1, Parameter(h, 14, 1) == 1, Parameter(h, 15, 1) == 1,
           Parameter(h, 16, 1) == 1, Parameter(h, 17, 1) == 1, Parameter(h, 18, 1) == 1,
           Parameter(h, 19, 4), Parameter(h, 23, 5), Parameter(h, 28, 5))
  }

  // ---- mask (Tables 15 and 16) ----------------------------------------------------------------

  predicate BitAt(bits: string, k: nat) {
    k < |bits| && bits[k] == '1'
  }

  function CellsAt(bits: string, rows: nat, columns: nat): CellMask {
    seq(rows, s requires 0 <= s => seq(columns, g requires 0 <= g => BitAt(bits, s * columns + g)))
  }

  function ParseCells(flag: bool, bits: string, rows: nat, columns: nat): Parse<CellMask> {
    if !flag then Got(seq(rows, s => seq(columns, g => false)), bits)
    else if |bits| < rows * columns then Failed
    else Got(CellsAt(bits, rows, columns), bits[rows * columns..])
  }

  datatype MaskItem = MaskItem(system: SystemMask, cells: CellMask)

  function ParseSystem(bits: string): Parse<MaskItem> {
    var (gnssId, b1) :- Field(bits, GNSS_ID);
    var (satellites, b2) :- Field(b1, SATELLITE_MASK);
    var (signals, b3) :- Field(b2, SIGNAL_MASK);
    var (flag, b4) :- Field(b3, 1);
    var (cells, b5) :- ParseCells(flag == 1, b4, PopCount(satellites), PopCount(signals));
    var (nav, b6) :- Field(b5, NAV_MESSAGE);
    Got(MaskItem(SystemMask(gnssId, satellites, signals, flag == 1, nav), cells), b6)
  }

  function SystemParser(): ItemParser<MaskItem> {
    (i: nat, bits: string) => ParseSystem(bits)
  }

  function SystemsOf(items: seq<MaskItem>): (r: seq<SystemMask>)
    ensures |r| == |items|
  {
    seq(|items|, i requires 0 <= i < |items| => items[i].system)
  }

  function CellsOf(items: seq<MaskItem>): (r: seq<CellMask>)
    ensures |r| == |items|
  {
    seq(|items|, i requires 0 <= i < |items| => items[i].cells)
  }

  // The state of read_MT1_body between two blocks: the data so far, the store entry of the
  // header's mask ID, Nsat and have_mask.
  datatype Reading = Reading(data: HasData, slot: MaskSlot, nsat: nat, have: bool)

  // The first `width` bits, fewer when the message is shorter: message.substr(0, width).
  function Prefix(bits: string, width: nat): string {
    if |bits| < width then bits else bits[..width]
  }

  function Store(slot: MaskSlot, items: seq<MaskItem>): (r: MaskSlot)
    requires |items| <= |slot.systems|
  {
    MaskSlot(Satellites(SystemsOf(items)), |items|, SystemsOf(items) + slot.systems[|items|..], CellsOf(items))
  }

  function NewMask(data: HasData, slot: MaskSlot, bits: string): Parse<Reading>
    requires ValidSlot(slot)
  {
    var n := Unsigned(Prefix(bits, NSYS));
    if n == 0 then Got(Reading(data.(nsys := 0), slot.(nsys := 0), 0, false), bits)
    else if |bits| < NSYS then Failed
    else
      var (items, rest) :- Many(SystemParser(), 0, n, bits[NSYS..]);
      var (reserved, rest') :- Field(rest, MASK_RESERVED);
      ManyLength(SystemParser(), 0, n, bits[NSYS..]);
      UnsignedBound(bits[..NSYS]);
      assert Pow2(NSYS) == 16;
      var nsat := Satellites(SystemsOf(items));
      var read := data.(nsys := n, systems := SystemsOf(items), cells := CellsOf(items));
      Got(Reading(read, Store(slot, items), nsat, nsat != 0), rest')
  }

  function StoredMask(data: HasData, slot: MaskSlot): Reading
    requires ValidSlot(slot)
  {
    if slot.nsat == 0 then Reading(data, slot, 0, false)
    else Reading(data.(nsys := slot.nsys, systems := slot.systems[..slot.nsys], cells := slot.cells), slot, slot.nsat,
                 true)
  }

  // galileo_e6_has_msg_receiver.cc, lines 477-585: the mask in force, unless the time of hour is out of range.
  function MaskStage(data: HasData, slot: MaskSlot, bits: string): Parse<Reading>
    requires ValidSlot(slot)
  {
    var (r, rest) :- if data.header.maskFlag then NewMask(data, slot, bits) else Got(StoredMask(data, slot), bits);
    if data.header.toh > MAX_TOH then Got(r.(have := false, slot := r.slot.(nsat := 0)), rest) else Got(r, rest)
  }

  // ---- orbit corrections (Tables 25 and 26) ----------------------------------------------------

  function ParseOrbit(systems: seq<SystemMask>, i: nat, bits: string): Parse<Orbit> {
    var id := GnssIdOf(systems, i);
    var (iod, b1) :- if id == GPS then Field(bits, IOD_GPS)
                     else if id == GALILEO then Field(bits, IOD_GALILEO)
                     else Got(0, bits);
    if !AllKnown(systems, i + 1) then Got(Orbit(iod, 0, 0, 0), b1)
    else
      var (radial, b2) :- SignedField(b1, RADIAL);
      var (inTrack, b3) :- SignedField(b2, IN_TRACK);
      var (crossTrack, b4) :- SignedField(b3, CROSS_TRACK);
      Got(Orbit(iod, radial, inTrack, crossTrack), b4)
  }

  function OrbitParser(systems: seq<SystemMask>): ItemParser<Orbit> {
    (i: nat, bits: string) => ParseOrbit(systems, i, bits)
  }

  function OrbitStage(r: Reading, bits: string): Parse<Reading> {
    if !(r.data.header.orbitFlag && r.have) then Got(r, bits)
    else
      var (validity, b1) :- Field(bits, VALIDITY);
      var (orbit, b2) :- Many(OrbitParser(r.data.systems), 0, r.nsat, b1);
      Got(r.(data := r.data.(orbitValidity := validity, orbit := orbit), have := AllKnown(r.data.systems, r.nsat)), b2)
  }

  // ---- clock full-set corrections (Tables 28 and 31) -------------------------------------------

  function MultiplierParser(): ItemParser<nat> {
    (i: nat, bits: string) => match Field(bits, MULTIPLIER) case Failed => Failed case Got(v, rest) => Got(v + 1, rest)
  }

  function ClockParser(): ItemParser<int> {
    (i: nat, bits: string) => SignedField(bits, CLOCK)
  }

  function ClockStage(r: Reading, bits: string): Parse<Reading> {
    if !(r.data.header.clockFlag && r.have) then Got(r, bits)
    else
      var (validity, b1) :- Field(bits, VALIDITY);
      var (multipliers, b2) :- Many(MultiplierParser(), 0, r.data.nsys, b1);
      var (clock, b3) :- Many(ClockParser(), 0, r.nsat, b2);
      Got(r.(data := r.data.(clockValidity := validity, multipliers := multipliers, clock := clock)), b3)
  }

  // ---- code and phase biases (Tables 37 and 40) ------------------------------------------------

  datatype Rows = Rows(active: seq<seq<bool>>, width: nat) | NoRows

  // Which biases are sent for each satellite of system k.
  function SystemRows(s: SystemMask, k: nat, cells: seq<CellMask>): Rows {
    if !s.cellFlag then
      Rows(seq(SatellitesOf(s), i => seq(PopCount(s.signals), j => true)), PopCount(s.signals))
    else if k < |cells| && |cells[k]| > 0 then Rows(cells[k], |cells[k][0]|)
    else NoRows
  }

  // Which biases are sent for each satellite of systems k, k + 1, ..., and the widest row.
  function BiasRows(systems: seq<SystemMask>, k: nat, cells: seq<CellMask>): Rows
    decreases |systems| - k
  {
    if k >= |systems| then Rows([], 0)
    else
      match (SystemRows(systems[k], k, cells), BiasRows(systems, k + 1, cells))
      case (Rows(a, w), Rows(a', w')) => Rows(a + a', if w < w' then w' else w)
      case _ => NoRows
  }

  function CellParser(active: seq<bool>, phase: bool): ItemParser<BiasCell> {
    (c: nat, bits: string) => ParseBias(c < |active| && active[c], phase, bits)
  }

  function ParseBias(active: bool, phase: bool, bits: string): Parse<BiasCell> {
    if !active then Got(NO_BIAS, bits)
    else
      var (value, b1) :- SignedField(bits, BIAS);
      var (discontinuity, b2) :- if phase then Field(b1, DISCONTINUITY) else Got(0, b1);
      Got(BiasCell(value, discontinuity), b2)
  }

  function Padded(row: seq<BiasCell>, width: nat): (r: seq<BiasCell>)
    ensures |r| == if |row| < width then width else |row|
  {
    row + seq(if |row| < width then width - |row| else 0, i => NO_BIAS)
  }

  // The biases of satellite i. Past the last row of the matrix nothing can be stored.
  function ParseRow(rows: Rows, nsat: nat, phase: bool, i: nat, bits: string): Parse<seq<BiasCell>>
    requires rows.Rows?
  {
    if i >= |rows.active| || (i >= nsat && true in rows.active[i]) then Failed
    else
      var (row, rest) :- Many(CellParser(rows.active[i], phase), 0, |rows.active[i]|, bits);
      Got(Padded(row, rows.width), rest)
  }

  function RowParser(rows: Rows, nsat: nat, phase: bool): ItemParser<seq<BiasCell>>
    requires rows.Rows?
  {
    (i: nat, bits: string) => ParseRow(rows, nsat, phase, i, bits)
  }

  // The matrix with nsat rows, zero where nothing was read.
  function Matrix(parsed: seq<seq<BiasCell>>, nsat: nat, width: nat): seq<seq<BiasCell>> {
    seq(nsat, i requires 0 <= i => if i < |parsed| then parsed[i] else Padded([], width))
  }

  datatype BiasBlock = BiasBlock(validity: nat, biases: seq<seq<BiasCell>>)

  function ParseBiasBlock(systems: seq<SystemMask>, cells: seq<CellMask>, nsat: nat, phase: bool,
                          bits: string): Parse<BiasBlock> {
    var (validity, b1) :- Field(bits, VALIDITY);
    var rows := BiasRows(systems, 0, cells);
    if rows.NoRows? then Failed
    else
      var (parsed, b2) :- Many(RowParser(rows, nsat, phase), 0, |rows.active|, b1);
      Got(BiasBlock(validity, Matrix(parsed, nsat, rows.width)), b2)
  }

  function CodeStage(r: Reading, bits: string): Parse<Reading> {
    if !(r.data.header.codeFlag && r.have) then Got(r, bits)
    else
      var (block, rest) :- ParseBiasBlock(r.data.systems, r.data.cells, r.nsat, false, bits);
      Got(r.(data := r.data.(codeValidity := block.validity, codeBias := block.biases)), rest)
  }

  function PhaseStage(r: Reading, bits: string): Parse<Reading> {
    if !(r.data.header.phaseFlag && r.have) then Got(r, bits)
    else
      var (block, rest) :- ParseBiasBlock(r.data.systems, r.data.cells, r.nsat, true, bits);
      Got(r.(data := r.data.(phaseValidity := block.validity, phaseBias := block.biases)), rest)
  }

  // ---- the whole body (Table 17) ------------------------------------------------------------------

  function Corrections(r1: Reading, b1: string): Parse<Reading> {
    var (r2, b2) :- OrbitStage(r1, b1);
    var (r3, b3) :- ClockStage(r2, b2);
    if r3.data.header.subsetFlag && r3.have then Failed  // the clock subset block is not modelled
    else Biases(r3, b3)
  }

  function Biases(r3: Reading, b3: string): Parse<Reading> {
    var (r4, b4) :- CodeStage(r3, b3);
    PhaseStage(r4, b4)
  }

  function Body(header: Header, slot: MaskSlot, bits: string): Parse<Reading>
    requires ValidSlot(slot)
  {
    var (r1, b1) :- MaskStage(Blank(header), slot, bits);
    Corrections(r1, b1)
  }

  // ---- lemmas ---------------------------------------------------------------------------------------

  lemma {:induction false} ManyLength<T>(p: ItemParser<T>, i: nat, n: nat, bits: string)
    requires i <= n
    ensures Many(p, i, n, bits).Got? ==> |Many(p, i, n, bits).value| == n - i
    decreases n - i
  {
    if i < n && p(i, bits).Got? {
      ManyLength(p, i + 1, n, p(i, bits).rest);
    }
  }

  lemma {:induction false} ManyFits(i: nat, n: nat, bits: string)
    ensures var r := Many(SystemParser(), i, n, bits);
            r.Got? ==> AllFit(r.value)
    decreases n - i
  {
    if i < n {
      var first := SystemParser()(i, bits);
      if first.Got? {
        ParsedSystemFits(bits);
        ManyFits(i + 1, n, first.rest);
        var later := Many(SystemParser(), i + 1, n, first.rest);
        if later.Got? {
          FitsPrepended(first.value, later.value);
        }
      }
    }
  }

  ghost predicate AllFit(items: seq<MaskItem>) {
    forall k :: 0 <= k < |items| ==> FitsSystem(items[k].system) && Rectangular(items[k].cells)
  }

  lemma {:induction false} FitsPrepended(item: MaskItem, items: seq<MaskItem>)
    requires FitsSystem(item.system) && Rectangular(item.cells) && AllFit(items)
    ensures AllFit([item] + items)
  {
    forall k | 0 <= k < 1 + |items|
      ensures FitsSystem(([item] + items)[k].system) && Rectangular(([item] + items)[k].cells)
    {
      if k > 0 {
        assert ([item] + items)[k] == items[k - 1];
      }
    }
  }

  lemma {:induction false} FieldBound(bits: string, width: nat)
    ensures Field(bits, width).Got? ==> Field(bits, width).value < Pow2(width)
  {
    if |bits| >= width {
      UnsignedBound(bits[..width]);
    }
  }

  lemma {:induction false} ParsedSystemFits(bits: string)
    requires ParseSystem(bits).Got?
    ensures FitsSystem(ParseSystem(bits).value.system) && Rectangular(ParseSystem(bits).value.cells)
  {
    hide Field, ParseCells, Pow2, PopCount, Rectangular;
    var f1 := Field(bits, GNSS_ID);
    var f2 := Field(f1.rest, SATELLITE_MASK);
    var f3 := Field(f2.rest, SIGNAL_MASK);
    var f4 := Field(f3.rest, 1);
    var f5 := ParseCells(f4.value == 1, f4.rest, PopCount(f2.value), PopCount(f3.value));
    var f6 := Field(f5.rest, NAV_MESSAGE);
    assert ParseSystem(bits)
           == Got(MaskItem(SystemMask(f1.value, f2.value, f3.value, f4.value == 1, f6.value), f5.value), f6.rest);
    FieldBound(bits, GNSS_ID);
    FieldBound(f1.rest, SATELLITE_MASK);
    FieldBound(f2.rest, SIGNAL_MASK);
    FieldBound(f5.rest, NAV_MESSAGE);
    SmallPowers();
    CellsRectangular(f4.value == 1, f4.rest, PopCount(f2.value), PopCount(f3.value));
  }

  lemma {:induction false} CellsRectangular(flag: bool, bits: string, rows: nat, columns: nat)
    ensures var cells := ParseCells(flag, bits, rows, columns); cells.Got? ==> Rectangular(cells.value)
  {
  }

  lemma {:induction false} SmallPowers()
    ensures Pow2(NSYS) == Pow2(GNSS_ID) == 16 && Pow2(NAV_MESSAGE) == 8
  {
  }

  lemma {:induction false} StoreValid(slot: MaskSlot, items: seq<MaskItem>)
    requires ValidSlot(slot) && |items| < GNSS_IDS
    requires forall k :: 0 <= k < |items| ==> FitsSystem(items[k].system) && Rectangular(items[k].cells)
    ensures ValidSlot(Store(slot, items))
  {
    var r := Store(slot, items);
    forall i | 0 <= i < GNSS_IDS
      ensures FitsSystem(r.systems[i])
    {
      assert r.systems[i] == if i < |items| then items[i].system else slot.systems[i];
    }
  }

  // Whatever the bits, a body that can be read leaves a valid mask slot: the one its mask block left.
  lemma {:induction false} BodyKeepsSlot(header: Header, slot: MaskSlot, bits: string)
    requires ValidSlot(slot) && Body(header, slot, bits).Got?
    ensures ValidSlot(Body(header, slot, bits).value.slot)
    ensures Body(header, slot, bits).value.slot == MaskStage(Blank(header), slot, bits).value.slot
  {
    var p1 := MaskStage(Blank(header), slot, bits);
    CorrectionsKeepHeader(p1.value, p1.rest);
    MaskKeepsSlot(header, slot, bits);
  }

  lemma {:induction false} MaskKeepsSlot(header: Header, slot: MaskSlot, bits: string)
    requires ValidSlot(slot) && MaskStage(Blank(header), slot, bits).Got?
    ensures ValidSlot(MaskStage(Blank(header), slot, bits).value.slot)
  {
    var n := Unsigned(Prefix(bits, NSYS));
    if header.maskFlag && n != 0 {
      ManyFits(0, n, bits[NSYS..]);
      var items := Many(SystemParser(), 0, n, bits[NSYS..]).value;
      ManyLength(SystemParser(), 0, n, bits[NSYS..]);
      UnsignedBound(bits[..NSYS]);
      assert Pow2(NSYS) == 16;
      StoreValid(slot, items);
    }
  }

  // The mask in force is well shaped.
  lemma {:induction false} MaskStageFits(header: Header, slot: MaskSlot, bits: string)
    requires ValidSlot(slot) && MaskStage(Blank(header), slot, bits).Got?
    ensures var r := MaskStage(Blank(header), slot, bits).value;
            r.have ==> r.data.nsys == |r.data.systems|
                       && (forall k :: 0 <= k < |r.data.systems| ==> FitsSystem(r.data.systems[k]))
                       && (forall k :: 0 <= k < |r.data.cells| ==> Rectangular(r.data.cells[k]))
  {
    var n := Unsigned(Prefix(bits, NSYS));
    if header.maskFlag && n != 0 {
      ManyFits(0, n, bits[NSYS..]);
      ManyLength(SystemParser(), 0, n, bits[NSYS..]);
    }
  }

  lemma {:induction false} BiasRowsWidth(systems: seq<SystemMask>, k: nat, cells: seq<CellMask>)
    requires forall i :: 0 <= i < |cells| ==> Rectangular(cells[i])
    ensures var rows := BiasRows(systems, k, cells);
            rows.Rows? ==> forall i :: 0 <= i < |rows.active| ==> |rows.active[i]| <= rows.width
    decreases |systems| - k
  {
    if k < |systems| {
      BiasRowsWidth(systems, k + 1, cells);
    }
  }

  lemma {:induction false} MatrixStep(done: seq<seq<BiasCell>>, row: seq<BiasCell>, nsat: nat, width: nat)
    ensures Matrix(done + [row], nsat, width)
            == if |done| < nsat then Matrix(done, nsat, width)[|done| := row] else Matrix(done, nsat, width)
  {
  }

  lemma {:induction false} BiasesKeepHeader(r: Reading, bits: string)
    ensures Biases(r, bits).Got? ==>
              Biases(r, bits).value.data.header == r.data.header && Biases(r, bits).value.slot == r.slot
  {
  }

  lemma {:induction false} CorrectionsKeepHeader(r: Reading, bits: string)
    ensures Corrections(r, bits).Got? ==>
              Corrections(r, bits).value.data.header == r.data.header && Corrections(r, bits).value.slot == r.slot
  {
    var p2 := OrbitStage(r, bits);
    if p2.Got? {
      var p3 := ClockStage(p2.value, p2.rest);
      if p3.Got? {
        BiasesKeepHeader(p3.value, p3.rest);
      }
    }
  }

  lemma {:induction false} BodyKeepsHeader(header: Header, slot: MaskSlot, bits: string)
    requires ValidSlot(slot)
    ensures Body(header, slot, bits).Got? ==> Body(header, slot, bits).value.data.header == header
  {
    var p1 := MaskStage(Blank(header), slot, bits);
    if p1.Got? {
      CorrectionsKeepHeader(p1.value, p1.rest);
    }
  }

  // ---- satellites of other systems ------------------------------------------------------------------

  // A satellite that belongs to neither GPS, 0, nor Galileo, 2.
  predicate Unknown(systems: seq<SystemMask>, i: nat) {
    GnssIdOf(systems, i) != 0 && GnssIdOf(systems, i) != 2
  }

  // Nothing is read for it, and of the known ones behind it only the issue of data.
  lemma {:induction false} OrbitBehindUnknown(systems: seq<SystemMask>, u: nat, i: nat, bits: string)
    requires u <= i && Unknown(systems, u)
    ensures var width := if GnssIdOf(systems, i) == 0 then 8 else if GnssIdOf(systems, i) == 2 then 10 else 0;
            ParseOrbit(systems, i, bits)
            == if |bits| < width then Failed else Got(Orbit(Unsigned(bits[..width]), 0, 0, 0), bits[width..])
  {
    assert !Known(GnssIdOf(systems, u));
    assert bits[..0] == "" && bits[0..] == bits;
  }

  // Every item that is read comes from its own turn of the loop.
  lemma {:induction false} ManyItem<T>(p: ItemParser<T>, i: nat, n: nat, bits: string, k: nat) returns (at: string)
    requires i <= k < n && Many(p, i, n, bits).Got?
    ensures |Many(p, i, n, bits).value| == n - i
    ensures p(k, at).Got? && p(k, at).value == Many(p, i, n, bits).value[k - i]
    decreases n - i
  {
    ManyLength(p, i, n, bits);
    if k == i {
      at := bits;
    } else {
      at := ManyItem(p, i + 1, n, p(i, bits).rest, k);
    }
  }

  // With a satellite of another system in the mask, the orbit block has no corrections from that
  // satellite on, and no block behind it is read.
  lemma {:induction false} UnknownStops(r: Reading, bits: string, u: nat)
    requires r.have && r.data.header.orbitFlag && u < r.nsat && Unknown(r.data.systems, u)
    ensures Corrections(r, bits) == OrbitStage(r, bits)
    ensures var s := OrbitStage(r, bits);
            s.Got? ==>
              && !s.value.have && |s.value.data.orbit| == r.nsat
              && forall i :: u <= i < r.nsat ==>
                   var o := s.value.data.orbit[i];
                   o.radial == o.inTrack == o.crossTrack == 0 && (Unknown(r.data.systems, i) ==> o.iod == 0)
  {
    var s := OrbitStage(r, bits);
    assert !Known(GnssIdOf(r.data.systems, u));
    if s.Got? {
      var p, b1 := OrbitParser(r.data.systems), Field(bits, VALIDITY).rest;
      ManyLength(p, 0, r.nsat, b1);
      forall i | u <= i < r.nsat
        ensures var o := s.value.data.orbit[i];
                o.radial == o.inTrack == o.crossTrack == 0 && (Unknown(r.data.systems, i) ==> o.iod == 0)
      {
        var at := ManyItem(p, 0, r.nsat, b1, i);
        OrbitBehindUnknown(r.data.systems, u, i, at);
      }
    }
  }
}
