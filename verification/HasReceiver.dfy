// class galileo_e6_has_msg_receiver: the message handler, the page store and the reader of
// decoded messages. Every method is tied to the functions of HasPages and HasParser.
module HasReceiver {
  import opened Options
  import opened Arithmetic
  import opened HasBits
  import opened HasMessage
  import opened HasParser
  import opened HasPages

  // ---- reading a field and cutting it off the message ---------------------------------------------

  // value = read_has_message_body_uint*(message.substr(0, width)), then the cut, which fails on a
  // message that is too short.
  method TakeUint(message: string, width: nat, register: nat) returns (value: nat, ok: bool, rest: string)
    requires 0 < width <= register
    ensures value == Unsigned(Prefix(message, width)) < Pow2(width)
    ensures Field(message, width) == if ok then Got(value, rest) else Failed
  {
    var bits := Prefix(message, width);
    value := ReadUint(bits, register);
    UnsignedBound(bits);
    Pow2Monotone(|bits|, width);
    Pow2Monotone(width, register);
    DivModUnique(Unsigned(bits), Pow2(register), 0, Unsigned(bits));
    ok := |message| >= width;
    rest := if ok then message[width..] else "";
  }

  method TakeInt16(message: string, width: nat) returns (value: int, ok: bool, rest: string)
    requires 1 <= width <= 16
    ensures SignedField(message, width) == if ok then Got(value, rest) else Failed
  {
    value := ReadInt16(Prefix(message, width));
    ok := |message| >= width;
    rest := if ok then message[width..] else "";
  }

  method ReadCellMask(message: string, rows: nat, columns: nat) returns (m: CellMask, ok: bool, rest: string)
    ensures ParseCells(true, message, rows, columns) == if ok then Got(m, rest) else Failed
    ensures Rectangular(m)
  {
    m := seq(rows, s => seq(columns, g => false));
    ghost var cells := CellsAt(message, rows, columns);
    for s := 0 to rows
      invariant |m| == rows
      invariant forall r :: 0 <= r < s ==> m[r] == cells[r]
      invariant forall r :: s <= r < rows ==> |m[r]| == columns
    {
      for g := 0 to columns
        invariant |m| == rows && |m[s]| == columns
        invariant forall r :: 0 <= r < s ==> m[r] == cells[r]
        invariant forall r :: s <= r < rows ==> |m[r]| == columns
        invariant forall h :: 0 <= h < g ==> m[s][h] == cells[s][h]
      {
        m := m[s := m[s][g := BitAt(message, s * columns + g)]];
      }
      assert m[s] == cells[s];
    }
    assert m == cells;
    ok := |message| >= rows * columns;
    rest := if ok then message[rows * columns..] else "";
  }

  class HasReceiver {
    var receivedPids: seq<seq<nat>>
    var receivedTimestamps: seq<seq<nat>>
    var cMatrix: seq<seq<Row>>
    var printedMids: seq<bool>
    var printedTimestamps: seq<nat>
    var masks: seq<MaskSlot>
    var data: HasData
    var newMessage: bool
    var published: seq<Publication>  // messages sent through E6_HAS_to_PVT
    const rs: Decoder

    function Snapshot(): State
      reads this
    {
      State(receivedPids, receivedTimestamps, cMatrix, printedMids, printedTimestamps, masks, data, newMessage,
            published)
    }

    ghost predicate Valid()
      reads this
    {
      Shaped(Snapshot())
    }

    constructor (rs: Decoder)
      ensures Valid() && Snapshot() == Initial() && this.rs == rs
    {
      this.rs := rs;
      receivedPids := seq(MESSAGE_IDS, i => []);
      receivedTimestamps := seq(MESSAGE_IDS, i => []);
      cMatrix := seq(MESSAGE_IDS, i => ZeroRows());
      printedMids := seq(MESSAGE_IDS, i => false);
      printedTimestamps := seq(MESSAGE_IDS, i => NEVER);
      masks := seq(MASK_IDS, i => InitialSlot());
      data := Blank(Header(0, false, false, false, false, false, false, 0, 0, 0));
      newMessage := false;
      published := [];
      new;
      assert Snapshot().pids == Initial().pids && Snapshot().times == Initial().times
             && Snapshot().rows == Initial().rows;
      assert Snapshot().printed == Initial().printed && Snapshot().printedAt == Initial().printedAt;
      assert Snapshot().masks == Initial().masks;
    }

    // ---- message header ---------------------------------------------------------------------------

    // read_has_message_header_parameter_*: bit 32 - first - j of the bitset is character
    // first - 1 + j of the header string.
    static method HeaderParameter(h: string, first: nat, length: nat) returns (value: nat)
      requires 1 <= first && first - 1 + length <= |h|
      ensures value == Parameter(h, first, length)
    {
      value := 0;
      ghost var text := h[first - 1..first - 1 + length];
      for j := 0 to length
        invariant value == Unsigned(text[..j])
      {
        assert text[..j + 1][..j] == text[..j];
        value := 2 * value;
        if h[first - 1 + j] == '1' {
          value := value + 1;
        }
      }
      assert text[..length] == text;
    }

    method ReadMt1Header(h: string)
      requires |h| == HEADER_BITS
      modifies this`data
      ensures data == old(data).(header := ParseHeader(h))
    {
      var toh := HeaderParameter(h, 1, 12);
      var mask := HeaderParameter(h, 13, 1);
      var orbit := HeaderParameter(h, 14, 1);
      var clock := HeaderParameter(h, 15, 1);
      var subset := HeaderParameter(h, 16, 1);
      var code := HeaderParameter(h, 17, 1);
      var phase := HeaderParameter(h, 18, 1);
      var reserved := HeaderParameter(h, 19, 4);
      var maskId := HeaderParameter(h, 23, 5);
      var iodSet := HeaderParameter(h, 28, 5);
      data := data.(header := Header(toh, mask == 1, orbit == 1, clock == 1, subset == 1, code == 1, phase == 1,
                                     reserved, maskId, iodSet));
    }

    // ---- mask ----------------------------------------------------------------------------------------

    ghost predicate ValidMasks()
      reads this
    {
      |masks| == MASK_IDS && forall i :: 0 <= i < MASK_IDS ==> ValidSlot(masks[i])
    }

    // Only the slot of mask ID `id` may have changed.
    twostate predicate OnlySlot(id: nat)
      requires id < MASK_IDS && |old(masks)| == MASK_IDS
      reads this
    {
      |masks| == MASK_IDS && masks == old(masks)[id := masks[id]]
    }

    // Lines 494-541: the fields of one system, written over those of `s` one after the other.
    static method ReadSystem(message: string, previous: SystemMask)
      returns (ok: bool, rest: string, s: SystemMask, cells: CellMask)
      requires FitsSystem(previous)
      ensures FitsSystem(s) && Rectangular(cells)
      ensures ParseSystem(message) == if ok then Got(MaskItem(s, cells), rest) else Failed
    {
      SmallPowers();
      hide Field, PopCount, CountOnes, Unsigned, Pow2;
      s, cells, rest := previous, [], message;
      var value, b1;
      value, ok, b1 := TakeUint(message, GNSS_ID, 8);
      s := s.(gnssId := value);
      if !ok { return; }
      var b2;
      value, ok, b2 := TakeUint(b1, SATELLITE_MASK, 64);
      s := s.(satellites := value);
      var onesInSatelliteMask := CountOnesIn(Prefix(b1, SATELLITE_MASK));
      PopCountOfUnsigned(Prefix(b1, SATELLITE_MASK));
      if !ok { return; }
      var b3;
      value, ok, b3 := TakeUint(b2, SIGNAL_MASK, 16);
      s := s.(signals := value);
      var onesInSignalMask := CountOnesIn(Prefix(b2, SIGNAL_MASK));
      PopCountOfUnsigned(Prefix(b2, SIGNAL_MASK));
      if !ok { return; }
      var b4;
      value, ok, b4 := TakeUint(b3, 1, 8);
      s := s.(cellFlag := value == 1);
      if !ok { return; }
      cells := seq(onesInSatelliteMask, r => seq(onesInSignalMask, g => false));
      var b5 := b4;
      if s.cellFlag {
        cells, ok, b5 := ReadCellMask(b4, onesInSatelliteMask, onesInSignalMask);
        if !ok { return; }
      }
      value, ok, rest := TakeUint(b5, NAV_MESSAGE, 8);
      s := s.(nav := value);
    }

    // Lines 492-542: the systems of a mask, stored both in the data and under the mask ID.
    method ReadMaskSystems(message: string, id: nat)
      returns (ok: bool, rest: string, nsat: nat, ghost items: seq<MaskItem>)
      requires ValidMasks() && id < MASK_IDS && |data.systems| == |data.cells| < GNSS_IDS
      modifies this`data, this`masks
      ensures ValidMasks() && OnlySlot(id)
      ensures Many(SystemParser(), 0, |old(data.systems)|, message) == if ok then Got(items, rest) else Failed
      ensures ok ==> data == old(data).(systems := SystemsOf(items), cells := CellsOf(items))
      ensures ok ==> |items| == |old(data.systems)|
      ensures ok ==> Written(data.systems, data.cells, masks[id], old(masks[id]), items, nsat)
    {
      hide Many, Prepend, ParseSystem, SystemsOf, CellsOf, Satellites;
      ghost var masks0, slot0, data0, p := masks, masks[id], data, SystemParser();
      var nsys := |data.systems|;
      var slot := masks[id];
      ok, rest, nsat, items := true, message, 0, [];
      ManyStart(p, nsys, message);
      WrittenNone(data.systems, data.cells, slot);
      for i := 0 to nsys
        invariant ok && |items| == i && |data.systems| == nsys
        invariant masks == masks0[id := slot]
        invariant data == data0.(systems := data.systems, cells := data.cells)
        invariant Written(data.systems, data.cells, slot, slot0, items, nsat)
        invariant Many(p, 0, nsys, message) == Prepend(items, Many(p, i, nsys, rest))
      {
        var s, cells;
        ManyNext(p, items, i, nsys, rest);
        ok, rest, s, cells := ReadSystem(rest, slot.systems[i]);
        WrittenStep(data.systems, data.cells, slot, slot0, items, nsat, MaskItem(s, cells));
        slot := slot.(systems := slot.systems[i := s]);
        masks := masks[id := slot];
        if !ok { return; }
        data := data.(systems := data.systems[i := s], cells := data.cells[i := cells]);
        nsat := nsat + SatellitesIn(s);
        items := items + [MaskItem(s, cells)];
      }
      ManyEnd(p, items, nsys, rest);
      WrittenAll(data.systems, data.cells, slot, slot0, items, nsat);
    }

    // Lines 479-550.
    method ReadMask(message: string) returns (ok: bool, rest: string, nsat: nat, have: bool)
      requires ValidMasks() && data.header.maskId < MASK_IDS
      modifies this`data, this`masks
      ensures ValidMasks() && OnlySlot(old(data).header.maskId)
      ensures match NewMask(old(data), old(masks[data.header.maskId]), message)
              case Failed => !ok
              case Got(r, b) => ok && Reading(data, masks[old(data).header.maskId], nsat, have) == r && rest == b
    {
      hide Satellites, Unsigned, Pow2, Many, FitsSystem;
      var id := data.header.maskId;
      ghost var slot0 := masks[id];
      nsat, have := 0, false;
      var nsys;
      nsys, ok, rest := TakeUint(message, NSYS, 8);
      SmallPowers();
      data := data.(nsys := nsys);
      masks := masks[id := masks[id].(nsys := nsys)];
      if nsys == 0 { return true, message, 0, false; }
      if !ok { return; }
      data := data.(systems := seq(nsys, k => SystemMask(0, 0, 0, false, 0)),
                    cells := seq(nsys, k => seq(SATELLITE_MASK, s => seq(SIGNAL_MASK, g => false))));
      ghost var items;
      ghost var b := rest;
      ok, rest, nsat, items := ReadMaskSystems(rest, id);
      if !ok { return; }
      ManyFits(0, nsys, b);
      StoreValid(slot0, items);
      masks := masks[id := masks[id].(nsat := nsat, cells := data.cells)];
      assert masks[id] == Store(slot0, items);
      ok := |rest| >= MASK_RESERVED;
      rest := if ok then rest[MASK_RESERVED..] else "";
      have := nsat != 0;
    }

    static function SatellitesIn(s: SystemMask): nat {
      SatellitesOf(s)
    }

    // Lines 477-585.
    method ReadOrRecallMask(message: string) returns (ok: bool, rest: string, nsat: nat, have: bool)
      requires ValidMasks() && data.header.maskId < MASK_IDS && data == Blank(data.header)
      modifies this`data, this`masks
      ensures ValidMasks() && OnlySlot(old(data).header.maskId)
      ensures match MaskStage(old(data), old(masks[data.header.maskId]), message)
              case Failed => !ok
              case Got(r, b) => ok && Reading(data, masks[old(data).header.maskId], nsat, have) == r && rest == b
    {
      var id := data.header.maskId;
      if data.header.maskFlag {
        ok, rest, nsat, have := ReadMask(message);
        if !ok { return; }
      } else {
        ok, rest, have := true, message, false;
        nsat := masks[id].nsat;
        if nsat != 0 {
          var slot := masks[id];
          data := data.(nsys := slot.nsys, systems := slot.systems[..slot.nsys], cells := slot.cells);
          have := true;
        }
      }
      if data.header.toh > MAX_TOH {
        have := false;
        masks := masks[id := masks[id].(nsat := 0)];
      }
    }

    // ---- corrections ----------------------------------------------------------------------------------

    // Galileo_HAS_data::get_gnss_id, counting the PRNs of each satellite mask.
    method GetGnssId(nsat: nat) returns (id: nat)
      requires data.nsys == |data.systems| && forall k :: 0 <= k < |data.systems| ==> FitsSystem(data.systems[k])
      ensures id == GnssIdOf(data.systems, nsat)
    {
      var numberSats := 0;
      for i := 0 to data.nsys
        invariant numberSats <= nsat
        invariant GnssIdOf(data.systems, nsat) == GnssIdOf(data.systems[i..], nsat - numberSats)
      {
        var prns := CountOnesIn(Write(data.systems[i].satellites, SATELLITE_MASK));
        PopCountOfWrite(data.systems[i].satellites, SATELLITE_MASK);
        assert data.systems[i..][1..] == data.systems[i + 1..];
        numberSats := numberSats + prns;
        if nsat < numberSats {
          return data.systems[i].gnssId;
        }
      }
      return WRONG_SYSTEM;
    }

    ghost predicate ValidMask()
      reads this
    {
      data.nsys == |data.systems| && forall k :: 0 <= k < |data.systems| ==> FitsSystem(data.systems[k])
    }

    // Lines 596-631.
    method ReadOrbitItem(message: string, i: nat, have0: bool) returns (ok: bool, rest: string, have: bool, o: Orbit)
      requires ValidMask() && have0 == AllKnown(data.systems, i)
      ensures ParseOrbit(data.systems, i, message) == if ok then Got(o, rest) else Failed
      ensures have == AllKnown(data.systems, i + 1)
    {
      o, ok, rest, have := Orbit(0, 0, 0, 0), true, message, have0;
      var id := GetGnssId(i);
      if id == GPS {
        var iod;
        iod, ok, rest := TakeUint(message, IOD_GPS, 16);
        o := o.(iod := iod);
      } else if id == GALILEO {
        var iod;
        iod, ok, rest := TakeUint(message, IOD_GALILEO, 16);
        o := o.(iod := iod);
      } else {
        have := false;
      }
      if ok && have {
        var radial, inTrack, crossTrack;
        radial, ok, rest := TakeInt16(rest, RADIAL);
        o := o.(radial := radial);
        if !ok { return; }
        inTrack, ok, rest := TakeInt16(rest, IN_TRACK);
        o := o.(inTrack := inTrack);
        if !ok { return; }
        crossTrack, ok, rest := TakeInt16(rest, CROSS_TRACK);
        o := o.(crossTrack := crossTrack);
      }
    }

    // Lines 587-637.
    method ReadOrbits(message: string, nsat: nat, have0: bool, ghost slot: MaskSlot)
      returns (ok: bool, rest: string, have: bool)
      requires have0 ==> ValidMask()
      modifies this`data
      ensures OrbitStage(Reading(old(data), slot, nsat, have0), message)
              == if ok then Got(Reading(data, slot, nsat, have), rest) else Failed
    {
      hide Many, AllKnown, FitsSystem;
      ok, rest, have := true, message, have0;
      if !(data.header.orbitFlag && have) { return; }
      var validity;
      validity, ok, rest := TakeUint(message, VALIDITY, 8);
      data := data.(orbitValidity := validity);
      if !ok { return; }
      data := data.(orbit := seq(nsat, k => Orbit(0, 0, 0, 0)));
      ok, rest, have := ReadOrbitItems(rest, nsat);
    }

    method ReadOrbitItems(message: string, nsat: nat) returns (ok: bool, rest: string, have: bool)
      requires ValidMask() && |data.orbit| == nsat
      modifies this`data
      ensures data == old(data).(orbit := data.orbit)
      ensures Many(OrbitParser(old(data.systems)), 0, nsat, message) == if ok then Got(data.orbit, rest) else Failed
      ensures ok ==> have == AllKnown(old(data.systems), nsat)
    {
      assert AllKnown(data.systems, 0);
      hide Many, Prepend, AllKnown, FitsSystem;
      ghost var data0, p := data, OrbitParser(data.systems);
      ok, rest, have := true, message, true;
      ManyStart(p, nsat, message);
      for i := 0 to nsat
        invariant ok && |data.orbit| == nsat
        invariant data == data0.(orbit := data.orbit)
        invariant have == AllKnown(data.systems, i)
        invariant Many(p, 0, nsat, message) == Prepend(data.orbit[..i], Many(p, i, nsat, rest))
      {
        ManyNext(p, data.orbit[..i], i, nsat, rest);
        var o;
        ok, rest, have, o := ReadOrbitItem(rest, i, have);
        if !ok { return; }
        WriteNext(data.orbit, i, o);
        data := data.(orbit := data.orbit[i := o]);
      }
      ManyEnd(p, data.orbit[..nsat], nsat, rest);
      assert data.orbit[..nsat] == data.orbit;
    }

    // Lines 639-661.
    method ReadClock(message: string, nsat: nat, have: bool, ghost slot: MaskSlot) returns (ok: bool, rest: string)
      modifies this`data
      ensures ClockStage(Reading(old(data), slot, nsat, have), message)
              == if ok then Got(Reading(data, slot, nsat, have), rest) else Failed
    {
      ok, rest := true, message;
      if !(data.header.clockFlag && have) { return; }
      var validity;
      validity, ok, rest := TakeUint(message, VALIDITY, 8);
      data := data.(clockValidity := validity);
      if !ok { return; }
      var multipliers, clock;
      ok, rest, multipliers := ReadMultipliers(rest, data.nsys);
      data := data.(multipliers := multipliers);
      if !ok { return; }
      ok, rest, clock := ReadClockCorrections(rest, nsat);
      data := data.(clock := clock);
    }

    static method ReadMultipliers(message: string, n: nat) returns (ok: bool, rest: string, multipliers: seq<nat>)
      ensures Many(MultiplierParser(), 0, n, message) == if ok then Got(multipliers, rest) else Failed
    {
      hide Many, Prepend, Unsigned, Pow2;
      ok, rest, multipliers := true, message, [];
      ghost var p := MultiplierParser();
      ManyStart(p, n, message);
      for i := 0 to n
        invariant ok && |multipliers| == i
        invariant Many(p, 0, n, message) == Prepend(multipliers, Many(p, i, n, rest))
      {
        ManyNext(p, multipliers, i, n, rest);
        var value;
        value, ok, rest := TakeUint(rest, MULTIPLIER, 8);
        multipliers := multipliers + [value + 1];
        if !ok { return; }
      }
      ManyEnd(p, multipliers, n, rest);
    }

    static method ReadClockCorrections(message: string, n: nat) returns (ok: bool, rest: string, clock: seq<int>)
      ensures Many(ClockParser(), 0, n, message) == if ok then Got(clock, rest) else Failed
    {
      hide Many, Prepend, Signed, Pow2;
      ok, rest, clock := true, message, [];
      ghost var p := ClockParser();
      ManyStart(p, n, message);
      for i := 0 to n
        invariant ok && |clock| == i
        invariant Many(p, 0, n, message) == Prepend(clock, Many(p, i, n, rest))
      {
        ManyNext(p, clock, i, n, rest);
        var value;
        value, ok, rest := TakeInt16(rest, CLOCK);
        clock := clock + [value];
        if !ok { return; }
      }
      ManyEnd(p, clock, n, rest);
    }

    // ---- biases -------------------------------------------------------------------------------------------

    // Lines 746-787: satellites and signals of each system, and the widest system.
    method CountBiases() returns (ok: bool, numberSats: seq<nat>, numberCodes: seq<nat>, maxSignals: nat)
      requires ValidMask()
      ensures var rows := BiasRows(data.systems, 0, data.cells);
              ok == rows.Rows? && (ok ==> maxSignals == rows.width)
      ensures ok ==> |numberSats| == |numberCodes| == data.nsys
      ensures ok ==> forall k :: 0 <= k < data.nsys ==>
                var r := SystemRows(data.systems[k], k, data.cells);
                r.Rows? && numberSats[k] == |r.active| && numberCodes[k] == r.width
    {
      ok, numberSats, numberCodes, maxSignals := true, [], [], 0;
      hide PopCount, SystemRows, FitsSystem;
      ghost var all := BiasRows(data.systems, 0, data.cells);
      for k := 0 to data.nsys
        invariant ok && |numberSats| == |numberCodes| == k
        invariant forall j :: 0 <= j < k ==>
                    var r := SystemRows(data.systems[j], j, data.cells);
                    r.Rows? && numberSats[j] == |r.active| && numberCodes[j] == r.width
        invariant all.Rows? == BiasRows(data.systems, k, data.cells).Rows?
        invariant all.Rows? ==> var w := BiasRows(data.systems, k, data.cells).width;
                                all.width == if maxSignals < w then w else maxSignals
      {
        var sats, codes;
        SystemSizes(data.systems[k], k, data.cells);
        if data.systems[k].cellFlag {
          if k >= |data.cells| || |data.cells[k]| == 0 { return false, numberSats, numberCodes, 0; }
          sats := |data.cells[k]|;
          codes := |data.cells[k][0]|;
        } else {
          sats := CountBits(data.systems[k].satellites);
          codes := CountBits(data.systems[k].signals);
        }
        numberSats := numberSats + [sats];
        numberCodes := numberCodes + [codes];
        if codes > maxSignals {
          maxSignals := codes;
        }
      }
    }

    // Lines 796-803 and 868-878: the biases of one satellite, into row `sat` of the matrix.
    static method ReadBiasRow(message: string, active: seq<bool>, phase: bool, sat: nat, biases0: seq<seq<BiasCell>>,
                              width: nat)
      returns (ok: bool, rest: string, biases: seq<seq<BiasCell>>, ghost row: seq<BiasCell>)
      requires |active| <= width
      requires sat < |biases0| ==> biases0[sat] == Padded([], width)
      ensures Many(CellParser(active, phase), 0, |active|, message).Failed? ==> !ok
      ensures sat >= |biases0| && true in active ==> !ok
      ensures !ok ==>
                Many(CellParser(active, phase), 0, |active|, message).Failed? || (sat >= |biases0| && true in active)
      ensures ok ==> Many(CellParser(active, phase), 0, |active|, message) == Got(row, rest)
      ensures ok ==> biases == if sat < |biases0| then biases0[sat := Padded(row, width)] else biases0
    {
      hide Many, Prepend, Padded, SignedField, Field;
      ok, rest, biases, row := true, message, biases0, [];
      ghost var p := CellParser(active, phase);
      ManyStart(p, |active|, message);
      for c := 0 to |active|
        invariant ok && |row| == c
        invariant Many(p, 0, |active|, message) == Prepend(row, Many(p, c, |active|, rest))
        invariant biases == if sat < |biases0| then biases0[sat := Padded(row, width)] else biases0
        invariant sat >= |biases0| ==> true !in active[..c]
      {
        ManyNext(p, row, c, |active|, rest);
        var cell := NO_BIAS;
        if active[c] {
          if sat >= |biases| { return false, "", biases, row; }
          var value, discontinuity := 0, 0;
          value, ok, rest := TakeInt16(rest, BIAS);
          if !ok { return; }
          if phase {
            discontinuity, ok, rest := TakeUint(rest, DISCONTINUITY, 8);
            if !ok { return; }
          }
          cell := BiasCell(value, discontinuity);
          biases := biases[sat := biases[sat][c := cell]];
        }
        PadStep(row, cell, width);
        row := row + [cell];
        assert active[..c + 1] == active[..c] + [active[c]];
      }
      ManyEnd(p, row, |active|, rest);
      assert active[..|active|] == active;
    }

    // The bias blocks, lines 743-806 and 814-881.
    method ReadBiases(message: string, nsat: nat, phase: bool)
      returns (ok: bool, rest: string, validity: nat, biases: seq<seq<BiasCell>>)
      requires ValidMask() && forall k :: 0 <= k < |data.cells| ==> Rectangular(data.cells[k])
      ensures ParseBiasBlock(data.systems, data.cells, nsat, phase, message)
              == if ok then Got(BiasBlock(validity, biases), rest) else Failed
    {
      hide Many, Prepend, Padded, Matrix, SystemRows, RowParser, FitsSystem;
      biases := [];
      validity, ok, rest := TakeUint(message, VALIDITY, 8);
      if !ok { return; }
      ghost var b := rest;
      var numberSats, numberCodes, maxSignals;
      ok, numberSats, numberCodes, maxSignals := CountBiases();
      if !ok { return; }
      ghost var rows := BiasRows(data.systems, 0, data.cells);
      ghost var p, n := RowParser(rows, nsat, phase), |rows.active|;
      BiasRowsWidth(data.systems, 0, data.cells);
      biases := seq(nsat, i => Padded([], maxSignals));
      ghost var done := [];
      MatrixStart(nsat, maxSignals);
      ManyStart(p, n, b);
      var sat := 0;
      assert rows.active[sat..] == rows.active;
      for sys := 0 to data.nsys
        invariant ok && sat >= 0 && BiasesRead(rows, nsat, phase, done, sat, biases)
        invariant BiasRows(data.systems, sys, data.cells).Rows?
        invariant rows.active[sat..] == BiasRows(data.systems, sys, data.cells).active
        invariant Many(p, 0, n, b) == Prepend(done, Many(p, sat, n, rest))
      {
        ghost var here, later := SystemRows(data.systems[sys], sys, data.cells).active,
          BiasRows(data.systems, sys + 1, data.cells).active;
        SystemCells(data.systems[sys], sys, data.cells);
        var cells := if data.systems[sys].cellFlag then data.cells[sys]
                     else seq(numberSats[sys], r => seq(numberCodes[sys], c => true));
        assert cells == here;
        ok, rest, sat, biases, done := ReadSystemBiases(rest, cells, phase, sat, biases, maxSignals, rows, nsat, done,
                                                        later, Many(p, 0, n, b));
        if !ok { return; }
      }
      assert sat == n;
      ManyEnd(p, done, n, rest);
    }

    // The biases of the satellites of one system; `sat` counts the rows read.
    static method ReadSystemBiases(message: string, cells: CellMask, phase: bool, sat0: nat,
                                   biases0: seq<seq<BiasCell>>, width: nat,
                                   ghost rows: Rows, ghost nsat: nat, ghost done0: seq<seq<BiasCell>>,
                                     ghost later: seq<seq<bool>>,
                                   ghost total: Parse<seq<seq<BiasCell>>>)
      returns (ok: bool, rest: string, sat: nat, biases: seq<seq<BiasCell>>, ghost done: seq<seq<BiasCell>>)
      requires BiasesRead(rows, nsat, phase, done0, sat0, biases0) && width == rows.width
      requires forall i :: 0 <= i < |rows.active| ==> |rows.active[i]| <= width
      requires rows.active[sat0..] == cells + later
      requires total == Prepend(done0, Many(RowParser(rows, nsat, phase), sat0, |rows.active|, message))
      ensures ok ==> BiasesRead(rows, nsat, phase, done, sat, biases) && rows.active[sat..] == later
      ensures if ok then total == Prepend(done, Many(RowParser(rows, nsat, phase), sat, |rows.active|, rest))
              else total.Failed?
    {
      ghost var p, n := RowParser(rows, nsat, phase), |rows.active|;
      ok, rest, sat, biases, done := true, message, sat0, biases0, done0;
      for s := 0 to |cells|
        invariant ok && sat == sat0 + s && BiasesRead(rows, nsat, phase, done, sat, biases)
        invariant rows.active[sat..] == cells[s..] + later
        invariant total == Prepend(done, Many(p, sat, n, rest))
      {
        assert cells[s] == rows.active[sat..][0] == rows.active[sat];
        ok, rest, biases, done := ReadRowOf(rest, cells[s], phase, sat, biases, width, rows, nsat, done, total);
        if !ok { return; }
        assert rows.active[sat + 1..] == rows.active[sat..][1..] == cells[s + 1..] + later;
        sat := sat + 1;
      }
      assert cells[|cells|..] + later == later;
    }

    static method ReadRowOf(message: string, active: seq<bool>, phase: bool, sat: nat, biases0: seq<seq<BiasCell>>,
                            width: nat,
                            ghost rows: Rows, ghost nsat: nat, ghost done0: seq<seq<BiasCell>>,
                              ghost total: Parse<seq<seq<BiasCell>>>)
      returns (ok: bool, rest: string, biases: seq<seq<BiasCell>>, ghost done: seq<seq<BiasCell>>)
      requires BiasesRead(rows, nsat, phase, done0, sat, biases0) && width == rows.width
      requires sat < |rows.active| && active == rows.active[sat] && |active| <= width
      requires total == Prepend(done0, Many(RowParser(rows, nsat, phase), sat, |rows.active|, message))
      ensures ok ==> BiasesRead(rows, nsat, phase, done, sat + 1, biases)
      ensures if ok then total == Prepend(done, Many(RowParser(rows, nsat, phase), sat + 1, |rows.active|, rest))
              else total.Failed?
    {
      ghost var p, row := RowParser(rows, nsat, phase), [];
      ok, rest, biases, row := ReadBiasRow(message, active, phase, sat, biases0, width);
      assert p(sat, message) == ParseRow(rows, nsat, phase, sat, message);
      ManyNext(p, done0, sat, |rows.active|, message);
      done := done0 + [Padded(row, width)];
      if ok {
        MatrixStep(done0, Padded(row, width), nsat, width);
      }
    }

    // Lines 740-809 and 811-885.
    method ReadCodeBiases(message: string, nsat: nat, have: bool, ghost slot: MaskSlot) returns (ok: bool, rest: string)
      requires have ==> ValidMask() && forall k :: 0 <= k < |data.cells| ==> Rectangular(data.cells[k])
      modifies this`data
      ensures CodeStage(Reading(old(data), slot, nsat, have), message)
              == if ok then Got(Reading(data, slot, nsat, have), rest) else Failed
    {
      ok, rest := true, message;
      if data.header.codeFlag && have {
        var validity, biases;
        ok, rest, validity, biases := ReadBiases(message, nsat, false);
        data := data.(codeValidity := validity, codeBias := biases);
      }
    }

    method ReadPhaseBiases(message: string, nsat: nat, have: bool, ghost slot: MaskSlot)
      returns (ok: bool, rest: string)
      requires have ==> ValidMask() && forall k :: 0 <= k < |data.cells| ==> Rectangular(data.cells[k])
      modifies this`data
      ensures PhaseStage(Reading(old(data), slot, nsat, have), message)
              == if ok then Got(Reading(data, slot, nsat, have), rest) else Failed
    {
      ok, rest := true, message;
      if data.header.phaseFlag && have {
        var validity, biases;
        ok, rest, validity, biases := ReadBiases(message, nsat, true);
        data := data.(phaseValidity := validity, phaseBias := biases);
      }
    }

    method ReadBothBiases(message: string, nsat: nat, have: bool, ghost slot: MaskSlot) returns (ok: bool, rest: string)
      requires have ==> ValidMask() && forall k :: 0 <= k < |data.cells| ==> Rectangular(data.cells[k])
      modifies this`data
      ensures Biases(Reading(old(data), slot, nsat, have), message)
              == if ok then Got(Reading(data, slot, nsat, have), rest) else Failed
    {
      ok, rest := ReadCodeBiases(message, nsat, have, slot);
      if !ok { return; }
      ok, rest := ReadPhaseBiases(rest, nsat, have, slot);
    }

    // Lines 587-885.
    method ReadCorrections(message: string, nsat: nat, have0: bool, ghost slot: MaskSlot)
      returns (ok: bool, rest: string, have: bool)
      requires have0 ==> ValidMask() && forall k :: 0 <= k < |data.cells| ==> Rectangular(data.cells[k])
      modifies this`data
      ensures Corrections(Reading(old(data), slot, nsat, have0), message)
              == if ok then Got(Reading(data, slot, nsat, have), rest) else Failed
    {
      ok, rest, have := ReadOrbits(message, nsat, have0, slot);
      if !ok { return; }
      ok, rest := ReadClock(rest, nsat, have, slot);
      if !ok { return; }
      if data.header.subsetFlag && have {
        ok := false;
        return;
      }
      ok, rest := ReadBothBiases(rest, nsat, have, slot);
    }

    // read_MT1_body
    method ReadMt1Body(message: string) returns (ok: bool)
      requires ValidMasks() && data.header.maskId < MASK_IDS && data == Blank(data.header)
      modifies this`data, this`masks
      ensures ValidMasks() && OnlySlot(old(data).header.maskId)
      ensures match Body(old(data).header, old(masks[data.header.maskId]), message)
              case Failed => !ok
              case Got(r, _) => ok && data == r.data
      ensures var slot := old(masks[data.header.maskId]);
              masks[old(data).header.maskId]
              == SlotAfter(old(data).header, slot, message, Leftover(data, masks[old(data).header.maskId]))
    {
      ghost var h, slot0 := data.header, masks[data.header.maskId];
      var rest, nsat, have;
      ok, rest, nsat, have := ReadOrRecallMask(message);
      if !ok { return; }
      MaskStageFits(h, slot0, message);
      ghost var r1, b1 := Reading(data, masks[h.maskId], nsat, have), rest;
      ok, rest, have := ReadCorrections(rest, nsat, have, masks[h.maskId]);
      assert Body(h, slot0, message) == Corrections(r1, b1);
      assert MaskStage(Blank(h), slot0, message) == Got(r1, b1);
    }

    // ---- page store ---------------------------------------------------------------------------------------------

    // delete_outdated_data
    static method OldestTimeStamp(pids: seq<nat>, times: seq<nat>, ghost now: nat) returns (oldest: nat)
      requires |pids| <= |times| && now < NEVER
      ensures now > oldest && now - oldest > MAX_AGE <==> Outdated(pids, times, now)
    {
      oldest := NEVER;
      for j := 0 to |pids|
        invariant oldest == NEVER || exists k :: 0 <= k < j && times[k] == oldest && times[k] > 0
        invariant forall k :: 0 <= k < j && times[k] > 0 ==> oldest <= times[k]
      {
        if times[j] > 0 && times[j] < oldest {
          oldest := times[j];
        }
      }
    }

    method DeleteOutdatedData(now: nat)
      requires Valid() && now < NEVER
      modifies this`receivedPids, this`receivedTimestamps, this`cMatrix, this`printedMids, this`printedTimestamps
      ensures Valid() && Snapshot() == Forget(old(Snapshot()), now)
    {
      DeleteOldPages(now);
      ReleaseOldMids(now);
      ghost var f := Forget(old(Snapshot()), now);
      assert receivedPids == f.pids && receivedTimestamps == f.times && cMatrix == f.rows;
      assert printedMids == f.printed && printedTimestamps == f.printedAt;
    }

    method DeleteOldPages(now: nat)
      requires now < NEVER && |receivedPids| == |receivedTimestamps| == |cMatrix| == MESSAGE_IDS
      requires forall i :: 0 <= i < MESSAGE_IDS ==> |receivedPids[i]| <= |receivedTimestamps[i]|
      modifies this`receivedPids, this`receivedTimestamps, this`cMatrix
      ensures |receivedPids| == |receivedTimestamps| == |cMatrix| == MESSAGE_IDS
      ensures forall i :: 0 <= i < MESSAGE_IDS ==>
                if Outdated(old(receivedPids[i]), old(receivedTimestamps[i]), now)
                then receivedPids[i] == [] && receivedTimestamps[i] == [] && cMatrix[i] == ZeroRows()
                else receivedPids[i] == old(receivedPids[i]) && receivedTimestamps[i] == old(receivedTimestamps[i])
                     && cMatrix[i] == old(cMatrix[i])
    {
      hide Outdated;
      for i := 0 to MESSAGE_IDS
        invariant |receivedPids| == |receivedTimestamps| == |cMatrix| == MESSAGE_IDS
        invariant forall k :: 0 <= k < i ==>
                    if Outdated(old(receivedPids[k]), old(receivedTimestamps[k]), now)
                    then receivedPids[k] == [] && receivedTimestamps[k] == [] && cMatrix[k] == ZeroRows()
                    else receivedPids[k] == old(receivedPids[k]) && receivedTimestamps[k] == old(receivedTimestamps[k])
                         && cMatrix[k] == old(cMatrix[k])
        invariant forall k :: i <= k < MESSAGE_IDS ==>
                    receivedPids[k] == old(receivedPids[k]) && receivedTimestamps[k] == old(receivedTimestamps[k])
                      && cMatrix[k] == old(cMatrix[k])
      {
        var oldest := OldestTimeStamp(receivedPids[i], receivedTimestamps[i], now);
        if now > oldest && now - oldest > MAX_AGE {
          receivedPids := receivedPids[i := []];
          receivedTimestamps := receivedTimestamps[i := []];
          cMatrix := cMatrix[i := ZeroRows()];
        }
      }
    }

    method ReleaseOldMids(now: nat)
      requires now < NEVER && |printedMids| == |printedTimestamps| == MESSAGE_IDS
      modifies this`printedMids, this`printedTimestamps
      ensures |printedMids| == |printedTimestamps| == MESSAGE_IDS
      ensures forall k :: 0 <= k < MESSAGE_IDS ==>
                var gone := Forgettable(old(printedMids[k]), old(printedTimestamps[k]), now);
                && printedMids[k] == (old(printedMids[k]) && !gone)
                && printedTimestamps[k] == (if gone then NEVER else old(printedTimestamps[k]))
    {
      for mid := 0 to MESSAGE_IDS
        invariant |printedMids| == |printedTimestamps| == MESSAGE_IDS
        invariant forall k :: 0 <= k < mid ==>
                    var gone := Forgettable(old(printedMids[k]), old(printedTimestamps[k]), now);
                    && printedMids[k] == (old(printedMids[k]) && !gone)
                    && printedTimestamps[k] == (if gone then NEVER else old(printedTimestamps[k]))
        invariant forall k :: mid <= k < MESSAGE_IDS ==>
                    printedMids[k] == old(printedMids[k]) && printedTimestamps[k] == old(printedTimestamps[k])
      {
        if printedMids[mid] && now > printedTimestamps[mid] && now - printedTimestamps[mid] > MAX_AGE {
          printedTimestamps := printedTimestamps[mid := NEVER];
          printedMids := printedMids[mid := false];
        }
      }
    }

    // Lines 309-322: the erasure positions of one range of page IDs.
    static method ErasuresIn(pids: seq<nat>, lo: nat, hi: nat) returns (erasures: seq<int>)
      requires 1 <= lo <= hi
      ensures erasures == Missing(pids, lo, hi)
    {
      erasures := [];
      for i := lo to hi
        invariant erasures == Missing(pids, lo, i)
      {
        if i !in pids {
          erasures := erasures + [i - 1];
        }
      }
    }

    // Lines 350-374: the decoded columns.
    method DecodeColumns(mid: nat, erasures: seq<int>) returns (columns: Option<seq<Block>>)
      requires Valid() && mid < MESSAGE_IDS
      ensures columns == Columns(rs, cMatrix[mid], receivedPids[mid], erasures, OCTETS)
    {
      var done: seq<Block> := [];
      for col := 0 to OCTETS
        invariant Columns(rs, cMatrix[mid], receivedPids[mid], erasures, col) == Some(done)
      {
        var column: Block := seq(BLOCK, i => 0);
        var pids := receivedPids[mid];
        for k := 0 to |pids|
          invariant forall i :: 0 <= i < BLOCK ==> column[i] == if i + 1 in pids[..k] then cMatrix[mid][i][col] else 0
        {
          var block: seq<Row> := cMatrix[mid];
          assert pids[..k + 1] == pids[..k] + [pids[k]];
          assert pids[k] in Snapshot().pids[mid];
          column := column[pids[k] - 1 := block[pids[k] - 1][col]];
        }
        assert pids[..|pids|] == pids;
        assert column == Column(cMatrix[mid], pids, col);
        match rs(column, erasures)
        case None =>
          FailedColumn(rs, cMatrix[mid], pids, erasures, col + 1, OCTETS);
          return None;
        case Some(decoded) =>
          done := done + [decoded];
      }
      columns := Some(done);
    }

    // Lines 378-388.
    static method SerialiseRows(columns: seq<Block>, size: nat) returns (message: string)
      requires |columns| == OCTETS && size <= INFORMATION
      ensures message == MessageBits(columns, size)
    {
      hide Write;
      message := "";
      for row := 0 to size
        invariant message == MessageBits(columns, row)
      {
        ghost var start := message;
        for col := 0 to OCTETS
          invariant message == start + RowBits(columns[..col], row)
        {
          assert columns[..col + 1][..col] == columns[..col];
          message := message + Write(columns[col][row], 8);
        }
        assert columns[..OCTETS] == columns;
      }
    }

    // decode_message_type1
    method DecodeMessageType1(mid: nat, size: nat) returns (res: int)
      requires Valid() && mid < MESSAGE_IDS && 1 <= size <= INFORMATION
      modifies this`receivedPids, this`cMatrix, this`data, this`masks
      ensures Valid()
      ensures match Decode(rs, old(cMatrix[mid]), old(receivedPids[mid]), size)
              case Undecodable => res == -1 && Snapshot() == ClearPages(old(Snapshot()), mid)
              case Uncorrected => res == -1 && Snapshot() == old(Snapshot())
              case Decoded(bits) =>
                var cleared := ClearPages(old(Snapshot()), mid);
                var h := ParseHeader(bits[..HEADER_BITS]);
                && Snapshot() == ReadMessage(cleared, bits, Leftover(data, masks[h.maskId]))
                && res == (if BodyResult(cleared, bits).Got? then 0 else -1)
                && (res == 0 ==> data.header == h)
    {
      hide ReadMessage, BodyResult, ParseHeader, Columns, Missing, MessageBits, ValidSlot;
      var low := ErasuresIn(receivedPids[mid], 1, size + 1);
      var high := ErasuresIn(receivedPids[mid], INFORMATION + 1, BLOCK + 1);
      var erasures := low + high;
      if |erasures| > MAX_ERASURES {
        receivedPids := receivedPids[mid := []];
        cMatrix := cMatrix[mid := ZeroRows()];
        return -1;
      }
      var columns := DecodeColumns(mid, erasures);
      if columns.None? {
        return -1;
      }
      var message := SerialiseRows(columns.value, size);
      cMatrix := cMatrix[mid := ZeroRows()];
      receivedPids := receivedPids[mid := []];
      var ok := ReadDecodedMessage(message);
      res := if ok then 0 else -1;
    }

    // Lines 407-437.
    method ReadDecodedMessage(message: string) returns (ok: bool)
      requires Valid() && |message| >= HEADER_BITS
      modifies this`data, this`masks
      ensures Valid() && ok == BodyResult(old(Snapshot()), message).Got?
      ensures var h := ParseHeader(message[..HEADER_BITS]);
              Snapshot() == ReadMessage(old(Snapshot()), message, Leftover(data, masks[h.maskId]))
                && (ok ==> data.header == h)
    {
      data := Blank(Header(0, false, false, false, false, false, false, 0, 0, 0));
      ReadMt1Header(message[..HEADER_BITS]);
      BodyKeepsHeader(data.header, masks[data.header.maskId], message[HEADER_BITS..]);
      ok := ReadMt1Body(message[HEADER_BITS..]);
    }

    // Lines 217-243.
    method CollectPage(p: Page)
      requires Valid() && ValidPage(p)
      modifies this`receivedPids, this`receivedTimestamps, this`cMatrix, this`printedMids, this`printedTimestamps
      ensures Valid() && Snapshot() == Collect(old(Snapshot()), p)
    {
      if p.status == 0 || p.status == 1 {
        if p.pid != 0 {
          if p.messageType == 1 {
            DeleteOutdatedData(p.timeStamp);
            if p.pid !in receivedPids[p.mid] {
              StorePage(p);
            }
          }
        }
      }
    }

    // process_HAS_page
    method ProcessHasPage(p: Page) returns (ghost left: Leftover)
      requires Valid() && ValidPage(p)
      modifies this
      ensures Valid() && ValidSlot(left.slot) && Snapshot() == Process(old(Snapshot()), p, rs, left)
    {
      hide ParseHeader, Decode, Collect, Body, SlotAfter;
      CollectPage(p);
      ghost var s := Snapshot();
      newMessage := false;
      left := Leftover(data, InitialSlot());
      if |receivedPids[p.mid]| == p.size {
        ghost var attempt := Decode(rs, cMatrix[p.mid], receivedPids[p.mid], p.size);
        var res := DecodeMessageType1(p.mid, p.size);
        if attempt.Decoded? {
          left := Leftover(data, masks[ParseHeader(attempt.bits[..HEADER_BITS]).maskId]);
        }
        if res == 0 {
          if masks[data.header.maskId].nsat != 0 {
            newMessage := true;
          }
        }
      }
      assert Snapshot() == TryDecode(s, p, rs, left);
    }

    // Lines 229-238.
    method StorePage(p: Page)
      requires Valid() && ValidPage(p) && p.pid > 0 && p.pid !in receivedPids[p.mid]
      modifies this`receivedPids, this`receivedTimestamps, this`cMatrix
      ensures Valid() && Snapshot() == Annotate(old(Snapshot()), p)
    {
      receivedPids := receivedPids[p.mid := receivedPids[p.mid] + [p.pid]];
      receivedTimestamps := receivedTimestamps[p.mid := receivedTimestamps[p.mid] + [p.timeStamp]];
      var block: seq<Row> := cMatrix[p.mid];
      var row: Row := block[p.pid - 1];
      for k := 0 to OCTETS
        invariant forall i :: 0 <= i < k ==> row[i] == OctetAt(p.bits, i)
        modifies {}
      {
        var octet := ReadUint(p.bits[8 * k..8 * k + 8], 8);  // std::bitset<8>(bits8).to_ulong()
        OctetRead(p.bits, k, octet);
        row := row[k := octet];
      }
      assert row == Octets(p.bits);
      cMatrix := cMatrix[p.mid := block[p.pid - 1 := row]];
    }

    // msg_handler_galileo_e6_has
    method MsgHandler(p: Page) returns (ghost left: Leftover)
      requires Valid() && ValidPage(p)
      modifies this
      ensures Valid() && ValidSlot(left.slot) && Snapshot() == Handle(old(Snapshot()), p, rs, left)
    {
      left := Leftover(data, InitialSlot());
      if !printedMids[p.mid] {
        left := ProcessHasPage(p);
      }
      PublishMessage(p);
    }

    // Lines 199-211.
    method PublishMessage(p: Page)
      requires Valid() && ValidPage(p)
      modifies this`printedMids, this`printedTimestamps, this`published, this`newMessage
      ensures Valid() && Snapshot() == Publish(old(Snapshot()), p)
    {
      if newMessage {
        printedMids := printedMids[p.mid := true];
        printedTimestamps := printedTimestamps[p.mid := p.timeStamp];
        published := published + [Publication(p.mid, p.timeStamp, data)];
        newMessage := false;
      }
    }
  }

  lemma {:induction false} FailedColumn(rs: Decoder, rows: seq<Row>, pids: seq<nat>, erasures: seq<int>, k: nat, n: nat)
    requires |rows| == BLOCK && k <= n <= OCTETS && Columns(rs, rows, pids, erasures, k) == None
    ensures Columns(rs, rows, pids, erasures, n) == None
    decreases n
  {
    if k < n {
      FailedColumn(rs, rows, pids, erasures, k, n - 1);
    }
  }

  // The systems read so far, in the data and in the mask slot.
  ghost predicate Written(systems: seq<SystemMask>, cells: seq<CellMask>, slot: MaskSlot, slot0: MaskSlot,
                          items: seq<MaskItem>, nsat: nat) {
    && |items| <= |systems| == |cells| < GNSS_IDS && |slot0.systems| == GNSS_IDS
    && systems[..|items|] == SystemsOf(items) && cells[..|items|] == CellsOf(items)
    && slot == slot0.(systems := SystemsOf(items) + slot0.systems[|items|..])
    && nsat == Satellites(SystemsOf(items)) && ValidSlot(slot)
  }

  lemma {:induction false} WrittenNone(systems: seq<SystemMask>, cells: seq<CellMask>, slot: MaskSlot)
    requires |systems| == |cells| < GNSS_IDS && ValidSlot(slot)
    ensures Written(systems, cells, slot, slot, [], 0)
  {
    assert SystemsOf([]) + slot.systems[0..] == slot.systems;
  }

  lemma {:induction false} WrittenAll(systems: seq<SystemMask>, cells: seq<CellMask>, slot: MaskSlot, slot0: MaskSlot,
                                      items: seq<MaskItem>, nsat: nat)
    requires Written(systems, cells, slot, slot0, items, nsat) && |items| == |systems|
    ensures systems == SystemsOf(items) && cells == CellsOf(items)
  {
    assert systems[..|items|] == systems && cells[..|items|] == cells;
  }

  lemma {:induction false} WrittenStep(systems: seq<SystemMask>, cells: seq<CellMask>, slot: MaskSlot, slot0: MaskSlot,
                                       items: seq<MaskItem>, nsat: nat, item: MaskItem)
    requires Written(systems, cells, slot, slot0, items, nsat) && |items| < |systems| && FitsSystem(item.system)
    ensures Written(systems[|items| := item.system], cells[|items| := item.cells],
                    slot.(systems := slot.systems[|items| := item.system]), slot0, items + [item],
                      nsat + SatellitesOf(item.system))
  {
    var i := |items|;
    var items' := items + [item];
    assert SystemsOf(items') == SystemsOf(items) + [item.system];
    assert CellsOf(items') == CellsOf(items) + [item.cells];
    assert systems[i := item.system][..i + 1] == systems[..i] + [item.system];
    assert cells[i := item.cells][..i + 1] == cells[..i] + [item.cells];
    assert slot.systems[i := item.system] == SystemsOf(items') + slot0.systems[i + 1..];
    SatellitesAppend(SystemsOf(items), [item.system]);
  }

  // What the bit reader makes of octet k of a page string.
  lemma {:induction false} OctetRead(bits: string, k: nat, octet: nat)
    requires |bits| == PAGE_BITS && k < OCTETS && octet == Unsigned(bits[8 * k..8 * k + 8]) % Pow2(8)
    ensures 0 <= octet < 256 && octet == OctetAt(bits, k)
  {
    UnsignedBound(bits[8 * k..8 * k + 8]);
    assert Pow2(8) == 256;
    DivModUnique(Unsigned(bits[8 * k..8 * k + 8]), Pow2(8), 0, Unsigned(bits[8 * k..8 * k + 8]));
  }

  lemma {:induction false} PadStep(done: seq<BiasCell>, cell: BiasCell, width: nat)
    requires |done| < width
    ensures Padded(done + [cell], width) == Padded(done, width)[|done| := cell]
    ensures cell == NO_BIAS ==> Padded(done + [cell], width) == Padded(done, width)
  {
    assert Padded(done + [cell], width) == Padded(done, width)[|done| := cell];
    assert cell == NO_BIAS ==> Padded(done, width)[|done| := cell] == Padded(done, width);
  }

  lemma {:induction false} SystemSizes(system: SystemMask, k: nat, cells: seq<CellMask>)
    ensures var rows := SystemRows(system, k, cells);
            && (rows.Rows? <==> system.cellFlag ==> k < |cells| && |cells[k]| > 0)
            && (rows.Rows? ==> |rows.active| == (if system.cellFlag then |cells[k]| else PopCount(system.satellites))
                               && rows.width == (if system.cellFlag then |cells[k][0]| else PopCount(system.signals)))
  {
  }

  lemma {:induction false} SystemCells(system: SystemMask, k: nat, cells: seq<CellMask>)
    requires SystemRows(system, k, cells).Rows?
    ensures system.cellFlag ==> k < |cells|
    ensures var rows := SystemRows(system, k, cells);
            rows.active == if system.cellFlag then cells[k] else seq(|rows.active|, r => seq(rows.width, c => true))
  {
  }

  // Writing item i of a list whose first i items are read.
  lemma {:induction false} WriteNext<T>(s: seq<T>, i: nat, x: T)
    requires i < |s|
    ensures s[i := x][..i + 1] == s[..i] + [x]
  {
  }

  lemma {:induction false} MatrixStart(nsat: nat, width: nat)
    ensures Matrix([], nsat, width) == seq(nsat, i => Padded([], width))
  {
  }

  // The first `sat` rows of the bias matrix are those parsed so far.
  ghost predicate BiasesRead(rows: Rows, nsat: nat, phase: bool, done: seq<seq<BiasCell>>, sat: nat,
                             biases: seq<seq<BiasCell>>) {
    rows.Rows? && |done| == sat <= |rows.active| && biases == Matrix(done, nsat, rows.width)
  }

  // A list is read item by item: `done` are the items so far, `bits` what is left.
  lemma {:induction false} ManyStart<T>(p: ItemParser<T>, n: nat, bits: string)
    ensures Prepend([], Many(p, 0, n, bits)) == Many(p, 0, n, bits)
  {
    var r := Many(p, 0, n, bits);
    if r.Got? {
      assert [] + r.value == r.value;
    }
  }

  lemma {:induction false} ManyNext<T>(p: ItemParser<T>, done: seq<T>, i: nat, n: nat, bits: string)
    requires i < n
    ensures match p(i, bits)
            case Failed => Prepend(done, Many(p, i, n, bits)).Failed?
            case Got(x, rest) => Prepend(done, Many(p, i, n, bits)) == Prepend(done + [x], Many(p, i + 1, n, rest))
  {
    if p(i, bits).Got? {
      var x, r := p(i, bits).value, Many(p, i + 1, n, p(i, bits).rest);
      if r.Got? {
        assert done + [x] + r.value == done + ([x] + r.value);
      }
    }
  }

  lemma {:induction false} ManyEnd<T>(p: ItemParser<T>, done: seq<T>, n: nat, bits: string)
    ensures Prepend(done, Many(p, n, n, bits)) == Got(done, bits)
  {
    assert done + [] == done;
  }
}
