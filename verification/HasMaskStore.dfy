// The store of masks against the masks that were sent, over whole sequences of messages.
module HasMaskStore {
  import opened Options
  import opened HasBits
  import opened HasMessage
  import opened HasParser
  import opened HasEncoder
  import opened HasPages

  // A message: a header, the mask announced by its mask flag, and whatever follows the mask.
  datatype Message = Message(content: HasData, tail: string)

  // A mask may have no system.
  ghost predicate ValidMessage(d: Message) {
    && FitsHeader(d.content.header) && !d.content.header.subsetFlag
    && (d.content.header.maskFlag ==> NoSystem(d.content) || FitsMask(d.content.systems, d.content.cells))
  }

  predicate NoSystem(m: HasData) {
    m.systems == [] && m.cells == []
  }

  function BodyBits(d: Message): string
    requires d.content.header.maskFlag ==> |d.content.systems| == |d.content.cells|
  {
    if d.content.header.maskFlag then EncodeMask(d.content) + d.tail else d.tail
  }

  // What a mask ID stands for, with the number of satellites; without any, the mask is unknown.
  datatype Mask = Mask(systems: seq<SystemMask>, cells: seq<CellMask>, count: nat)

  const UNKNOWN := Mask([], [], 0)

  function MaskOf(m: HasData): Mask {
    Mask(m.systems, m.cells, Satellites(m.systems))
  }

  // The mask last sent under a mask ID. A mask with no system keeps the cells and the count of the
  // one before, and an out-of-range time of hour makes the mask unknown.
  function Latest(ds: seq<Message>, id: nat): Mask {
    if ds == [] then UNKNOWN
    else
      var d := ds[|ds| - 1].content;
      var before := Latest(ds[..|ds| - 1], id);
      if d.header.maskId != id then before else After(before, d)
  }

  function After(before: Mask, m: HasData): Mask {
    var announced := if !m.header.maskFlag then before
                     else if NoSystem(m) then before.(systems := [])
                     else MaskOf(m);
    if m.header.toh > 3599 then announced.(count := 0) else announced
  }

  // The mask a message is read with: its own, or the one known before.
  function InForce(before: Mask, m: HasData): Mask {
    if m.header.toh > 3599 then UNKNOWN else if m.header.maskFlag then MaskOf(m) else before
  }

  // A mask with systems has the count of its satellites.
  predicate Counted(mask: Mask) {
    mask.count > 0 && mask.systems != [] ==> mask.count == Satellites(mask.systems)
  }

  lemma {:induction false} LatestCounted(ds: seq<Message>, id: nat)
    ensures Counted(Latest(ds, id))
  {
    if ds != [] {
      LatestCounted(ds[..|ds| - 1], id);
    }
  }

  ghost predicate SlotAgrees(slot: MaskSlot, mask: Mask) {
    && ValidSlot(slot) && slot.nsat == mask.count
    && (mask.count > 0 ==>
          && slot.nsys == |mask.systems| && slot.systems[..slot.nsys] == mask.systems && slot.cells == mask.cells)
  }

  // What ReadMessage does to the mask store.
  function Deliver(masks: seq<MaskSlot>, d: Message, left: Leftover): (r: seq<MaskSlot>)
    requires |masks| == MASK_IDS && d.content.header.maskId < MASK_IDS && ValidSlot(masks[d.content.header.maskId])
    requires d.content.header.maskFlag ==> |d.content.systems| == |d.content.cells|
    ensures |r| == MASK_IDS
  {
    var h := d.content.header;
    masks[h.maskId := SlotAfter(h, masks[h.maskId], BodyBits(d), left)]
  }

  lemma {:induction false} DeliverIsReadMessage(s: State, d: Message, left: Leftover)
    requires Shaped(s) && ValidMessage(d)
    ensures ReadMessage(s, EncodeHeader(d.content.header) + BodyBits(d), left).masks == Deliver(s.masks, d, left)
  {
    Take(EncodeHeader(d.content.header), BodyBits(d));
    HeaderInverse(d.content.header);
  }

  // The mask stage of a message: what it reads, and what it leaves in the slot.
  lemma {:induction false} StageOf(slot: MaskSlot, before: Mask, d: Message)
    requires ValidMessage(d) && SlotAgrees(slot, before)
    ensures var h := d.content.header;
            var now := InForce(before, d.content);
            var stage := MaskStage(Blank(h), slot, BodyBits(d));
            && stage.Got? && ((h.maskFlag && NoSystem(d.content)) || stage.rest == d.tail)
            && SlotAgrees(stage.value.slot, After(before, d.content))
            && (stage.value.have <==> now.count > 0)
            && (stage.value.have ==>
                  && stage.value.data == Blank(h).(nsys := |now.systems|, systems := now.systems, cells := now.cells)
                  && stage.value.nsat == now.count)
  {
    var h := d.content.header;
    if h.maskFlag {
      if NoSystem(d.content) {
        EmptyMaskStage(slot, d);
        assert slot.systems[..0] == [];
      } else {
        MaskInverse(d.content, slot, d.tail);
      }
    }
  }

  lemma {:induction false} DeliverAgrees(masks: seq<MaskSlot>, ds: seq<Message>, d: Message, left: Leftover)
    requires |masks| == MASK_IDS && ValidMessage(d) && ValidSlot(masks[d.content.header.maskId])
    requires forall id :: 0 <= id < MASK_IDS ==> SlotAgrees(masks[id], Latest(ds, id))
    ensures forall id :: 0 <= id < MASK_IDS ==> SlotAgrees(Deliver(masks, d, left)[id], Latest(ds + [d], id))
  {
    var id0 := d.content.header.maskId;
    StageOf(masks[id0], Latest(ds, id0), d);
    assert (ds + [d])[..|ds|] == ds;
  }

  // The store after a sequence of messages.
  ghost function StoreAfter(ds: seq<Message>, lefts: seq<Leftover>): (masks: seq<MaskSlot>)
    requires |ds| == |lefts| && forall k :: 0 <= k < |ds| ==> ValidMessage(ds[k])
    ensures |masks| == MASK_IDS
    ensures forall id :: 0 <= id < MASK_IDS ==> SlotAgrees(masks[id], Latest(ds, id))
  {
    if ds == [] then Initial().masks
    else
      var n := |ds| - 1;
      var before := StoreAfter(ds[..n], lefts[..n]);
      var id := ds[n].content.header.maskId;
      assert ValidMessage(ds[n]) && SlotAgrees(before[id], Latest(ds[..n], id));
      DeliverAgrees(before, ds[..n], ds[n], lefts[n]);
      assert ds[..n] + [ds[n]] == ds;
      Deliver(before, ds[n], lefts[n])
  }

  // Mask agreement over every sequence of messages: a message is read with exactly the mask in
  // force, its own or the latest one sent under its mask ID. If that is unknown, no correction block
  // is read. The slot keeps what the mask ID stands for after the message.
  lemma {:induction false} MaskAgreement(ds: seq<Message>, lefts: seq<Leftover>, d: Message)
    requires |ds| == |lefts| && (forall k :: 0 <= k < |ds| ==> ValidMessage(ds[k])) && ValidMessage(d)
    ensures var h := d.content.header;
            var slot := StoreAfter(ds, lefts)[h.maskId];
            var now := InForce(Latest(ds, h.maskId), d.content);
            var body := Body(h, slot, BodyBits(d));
            && (body.Got? ==> SlotAgrees(body.value.slot, Latest(ds + [d], h.maskId)))
            && (now.count > 0 && body.Got? ==>
                  && body.value.data.nsys == |now.systems| && body.value.data.systems == now.systems
                  && body.value.data.cells == now.cells && body.value.nsat == now.count)
            && (now.count == 0 ==>
                  && body.Got? && ((h.maskFlag && NoSystem(d.content)) || body.rest == d.tail)
                  && body.value.data.orbit == [] && body.value.data.clock == [] && body.value.data.multipliers == []
                  && body.value.data.codeBias == [] && body.value.data.phaseBias == [])
  {
    var h := d.content.header;
    var slot := StoreAfter(ds, lefts)[h.maskId];
    assert (ds + [d])[..|ds|] == ds;
    StageOf(slot, Latest(ds, h.maskId), d);
    var stage := MaskStage(Blank(h), slot, BodyBits(d));
    if stage.value.have {
      CorrectionsKeepMask(stage.value, stage.rest);
    } else {
      NothingToRead(stage.value, stage.rest);
      MaskStageData(h, slot, BodyBits(d));
    }
    if Body(h, slot, BodyBits(d)).Got? {
      BodyKeepsSlot(h, slot, BodyBits(d));
    }
  }

  lemma {:induction false} BiasesKeepMask(r: Reading, bits: string)
    ensures var p := Biases(r, bits);
            p.Got? ==> p.value.data.nsys == r.data.nsys && p.value.data.systems == r.data.systems
                       && p.value.data.cells == r.data.cells && p.value.nsat == r.nsat
  {
  }

  lemma {:induction false} CorrectionsKeepMask(r: Reading, bits: string)
    ensures var p := Corrections(r, bits);
            p.Got? ==> p.value.data.nsys == r.data.nsys && p.value.data.systems == r.data.systems
                       && p.value.data.cells == r.data.cells && p.value.nsat == r.nsat
  {
    var p2 := OrbitStage(r, bits);
    if p2.Got? {
      var p3 := ClockStage(p2.value, p2.rest);
      if p3.Got? {
        BiasesKeepMask(p3.value, p3.rest);
      }
    }
  }

  lemma {:induction false} NothingToRead(r: Reading, bits: string)
    requires !r.have
    ensures Corrections(r, bits) == Got(r, bits)
  {
  }

  lemma {:induction false} MaskStageData(h: Header, slot: MaskSlot, bits: string)
    requires ValidSlot(slot) && MaskStage(Blank(h), slot, bits).Got?
    ensures var d := MaskStage(Blank(h), slot, bits).value.data;
            d.orbit == [] && d.clock == [] && d.multipliers == [] && d.codeBias == [] && d.phaseBias == []
  {
  }

  // A mask with no system is the exception: the source then keeps the satellite count of the
  // previous mask. After a mask message the stored count is that of the mask sent if and only if
  // the mask has a system or nothing was stored before.
  lemma {:induction false} CountAgreesExactly(slot: MaskSlot, d: Message)
    requires ValidSlot(slot) && d.content.header.maskFlag && d.content.header.toh <= 3599
    requires NoSystem(d.content) || FitsMask(d.content.systems, d.content.cells)
    ensures var stage := MaskStage(Blank(d.content.header), slot, BodyBits(d));
            && stage.Got?
            && (stage.value.slot.nsat == Satellites(d.content.systems) <==> d.content.systems != [] || slot.nsat == 0)
  {
    if d.content.systems == [] {
      EmptyMaskStage(slot, d);
    } else {
      MaskInverse(d.content, slot, d.tail);
    }
  }

  lemma {:induction false} EmptyMaskStage(slot: MaskSlot, d: Message)
    requires ValidSlot(slot) && d.content.header.maskFlag && d.content.systems == [] && d.content.cells == []
    ensures NewMask(Blank(d.content.header), slot, BodyBits(d)).Got?
    ensures NewMask(Blank(d.content.header), slot, BodyBits(d)).value.slot == slot.(nsys := 0)
  {
    var count := Write(0, NSYS);
    var rest := Concat(SystemParts([], [])) + Write(0, MASK_RESERVED) + d.tail;
    assert BodyBits(d) == count + rest;
    Take(count, rest);
    UnsignedOfWrite(0, NSYS);
    assert Prefix(BodyBits(d), NSYS) == count;
  }

  // The next message without a mask is then read with satellites that belong to no system.
  lemma {:induction false} OrphanSatellites(slot: MaskSlot, h: Header, bits: string)
    requires ValidSlot(slot) && !h.maskFlag && h.toh <= 3599 && slot.nsat > 0
    ensures var r := MaskStage(Blank(h), slot.(nsys := 0), bits).value;
            r.have && r.data.systems == [] && r.nsat == slot.nsat && GnssIdOf(r.data.systems, 0) == WRONG_SYSTEM
  {
    assert slot.systems[..0] == [];
  }
}
