// From the sender to the published message: pages, vertical decoding, header, mask store and body
// together, with masks that may change during a run.
module HasDelivery {
  import opened Options
  import opened HasBits
  import opened HasMessage
  import opened HasParser
  import opened HasEncoder
  import opened HasPages
  import opened HasProtocol
  import opened HasMaskStore

  // The bits of a message, padded to whole pages.
  ghost predicate Carries(sent: Sent, m: HasData) {
    && ValidSent(sent) && WellFormed(m)
    && EncodeHeader(m.header) + EncodeBody(m) <= sent.bits
  }

  // What the mask store gets to see of a message.
  ghost function Received(sent: Sent, m: HasData): Message
    requires Carries(sent, m)
  {
    Message(m, sent.bits[|EncodeHeader(m.header) + EncodeMask(m)|..])
  }

  ghost predicate SlotsAgree(slots: seq<MaskSlot>, decoded: seq<Message>) {
    |slots| == MASK_IDS && forall id :: 0 <= id < MASK_IDS ==> SlotAgrees(slots[id], Latest(decoded, id))
  }

  // The receiver has not missed a mask: the latest one decoded under the message's mask ID, if it is
  // known, is the one the message was made for.
  predicate UpToDate(m: HasData, latest: Mask) {
    m.header.maskFlag || latest.count == 0 || (latest.systems == m.systems && latest.cells == m.cells)
  }

  // The message can be used: its time of hour is in range and its mask is known.
  predicate Usable(m: HasData, latest: Mask) {
    m.header.toh <= 3599 && (m.header.maskFlag || latest.count > 0)
  }

  // ---- one message -----------------------------------------------------------------------------------

  function Padding(sent: Sent, m: HasData): string
    requires Carries(sent, m)
  {
    sent.bits[|EncodeHeader(m.header) + EncodeBody(m)|..]
  }

  lemma {:induction false} SplitBits(sent: Sent, m: HasData)
    requires Carries(sent, m)
    ensures |sent.bits| >= HEADER_BITS && ParseHeader(sent.bits[..HEADER_BITS]) == m.header
    ensures sent.bits[HEADER_BITS..] == EncodeBody(m) + Padding(sent, m)
  {
    hide EncodeBody, FitsMask, FitsOrbits, FitsClock, FitsBiases, ParseHeader, EncodeHeader;
    var h, body := EncodeHeader(m.header), EncodeBody(m);
    assert sent.bits == h + (body + Padding(sent, m));
    Take(h, body + Padding(sent, m));
    HeaderInverse(m.header);
  }

  lemma {:induction false} ReceivedBits(sent: Sent, m: HasData)
    requires Carries(sent, m)
    ensures ValidMessage(Received(sent, m)) && sent.bits[HEADER_BITS..] == BodyBits(Received(sent, m))
  {
    hide EncodeMask, EncodeOrbits, EncodeClock, EncodeBiases, FitsOrbits, FitsClock, FitsBiases, ParseHeader,
         EncodeHeader;
    SplitBits(sent, m);
    var h, mask := EncodeHeader(m.header), EncodeMask(m);
    assert sent.bits[..HEADER_BITS] == h;
    assert sent.bits[HEADER_BITS..][..|mask|] == mask;
    assert sent.bits[HEADER_BITS..][|mask|..] == sent.bits[|h + mask|..];
    if !m.header.maskFlag {
      NoMask(m);
    }
  }

  lemma {:induction false} NoMask(m: HasData)
    requires |m.systems| == |m.cells| && !m.header.maskFlag
    ensures EncodeMask(m) == ""
  {
  }

  // A message is read with the latest mask decoded. So what is ready to be published is the message
  // that was sent if and only if the receiver has not missed its mask; and if it has not, and the
  // message can be used, it is ready to be published.
  lemma {:induction false} BodyExactly(slot: MaskSlot, latest: Mask, sent: Sent, m: HasData)
    requires Carries(sent, m) && SlotAgrees(slot, latest) && Counted(latest)
    ensures var p := Body(m.header, slot, sent.bits[HEADER_BITS..]);
            && (p.Got? && p.value.slot.nsat != 0 ==> (p.value.data == m <==> UpToDate(m, latest)))
            && (Usable(m, latest) && UpToDate(m, latest) ==> p.Got? && p.value.slot.nsat != 0 && p.value.data == m)
  {
    var bits := sent.bits[HEADER_BITS..];
    SplitBits(sent, m);
    if Usable(m, latest) && UpToDate(m, latest) {
      hide Body, EncodeBody, Carries;
      BodyInverse(m, slot, Padding(sent, m));
    } else {
      BodyOtherwise(slot, latest, sent, m);
    }
  }

  lemma {:induction false} BodyOtherwise(slot: MaskSlot, latest: Mask, sent: Sent, m: HasData)
    requires Carries(sent, m) && SlotAgrees(slot, latest) && !(Usable(m, latest) && UpToDate(m, latest))
    ensures var p := Body(m.header, slot, sent.bits[HEADER_BITS..]);
            p.Got? && p.value.slot.nsat != 0 ==> p.value.data != m && !UpToDate(m, latest)
  {
    hide MaskStage, Corrections, BodyBits, WellFormed, EncodeHeader, EncodeBody, EncodeMask;
    var d := Received(sent, m);
    ReceivedBits(sent, m);
    StageOf(slot, latest, d);
    var stage := MaskStage(Blank(m.header), slot, BodyBits(d));
    if stage.value.have {
      CorrectionsKeepMask(stage.value, stage.rest);
    }
    if Body(m.header, slot, BodyBits(d)).Got? {
      BodyKeepsSlot(m.header, slot, BodyBits(d));
    }
  }

  // A message that announces no block behind the mask.
  predicate NoBlocks(h: Header) {
    !h.orbitFlag && !h.clockFlag && !h.codeFlag && !h.phaseFlag
  }

  // The failure: with an older mask known, a message without one is read by the older mask. Without
  // blocks that is never noticed, and the result is ready to be published.
  lemma {:induction false} MissedMask(slot: MaskSlot, latest: Mask, sent: Sent, m: HasData)
    requires Carries(sent, m) && SlotAgrees(slot, latest) && latest.count > 0 && !UpToDate(m, latest)
    requires m.header.toh <= 3599 && NoBlocks(m.header)
    ensures var p := Body(m.header, slot, sent.bits[HEADER_BITS..]);
            && p.Got? && p.value.slot.nsat != 0 && p.value.data != m
            && p.value.data.systems == latest.systems && p.value.data.cells == latest.cells
  {
    hide MaskStage, BodyBits, WellFormed, EncodeHeader, EncodeBody, EncodeMask;
    var d := Received(sent, m);
    ReceivedBits(sent, m);
    StageOf(slot, latest, d);
    var stage := MaskStage(Blank(m.header), slot, BodyBits(d));
    NothingBehind(stage.value, stage.rest);
  }

  lemma {:induction false} NothingBehind(r: Reading, bits: string)
    requires NoBlocks(r.data.header) && !r.data.header.subsetFlag
    ensures Corrections(r, bits) == Got(r, bits)
  {
    assert OrbitStage(r, bits) == Got(r, bits) && ClockStage(r, bits) == Got(r, bits);
    assert CodeStage(r, bits) == Got(r, bits) && PhaseStage(r, bits) == Got(r, bits);
  }

  // What reading a transmitted message does to the store and to the data.
  lemma {:induction false} ReadExactly(s: State, sent: Sent, m: HasData, left: Leftover, decoded: seq<Message>)
    requires Shaped(s) && Carries(sent, m) && SlotsAgree(s.masks, decoded)
    ensures |sent.bits| >= HEADER_BITS && ParseHeader(sent.bits[..HEADER_BITS]) == m.header
    ensures var r := ReadMessage(s, sent.bits, left);
            var latest := Latest(decoded, m.header.maskId);
            var ready := BodyResult(s, sent.bits).Got? && r.masks[m.header.maskId].nsat != 0;
            && SlotsAgree(r.masks, decoded + [Received(sent, m)])
            && (ready ==> (r.data == m <==> UpToDate(m, latest)))
            && (Usable(m, latest) && UpToDate(m, latest) ==> ready)
  {
    hide BodyBits, Carries, Body, EncodeHeader, EncodeBody, EncodeMask, ParseHeader, SlotAgrees, Latest, SlotAfter;
    hide ValidMessage, Received, UpToDate, Usable;
    var h, id := m.header, m.header.maskId;
    CarriedHeader(sent, m);
    SplitBits(sent, m);
    ReceivedBits(sent, m);
    var slot := s.masks[id];
    assert SlotAgrees(slot, Latest(decoded, id));
    LatestCounted(decoded, id);
    BodyExactly(slot, Latest(decoded, id), sent, m);
    DeliverAgrees(s.masks, decoded, Received(sent, m), left);
    if Body(h, slot, sent.bits[HEADER_BITS..]).Got? {
      SlotOfBody(h, slot, sent.bits[HEADER_BITS..], left);
    }
  }

  lemma {:induction false} CarriedHeader(sent: Sent, m: HasData)
    requires Carries(sent, m)
    ensures m.header.maskId < MASK_IDS && Received(sent, m).content == m
    ensures |m.systems| == |m.cells|
  {
  }

  lemma {:induction false} SlotOfBody(h: Header, slot: MaskSlot, bits: string, left: Leftover)
    requires ValidSlot(slot) && Body(h, slot, bits).Got?
    ensures SlotAfter(h, slot, bits, left) == Body(h, slot, bits).value.slot
  {
    BodyKeepsSlot(h, slot, bits);
  }

  // ---- one step -------------------------------------------------------------------------------------

  // What a run has been given so far: for every message ID the message its stored pages belong to
  // and the content of that message, and the messages decoded, in order.
  datatype Account = Account(current: seq<Sent>, held: seq<HasData>, decoded: seq<Message>)

  ghost predicate Accounted(s: State, a: Account, c: Codec) {
    && Shaped(s) && |a.current| == |a.held| == MESSAGE_IDS && !s.newMessage
    && AllCoherent(s, a.current, c) && SlotsAgree(s.masks, a.decoded)
    && forall mid :: 0 <= mid < MESSAGE_IDS && s.pids[mid] != [] ==> Carries(a.current[mid], a.held[mid])
  }

  predicate Attempts(s: State, p: Page)
    requires Shaped(s) && ValidPage(p)
  {
    !s.printed[p.mid] && |Collect(s, p).pids[p.mid]| == p.size
  }

  // The message ID's content after page `p`, which carries `m` when it is stored.
  function HeldNow(s: State, a: Account, p: Page, m: HasData): HasData
    requires Shaped(s) && |a.held| == MESSAGE_IDS && ValidPage(p)
  {
    Turnover(s, a.held, p, m)[p.mid]
  }

  // An admissible page that triggers an attempt only when it carries the size of the message held.
  ghost predicate Fitting(s: State, a: Account, p: Page, sent: Sent, m: HasData, c: Codec)
    requires Shaped(s) && |a.current| == |a.held| == MESSAGE_IDS && ValidPage(p)
  {
    s.printed[p.mid] ||
    (&& Admissible(s, a.current, p, sent, c) && (WithCorrections(p) ==> Carries(sent, m))
     && Timely(s, p, Turnover(s, a.current, p, sent)[p.mid]))
  }

  ghost function Next(s: State, a: Account, p: Page, sent: Sent, m: HasData): (r: Account)
    requires Shaped(s) && |a.current| == |a.held| == MESSAGE_IDS && ValidPage(p)
    requires Attempts(s, p) ==> Carries(Turnover(s, a.current, p, sent)[p.mid], HeldNow(s, a, p, m))
    ensures |r.current| == |r.held| == MESSAGE_IDS
  {
    var current, held := Turnover(s, a.current, p, sent), Turnover(s, a.held, p, m);
    Account(current, held, if Attempts(s, p) then a.decoded + [Received(current[p.mid], held[p.mid])] else a.decoded)
  }

  lemma {:induction false} CollectKeepsMasks(s: State, p: Page)
    requires Shaped(s) && ValidPage(p)
    ensures Collect(s, p).masks == s.masks && Collect(s, p).newMessage == s.newMessage
            && Collect(s, p).published == s.published
  {
  }

  // The pages a message ID holds after a page was collected carry its content.
  lemma {:induction false} CollectCarries(s: State, a: Account, p: Page, sent: Sent, m: HasData, c: Codec)
    requires Accounted(s, a, c) && ValidPage(p) && !s.printed[p.mid] && (WithCorrections(p) ==> Carries(sent, m))
    ensures forall mid :: 0 <= mid < MESSAGE_IDS && Collect(s, p).pids[mid] != [] ==>
                            Carries(Turnover(s, a.current, p, sent)[mid], Turnover(s, a.held, p, m)[mid])
  {
    hide Carries, AllCoherent, SlotsAgree, Outdated;
    if WithCorrections(p) {
      var f := Forget(s, p.timeStamp);
      assert forall mid :: 0 <= mid < MESSAGE_IDS ==> f.pids[mid] == [] || f.pids[mid] == s.pids[mid];
    }
  }

  // What an attempt does with the pages it finds.
  lemma {:induction false} AttemptPublishes(k: State, i: Input, sent: Sent, m: HasData, decoded: seq<Message>, c: Codec)
    requires Shaped(k) && ValidInput(i) && Carries(sent, m) && SlotsAgree(k.masks, decoded)
    requires |k.pids[i.page.mid]| == i.page.size
    requires Decode(c.decode, k.rows[i.page.mid], k.pids[i.page.mid], i.page.size) == Decoded(sent.bits)
    ensures var t := TryDecode(k, i.page, c.decode, i.left);
            var latest := Latest(decoded, m.header.maskId);
            && SlotsAgree(t.masks, decoded + [Received(sent, m)])
            && (t.newMessage ==> (t.data == m <==> UpToDate(m, latest)))
            && (Usable(m, latest) && UpToDate(m, latest) ==> t.newMessage)
  {
    hide BodyResult, SlotAfter, ParseHeader, Decode, Carries, Received, SlotsAgree, Latest;
    ReadExactly(ClearPages(k, i.page.mid), sent, m, i.left, decoded);
  }

  // An attempt that reads a message by an older mask.
  lemma {:induction false} AttemptMissesMask(k: State, i: Input, sent: Sent, m: HasData, decoded: seq<Message>,
                                             c: Codec)
    requires Shaped(k) && ValidInput(i) && Carries(sent, m) && SlotsAgree(k.masks, decoded)
    requires |k.pids[i.page.mid]| == i.page.size
    requires Decode(c.decode, k.rows[i.page.mid], k.pids[i.page.mid], i.page.size) == Decoded(sent.bits)
    requires m.header.toh <= 3599 && NoBlocks(m.header) && m.header.maskId < MASK_IDS
    requires var latest := Latest(decoded, m.header.maskId); latest.count > 0 && !UpToDate(m, latest)
    ensures var t := TryDecode(k, i.page, c.decode, i.left);
            var latest := Latest(decoded, m.header.maskId);
            t.newMessage && t.data != m && t.data.systems == latest.systems && t.data.cells == latest.cells
  {
    hide Body, SlotAfter, ParseHeader, Decode, Carries, Latest, UpToDate, Received;
    var id := m.header.maskId;
    assert SlotAgrees(k.masks[id], Latest(decoded, id));
    SplitBits(sent, m);
    MissedMask(k.masks[id], Latest(decoded, id), sent, m);
    SlotOfBody(m.header, k.masks[id], sent.bits[HEADER_BITS..], i.left);
  }

  // What the pages held after collecting page `p` carry, and what an attempt on them gives.
  lemma {:induction false} AttemptOf(s: State, a: Account, i: Input, sent: Sent, m: HasData, c: Codec)
    requires ValidInput(i) && ReedSolomon(c) && Accounted(s, a, c) && Fitting(s, a, i.page, sent, m, c)
    requires Attempts(s, i.page)
    ensures var p := i.page;
            var now, held := Turnover(s, a.current, p, sent)[p.mid], HeldNow(s, a, p, m);
            var t := TryDecode(Collect(s, p), p, c.decode, i.left);
            var latest := Latest(a.decoded, held.header.maskId);
            && Carries(now, held)
            && SlotsAgree(t.masks, a.decoded + [Received(now, held)])
            && (t.newMessage ==> (t.data == held <==> UpToDate(held, latest)))
            && (Usable(held, latest) && UpToDate(held, latest) ==> t.newMessage)
  {
    var p := i.page;
    hide Carries, AllCoherent, SlotsAgree, Collect, TryDecode, Handle, Admissible, Latest, ReedSolomon, UpToDate;
    StepCoherent(s, a.current, i, sent, c);
    CollectCarries(s, a, p, sent, m, c);
    CollectKeepsMasks(s, p);
    CollectShaped(s, p);
    AttemptPublishes(Collect(s, p), i, Turnover(s, a.current, p, sent)[p.mid], HeldNow(s, a, p, m), a.decoded, c);
  }

  lemma {:induction false} PrintedStays(s: State, i: Input, rs: Decoder)
    requires Shaped(s) && ValidInput(i) && s.printed[i.page.mid] && !s.newMessage
    ensures Handle(s, i.page, rs, i.left) == s
  {
  }

  lemma {:induction false} StepAccounted(s: State, a: Account, i: Input, sent: Sent, m: HasData, c: Codec)
    requires ValidInput(i) && ReedSolomon(c) && Accounted(s, a, c) && Fitting(s, a, i.page, sent, m, c)
    ensures var p := i.page;
            && (Attempts(s, p) ==> Carries(Turnover(s, a.current, p, sent)[p.mid], HeldNow(s, a, p, m)))
            && Accounted(Handle(s, p, c.decode, i.left), Next(s, a, p, sent, m), c)
  {
    hide Carries, AllCoherent, SlotsAgree, Collect, TryDecode, Handle, Admissible, Latest, ReedSolomon, UpToDate;
    var p := i.page;
    StepCoherent(s, a.current, i, sent, c);
    if s.printed[p.mid] {
      PrintedStays(s, i, c.decode);
    } else {
      CollectCarries(s, a, p, sent, m, c);
      StepShape(s, i, c.decode);
      if Attempts(s, p) {
        AttemptOf(s, a, i, sent, m, c);
      }
    }
  }

  // A step publishes nothing, or one message; that message is the one its pages were sent for if
  // and only if the receiver has not missed its mask. A usable one that has its mask is published.
  lemma {:induction false} StepPublishesExactly(s: State, a: Account, i: Input, sent: Sent, m: HasData, c: Codec)
    requires ValidInput(i) && ReedSolomon(c) && Accounted(s, a, c) && Fitting(s, a, i.page, sent, m, c)
    ensures var p := i.page;
            var r := Handle(s, p, c.decode, i.left);
            var held := HeldNow(s, a, p, m);
            var latest := Latest(a.decoded, held.header.maskId);
            && (r.published == s.published ||
                (Attempts(s, p) && exists data :: r.published == s.published + [Publication(p.mid, p.timeStamp, data)]
                                                  && (data == held <==> UpToDate(held, latest))))
            && (Attempts(s, p) && Usable(held, latest) && UpToDate(held, latest) ==>
                  r.published == s.published + [Publication(p.mid, p.timeStamp, held)])
  {
    hide Carries, AllCoherent, SlotsAgree, Collect, TryDecode, Admissible, Latest, ReedSolomon, UpToDate, Fitting;
    var p := i.page;
    if !s.printed[p.mid] {
      hide Handle;
      StepShape(s, i, c.decode);
      if Attempts(s, p) {
        AttemptOf(s, a, i, sent, m, c);
        var t := TryDecode(Collect(s, p), p, c.decode, i.left);
        if t.newMessage {
          assert s.published + [Publication(p.mid, p.timeStamp, t.data)] == Handle(s, p, c.decode, i.left).published;
        }
      }
    }
  }

  lemma {:induction false} CollectShaped(s: State, p: Page)
    requires Shaped(s) && ValidPage(p)
    ensures Shaped(Collect(s, p))
  {
  }

  // An unprinted page is collected, and publishes what an attempt makes ready.
  lemma {:induction false} StepShape(s: State, i: Input, rs: Decoder)
    requires Shaped(s) && ValidInput(i) && !s.printed[i.page.mid] && !s.newMessage
    ensures var p := i.page;
            var k := Collect(s, p);
            var t := TryDecode(k, p, rs, i.left);
            var r := Handle(s, p, rs, i.left);
            && r.masks == t.masks && !r.newMessage
            && r.published == (if t.newMessage then s.published + [Publication(p.mid, p.timeStamp, t.data)]
                               else s.published)
            && (t.newMessage ==> Attempts(s, p)) && (!Attempts(s, p) ==> t.masks == s.masks)
            && (forall mid :: 0 <= mid < MESSAGE_IDS && r.pids[mid] != [] ==> k.pids[mid] != [])
  {
    hide Collect, Decode, BodyResult, SlotAfter, ParseHeader;
    CollectKeepsMasks(s, i.page);
    HandleShaped(s, i, rs);
  }

  // A message whose body breaks off, or announces a clock subset block, is not published.
  lemma {:induction false} UnreadableNotPublished(s: State, i: Input, rs: Decoder)
    requires Shaped(s) && ValidInput(i) && !s.newMessage && !s.printed[i.page.mid]
    requires var k, p := Collect(s, i.page), i.page;
             |k.pids[p.mid]| == p.size ==>
               var d := Decode(rs, k.rows[p.mid], k.pids[p.mid], p.size);
               d.Decoded? ==> BodyResult(k, d.bits).Failed?
    ensures Handle(s, i.page, rs, i.left).published == s.published
  {
    hide Decode, BodyResult, SlotAfter, ParseHeader, Forget, Annotate;
    CollectKeepsPublished(s, i.page);
    BodyAfterClear(Collect(s, i.page), i, rs);
  }

  lemma {:induction false} CollectKeepsPublished(s: State, p: Page)
    requires Shaped(s) && ValidPage(p)
    ensures Collect(s, p).published == s.published && Collect(s, p).newMessage == s.newMessage
  {
    hide Outdated;
  }

  // Clearing pages does not change the masks a body is read with.
  lemma {:induction false} BodyAfterClear(k: State, i: Input, rs: Decoder)
    requires Shaped(k) && ValidInput(i)
    ensures forall bits :: |bits| >= HEADER_BITS ==>
              BodyResult(ClearPages(k, i.page.mid), bits) == BodyResult(k, bits)
  {
    hide Body, ParseHeader;
  }

  // ---- every run --------------------------------------------------------------------------------------

  // A run of fitting pages in which the receiver has the mask of every message it decodes, or none.
  ghost predicate ReadableRun(s: State, a: Account, inputs: seq<Input>, messages: seq<Sent>, contents: seq<HasData>,
                              c: Codec)
    requires ReedSolomon(c) && Accounted(s, a, c) && |inputs| == |messages| == |contents|
    requires forall k :: 0 <= k < |inputs| ==> ValidInput(inputs[k])
    decreases |inputs|
  {
    inputs == [] ||
    var i, sent, m := inputs[0], messages[0], contents[0];
    assert ValidInput(inputs[0]);
    && Fitting(s, a, i.page, sent, m, c)
    && (StepAccounted(s, a, i, sent, m, c);
        var held := HeldNow(s, a, i.page, m);
        && (Attempts(s, i.page) ==> UpToDate(held, Latest(a.decoded, held.header.maskId)))
        && ReadableRun(Handle(s, i.page, c.decode, i.left), Next(s, a, i.page, sent, m), inputs[1..], messages[1..],
                       contents[1..], c))
  }

  // q carries the content of a message sent under its message ID: of the one held at the start, or
  // of one sent with a page of the run.
  ghost predicate WasSent(q: Publication, held: seq<HasData>, inputs: seq<Input>, contents: seq<HasData>)
    requires |held| == MESSAGE_IDS && |inputs| == |contents|
  {
    q.mid < MESSAGE_IDS &&
    (q.data == held[q.mid] || exists k :: 0 <= k < |inputs| && SentWith(q, inputs[k].page, contents[k]))
  }

  predicate SentWith(q: Publication, p: Page, m: HasData) {
    WithCorrections(p) && p.mid == q.mid && m == q.data
  }

  // Everything a run publishes is, field by field, a message that was sent: for every arrival
  // order, duplicates, interleaving of message IDs, loss of pages and changes of masks.
  lemma {:induction false} PublishedWasSent(s: State, a: Account, inputs: seq<Input>, messages: seq<Sent>,
                                            contents: seq<HasData>, c: Codec)
    requires ReedSolomon(c) && Accounted(s, a, c) && |inputs| == |messages| == |contents|
    requires forall j :: 0 <= j < |inputs| ==> ValidInput(inputs[j])
    requires ReadableRun(s, a, inputs, messages, contents, c)
    ensures s.published <= Run(s, inputs, c.decode).published
    ensures AllSent(Run(s, inputs, c.decode).published, |s.published|, a.held, inputs, contents)
    decreases |inputs|
  {
    if inputs != [] {
      var i, sent, m := inputs[0], messages[0], contents[0];
      assert ValidInput(inputs[0]);
      hide Carries, Handle, AllCoherent, Fitting, ReedSolomon, Attempts, UpToDate, Turnover, WasSent, AllSent;
      StepAccounted(s, a, i, sent, m, c);
      StepSent(s, a, i, sent, m, c);
      var r, b := Handle(s, i.page, c.decode, i.left), Next(s, a, i.page, sent, m);
      PublishedWasSent(r, b, inputs[1..], messages[1..], contents[1..], c);
      JoinSent(s, a, r.published, Run(s, inputs, c.decode).published, inputs, contents);
    }
  }

  // Everything from `start` on was sent.
  ghost predicate AllSent(published: seq<Publication>, start: nat, held: seq<HasData>, inputs: seq<Input>,
                          contents: seq<HasData>)
    requires |held| == MESSAGE_IDS && |inputs| == |contents|
  {
    forall j :: start <= j < |published| ==> WasSent(published[j], held, inputs, contents)
  }

  lemma {:induction false} StepSent(s: State, a: Account, i: Input, sent: Sent, m: HasData, c: Codec)
    requires ValidInput(i) && ReedSolomon(c) && Accounted(s, a, c) && Fitting(s, a, i.page, sent, m, c)
    requires var held := HeldNow(s, a, i.page, m);
             Attempts(s, i.page) ==> UpToDate(held, Latest(a.decoded, held.header.maskId))
    ensures var r := Handle(s, i.page, c.decode, i.left);
            s.published <= r.published && AllSent(r.published, |s.published|, Turnover(s, a.held, i.page, m), [], [])
  {
    hide Carries, Handle, AllCoherent, Fitting, ReedSolomon, Attempts, UpToDate, Turnover, Latest;
    StepPublishesExactly(s, a, i, sent, m, c);
  }

  lemma {:induction false} JoinSent(s: State, a: Account, some: seq<Publication>, all: seq<Publication>,
                                    inputs: seq<Input>, contents: seq<HasData>)
    requires Shaped(s) && |a.held| == MESSAGE_IDS && |inputs| == |contents| > 0 && inputs[0].page.mid < MESSAGE_IDS
    requires s.published <= some <= all
    requires var held := Turnover(s, a.held, inputs[0].page, contents[0]);
             AllSent(some, |s.published|, held, [], []) && AllSent(all, |some|, held, inputs[1..], contents[1..])
    ensures AllSent(all, |s.published|, a.held, inputs, contents)
  {
    hide Turnover, Shaped;
    var held := Turnover(s, a.held, inputs[0].page, contents[0]);
    forall j | |s.published| <= j < |all|
      ensures WasSent(all[j], a.held, inputs, contents)
    {
      if j < |some| {
        assert all[j] == some[j] && WasSent(some[j], held, [], []);
      }
      SentBefore(all[j], s, a, inputs, contents);
    }
  }

  lemma {:induction false} SentBefore(q: Publication, s: State, a: Account, inputs: seq<Input>, contents: seq<HasData>)
    requires Shaped(s) && |a.held| == MESSAGE_IDS && |inputs| == |contents| > 0 && inputs[0].page.mid < MESSAGE_IDS
    requires WasSent(q, Turnover(s, a.held, inputs[0].page, contents[0]), inputs[1..], contents[1..])
    ensures WasSent(q, a.held, inputs, contents)
  {
    var held := Turnover(s, a.held, inputs[0].page, contents[0]);
    if q.data == held[q.mid] {
      assert q.data == a.held[q.mid] || SentWith(q, inputs[0].page, contents[0]);
    } else {
      var k :| 0 <= k < |inputs[1..]| && SentWith(q, inputs[1..][k].page, contents[1..][k]);
      assert SentWith(q, inputs[k + 1].page, contents[k + 1]);
    }
  }
}
