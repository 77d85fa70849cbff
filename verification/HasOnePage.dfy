// Runs of one-page messages from the initial state: one is published, its message ID stays silent,
// and a message whose mask was missed is published with the wrong one.
module HasOnePage {
  import opened Arithmetic
  import opened HasBits
  import opened HasMessage
  import opened HasParser
  import opened HasEncoder
  import opened HasPages
  import opened HasProtocol
  import opened HasRuns
  import opened HasWindow
  import opened HasMaskStore
  import opened HasDelivery
  import opened HasReception

  // The page of a one-page message.
  ghost predicate OnePage(i: Input, sent: Sent, m: HasData, c: Codec) {
    ValidInput(i) && WithCorrections(i.page) && PageOf(i.page, sent, c) && sent.size == 1 && Carries(sent, m)
  }

  // One that brings its own mask, and can be used.
  ghost predicate WithMask(m: HasData) {
    m.header.maskFlag && m.header.toh <= 3599
  }

  lemma {:induction false} OnePageCompletes(i: Input, sent: Sent, m: HasData, c: Codec)
    requires OnePage(i, sent, m, c)
    ensures Completes([], i, i.page.mid, sent, i.page.timeStamp, c)
  {
  }

  lemma {:induction false} RunOfOne(s: State, i: Input, rs: Decoder)
    requires Shaped(s) && ValidInput(i)
    ensures Run(s, [], rs) == s && Run(s, [i], rs) == Handle(s, i.page, rs, i.left)
  {
    hide Handle;
    RunSnoc(s, [], i, rs);
    assert [] + [i] == [i];
  }

  lemma {:induction false} InitialUntouched(mid: nat)
    requires mid < MESSAGE_IDS
    ensures Untouched(Initial(), mid) && Initial().published == []
  {
    hide InitialSlot;
  }

  // A one-page message that brings its mask is published at once.
  lemma {:induction false} FirstPublished(i: Input, sent: Sent, m: HasData, c: Codec)
    requires ReedSolomon(c) && OnePage(i, sent, m, c) && WithMask(m)
    ensures Publishes(Initial(), Run(Initial(), [i], c.decode), i.page, m)
  {
    OnePageCompletes(i, sent, m, c);
    InitialUntouched(i.page.mid);
    hide ReedSolomon, OnePage, Completes, Carries, Handle, Run;
    RunOfOne(Initial(), i, c.decode);
    ReceptionPublishes(Initial(), [], i, i.page.mid, sent, m, i.page.timeStamp, c);
  }

  // From then on nothing under that message ID is stored, released or published, however late it
  // comes.
  lemma {:induction false} SilentAfterFirst(i: Input, sent: Sent, m: HasData, later: seq<Input>, c: Codec)
    requires ReedSolomon(c) && OnePage(i, sent, m, c) && WithMask(m)
    requires forall k :: 0 <= k < |later| ==> ValidInput(later[k]) && later[k].page.mid == i.page.mid
    ensures forall k :: 0 <= k < |later| + 1 ==> ValidInput(([i] + later)[k])
    ensures var s := Run(Initial(), [i], c.decode);
            Publishes(Initial(), s, i.page, m) && Run(Initial(), [i] + later, c.decode) == s
  {
    hide Handle, ReedSolomon, Carries, WithMask, Initial, PageOf, Run, Shaped;
    FirstPublished(i, sent, m, c);
    RunOfOne(Initial(), i, c.decode);
    SilentWhilePrinted(Run(Initial(), [i], c.decode), later, c.decode);
    RunCons(Initial(), i, later, c.decode);
  }

  lemma {:induction false} RunCons(s: State, i: Input, later: seq<Input>, rs: Decoder)
    requires Shaped(s) && ValidInput(i) && forall k :: 0 <= k < |later| ==> ValidInput(later[k])
    ensures forall k :: 0 <= k < |later| + 1 ==> ValidInput(([i] + later)[k])
    ensures Shaped(Handle(s, i.page, rs, i.left))
    ensures Run(s, [i] + later, rs) == Run(Handle(s, i.page, rs, i.left), later, rs)
  {
    hide Handle;
    HandleShaped(s, i, rs);
    assert ([i] + later)[0] == i && ([i] + later)[1..] == later;
  }

  // ---- a missed mask ----------------------------------------------------------------------------------

  // The account of a run before its first page.
  ghost function Nothing(sent: Sent, m: HasData): (a: Account) {
    Account(seq(MESSAGE_IDS, k => sent), seq(MESSAGE_IDS, k => m), [])
  }

  lemma {:induction false} NothingAccounted(sent: Sent, m: HasData, c: Codec)
    ensures Accounted(Initial(), Nothing(sent, m), c)
  {
  }

  lemma {:induction false} FirstAccounted(i: Input, sent: Sent, m: HasData, c: Codec)
    requires ReedSolomon(c) && OnePage(i, sent, m, c) && WithMask(m)
    ensures var s := Handle(Initial(), i.page, c.decode, i.left);
            && Shaped(s) && SlotsAgree(s.masks, [Received(sent, m)])
            && Latest([Received(sent, m)], m.header.maskId) == MaskOf(m) && MaskOf(m).count > 0
  {
    var a := Nothing(sent, m);
    NothingAccounted(sent, m, c);
    OnePageCompletes(i, sent, m, c);
    InitialUntouched(i.page.mid);
    RunOfOne(Initial(), i, c.decode);
    hide Handle, AllCoherent, ReedSolomon, Completes, Collect, Decode, Run, Carries, PageOf, SlotsAgree;
    Reception(Initial(), [], i, i.page.mid, sent, i.page.timeStamp, c);
    StepCoherent(Initial(), a.current, i, sent, c);
    StepAccounted(Initial(), a, i, sent, m, c);
    assert [] + [Received(sent, m)] == [Received(sent, m)];
    FirstLatest(sent, m);
  }

  lemma {:induction false} FirstLatest(sent: Sent, m: HasData)
    requires Carries(sent, m) && WithMask(m)
    ensures Latest([Received(sent, m)], m.header.maskId) == MaskOf(m) && MaskOf(m).count > 0
  {
    assert [Received(sent, m)][..0] == [];
  }

  // Messages under another message ID find nothing held.
  lemma {:induction false} OtherUntouched(i: Input, mid: nat, c: Codec)
    requires ValidInput(i) && mid < MESSAGE_IDS && mid != i.page.mid
    ensures Untouched(Handle(Initial(), i.page, c.decode, i.left), mid)
  {
    InitialUntouched(mid);
    InitialUntouched(i.page.mid);
    CollectUntouched(Initial(), i.page, mid);
    hide Initial, Collect;
    AttemptUntouched(Initial(), i, mid, c);
  }

  lemma {:induction false} CollectUntouched(s: State, p: Page, mid: nat)
    requires Untouched(s, mid) && ValidPage(p) && mid != p.mid
    ensures Untouched(Collect(s, p), mid)
  {
    hide Outdated;
  }

  lemma {:induction false} AttemptUntouched(s: State, i: Input, mid: nat, c: Codec)
    requires Shaped(s) && ValidInput(i) && mid != i.page.mid && !s.printed[i.page.mid]
    requires Untouched(Collect(s, i.page), mid)
    ensures Untouched(Handle(s, i.page, c.decode, i.left), mid)
  {
    HandleShaped(s, i, c.decode);
    hide Collect, Decode, BodyResult, SlotAfter, ParseHeader, Shaped;
  }

  // A message whose mask was missed, read after the message m0 that brought the mask known instead.
  lemma {:induction false} SecondMisses(s: State, i: Input, sent: Sent, m: HasData, sent0: Sent, m0: HasData, c: Codec)
    requires ReedSolomon(c) && OnePage(i, sent, m, c) && Untouched(s, i.page.mid)
    requires Carries(sent0, m0) && WithMask(m0) && SlotsAgree(s.masks, [Received(sent0, m0)])
    requires Missed(m, m0)
    ensures var r := Handle(s, i.page, c.decode, i.left);
            && |r.published| == |s.published| + 1 && r.published[..|s.published|] == s.published
            && ReadAs(r.published[|s.published|], i.page, m, m0)
  {
    OnePageCompletes(i, sent, m, c);
    FirstLatest(sent0, m0);
    hide Handle, ReedSolomon, Completes, Collect, Decode, Run, Carries, PageOf, SlotsAgree, Latest, TryDecode;
    RunOfOne(s, i, c.decode);
    Reception(s, [], i, i.page.mid, sent, i.page.timeStamp, c);
    CollectShaped(s, i.page);
    CollectKeepsMasks(s, i.page);
    AttemptMissesMask(Collect(s, i.page), i, sent, m, [Received(sent0, m0)], c);
    StepShape(s, i, c.decode);
  }

  // m has no mask of its own and no block, and was made for a mask other than the one of m0.
  ghost predicate Missed(m: HasData, m0: HasData) {
    && m.header.maskId == m0.header.maskId < MASK_IDS && !m.header.maskFlag
    && m.header.toh <= 3599 && NoBlocks(m.header) && (m.systems != m0.systems || m.cells != m0.cells)
  }

  // Published with page p: not m, but something with the mask of m0.
  ghost predicate ReadAs(q: Publication, p: Page, m: HasData, m0: HasData) {
    && q.mid == p.mid && q.timeStamp == p.timeStamp && q.data != m
    && q.data.systems == m0.systems && q.data.cells == m0.cells
  }

  // Everything published in a run of two pages.
  ghost function PublishedByTwo(i0: Input, i1: Input, c: Codec): seq<Publication>
    requires ValidInput(i0) && ValidInput(i1)
  {
    Run(Initial(), [i0, i1], c.decode).published
  }

  // The run that fails: a message brings a mask; then a message of another message ID under the same
  // mask ID, made for a different mask that never arrived, announces no block. It is published, not
  // as it was sent, but with the mask of the first.
  lemma {:induction false} WrongMaskPublished(i0: Input, sent0: Sent, m0: HasData, i1: Input, sent1: Sent, m1: HasData,
                                              c: Codec)
    requires ValidInput(i0) && ValidInput(i1) && i1.page.mid != i0.page.mid
    requires ReedSolomon(c) && OnePage(i0, sent0, m0, c) && WithMask(m0) && OnePage(i1, sent1, m1, c) && Missed(m1, m0)
    ensures var published := PublishedByTwo(i0, i1, c);
            && |published| == 2 && published[0] == Publication(i0.page.mid, i0.page.timeStamp, m0)
            && ReadAs(published[1], i1.page, m1, m0)
  {
    hide Handle, ReedSolomon, Run, Carries, PageOf, SlotsAgree, Latest, Missed, ReadAs, Untouched, Initial, Shaped;
    FirstPublished(i0, sent0, m0, c);
    FirstAccounted(i0, sent0, m0, c);
    OtherUntouched(i0, i1.page.mid, c);
    InitialUntouched(i0.page.mid);
    RunOfOne(Initial(), i0, c.decode);
    RunOfTwo(Initial(), i0, i1, c.decode);
    hide OnePage, WithMask;
    var s := Handle(Initial(), i0.page, c.decode, i0.left);
    assert s.published == [Publication(i0.page.mid, i0.page.timeStamp, m0)];
    SecondMisses(s, i1, sent1, m1, sent0, m0, c);
    var r := Handle(s, i1.page, c.decode, i1.left);
    assert r.published[0] == r.published[..1][0] == s.published[0];
  }

  // ---- such messages exist ------------------------------------------------------------------------------

  // A message about one GPS satellite, the one that the mask `satellites` names.
  function SampleContent(maskFlag: bool, satellites: nat): HasData {
    Blank(Header(0, maskFlag, false, false, false, false, false, 0, 0, 0))
      .(nsys := 1, systems := [SystemMask(GPS, satellites, 1, false, 0)], cells := [[[false]]])
  }

  lemma {:induction false} SampleWellFormed(maskFlag: bool, satellites: nat)
    requires satellites == 1 || satellites == 2
    ensures WellFormed(SampleContent(maskFlag, satellites))
  {
    hide Pow2;
    var m := SampleContent(maskFlag, satellites);
    assert PopCount(0) == 0 && PopCount(1) == 1 && PopCount(2) == 1;
    LargePowers();
    assert m.systems[1..] == [];
  }

  lemma {:induction false} LargePowers()
    ensures Pow2(SATELLITE_MASK) > 2 && Pow2(SIGNAL_MASK) > 1 && Pow2(12) > 0
  {
    Pow2Monotone(2, SATELLITE_MASK);
    Pow2Monotone(2, SIGNAL_MASK);
    assert Pow2(2) == 4;
  }

  // The bits of the sample, padded to a page.
  function SampleSent(maskFlag: bool, satellites: nat): (sent: Sent)
    requires satellites == 1 || satellites == 2
  {
    SampleWellFormed(maskFlag, satellites);
    var m := SampleContent(maskFlag, satellites);
    OnePageOf(EncodeHeader(m.header) + EncodeMask(m))
  }

  // A text as a message of one page.
  function OnePageOf(text: string): Sent {
    Sent(1, text + seq(if |text| < PAGE_BITS then PAGE_BITS - |text| else 0, k => '0'))
  }

  lemma {:induction false} SampleCarried(maskFlag: bool, satellites: nat)
    requires satellites == 1 || satellites == 2
    ensures Carries(SampleSent(maskFlag, satellites), SampleContent(maskFlag, satellites))
  {
    hide EncodeHeader, EncodeMask, WellFormed, Carries, IsBits, OnePageOf;
    SampleWellFormed(maskFlag, satellites);
    var m := SampleContent(maskFlag, satellites);
    SampleMask(maskFlag, satellites);
    HeaderBits(m.header);
    PaddedCarries(m);
  }

  // A header and a mask, padded to a page, carry a message without blocks.
  lemma {:induction false} PaddedCarries(m: HasData)
    requires WellFormed(m) && NoBlocks(m.header) && IsBits(EncodeHeader(m.header)) && IsBits(EncodeMask(m))
    requires |EncodeMask(m)| <= 100
    ensures Carries(OnePageOf(EncodeHeader(m.header) + EncodeMask(m)), m)
  {
    hide EncodeHeader, EncodeMask, FitsOrbits, FitsClock, FitsBiases;
    assert EncodeBody(m) == EncodeMask(m) + "";
    assert EncodeHeader(m.header) + EncodeBody(m) == EncodeHeader(m.header) + EncodeMask(m);
  }

  lemma {:induction false} HeaderBits(h: Header)
    ensures IsBits(EncodeHeader(h))
  {
    hide Write;
  }

  lemma {:induction false} SampleMask(maskFlag: bool, satellites: nat)
    ensures var m := SampleContent(maskFlag, satellites); |EncodeMask(m)| <= 100 && IsBits(EncodeMask(m))
  {
    hide Write;
    var m := SampleContent(maskFlag, satellites);
    var parts := SystemParts(m.systems, m.cells);
    assert parts[1..] == [];
    assert Concat(parts) == parts[0] + "";
  }

  // The page of a one-page message.
  function SampleInput(c: Codec, sent: Sent, status: nat, mid: nat, left: Leftover): Input
    requires |sent.bits| == PAGE_BITS * sent.size
  {
    Input(Page(status, 1, mid, 1, 1, 1, RowText(CodeRow(c, sent, 0))), left)
  }

  // Two pages that meet the conditions of WrongMaskPublished, in test or operational mode.
  lemma {:induction false} WrongMaskOccurs(c: Codec, status: nat, left: Leftover)
    requires ValidSlot(left.slot) && status in {0, 1}
    ensures var sent0, m0 := SampleSent(true, 1), SampleContent(true, 1);
            var sent1, m1 := SampleSent(false, 2), SampleContent(false, 2);
            && Carries(sent0, m0) && Carries(sent1, m1)
            && OnePage(SampleInput(c, sent0, status, 0, left), sent0, m0, c) && WithMask(m0)
            && OnePage(SampleInput(c, sent1, status, 1, left), sent1, m1, c) && Missed(m1, m0)
  {
    SampleCarried(true, 1);
    SampleCarried(false, 2);
    SampleMissed();
    hide Carries, CodeRow, RowText, SampleSent, SampleContent, IsBits, WithMask, Missed, OnePage;
    SampleSizes();
    SampleIsOnePage(c, SampleSent(true, 1), SampleContent(true, 1), status, 0, left);
    SampleIsOnePage(c, SampleSent(false, 2), SampleContent(false, 2), status, 1, left);
  }

  lemma {:induction false} SampleSizes()
    ensures SampleSent(true, 1).size == SampleSent(false, 2).size == 1
  {
  }

  lemma {:induction false} SampleMissed()
    ensures WithMask(SampleContent(true, 1)) && Missed(SampleContent(false, 2), SampleContent(true, 1))
  {
    assert SampleContent(true, 1).systems[0] != SampleContent(false, 2).systems[0];
  }

  lemma {:induction false} SampleIsOnePage(c: Codec, sent: Sent, m: HasData, status: nat, mid: nat, left: Leftover)
    requires ValidSlot(left.slot) && Carries(sent, m) && sent.size == 1 && mid < MESSAGE_IDS && status in {0, 1}
    ensures OnePage(SampleInput(c, sent, status, mid, left), sent, m, c)
  {
    hide CodeRow, WellFormed;
    assert |RowText(CodeRow(c, sent, 0))| == PAGE_BITS;
  }
}
