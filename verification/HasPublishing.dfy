// What is published, told from the pages alone: when every page and mask comes as planned, a run from
// the initial state publishes nothing but what was sent.
module HasPublishing {
  import opened HasBits
  import opened HasMessage
  import opened HasParser
  import opened HasEncoder
  import opened HasPages
  import opened HasProtocol
  import opened HasRuns
  import opened HasMaskStore
  import opened HasDelivery
  import opened HasReception
  import opened HasOnePage

  // ---- conditions on the pages ---------------------------------------------------------------------

  // `masks` says which mask each mask ID stands for.
  ghost predicate FollowsPlan(m: HasData, masks: seq<Mask>) {
    |masks| == MASK_IDS && m.header.maskId < MASK_IDS && MaskOf(m) == masks[m.header.maskId]
  }

  // Stored pages carry messages that keep to the masks.
  ghost predicate Planned(inputs: seq<Input>, messages: seq<Sent>, contents: seq<HasData>, masks: seq<Mask>) {
    && |inputs| == |messages| == |contents|
    && forall k :: 0 <= k < |inputs| && WithCorrections(inputs[k].page) ==>
                     Carries(messages[k], contents[k]) && FollowsPlan(contents[k], masks)
  }

  // No page before number b is stored under its message ID.
  ghost predicate NoneBefore(inputs: seq<Input>, mid: nat, start: nat, b: nat)
    requires b <= |inputs|
  {
    forall k :: start <= k < b ==> !(WithCorrections(inputs[k].page) && inputs[k].page.mid == mid)
  }

  // A page that is not stored carries the size of the message whose page came last under its ID.
  ghost predicate Sized(inputs: seq<Input>, messages: seq<Sent>)
    requires |inputs| == |messages|
  {
    forall a, b :: 0 <= a < b < |inputs| && SizedPair(inputs, a, b) ==> inputs[b].page.size == messages[a].size
  }

  ghost predicate SizedPair(inputs: seq<Input>, a: nat, b: nat)
    requires a < b < |inputs|
  {
    && WithCorrections(inputs[a].page) && !WithCorrections(inputs[b].page) && inputs[a].page.mid == inputs[b].page.mid
    && NoneBefore(inputs, inputs[a].page.mid, a + 1, b)
  }

  // ---- what a run keeps -------------------------------------------------------------------------------

  // A page to come that is not stored carries the size of the message held under its ID.
  ghost predicate SizesHeld(s: State, current: seq<Sent>, inputs: seq<Input>)
    requires Shaped(s) && |current| == MESSAGE_IDS
  {
    forall b :: 0 <= b < |inputs| ==> SizeHeld(s, current, inputs, b)
  }

  ghost predicate SizeHeld(s: State, current: seq<Sent>, inputs: seq<Input>, b: nat)
    requires Shaped(s) && |current| == MESSAGE_IDS && b < |inputs|
  {
    var q := inputs[b].page;
    q.mid < MESSAGE_IDS && !WithCorrections(q) && s.pids[q.mid] != [] && NoneBefore(inputs, q.mid, 0, b) ==>
      q.size == current[q.mid].size
  }

  ghost predicate PrintedEmpty(s: State)
    requires Shaped(s)
  {
    forall mid :: 0 <= mid < MESSAGE_IDS && s.printed[mid] ==> s.pids[mid] == []
  }

  // What is held and what was decoded keeps to the masks.
  ghost predicate KeepsPlan(s: State, a: Account, masks: seq<Mask>)
    requires Shaped(s) && |a.held| == MESSAGE_IDS
  {
    |masks| == MASK_IDS && HeldPlanned(s, a.held, masks) && DecodedPlanned(a.decoded, masks)
  }

  ghost predicate HeldPlanned(s: State, held: seq<HasData>, masks: seq<Mask>)
    requires Shaped(s) && |held| == MESSAGE_IDS
  {
    forall mid :: 0 <= mid < MESSAGE_IDS && s.pids[mid] != [] ==> FollowsPlan(held[mid], masks)
  }

  ghost predicate DecodedPlanned(decoded: seq<Message>, masks: seq<Mask>)
    requires |masks| == MASK_IDS
  {
    forall id :: 0 <= id < MASK_IDS ==> UnknownOr(Latest(decoded, id), masks[id])
  }

  predicate UnknownOr(latest: Mask, mask: Mask) {
    latest.count == 0 || latest == mask
  }

  ghost predicate OnPlan(s: State, a: Account, inputs: seq<Input>, messages: seq<Sent>, masks: seq<Mask>, c: Codec) {
    && Accounted(s, a, c) && |inputs| == |messages|
    && Settled(s, a.current, inputs, messages) && SizesHeld(s, a.current, inputs) && PrintedEmpty(s)
    && KeepsPlan(s, a, masks)
  }

  // The conditions on the pages to come.
  ghost predicate PagesPlanned(inputs: seq<Input>, messages: seq<Sent>, contents: seq<HasData>, masks: seq<Mask>,
                               c: Codec) {
    && Timed(inputs) && SentApart(inputs, messages, c)
    && Planned(inputs, messages, contents, masks) && Sized(inputs, messages)
  }

  lemma {:induction false} RestPlanned(inputs: seq<Input>, messages: seq<Sent>, contents: seq<HasData>,
                                       masks: seq<Mask>, c: Codec)
    requires PagesPlanned(inputs, messages, contents, masks, c) && inputs != []
    ensures PagesPlanned(inputs[1..], messages[1..], contents[1..], masks, c)
  {
    hide PageOf, Carries, FollowsPlan;
    var rest, later := inputs[1..], messages[1..];
    forall a, b | 0 <= a < b < |rest| && SizedPair(rest, a, b)
      ensures rest[b].page.size == later[a].size
    {
      assert forall k :: a + 2 <= k < b + 1 ==> inputs[k] == rest[k - 1];
      assert SizedPair(inputs, a + 1, b + 1);
    }
  }

  // ---- one call -----------------------------------------------------------------------------------------

  // The next page fits what is held, and an attempt has the mask of its message.
  lemma {:induction false} FirstFits(s: State, a: Account, inputs: seq<Input>, messages: seq<Sent>,
                                     contents: seq<HasData>, masks: seq<Mask>, c: Codec)
    requires ReedSolomon(c) && OnPlan(s, a, inputs, messages, masks, c) && inputs != []
    requires PagesPlanned(inputs, messages, contents, masks, c)
    ensures ValidInput(inputs[0]) && Fitting(s, a, inputs[0].page, messages[0], contents[0], c)
    ensures Attempts(s, inputs[0].page) ==>
              var held := HeldNow(s, a, inputs[0].page, contents[0]);
              FollowsPlan(held, masks) && UpToDate(held, Latest(a.decoded, held.header.maskId))
  {
    hide ReedSolomon, OnPlan, PagesPlanned, FollowsPlan, Fitting, Latest, Collect;
    FirstFitting(s, a, inputs, messages, contents, masks, c);
    PlanNow(s, a, inputs, messages, contents, masks, c);
    if Attempts(s, inputs[0].page) {
      AttemptOnPlan(s, a, inputs[0].page, contents[0], masks);
    }
  }

  lemma {:induction false} PlanNow(s: State, a: Account, inputs: seq<Input>, messages: seq<Sent>,
                                   contents: seq<HasData>, masks: seq<Mask>, c: Codec)
    requires OnPlan(s, a, inputs, messages, masks, c) && inputs != []
    requires PagesPlanned(inputs, messages, contents, masks, c)
    ensures ValidInput(inputs[0]) && Shaped(s) && |a.held| == MESSAGE_IDS && KeepsPlan(s, a, masks) && contents != []
    ensures WithCorrections(inputs[0].page) ==> FollowsPlan(contents[0], masks)
  {
    hide KeepsPlan, PageOf, Carries, AllCoherent, SlotsAgree, Settled, SentApart, FollowsPlan, Sized;
    assert ValidInput(inputs[0]);
  }

  lemma {:induction false} FirstFitting(s: State, a: Account, inputs: seq<Input>, messages: seq<Sent>,
                                        contents: seq<HasData>, masks: seq<Mask>, c: Codec)
    requires ReedSolomon(c) && OnPlan(s, a, inputs, messages, masks, c) && inputs != []
    requires PagesPlanned(inputs, messages, contents, masks, c)
    ensures ValidInput(inputs[0]) && Fitting(s, a, inputs[0].page, messages[0], contents[0], c)
  {
    FirstAdmissible(s, a, inputs, messages, contents, masks, c);
    hide PageOf, Carries, AllCoherent, SlotsAgree, ReedSolomon, Settled, SentApart, Timed, Latest, SizesHeld;
    hide Admissible, Sized, FollowsPlan, Collect, Timely, KeepsPlan, OnPlan, PagesPlanned;
    var p := inputs[0].page;
    if !s.printed[p.mid] {
      StepCoherent(s, a.current, inputs[0], messages[0], c);
      if !WithCorrections(p) {
        OtherTimely(s, a.current, inputs);
      }
    }
  }

  lemma {:induction false} FirstAdmissible(s: State, a: Account, inputs: seq<Input>, messages: seq<Sent>,
                                           contents: seq<HasData>, masks: seq<Mask>, c: Codec)
    requires OnPlan(s, a, inputs, messages, masks, c) && inputs != []
    requires PagesPlanned(inputs, messages, contents, masks, c)
    ensures ValidInput(inputs[0]) && Shaped(s) && |a.current| == |a.held| == MESSAGE_IDS && AllCoherent(s, a.current, c)
    ensures SizesHeld(s, a.current, inputs) && |inputs| == |messages| == |contents|
    ensures Admissible(s, a.current, inputs[0].page, messages[0], c)
    ensures WithCorrections(inputs[0].page) ==> Carries(messages[0], contents[0])
  {
    hide PageOf, Carries, AllCoherent, SlotsAgree, Settled, SentApart, Latest, Sized, FollowsPlan, KeepsPlan, SizesHeld;
    assert ValidInput(inputs[0]);
    SettledIsAdmissible(s, a.current, inputs, messages, c);
  }

  lemma {:induction false} OtherTimely(s: State, current: seq<Sent>, inputs: seq<Input>)
    requires Shaped(s) && |current| == MESSAGE_IDS && inputs != [] && ValidInput(inputs[0])
    requires SizesHeld(s, current, inputs) && !WithCorrections(inputs[0].page)
    ensures Timely(s, inputs[0].page, current[inputs[0].page.mid])
  {
    assert SizeHeld(s, current, inputs, 0);
  }

  lemma {:induction false} AttemptOnPlan(s: State, a: Account, p: Page, m: HasData, masks: seq<Mask>)
    requires Shaped(s) && |a.held| == MESSAGE_IDS && ValidPage(p) && KeepsPlan(s, a, masks) && Attempts(s, p)
    requires WithCorrections(p) ==> FollowsPlan(m, masks)
    ensures var held := HeldNow(s, a, p, m);
            FollowsPlan(held, masks) && UpToDate(held, Latest(a.decoded, held.header.maskId))
  {
    hide Latest, Forget, Annotate;
  }

  lemma {:induction false} StepPrintedEmpty(s: State, i: Input, c: Codec)
    requires Shaped(s) && ValidInput(i) && !s.newMessage && PrintedEmpty(s)
    ensures Shaped(Handle(s, i.page, c.decode, i.left)) && PrintedEmpty(Handle(s, i.page, c.decode, i.left))
  {
    HandleShaped(s, i, c.decode);
    if s.printed[i.page.mid] {
      PrintedStays(s, i, c.decode);
    } else {
      CollectPrintedEmpty(s, i.page);
      AttemptPrintedEmpty(s, i, c);
    }
  }

  lemma {:induction false} CollectPrintedEmpty(s: State, p: Page)
    requires Shaped(s) && ValidPage(p) && !s.printed[p.mid] && PrintedEmpty(s)
    ensures Shaped(Collect(s, p)) && PrintedEmpty(Collect(s, p)) && Collect(s, p).newMessage == s.newMessage
  {
    hide Outdated;
  }

  lemma {:induction false} AttemptPrintedEmpty(s: State, i: Input, c: Codec)
    requires Shaped(s) && ValidInput(i) && !s.printed[i.page.mid]
    requires Shaped(Collect(s, i.page)) && PrintedEmpty(Collect(s, i.page))
    ensures Shaped(Handle(s, i.page, c.decode, i.left)) && PrintedEmpty(Handle(s, i.page, c.decode, i.left))
  {
    HandleShaped(s, i, c.decode);
    hide Collect, Decode, BodyResult, SlotAfter, ParseHeader, Shaped;
    HandleShaped(s, i, c.decode);
    CollectShaped(s, i.page);
    TryDecodeShaped(Collect(s, i.page), i, c.decode);
    var t := TryDecode(Collect(s, i.page), i.page, c.decode, i.left);
    assert t.newMessage ==> t.pids[i.page.mid] == [];
  }

  // Pages are held after a call only where they were before, or where the page was stored.
  lemma {:induction false} HeldBefore(s: State, i: Input, rs: Decoder, mid: nat)
    requires Shaped(s) && ValidInput(i) && mid < MESSAGE_IDS && !s.newMessage
    ensures Shaped(Handle(s, i.page, rs, i.left))
    ensures Handle(s, i.page, rs, i.left).pids[mid] != [] ==>
              s.pids[mid] != [] || (WithCorrections(i.page) && !s.printed[i.page.mid] && mid == i.page.mid)
  {
    HandleShaped(s, i, rs);
    if s.printed[i.page.mid] {
      PrintedStays(s, i, rs);
    } else {
      StepShape(s, i, rs);
      hide Handle, TryDecode, Outdated;
      if WithCorrections(i.page) {
        var f := Forget(s, i.page.timeStamp);
        assert f.pids[mid] == [] || f.pids[mid] == s.pids[mid];
      }
    }
  }

  lemma {:induction false} StepSized(s: State, current: seq<Sent>, inputs: seq<Input>, messages: seq<Sent>, c: Codec)
    requires Shaped(s) && |current| == MESSAGE_IDS && |inputs| == |messages| && !s.newMessage && inputs != []
    requires ValidInput(inputs[0])
    requires SizesHeld(s, current, inputs) && PrintedEmpty(s) && Sized(inputs, messages)
    ensures Shaped(Handle(s, inputs[0].page, c.decode, inputs[0].left))
    ensures SizesHeld(Handle(s, inputs[0].page, c.decode, inputs[0].left),
                      Turnover(s, current, inputs[0].page, messages[0]), inputs[1..])
  {
    var i, p := inputs[0], inputs[0].page;
    HandleShaped(s, i, c.decode);
    hide Handle;
    var r, now := Handle(s, p, c.decode, i.left), Turnover(s, current, p, messages[0]);
    forall b | 0 <= b < |inputs[1..]|
      ensures SizeHeld(r, now, inputs[1..], b)
    {
      var q := inputs[b + 1].page;
      if q.mid < MESSAGE_IDS && !WithCorrections(q) && r.pids[q.mid] != [] && NoneBefore(inputs[1..], q.mid, 0, b) {
        HeldBefore(s, i, c.decode, q.mid);
        LaterNone(inputs, q.mid, b);
        if WithCorrections(p) && p.mid == q.mid {
          PrintedUntouched(s, i, c.decode);
          assert SizedPair(inputs, 0, b + 1);
        } else {
          assert SizeHeld(s, current, inputs, b + 1);
        }
      }
    }
  }

  lemma {:induction false} PrintedUntouched(s: State, i: Input, rs: Decoder)
    requires Shaped(s) && ValidInput(i) && !s.newMessage && PrintedEmpty(s)
    ensures s.printed[i.page.mid] ==> Handle(s, i.page, rs, i.left) == s && s.pids[i.page.mid] == []
  {
    hide Collect, TryDecode;
  }

  lemma {:induction false} LaterNone(inputs: seq<Input>, mid: nat, b: nat)
    requires b + 1 < |inputs| && NoneBefore(inputs[1..], mid, 0, b)
    ensures NoneBefore(inputs, mid, 1, b + 1)
    ensures !(WithCorrections(inputs[0].page) && inputs[0].page.mid == mid) ==> NoneBefore(inputs, mid, 0, b + 1)
  {
    assert forall k :: 1 <= k < b + 1 ==> inputs[k] == inputs[1..][k - 1];
  }

  lemma {:induction false} StepKeepsPlan(s: State, a: Account, i: Input, sent: Sent, m: HasData, masks: seq<Mask>,
                                         c: Codec)
    requires ReedSolomon(c) && ValidInput(i) && Accounted(s, a, c) && Fitting(s, a, i.page, sent, m, c)
    requires KeepsPlan(s, a, masks) && (WithCorrections(i.page) ==> FollowsPlan(m, masks))
    requires Attempts(s, i.page) ==> FollowsPlan(HeldNow(s, a, i.page, m), masks)
    ensures Attempts(s, i.page) ==> Carries(Turnover(s, a.current, i.page, sent)[i.page.mid], HeldNow(s, a, i.page, m))
    ensures Shaped(Handle(s, i.page, c.decode, i.left))
    ensures KeepsPlan(Handle(s, i.page, c.decode, i.left), Next(s, a, i.page, sent, m), masks)
  {
    StepAccounted(s, a, i, sent, m, c);
    HandleShaped(s, i, c.decode);
    hide Handle, Carries, AllCoherent, SlotsAgree, ReedSolomon, Fitting, Collect, FollowsPlan, Accounted, Attempts,
         Shaped;
    hide Turnover, HeldPlanned, DecodedPlanned;
    HeldKeepPlan(s, a.held, i, m, masks, c);
    if Attempts(s, i.page) {
      DecodedKeepPlan(a.decoded, Received(Turnover(s, a.current, i.page, sent)[i.page.mid], HeldNow(s, a, i.page, m)),
                      masks);
    }
  }

  lemma {:induction false} HeldKeepPlan(s: State, held: seq<HasData>, i: Input, m: HasData, masks: seq<Mask>, c: Codec)
    requires Shaped(s) && ValidInput(i) && !s.newMessage && |held| == MESSAGE_IDS
    requires HeldPlanned(s, held, masks) && (WithCorrections(i.page) ==> FollowsPlan(m, masks))
    ensures Shaped(Handle(s, i.page, c.decode, i.left))
    ensures HeldPlanned(Handle(s, i.page, c.decode, i.left), Turnover(s, held, i.page, m), masks)
  {
    HandleShaped(s, i, c.decode);
    hide Handle, FollowsPlan;
    var r := Handle(s, i.page, c.decode, i.left);
    forall mid | 0 <= mid < MESSAGE_IDS && r.pids[mid] != []
      ensures FollowsPlan(Turnover(s, held, i.page, m)[mid], masks)
    {
      HeldBefore(s, i, c.decode, mid);
    }
  }

  lemma {:induction false} DecodedKeepPlan(decoded: seq<Message>, d: Message, masks: seq<Mask>)
    requires |masks| == MASK_IDS && FollowsPlan(d.content, masks) && DecodedPlanned(decoded, masks)
    ensures DecodedPlanned(decoded + [d], masks)
  {
    hide Latest, FollowsPlan;
    forall id | 0 <= id < MASK_IDS
      ensures UnknownOr(Latest(decoded + [d], id), masks[id])
    {
      AfterPlanned(decoded, d, masks, id);
    }
  }

  lemma {:induction false} AfterPlanned(decoded: seq<Message>, d: Message, masks: seq<Mask>, id: nat)
    requires |masks| == MASK_IDS && id < MASK_IDS && FollowsPlan(d.content, masks)
    requires UnknownOr(Latest(decoded, id), masks[id])
    ensures UnknownOr(Latest(decoded + [d], id), masks[id])
  {
    assert (decoded + [d])[..|decoded|] == decoded;
    if d.content.header.maskId == id && d.content.header.maskFlag && NoSystem(d.content) {
      assert MaskOf(d.content).count == 0;
    }
  }

  // ---- every run -------------------------------------------------------------------------------------------

  lemma {:induction false} PlannedIsReadable(s: State, a: Account, inputs: seq<Input>, messages: seq<Sent>,
                                             contents: seq<HasData>, masks: seq<Mask>, c: Codec)
    requires ReedSolomon(c) && OnPlan(s, a, inputs, messages, masks, c)
    requires PagesPlanned(inputs, messages, contents, masks, c)
    ensures forall k :: 0 <= k < |inputs| ==> ValidInput(inputs[k])
    ensures ReadableRun(s, a, inputs, messages, contents, c)
    decreases |inputs|
  {
    assert forall k :: 0 <= k < |inputs| ==> ValidInput(inputs[k]);
    if inputs != [] {
      var i, sent, m := inputs[0], messages[0], contents[0];
      FirstFits(s, a, inputs, messages, contents, masks, c);
      StepOnPlan(s, a, inputs, messages, contents, masks, c);
      RestPlanned(inputs, messages, contents, masks, c);
      hide OnPlan, PagesPlanned, Handle, Fitting, Accounted, UpToDate, ReedSolomon, Carries, Attempts;
      StepAccounted(s, a, i, sent, m, c);
      PlannedIsReadable(Handle(s, i.page, c.decode, i.left), Next(s, a, i.page, sent, m), inputs[1..], messages[1..],
                        contents[1..], masks, c);
    }
  }

  lemma {:induction false} StepOnPlan(s: State, a: Account, inputs: seq<Input>, messages: seq<Sent>,
                                      contents: seq<HasData>, masks: seq<Mask>, c: Codec)
    requires ReedSolomon(c) && OnPlan(s, a, inputs, messages, masks, c) && inputs != []
    requires PagesPlanned(inputs, messages, contents, masks, c)
    ensures ValidInput(inputs[0])
    ensures Attempts(s, inputs[0].page) ==>
              Carries(Turnover(s, a.current, inputs[0].page, messages[0])[inputs[0].page.mid],
                      HeldNow(s, a, inputs[0].page, contents[0]))
    ensures OnPlan(Handle(s, inputs[0].page, c.decode, inputs[0].left),
                   Next(s, a, inputs[0].page, messages[0], contents[0]), inputs[1..], messages[1..], masks, c)
  {
    var i, sent, m := inputs[0], messages[0], contents[0];
    FirstFits(s, a, inputs, messages, contents, masks, c);
    hide Handle, Fitting, UpToDate, ReedSolomon, Carries, AllCoherent, SlotsAgree, PageOf, Settled, SizesHeld,
         KeepsPlan;
    StepAccounted(s, a, i, sent, m, c);
    StepSettled(s, a.current, inputs, messages, c);
    StepSized(s, a.current, inputs, messages, c);
    StepPrintedEmpty(s, i, c);
    StepKeepsPlan(s, a, i, sent, m, masks, c);
  }

  lemma {:induction false} InitialOnPlan(sent: Sent, m: HasData, inputs: seq<Input>, messages: seq<Sent>,
                                         masks: seq<Mask>, c: Codec)
    requires |masks| == MASK_IDS && |inputs| == |messages|
    ensures OnPlan(Initial(), Nothing(sent, m), inputs, messages, masks, c)
  {
    hide InitialSlot;
    NothingAccounted(sent, m, c);
  }

  // From the initial state: with positive time stamps in order, message IDs that pass on after 150 s,
  // one mask for each mask ID, and other pages of the right size, everything a run publishes is a
  // message sent with one of its pages. Pages may be lost, repeated and reordered within a message.
  lemma {:induction false} PagesPublishWhatWasSent(inputs: seq<Input>, messages: seq<Sent>, contents: seq<HasData>,
                                                   masks: seq<Mask>, c: Codec, j: nat)
    requires ReedSolomon(c) && |masks| == MASK_IDS && PagesPlanned(inputs, messages, contents, masks, c)
    ensures forall k :: 0 <= k < |inputs| ==> ValidInput(inputs[k])
    ensures var published := Run(Initial(), inputs, c.decode).published;
            j < |published| ==> exists k :: 0 <= k < |inputs| && SentWith(published[j], inputs[k].page, contents[k])
  {
    assert forall k :: 0 <= k < |inputs| ==> ValidInput(inputs[k]);
    hide Handle, ReedSolomon, PagesPlanned, OnPlan, Accounted, ReadableRun, SentWith;
    InitialUntouched(0);
    var published := Run(Initial(), inputs, c.decode).published;
    if j < |published| {
      // content that is not what was published, as what is held at the start
      var other := published[j].data.(nsys := published[j].data.nsys + 1);
      var a := Nothing(Sent(0, ""), other);
      InitialOnPlan(Sent(0, ""), other, inputs, messages, masks, c);
      PlannedIsReadable(Initial(), a, inputs, messages, contents, masks, c);
      OnPlanAccounted(Initial(), a, inputs, messages, masks, c);
      PublishedWasSent(Initial(), a, inputs, messages, contents, c);
      assert WasSent(published[j], a.held, inputs, contents);
    }
  }

  lemma {:induction false} OnPlanAccounted(s: State, a: Account, inputs: seq<Input>, messages: seq<Sent>,
                                           masks: seq<Mask>, c: Codec)
    requires OnPlan(s, a, inputs, messages, masks, c)
    ensures Accounted(s, a, c)
  {
  }
}
