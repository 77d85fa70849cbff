// Ages of held pages. Time stamps are appended together with page IDs, but a decoding attempt
// that clears the page IDs leaves the time stamps behind; the age scan then looks at stale ones.
module HasAges {
  import opened HasMessage
  import opened HasParser
  import opened HasPages
  import opened HasProtocol
  import opened HasRuns

  // The time stamps of the pages actually held: the last ones stored.
  function HeldTimes(s: State, mid: nat): (t: seq<nat>)
    requires Shaped(s) && mid < MESSAGE_IDS
    ensures |t| == |s.pids[mid]|
  {
    s.times[mid][|s.times[mid]| - |s.pids[mid]|..]
  }

  // HeldTimes follows the pages: it grows by the page's time stamp when the page is stored and is
  // emptied when the pages are.
  lemma {:induction false} HeldTimesFollow(s: State, i: Input, rs: Decoder, mid: nat)
    requires Shaped(s) && ValidInput(i) && mid < MESSAGE_IDS
    ensures Shaped(Handle(s, i.page, rs, i.left))
    ensures var r := Handle(s, i.page, rs, i.left);
            || (r.pids[mid] == s.pids[mid] && HeldTimes(r, mid) == HeldTimes(s, mid))
            || (r.pids[mid] == [] && HeldTimes(r, mid) == [])
            || (r.pids[mid] == s.pids[mid] + [i.page.pid]
                && HeldTimes(r, mid) == HeldTimes(s, mid) + [i.page.timeStamp])
            || (r.pids[mid] == [i.page.pid] && HeldTimes(r, mid) == [i.page.timeStamp])
  {
    HandleShaped(s, i, rs);
    hide Collect, Handle, Shaped, HeldTimes;
    if s.printed[i.page.mid] {
      PrintedIgnored(s, i, rs, mid);
    } else {
      TimesOfCollect(s, i, rs, mid);
      CollectFollows(s, i.page, mid);
    }
  }

  lemma {:induction false} PrintedIgnored(s: State, i: Input, rs: Decoder, mid: nat)
    requires Shaped(s) && ValidInput(i) && mid < MESSAGE_IDS && s.printed[i.page.mid]
    ensures Shaped(Handle(s, i.page, rs, i.left))
    ensures var r := Handle(s, i.page, rs, i.left);
            r.pids[mid] == s.pids[mid] && HeldTimes(r, mid) == HeldTimes(s, mid)
  {
  }

  // After a page is collected only a decoding attempt changes the pages, and nothing the times.
  lemma {:induction false} TimesOfCollect(s: State, i: Input, rs: Decoder, mid: nat)
    requires Shaped(s) && ValidInput(i) && mid < MESSAGE_IDS && !s.printed[i.page.mid]
    ensures Shaped(Handle(s, i.page, rs, i.left))
    ensures var k, r := Collect(s, i.page), Handle(s, i.page, rs, i.left);
            || (r.pids[mid] == k.pids[mid] && HeldTimes(r, mid) == HeldTimes(k, mid))
            || (r.pids[mid] == [] && HeldTimes(r, mid) == [])
  {
    HandleShaped(s, i, rs);
    hide Handle, Collect, HeldTimes;
    PagesOfHandle(s, i, rs);
    var k, r := Collect(s, i.page), Handle(s, i.page, rs, i.left);
    SameTimes(k, r, mid);
  }

  lemma {:induction false} SameTimes(s: State, r: State, mid: nat)
    requires Shaped(s) && Shaped(r) && mid < MESSAGE_IDS && s.times == r.times
    ensures r.pids[mid] == s.pids[mid] ==> HeldTimes(r, mid) == HeldTimes(s, mid)
    ensures r.pids[mid] == [] ==> HeldTimes(r, mid) == []
  {
  }

  lemma {:induction false} PagesOfHandle(s: State, i: Input, rs: Decoder)
    requires Shaped(s) && ValidInput(i) && !s.printed[i.page.mid]
    ensures var k, r := Collect(s, i.page), Handle(s, i.page, rs, i.left);
            r.times == k.times && (r.pids == k.pids || r.pids == k.pids[i.page.mid := []])
  {
    hide Collect, Decode, BodyResult, SlotAfter, ParseHeader;
  }

  lemma {:induction false} CollectFollows(s: State, p: Page, mid: nat)
    requires Shaped(s) && ValidPage(p) && mid < MESSAGE_IDS
    ensures var k := Collect(s, p);
            || (k.pids[mid] == s.pids[mid] && HeldTimes(k, mid) == HeldTimes(s, mid))
            || (k.pids[mid] == [] && HeldTimes(k, mid) == [])
            || (k.pids[mid] == s.pids[mid] + [p.pid] && HeldTimes(k, mid) == HeldTimes(s, mid) + [p.timeStamp])
            || (k.pids[mid] == [p.pid] && HeldTimes(k, mid) == [p.timeStamp])
  {
    hide Forget, Annotate, HeldTimes, Shaped;
    if WithCorrections(p) {
      var f := Forget(s, p.timeStamp);
      ForgetFollows(s, p.timeStamp, mid);
      AnnotateFollows(f, p, mid);
    } else {
      assert Collect(s, p) == s;
    }
  }

  lemma {:induction false} ForgetFollows(s: State, now: nat, mid: nat)
    requires Shaped(s) && mid < MESSAGE_IDS
    ensures var f := Forget(s, now);
            (f.pids[mid] == s.pids[mid] && HeldTimes(f, mid) == HeldTimes(s, mid))
              || f.pids[mid] == HeldTimes(f, mid) == []
  {
    hide Outdated;
  }

  lemma {:induction false} AnnotateFollows(f: State, p: Page, mid: nat)
    requires Shaped(f) && ValidPage(p) && mid < MESSAGE_IDS && p.pid > 0
    ensures var k := Annotate(f, p);
            if mid == p.mid && p.pid !in f.pids[mid]
            then k.pids[mid] == f.pids[mid] + [p.pid] && HeldTimes(k, mid) == HeldTimes(f, mid) + [p.timeStamp]
            else k.pids[mid] == f.pids[mid] && HeldTimes(k, mid) == HeldTimes(f, mid)
  {
    var k := Annotate(f, p);
    if mid == p.mid && p.pid !in f.pids[mid] {
      assert k.times[mid] == f.times[mid] + [p.timeStamp];
    }
  }

  // What the time-out of HAS SIS ICD 1.0, section 6.4.1 asks for: some held page is too old.
  ghost predicate TooOld(held: seq<nat>, now: nat) {
    exists j :: 0 <= j < |held| && held[j] > 0 && now > held[j] + 150
  }

  ghost predicate Ascending(times: seq<nat>) {
    (forall j :: 0 <= j < |times| ==> times[j] > 0) && forall i, j :: 0 <= i < j < |times| ==> times[i] <= times[j]
  }

  // For pages that came in order, the age scan is right at every time exactly when the first
  // stored time stamp is that of the first held page.
  lemma {:induction false} ScanExactWhenAligned(s: State, mid: nat)
    requires Shaped(s) && mid < MESSAGE_IDS && Ascending(s.times[mid]) && s.pids[mid] != []
    ensures (forall now: nat :: Outdated(s.pids[mid], s.times[mid], now) <==> TooOld(HeldTimes(s, mid), now))
            <==> s.times[mid][0] == HeldTimes(s, mid)[0]
  {
    var pids, times, held := s.pids[mid], s.times[mid], HeldTimes(s, mid);
    forall now: nat
      ensures Outdated(pids, times, now) <==> now > times[0] + 150
      ensures TooOld(held, now) <==> now > held[0] + 150
    {
      if now > times[0] + 150 {
        assert 0 <= 0 < |pids| && times[0] > 0 && now > times[0] + 150;
      }
      if now > held[0] + 150 {
        assert 0 <= 0 < |held| && held[0] > 0 && now > held[0] + 150;
      }
    }
    if times[0] != held[0] {
      var now := times[0] + 150 + 1;
      assert Outdated(pids, times, now) && !TooOld(held, now);
    }
  }

  // A successful decoding attempt leaves time stamps without pages.
  lemma {:induction false} DecodingLeavesTimes(s: State, p: Page, rs: Decoder, left: Leftover)
    requires Shaped(s) && ValidPage(p) && |s.pids[p.mid]| == p.size
    requires Decode(rs, s.rows[p.mid], s.pids[p.mid], p.size).Decoded?
    ensures var r := TryDecode(s, p, rs, left);
            r.pids[p.mid] == [] && r.times == s.times && |r.times[p.mid]| >= p.size
  {
  }

  // ---- a run that loses a fresh page ---------------------------------------------------------------

  // A decoding call: the pages go, their time stamps stay.
  lemma {:induction false} DecodingCall(s: State, i: Input, rs: Decoder)
    requires Shaped(s) && ValidInput(i) && !s.newMessage && Clears(s, i, rs, i.page.mid)
    ensures Shaped(Handle(s, i.page, rs, i.left))
    ensures var k, r, mid := Collect(s, i.page), Handle(s, i.page, rs, i.left), i.page.mid;
            && r.pids[mid] == [] && r.times[mid] == k.times[mid] != [] && !r.newMessage
            && (r.printed[mid] ==> r.printedAt[mid] == i.page.timeStamp)
            && (forall other :: 0 <= other < MESSAGE_IDS && other != mid && !s.printed[other] ==> !r.printed[other])
  {
    HandleShaped(s, i, rs);
    CollectPrinted(s, i.page);
    hide Collect, Decode, BodyResult, SlotAfter, ParseHeader;
  }

  lemma {:induction false} CollectPrinted(s: State, p: Page)
    requires Shaped(s) && ValidPage(p)
    ensures Collect(s, p).newMessage == s.newMessage
    ensures forall mid :: 0 <= mid < MESSAGE_IDS && !s.printed[mid] ==> !Collect(s, p).printed[mid]
  {
    hide Outdated;
  }

  // A stored page of another message ID more than 150 s later releases the ID; the time stamps left
  // behind stay, because without pages nothing is scanned.
  lemma {:induction false} ReleasingCall(s: State, q: Input, rs: Decoder, mid: nat)
    requires Shaped(s) && ValidInput(q) && !s.newMessage && mid < MESSAGE_IDS && s.pids[mid] == []
    requires WithCorrections(q.page) && q.page.mid != mid && !s.printed[q.page.mid]
    requires s.printed[mid] ==> q.page.timeStamp > s.printedAt[mid] + 150
    ensures Shaped(Handle(s, q.page, rs, q.left))
    ensures var r := Handle(s, q.page, rs, q.left);
            r.pids[mid] == [] && r.times[mid] == s.times[mid] && !r.printed[mid] && !r.newMessage
  {
    HandleShaped(s, q, rs);
    ReleasingCollect(s, q.page, mid);
    CollectPrinted(s, q.page);
    hide Collect, Decode, BodyResult, SlotAfter, ParseHeader;
  }

  lemma {:induction false} ReleasingCollect(s: State, q: Page, mid: nat)
    requires Shaped(s) && ValidPage(q) && mid < MESSAGE_IDS && s.pids[mid] == [] && WithCorrections(q) && q.mid != mid
    requires s.printed[mid] ==> q.timeStamp > s.printedAt[mid] + 150
    ensures var k := Collect(s, q);
            k.pids[mid] == [] && k.times[mid] == s.times[mid] && !k.printed[mid]
  {
  }

  // A call that stores a page and does not complete a message.
  lemma {:induction false} StoringCall(s: State, i: Input, rs: Decoder)
    requires Shaped(s) && ValidInput(i) && !s.newMessage && !s.printed[i.page.mid]
    requires |Collect(s, i.page).pids[i.page.mid]| != i.page.size
    ensures Shaped(Handle(s, i.page, rs, i.left))
    ensures var k, r, mid := Collect(s, i.page), Handle(s, i.page, rs, i.left), i.page.mid;
            r.pids[mid] == k.pids[mid] && r.times[mid] == k.times[mid] && !r.printed[mid] && !r.newMessage
  {
    HandleShaped(s, i, rs);
    CollectPrinted(s, i.page);
    hide Collect;
  }

  // With time stamps left behind, the first page of the next message is dropped when its second one
  // arrives, once the leftovers are 150 s old.
  lemma {:induction false} StaleTimesDropFreshPage(s: State, i1: Input, i2: Input, rs: Decoder)
    requires Shaped(s) && ValidInput(i1) && ValidInput(i2) && !s.newMessage
    requires WithCorrections(i1.page) && WithCorrections(i2.page) && i1.page.size >= 2 && i2.page.size >= 2
    requires var mid := i1.page.mid;
             && i2.page.mid == mid && i1.page.pid != i2.page.pid && !s.printed[mid]
             && s.pids[mid] == [] && s.times[mid] != [] && s.times[mid][0] > 0
             && i2.page.timeStamp > s.times[mid][0] + 150
    ensures Shaped(Handle(s, i1.page, rs, i1.left))
    ensures var mid := i1.page.mid;
            var r := Handle(s, i1.page, rs, i1.left);
            && r.pids[mid] == [i1.page.pid] && HeldTimes(r, mid) == [i1.page.timeStamp]
            && Handle(r, i2.page, rs, i2.left).pids[mid] == [i2.page.pid]
  {
    var mid := i1.page.mid;
    FreshCollect(s, i1.page);
    StoringCall(s, i1, rs);
    var r := Handle(s, i1.page, rs, i1.left);
    hide Handle, Collect;
    DroppingCollect(r, i2.page);
    StoringCall(r, i2, rs);
  }

  lemma {:induction false} FreshCollect(s: State, p: Page)
    requires Shaped(s) && ValidPage(p) && WithCorrections(p) && s.pids[p.mid] == []
    ensures Collect(s, p).pids[p.mid] == [p.pid] && Collect(s, p).times[p.mid] == s.times[p.mid] + [p.timeStamp]
  {
    assert Forget(s, p.timeStamp).pids[p.mid] == [] && Forget(s, p.timeStamp).times[p.mid] == s.times[p.mid];
  }

  lemma {:induction false} DroppingCollect(s: State, p: Page)
    requires Shaped(s) && ValidPage(p) && WithCorrections(p) && s.pids[p.mid] != [] && s.times[p.mid][0] > 0
    requires p.timeStamp > s.times[p.mid][0] + 150
    ensures Collect(s, p).pids[p.mid] == [p.pid]
  {
    assert 0 <= 0 < |s.pids[p.mid]| && s.times[p.mid][0] > 0 && p.timeStamp > s.times[p.mid][0] + 150;
  }

  // A whole run from the initial state: a message of one page; a page of another message ID more
  // than 150 s later, which releases the first ID if its message was published; then two pages of
  // the next message under the first ID, not more than 150 s apart. The first of them is dropped.
  lemma {:induction false} FreshPageLost(m: Sent, i0: Input, q: Input, i1: Input, i2: Input, c: Codec)
    requires ReedSolomon(c) && ValidInput(i0) && ValidInput(q) && ValidInput(i1) && ValidInput(i2)
    requires WithCorrections(i0.page) && PageOf(i0.page, m, c) && m.size == 1 && i0.page.timeStamp > 0
    requires WithCorrections(q.page) && q.page.mid != i0.page.mid && q.page.timeStamp > i0.page.timeStamp + 150
    requires WithCorrections(i1.page) && WithCorrections(i2.page) && i1.page.mid == i2.page.mid == i0.page.mid
             && i1.page.pid != i2.page.pid
    requires i1.page.size >= 2 && i2.page.size >= 2
    requires q.page.timeStamp <= i1.page.timeStamp <= i2.page.timeStamp <= i1.page.timeStamp + 150
    ensures var three := Run(Initial(), [i0, q, i1], c.decode);
            && three.pids[i0.page.mid] == [i1.page.pid] && !TooOld(HeldTimes(three, i0.page.mid), i2.page.timeStamp)
            && Run(Initial(), [i0, q, i1, i2], c.decode).pids[i0.page.mid] == [i2.page.pid]
  {
    hide ReedSolomon, PageOf, Handle, Collect, Run;
    var mid := i0.page.mid;
    SinglePageDecoded(m, i0, c);
    DecodingCall(Initial(), i0, c.decode);
    var s1 := Handle(Initial(), i0.page, c.decode, i0.left);
    ReleasingCall(s1, q, c.decode, mid);
    var s2 := Handle(s1, q.page, c.decode, q.left);
    StaleTimesDropFreshPage(s2, i1, i2, c.decode);
    RunOfTwo(Initial(), i0, q, c.decode);
    RunSnoc(Initial(), [i0, q], i1, c.decode);
    assert [i0, q] + [i1] == [i0, q, i1];
    RunSnoc(Initial(), [i0, q, i1], i2, c.decode);
    assert [i0, q, i1] + [i2] == [i0, q, i1, i2];
  }

  lemma {:induction false} SinglePageDecoded(m: Sent, i: Input, c: Codec)
    requires ReedSolomon(c) && ValidInput(i) && WithCorrections(i.page) && PageOf(i.page, m, c) && m.size == 1
    ensures Clears(Initial(), i, c.decode, i.page.mid) && !Initial().newMessage
    ensures forall mid :: 0 <= mid < MESSAGE_IDS ==> !Initial().printed[mid]
    ensures Collect(Initial(), i.page).times[i.page.mid] == [i.page.timeStamp]
  {
    hide ReedSolomon, Handle, InitialSlot;
    var current := seq(MESSAGE_IDS, k => m);
    FreshCollect(Initial(), i.page);
    StepCoherent(Initial(), current, i, m, c);
  }

  // ---- alignment over every run ----------------------------------------------------------------------

  predicate Aligned(s: State, mid: nat)
    requires Shaped(s) && mid < MESSAGE_IDS
  {
    |s.times[mid]| == |s.pids[mid]|
  }

  // A decoding attempt that clears the pages of message ID `mid`.
  predicate Clears(s: State, i: Input, rs: Decoder, mid: nat)
    requires Shaped(s) && ValidInput(i) && mid < MESSAGE_IDS
  {
    var p := i.page;
    var k := Collect(s, p);
    p.mid == mid && !s.printed[mid] && |k.pids[mid]| == p.size
      && !Decode(rs, k.rows[mid], k.pids[mid], p.size).Uncorrected?
  }

  // The age scan drops the time stamps of message ID `mid`, with its pages.
  predicate Drops(s: State, i: Input, mid: nat)
    requires Shaped(s) && ValidInput(i) && mid < MESSAGE_IDS
  {
    !s.printed[i.page.mid] && WithCorrections(i.page) && Outdated(s.pids[mid], s.times[mid], i.page.timeStamp)
  }

  // An attempt has cleared the pages since the time stamps were last dropped.
  ghost predicate Stale(s: State, inputs: seq<Input>, rs: Decoder, mid: nat, before: bool)
    requires Shaped(s) && mid < MESSAGE_IDS && forall k :: 0 <= k < |inputs| ==> ValidInput(inputs[k])
    decreases |inputs|
  {
    if inputs == [] then before
    else
      var i := inputs[0];
      HandleShaped(s, i, rs);
      Stale(Handle(s, i.page, rs, i.left), inputs[1..], rs, mid, Clears(s, i, rs, mid) || (before && !Drops(s, i, mid)))
  }

  lemma {:induction false} StepAligned(s: State, i: Input, rs: Decoder, mid: nat)
    requires Shaped(s) && ValidInput(i) && mid < MESSAGE_IDS
    ensures Shaped(Handle(s, i.page, rs, i.left))
    ensures Aligned(Handle(s, i.page, rs, i.left), mid)
            <==> !Clears(s, i, rs, mid) && (Aligned(s, mid) || Drops(s, i, mid))
  {
    HandleShaped(s, i, rs);
    if s.printed[i.page.mid] {
      PrintedIgnored(s, i, rs, mid);
    } else {
      CollectAligned(s, i, mid);
      AttemptAligned(s, i, rs, mid);
    }
  }

  lemma {:induction false} CollectAligned(s: State, i: Input, mid: nat)
    requires Shaped(s) && ValidInput(i) && mid < MESSAGE_IDS && !s.printed[i.page.mid]
    ensures Aligned(Collect(s, i.page), mid) <==> Aligned(s, mid) || Drops(s, i, mid)
  {
    hide Outdated;
  }

  lemma {:induction false} AttemptAligned(s: State, i: Input, rs: Decoder, mid: nat)
    requires Shaped(s) && ValidInput(i) && mid < MESSAGE_IDS && !s.printed[i.page.mid]
    ensures Shaped(Handle(s, i.page, rs, i.left))
    ensures Aligned(Handle(s, i.page, rs, i.left), mid) <==> !Clears(s, i, rs, mid) && Aligned(Collect(s, i.page), mid)
  {
    HandleShaped(s, i, rs);
    hide Collect, Decode, BodyResult, SlotAfter, ParseHeader;
  }

  // In every run, the time stamps of a message ID are those of its pages exactly while no decoding
  // attempt has cleared the pages since the time stamps were last dropped.
  lemma {:induction false} AlignedExactly(s: State, inputs: seq<Input>, rs: Decoder, mid: nat, before: bool)
    requires Shaped(s) && mid < MESSAGE_IDS && forall k :: 0 <= k < |inputs| ==> ValidInput(inputs[k])
    requires Aligned(s, mid) <==> !before
    ensures Aligned(Run(s, inputs, rs), mid) <==> !Stale(s, inputs, rs, mid, before)
    decreases |inputs|
  {
    if inputs != [] {
      var i := inputs[0];
      assert ValidInput(inputs[0]);
      hide Handle, Clears, Drops, Aligned;
      StepAligned(s, i, rs, mid);
      AlignedExactly(Handle(s, i.page, rs, i.left), inputs[1..], rs, mid,
                     Clears(s, i, rs, mid) || (before && !Drops(s, i, mid)));
    }
  }

  lemma {:induction false} AlignedFromStart(inputs: seq<Input>, rs: Decoder, mid: nat)
    requires mid < MESSAGE_IDS && forall k :: 0 <= k < |inputs| ==> ValidInput(inputs[k])
    ensures Aligned(Run(Initial(), inputs, rs), mid) <==> !Stale(Initial(), inputs, rs, mid, false)
  {
    AlignedExactly(Initial(), inputs, rs, mid, false);
  }

  // ---- the age scan over runs ------------------------------------------------------------------------

  // Ascending time stamps under every message ID, none later than the pages to come.
  ghost predicate Ordered(s: State, inputs: seq<Input>)
    requires Shaped(s)
  {
    forall mid :: 0 <= mid < MESSAGE_IDS ==> InOrder(s.times[mid], inputs)
  }

  ghost predicate InOrder(times: seq<nat>, inputs: seq<Input>) {
    Ascending(times) && forall t :: t in times ==> Before(t, inputs)
  }

  lemma {:induction false} StampInOrder(times: seq<nat>, inputs: seq<Input>)
    requires Timed(inputs) && inputs != [] && InOrder(times, inputs)
    ensures Timed(inputs[1..]) && InOrder([], inputs[1..]) && InOrder(times, inputs[1..])
    ensures InOrder([inputs[0].page.timeStamp], inputs[1..])
    ensures InOrder(times + [inputs[0].page.timeStamp], inputs[1..])
  {
    assert ValidInput(inputs[0]);
    var ts := inputs[0].page.timeStamp;
    forall t, b | (t in times || t == ts) && 0 <= b < |inputs[1..]|
      ensures t <= ts && t <= inputs[1..][b].page.timeStamp
    {
      assert t in times ==> Before(t, inputs);
      assert inputs[1..][b] == inputs[b + 1];
    }
    assert forall t :: t in times || t == ts ==> Before(t, inputs[1..]);
    forall j | 0 <= j < |times|
      ensures times[j] <= ts
    {
      assert times[j] in times && Before(times[j], inputs);
    }
  }

  lemma {:induction false} TimesOfCall(s: State, i: Input, rs: Decoder, mid: nat)
    requires Shaped(s) && ValidInput(i) && mid < MESSAGE_IDS
    ensures Shaped(Handle(s, i.page, rs, i.left))
    ensures var times, ts := s.times[mid], i.page.timeStamp;
            Handle(s, i.page, rs, i.left).times[mid] in {times, [], times + [ts], [ts]}
  {
    HandleShaped(s, i, rs);
    TimesAfterCollect(s, i, rs);
    hide Handle;
    if !s.printed[i.page.mid] && WithCorrections(i.page) {
      hide Outdated;
      var f := Forget(s, i.page.timeStamp);
      assert f.times[mid] == [] || f.times[mid] == s.times[mid];
      assert [] + [i.page.timeStamp] == [i.page.timeStamp];
    }
  }

  lemma {:induction false} StepOrdered(s: State, inputs: seq<Input>, rs: Decoder)
    requires Shaped(s) && Timed(inputs) && inputs != [] && Ordered(s, inputs)
    ensures var i := inputs[0];
            ValidInput(i) && Shaped(Handle(s, i.page, rs, i.left))
            && Ordered(Handle(s, i.page, rs, i.left), inputs[1..])
  {
    var i := inputs[0];
    assert ValidInput(inputs[0]);
    HandleShaped(s, i, rs);
    hide Handle, InOrder, Timed;
    var r := Handle(s, i.page, rs, i.left);
    forall mid | 0 <= mid < MESSAGE_IDS
      ensures InOrder(r.times[mid], inputs[1..])
    {
      StampInOrder(s.times[mid], inputs);
      TimesOfCall(s, i, rs, mid);
    }
  }

  lemma {:induction false} RunOrdered(s: State, inputs: seq<Input>, rs: Decoder)
    requires Shaped(s) && Timed(inputs) && Ordered(s, inputs)
    ensures forall k :: 0 <= k < |inputs| ==> ValidInput(inputs[k])
    ensures Ordered(Run(s, inputs, rs), [])
    decreases |inputs|
  {
    if inputs == [] {
      assert Run(s, inputs, rs) == s;
    } else {
      var i := inputs[0];
      assert ValidInput(inputs[0]);
      hide Handle, Ordered, Shaped;
      StepOrdered(s, inputs, rs);
      assert Timed(inputs[1..]);
      RunOrdered(Handle(s, i.page, rs, i.left), inputs[1..], rs);
    }
  }

  // In every run, while no attempt has left time stamps behind, the age scan drops the pages of a
  // message ID exactly when one of them is too old.
  lemma {:induction false} ScanExactUnlessStale(inputs: seq<Input>, rs: Decoder, mid: nat, now: nat)
    requires mid < MESSAGE_IDS && forall k :: 0 <= k < |inputs| ==> ValidInput(inputs[k])
    requires !Stale(Initial(), inputs, rs, mid, false)
    ensures var s := Run(Initial(), inputs, rs);
            Outdated(s.pids[mid], s.times[mid], now) <==> TooOld(HeldTimes(s, mid), now)
  {
    hide Run, Shaped, InitialSlot, Stale, Outdated, TooOld, HeldTimes, Aligned;
    AlignedFromStart(inputs, rs, mid);
    AlignedScan(Run(Initial(), inputs, rs), mid, now);
  }

  lemma {:induction false} AlignedScan(s: State, mid: nat, now: nat)
    requires Shaped(s) && mid < MESSAGE_IDS && Aligned(s, mid)
    ensures Outdated(s.pids[mid], s.times[mid], now) <==> TooOld(HeldTimes(s, mid), now)
  {
    assert HeldTimes(s, mid) == s.times[mid];
  }

  // In every run of pages with positive, nondecreasing time stamps, stale or not, the age scan of
  // the pages held is right at every time exactly when it starts at the first of their time stamps.
  lemma {:induction false} ScanExactOnRuns(inputs: seq<Input>, rs: Decoder, mid: nat)
    requires mid < MESSAGE_IDS && Timed(inputs)
    ensures forall k :: 0 <= k < |inputs| ==> ValidInput(inputs[k])
    ensures var s := Run(Initial(), inputs, rs);
            s.pids[mid] != [] ==>
              ((forall now: nat :: Outdated(s.pids[mid], s.times[mid], now) <==> TooOld(HeldTimes(s, mid), now))
               <==> s.times[mid][0] == HeldTimes(s, mid)[0])
  {
    assert Ordered(Initial(), inputs);
    RunOrdered(Initial(), inputs, rs);
    hide Run, Shaped, InitialSlot, Outdated, TooOld, HeldTimes, Ascending;
    var s := Run(Initial(), inputs, rs);
    assert InOrder(s.times[mid], []);
    if s.pids[mid] != [] {
      ScanExactWhenAligned(s, mid);
    }
  }
}
