// Completeness of reception: once enough pages of a message have come in time, it is decoded and,
// with its mask, published. Runs from the initial state that stand on it.
module HasReception {
  import opened Options
  import opened HasBits
  import opened HasMessage
  import opened HasParser
  import opened HasEncoder
  import opened HasPages
  import opened HasErasures
  import opened HasProtocol
  import opened HasRuns
  import opened HasMaskStore
  import opened HasDelivery

  // ---- pages of one message ------------------------------------------------------------------------

  // The page IDs stored under a message ID by the pages of a run.
  ghost function PidsOf(inputs: seq<Input>, mid: nat): (pids: set<nat>) {
    if inputs == [] then {}
    else
      var n := |inputs| - 1;
      PidsOf(inputs[..n], mid) + PidOf(inputs[n].page, mid)
  }

  ghost function PidOf(p: Page, mid: nat): set<nat> {
    if WithCorrections(p) && p.mid == mid then {p.pid} else {}
  }

  // The stored pages under the message ID are of message `m`, and no other page triggers an attempt
  // before they are enough.
  ghost predicate Offered(inputs: seq<Input>, mid: nat, m: Sent, c: Codec) {
    forall k :: 0 <= k < |inputs| && inputs[k].page.mid == mid ==> OfferedAt(inputs, k, mid, m, c)
  }

  ghost predicate OfferedAt(inputs: seq<Input>, k: nat, mid: nat, m: Sent, c: Codec)
    requires k < |inputs|
  {
    if WithCorrections(inputs[k].page) then PageOf(inputs[k].page, m, c)
    else inputs[k].page.size != |PidsOf(inputs[..k], mid)|
  }

  // All pages come within 150 s.
  ghost predicate Within(inputs: seq<Input>, start: nat) {
    forall k :: 0 <= k < |inputs| ==> InTime(inputs[k], start)
  }

  ghost predicate InTime(i: Input, start: nat) {
    ValidInput(i) && start <= i.page.timeStamp <= start + 150
  }

  // The message ID holds exactly these page IDs of message `m`, fewer than needed, all in time.
  ghost predicate Holding(s: State, mid: nat, pids: set<nat>, m: Sent, start: nat, c: Codec) {
    && Shaped(s) && mid < MESSAGE_IDS && ValidSent(m) && !s.newMessage && !s.printed[mid]
    && Same(s.pids[mid], pids) && |pids| < m.size
    && (s.pids[mid] != [] ==> Coherent(s.pids[mid], s.rows[mid], m, c))
    && forall t :: t in s.times[mid] ==> start <= t
  }

  // A sequence without repetitions of the elements of a set.
  ghost predicate Same(pids: seq<nat>, elements: set<nat>) {
    |pids| == |elements| && forall p :: p in pids <==> p in elements
  }

  // ---- one call -------------------------------------------------------------------------------------

  // Some page scanned is more than 150 s old.
  ghost predicate Expired(s: State, mid: nat, now: nat)
    requires Shaped(s) && mid < MESSAGE_IDS
  {
    exists j :: 0 <= j < |s.pids[mid]| && s.times[mid][j] > 0 && now > s.times[mid][j] + 150
  }

  // The page IDs that are not forgotten at time `now`.
  ghost function KeptAt(s: State, mid: nat, now: nat): (pids: seq<nat>)
    requires Shaped(s) && mid < MESSAGE_IDS
  {
    if Expired(s, mid, now) then [] else s.pids[mid]
  }

  // A row holds the octets of a page text.
  ghost predicate HoldsText(row: Row, bits: string) {
    |bits| == 424 && forall k :: 0 <= k < 53 ==> row[k] == Unsigned(bits[8 * k..8 * k + 8])
  }

  // A page of an unpublished message ID whose status is 0 or 1, whose message type is 1 and whose page
  // ID is not 0: when the call makes no attempt, the page is held afterwards with its row, unless a page
  // of that ID was held before, which stays; and of every message ID, expired pages are forgotten.
  lemma {:induction false} PageHeld(s: State, i: Input, rs: Decoder)
    requires Shaped(s) && ValidInput(i) && !s.printed[i.page.mid]
    requires i.page.status in {0, 1} && i.page.messageType == 1 && i.page.pid >= 1
    requires var kept := KeptAt(s, i.page.mid, i.page.timeStamp);
             i.page.size != if i.page.pid in kept then |kept| else |kept| + 1
    ensures var p, r := i.page, Handle(s, i.page, rs, i.left);
            var kept := KeptAt(s, p.mid, p.timeStamp);
            && Shaped(r) && r.pids[p.mid] == (if p.pid in kept then kept else kept + [p.pid])
            && (if p.pid in kept then r.rows[p.mid][p.pid - 1] == s.rows[p.mid][p.pid - 1]
                else HoldsText(r.rows[p.mid][p.pid - 1], p.bits))
            && forall mid :: 0 <= mid < MESSAGE_IDS && mid != p.mid ==> r.pids[mid] == KeptAt(s, mid, p.timeStamp)
  {
    var p := i.page;
    HandleShaped(s, i, rs);
    forall mid | 0 <= mid < MESSAGE_IDS
      ensures Outdated(s.pids[mid], s.times[mid], p.timeStamp) <==> Expired(s, mid, p.timeStamp)
    {
      ExpiredIsOutdated(s, mid, p.timeStamp);
    }
    hide Outdated, Expired, HoldsText;
    OctetsHeld(p.bits);
    NoAttempt(s, i, rs);
  }

  lemma {:induction false} ExpiredIsOutdated(s: State, mid: nat, now: nat)
    requires Shaped(s) && mid < MESSAGE_IDS
    ensures Outdated(s.pids[mid], s.times[mid], now) <==> Expired(s, mid, now)
  {
  }

  lemma {:induction false} OctetsHeld(bits: string)
    requires |bits| == 424
    ensures HoldsText(Octets(bits), bits)
  {
  }

  lemma {:induction false} NoAttempt(s: State, i: Input, rs: Decoder)
    requires Shaped(s) && ValidInput(i) && !s.printed[i.page.mid]
    requires |Collect(s, i.page).pids[i.page.mid]| != i.page.size
    ensures Handle(s, i.page, rs, i.left) == Collect(s, i.page).(newMessage := false)
  {
    hide Collect;
  }

  // Any other page of an unpublished message ID: nothing is stored and nothing is forgotten, of any
  // message ID; without an attempt the receiver stays as it is.
  lemma {:induction false} PageIgnored(s: State, i: Input, rs: Decoder)
    requires Shaped(s) && ValidInput(i) && !s.printed[i.page.mid]
    requires i.page.status !in {0, 1} || i.page.messageType != 1 || i.page.pid == 0
    ensures var p, r := i.page, Handle(s, i.page, rs, i.left);
            && r.times == s.times && r.pids in {s.pids, s.pids[p.mid := []]}
            && (|s.pids[p.mid]| != p.size ==> r == s.(newMessage := false))
  {
    assert Collect(s, i.page) == s;
    if |s.pids[i.page.mid]| != i.page.size {
      NoAttempt(s, i, rs);
    }
    PagesAfter(s, i, rs);
  }

  lemma {:induction false} PagesAfter(s: State, i: Input, rs: Decoder)
    requires Shaped(s) && ValidInput(i) && !s.printed[i.page.mid]
    ensures var k, r := Collect(s, i.page), Handle(s, i.page, rs, i.left);
            r.times == k.times && r.pids in {k.pids, k.pids[i.page.mid := []]}
  {
    hide Collect, Decode, BodyResult, SlotAfter, ParseHeader;
  }

  lemma {:induction false} ForgetHolds(s: State, mid: nat, pids: set<nat>, m: Sent, start: nat, now: nat, c: Codec)
    requires Holding(s, mid, pids, m, start, c) && now <= start + 150
    ensures Holding(Forget(s, now), mid, pids, m, start, c)
  {
    hide Coherent;
    assert forall j :: 0 <= j < |s.pids[mid]| ==> s.times[mid][j] in s.times[mid];
    assert !Outdated(s.pids[mid], s.times[mid], now);
  }

  lemma {:induction false} AnnotateOther(s: State, p: Page, mid: nat, pids: set<nat>, m: Sent, start: nat, c: Codec)
    requires Holding(s, mid, pids, m, start, c) && ValidPage(p) && p.pid > 0 && p.mid != mid
    ensures Holding(Annotate(s, p), mid, pids, m, start, c)
  {
    hide Coherent;
  }

  // Pages of other message IDs, and pages that are not stored, leave the collection alone.
  lemma {:induction false} OtherHolds(s: State, i: Input, mid: nat, pids: set<nat>, m: Sent, start: nat, c: Codec)
    requires Holding(s, mid, pids, m, start, c) && InTime(i, start)
    requires i.page.mid != mid || (!WithCorrections(i.page) && i.page.size != |pids|)
    ensures Holding(Handle(s, i.page, c.decode, i.left), mid, pids, m, start, c)
  {
    HandleShaped(s, i, c.decode);
    if s.printed[i.page.mid] {
      PrintedStays(s, i, c.decode);
    } else {
      if WithCorrections(i.page) {
        ForgetHolds(s, mid, pids, m, start, i.page.timeStamp, c);
        AnnotateOther(Forget(s, i.page.timeStamp), i.page, mid, pids, m, start, c);
      }
      AttemptHolds(s, i, mid, pids, m, start, c);
    }
  }

  // An attempt on another message ID, or none, leaves the collection alone.
  lemma {:induction false} AttemptHolds(s: State, i: Input, mid: nat, pids: set<nat>, m: Sent, start: nat, c: Codec)
    requires Shaped(s) && ValidInput(i) && !s.printed[i.page.mid]
    requires Holding(Collect(s, i.page), mid, pids, m, start, c)
    requires i.page.mid != mid || |Collect(s, i.page).pids[mid]| != i.page.size
    ensures Holding(Handle(s, i.page, c.decode, i.left), mid, pids, m, start, c)
  {
    HandleShaped(s, i, c.decode);
    hide Coherent, Collect, Decode, ParseHeader, BodyResult, SlotAfter, Same, Shaped;
  }

  // A page of the message joins the collection, unless it is held already.
  lemma {:induction false} OwnCollected(s: State, i: Input, mid: nat, pids: set<nat>, m: Sent, start: nat, c: Codec)
    requires Holding(s, mid, pids, m, start, c) && InTime(i, start)
    requires i.page.mid == mid && WithCorrections(i.page) && PageOf(i.page, m, c)
    ensures var k := Collect(s, i.page);
            && !k.newMessage && !k.printed[mid] && Same(k.pids[mid], pids + {i.page.pid})
            && Coherent(k.pids[mid], k.rows[mid], m, c)
            && forall t :: t in k.times[mid] ==> start <= t
  {
    ForgetHolds(s, mid, pids, m, start, i.page.timeStamp, c);
    hide Forget, Coherent, Same, Annotate;
    OwnAnnotated(Forget(s, i.page.timeStamp), i.page, mid, pids, m, start, c);
  }

  lemma {:induction false} OwnAnnotated(f: State, p: Page, mid: nat, pids: set<nat>, m: Sent, start: nat, c: Codec)
    requires Holding(f, mid, pids, m, start, c) && start <= p.timeStamp
    requires p.mid == mid && WithCorrections(p) && PageOf(p, m, c)
    ensures var k := Annotate(f, p);
            && !k.newMessage && !k.printed[mid] && Same(k.pids[mid], pids + {p.pid})
            && Coherent(k.pids[mid], k.rows[mid], m, c)
            && forall t :: t in k.times[mid] ==> start <= t
  {
    hide Coherent, CodeRow;
    OctetsOfRowText(CodeRow(c, m, p.pid - 1));
    SameAdd(f.pids[mid], pids, p.pid);
    if p.pid !in f.pids[mid] {
      CoherentAdd(f.pids[mid], f.rows[mid], p.pid, m, c);
    }
  }

  lemma {:induction false} SameAdd(pids: seq<nat>, elements: set<nat>, p: nat)
    requires Same(pids, elements)
    ensures if p in pids then elements + {p} == elements else Same(pids + [p], elements + {p})
  {
  }

  lemma {:induction false} OwnHolds(s: State, i: Input, mid: nat, pids: set<nat>, m: Sent, start: nat, c: Codec)
    requires Holding(s, mid, pids, m, start, c) && InTime(i, start)
    requires i.page.mid == mid && WithCorrections(i.page) && PageOf(i.page, m, c) && |pids + {i.page.pid}| < m.size
    ensures Holding(Handle(s, i.page, c.decode, i.left), mid, pids + {i.page.pid}, m, start, c)
  {
    OwnCollected(s, i, mid, pids, m, start, c);
    hide Coherent, Collect, Handle, Same;
    assert |Collect(s, i.page).pids[mid]| == |pids + {i.page.pid}| by {
      SameSize(Collect(s, i.page).pids[mid], pids + {i.page.pid});
    }
    AttemptHolds(s, i, mid, pids + {i.page.pid}, m, start, c);
  }

  lemma {:induction false} SameSize(pids: seq<nat>, elements: set<nat>)
    requires Same(pids, elements)
    ensures |pids| == |elements|
  {
  }

  // ---- a whole reception -----------------------------------------------------------------------------

  lemma {:induction false} StepHolds(s: State, i: Input, mid: nat, pids: set<nat>, m: Sent, start: nat, c: Codec)
    requires Holding(s, mid, pids, m, start, c) && InTime(i, start) && |pids + PidOf(i.page, mid)| < m.size
    requires i.page.mid == mid ==> if WithCorrections(i.page) then PageOf(i.page, m, c) else i.page.size != |pids|
    ensures Holding(Handle(s, i.page, c.decode, i.left), mid, pids + PidOf(i.page, mid), m, start, c)
  {
    hide Holding, Handle, PageOf;
    if i.page.mid == mid && WithCorrections(i.page) {
      OwnHolds(s, i, mid, pids, m, start, c);
    } else {
      assert pids + PidOf(i.page, mid) == pids;
      OtherHolds(s, i, mid, pids, m, start, c);
    }
  }

  lemma {:induction false} RunHolds(s: State, inputs: seq<Input>, mid: nat, m: Sent, start: nat, c: Codec)
    requires Holding(s, mid, {}, m, start, c) && Within(inputs, start) && Offered(inputs, mid, m, c)
    requires |PidsOf(inputs, mid)| < m.size
    ensures forall k :: 0 <= k < |inputs| ==> ValidInput(inputs[k])
    ensures Holding(Run(s, inputs, c.decode), mid, PidsOf(inputs, mid), m, start, c)
    decreases |inputs|
  {
    if inputs != [] {
      hide Holding, Run, Handle, PageOf, PidOf;
      var n := |inputs| - 1;
      var front, i := inputs[..n], inputs[n];
      assert inputs == front + [i];
      assert InTime(inputs[n], start);
      FrontOffered(inputs, mid, m, start, c);
      PidsGrow(inputs, mid);
      RunHolds(s, front, mid, m, start, c);
      RunSnocOf(s, front, i, mid, m, start, c);
      assert i.page.mid == mid ==> OfferedAt(inputs, n, mid, m, c);
      StepHolds(Run(s, front, c.decode), i, mid, PidsOf(front, mid), m, start, c);
    }
  }

  lemma {:induction false} RunSnocOf(s: State, front: seq<Input>, i: Input, mid: nat, m: Sent, start: nat, c: Codec)
    requires Holding(s, mid, {}, m, start, c) && Within(front, start) && InTime(i, start)
    ensures Shaped(s) && ValidInput(i) && forall k :: 0 <= k < |front| ==> ValidInput(front[k])
    ensures forall k :: 0 <= k < |front| + 1 ==> ValidInput((front + [i])[k])
    ensures Run(s, front + [i], c.decode) == Handle(Run(s, front, c.decode), i.page, c.decode, i.left)
  {
    hide Handle, Run;
    assert forall k :: 0 <= k < |front| ==> InTime(front[k], start);
    RunSnoc(s, front, i, c.decode);
  }

  lemma {:induction false} FrontOffered(inputs: seq<Input>, mid: nat, m: Sent, start: nat, c: Codec)
    requires inputs != [] && Within(inputs, start) && Offered(inputs, mid, m, c)
    ensures var front := inputs[..|inputs| - 1]; Within(front, start) && Offered(front, mid, m, c)
  {
    hide PageOf;
    var front := inputs[..|inputs| - 1];
    forall k | 0 <= k < |front|
      ensures InTime(front[k], start)
      ensures front[k].page.mid == mid ==> OfferedAt(front, k, mid, m, c)
    {
      assert InTime(inputs[k], start);
      assert front[..k] == inputs[..k];
      assert inputs[k].page.mid == mid ==> OfferedAt(inputs, k, mid, m, c);
    }
  }

  lemma {:induction false} PidsGrow(inputs: seq<Input>, mid: nat)
    requires inputs != []
    ensures |PidsOf(inputs[..|inputs| - 1], mid)| <= |PidsOf(inputs, mid)|
  {
    var front := PidsOf(inputs[..|inputs| - 1], mid);
    SubsetSize(front, PidsOf(inputs, mid));
  }

  lemma {:induction false} SubsetSize(a: set<nat>, b: set<nat>)
    requires a <= b
    ensures |a| <= |b|
  {
    assert b == a + (b - a);
  }

  // No pages and no time stamps under an unpublished message ID.
  ghost predicate Untouched(s: State, mid: nat) {
    Shaped(s) && mid < MESSAGE_IDS && !s.newMessage && !s.printed[mid] && s.pids[mid] == s.times[mid] == []
  }

  // `last` brings the last page ID that is needed, within 150 s of all the others.
  ghost predicate Completes(inputs: seq<Input>, last: Input, mid: nat, m: Sent, start: nat, c: Codec) {
    && ValidSent(m) && Within(inputs, start) && InTime(last, start) && Offered(inputs, mid, m, c)
    && last.page.mid == mid && WithCorrections(last.page) && PageOf(last.page, m, c)
    && |PidsOf(inputs, mid)| == m.size - 1 && last.page.pid !in PidsOf(inputs, mid)
    && forall k :: 0 <= k < |inputs| ==> ValidInput(inputs[k])
  }

  // From a state with no pages and no time stamps under an unpublished message ID: the page that
  // brings the last page ID needed, within 150 s of all the others, triggers an attempt, and the
  // attempt gives the message. Pages may come in any order, repeated, and mixed with other pages.
  lemma {:induction false} Reception(s: State, inputs: seq<Input>, last: Input, mid: nat, m: Sent, start: nat, c: Codec)
    requires ReedSolomon(c) && Untouched(s, mid) && Completes(inputs, last, mid, m, start, c)
    ensures var before := Run(s, inputs, c.decode);
            var k := Collect(before, last.page);
            && !before.newMessage && !before.printed[mid] && |k.pids[mid]| == m.size
            && Decode(c.decode, k.rows[mid], k.pids[mid], m.size) == Decoded(m.bits)
            && Handle(before, last.page, c.decode, last.left).pids[mid] == []
  {
    RunHolds(s, inputs, mid, m, start, c);
    hide Run, PidsOf, Within, Offered;
    var before := Run(s, inputs, c.decode);
    var pids := PidsOf(inputs, mid);
    OwnCollected(before, last, mid, pids, m, start, c);
    var k := Collect(before, last.page);
    assert |pids + {last.page.pid}| == |pids| + 1;
    hide Collect, Coherent, ReedSolomon;
    DecodedIsSent(k.pids[mid], k.rows[mid], m, c);
    hide Decode, ParseHeader, BodyResult, SlotAfter;
  }

  // A call that publishes `content` with page `p`, and leaves the message ID published and empty.
  ghost predicate Publishes(s: State, r: State, p: Page, content: HasData) {
    && Shaped(r) && p.mid < MESSAGE_IDS && !r.newMessage
    && r.published == s.published + [Publication(p.mid, p.timeStamp, content)]
    && r.printed[p.mid] && r.printedAt[p.mid] == p.timeStamp && r.pids[p.mid] == []
  }

  // Such a message with its own mask and a time of hour in range is published.
  lemma {:induction false} ReceptionPublishes(s: State, inputs: seq<Input>, last: Input, mid: nat, m: Sent,
                                              content: HasData, start: nat, c: Codec)
    requires ReedSolomon(c) && Untouched(s, mid) && Completes(inputs, last, mid, m, start, c)
    requires Carries(m, content) && content.header.maskFlag && content.header.toh <= 3599
    ensures var before := Run(s, inputs, c.decode);
            Publishes(before, Handle(before, last.page, c.decode, last.left), last.page, content)
  {
    Reception(s, inputs, last, mid, m, start, c);
    hide Run, PidsOf, Within, Offered, Collect, PageOf, ReedSolomon, Decode, Carries;
    var before := Run(s, inputs, c.decode);
    var k := Collect(before, last.page);
    OwnMaskRead(k, last, m, content, c);
    HandleShaped(before, last, c.decode);
    StepShape(before, last, c.decode);
    PrintedWhenPublished(before, last, c.decode);
  }

  lemma {:induction false} OwnMaskRead(k: State, i: Input, m: Sent, content: HasData, c: Codec)
    requires Shaped(k) && ValidInput(i) && Carries(m, content) && content.header.maskFlag
             && content.header.toh <= 3599
    requires |k.pids[i.page.mid]| == i.page.size
    requires Decode(c.decode, k.rows[i.page.mid], k.pids[i.page.mid], i.page.size) == Decoded(m.bits)
    ensures var t := TryDecode(k, i.page, c.decode, i.left); t.newMessage && t.data == content
  {
    SplitBits(m, content);
    var slot := k.masks[content.header.maskId];
    BodyInverse(content, slot, Padding(m, content));
    hide Body, SlotAfter, ParseHeader, Decode, Carries, EncodeBody, EncodeHeader;
    SlotOfBody(content.header, slot, m.bits[HEADER_BITS..], i.left);
  }

  lemma {:induction false} PrintedWhenPublished(s: State, i: Input, rs: Decoder)
    requires Shaped(s) && ValidInput(i) && !s.printed[i.page.mid]
    ensures var r := Handle(s, i.page, rs, i.left);
            TryDecode(Collect(s, i.page), i.page, rs, i.left).newMessage ==>
              r.printed[i.page.mid] && r.printedAt[i.page.mid] == i.page.timeStamp
  {
    CollectShaped(s, i.page);
    TryDecodeShaped(Collect(s, i.page), i, rs);
    hide Collect, TryDecode;
    HandleShaped(s, i, rs);
  }
}
