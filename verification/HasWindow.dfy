// Publishing once per message ID and forgetting published message IDs.
module HasWindow {
  import opened HasMessage
  import opened HasPages
  import opened HasProtocol

  ghost predicate Spaced(published: seq<Publication>) {
    forall a, b :: 0 <= a < b < |published| && published[a].mid == published[b].mid ==>
                     published[b].timeStamp > published[a].timeStamp + 150
  }

  // `now` is the time stamp of the last page handled.
  ghost predicate Windowed(s: State, now: nat) {
    && Shaped(s) && !s.newMessage && Spaced(s.published)
    && forall k :: 0 <= k < |s.published| ==>
         var q := s.published[k];
         && q.mid < MESSAGE_IDS && q.timeStamp <= now
         && (if s.printed[q.mid] then q.timeStamp <= s.printedAt[q.mid] else q.timeStamp + 150 < now)
  }

  lemma {:induction false} TryDecodeKeepsPublished(s: State, p: Page, rs: Decoder, left: Leftover)
    requires Shaped(s) && ValidPage(p)
    ensures var r := TryDecode(s, p, rs, left);
            r.printed == s.printed && r.printedAt == s.printedAt && r.published == s.published && r.times == s.times
  {
  }

  lemma {:induction false} CollectWindowed(s: State, now: nat, p: Page)
    requires Windowed(s, now) && now <= p.timeStamp && ValidPage(p)
    ensures Windowed(Collect(s, p), p.timeStamp)
  {
  }

  lemma {:induction false} StepWindowed(s: State, now: nat, i: Input, rs: Decoder)
    requires Windowed(s, now) && now <= i.page.timeStamp && ValidInput(i)
    ensures Windowed(Handle(s, i.page, rs, i.left), i.page.timeStamp)
  {
    var p := i.page;
    HandleShaped(s, i, rs);
    if !s.printed[p.mid] {
      hide TryDecode, Collect, Shaped;
      CollectWindowed(s, now, p);
      var k := Collect(s, p);
      TryDecodeKeepsPublished(k, p, rs, i.left);
      CollectUnprinted(s, p);
      PublishWindowed(k, TryDecode(k, p, rs, i.left), p);
    }
  }

  lemma {:induction false} CollectUnprinted(s: State, p: Page)
    requires Shaped(s) && ValidPage(p) && !s.printed[p.mid]
    ensures !Collect(s, p).printed[p.mid]
  {
  }

  lemma {:induction false} PublishWindowed(k: State, d: State, p: Page)
    requires Windowed(k, p.timeStamp) && ValidPage(p) && !k.printed[p.mid]
    requires d.printed == k.printed && d.printedAt == k.printedAt && d.published == k.published
    requires Shaped(Publish(d, p))
    ensures Windowed(Publish(d, p), p.timeStamp)
  {
  }

  ghost predicate Chronological(now: nat, inputs: seq<Input>)
    decreases |inputs|
  {
    inputs == [] || (now <= inputs[0].page.timeStamp && Chronological(inputs[0].page.timeStamp, inputs[1..]))
  }

  lemma {:induction false} RunWindowed(s: State, now: nat, inputs: seq<Input>, rs: Decoder)
    requires Windowed(s, now) && Chronological(now, inputs)
    requires forall k :: 0 <= k < |inputs| ==> ValidInput(inputs[k])
    ensures Spaced(Run(s, inputs, rs).published) && !Run(s, inputs, rs).newMessage
    decreases |inputs|
  {
    if inputs != [] {
      StepWindowed(s, now, inputs[0], rs);
      RunWindowed(Handle(s, inputs[0].page, rs, inputs[0].left), inputs[0].page.timeStamp, inputs[1..], rs);
    }
  }

  // For pages with nondecreasing time stamps, two published messages with the same message ID are
  // more than 150 s apart, and the new-message flag is down between handler calls.
  lemma {:induction false} PublishOnce(inputs: seq<Input>, rs: Decoder)
    requires Chronological(0, inputs) && forall k :: 0 <= k < |inputs| ==> ValidInput(inputs[k])
    ensures Spaced(Run(Initial(), inputs, rs).published) && !Run(Initial(), inputs, rs).newMessage
  {
    RunWindowed(Initial(), 0, inputs, rs);
  }

  // A published message ID is released exactly by a stored page of an unpublished message ID
  // that comes more than 150 s later: the age check sits behind the check of the page's own ID.
  lemma {:induction false} ReleasedExactly(s: State, i: Input, rs: Decoder, mid: nat)
    requires Shaped(s) && ValidInput(i) && !s.newMessage && mid < MESSAGE_IDS && s.printed[mid]
    ensures !Handle(s, i.page, rs, i.left).printed[mid]
            <==> !s.printed[i.page.mid] && WithCorrections(i.page) && i.page.timeStamp > s.printedAt[mid] + 150
  {
    if !s.printed[i.page.mid] {
      TryDecodeKeepsPublished(Collect(s, i.page), i.page, rs, i.left);
    }
  }

  // So as long as all pages carry published message IDs, nothing is ever released, stored or
  // published again, however much time passes.
  lemma {:induction false} SilentWhilePrinted(s: State, inputs: seq<Input>, rs: Decoder)
    requires Shaped(s) && !s.newMessage
    requires forall k :: 0 <= k < |inputs| ==> ValidInput(inputs[k]) && s.printed[inputs[k].page.mid]
    ensures Run(s, inputs, rs) == s
    decreases |inputs|
  {
    if inputs != [] {
      SilentWhilePrinted(s, inputs[1..], rs);
    }
  }

  // A receiver that has published all 32 message IDs stays silent for good.
  lemma {:induction false} SilentForever(s: State, inputs: seq<Input>, rs: Decoder)
    requires Shaped(s) && !s.newMessage && forall mid :: 0 <= mid < MESSAGE_IDS ==> s.printed[mid]
    requires forall k :: 0 <= k < |inputs| ==> ValidInput(inputs[k])
    ensures Run(s, inputs, rs).published == s.published
  {
    SilentWhilePrinted(s, inputs, rs);
  }
}
