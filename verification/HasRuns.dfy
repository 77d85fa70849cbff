// Runs of the receiver told from the pages alone: when message IDs are reused properly, and what a
// page that is not stored can trigger.
module HasRuns {
  import opened Arithmetic
  import opened HasBits
  import opened HasMessage
  import opened HasParser
  import opened HasPages
  import opened HasErasures
  import opened HasProtocol

  // ---- reuse of message IDs ----------------------------------------------------------------------

  // Positive time stamps that do not decrease.
  ghost predicate Timed(inputs: seq<Input>) {
    && (forall a :: 0 <= a < |inputs| ==> ValidInput(inputs[a]) && inputs[a].page.timeStamp > 0)
    && forall a, b :: 0 <= a < b < |inputs| ==> inputs[a].page.timeStamp <= inputs[b].page.timeStamp
  }

  // Stored pages are sent for their message, and the last page of a message under a message ID is
  // more than 150 s older than the first one of another message.
  ghost predicate SentApart(inputs: seq<Input>, messages: seq<Sent>, c: Codec) {
    && |inputs| == |messages|
    && (forall a :: 0 <= a < |inputs| && WithCorrections(inputs[a].page) ==> PageOf(inputs[a].page, messages[a], c))
    && forall a, b :: 0 <= a < b < |inputs| && Follows(inputs[a].page, inputs[b].page) && messages[a] != messages[b] ==>
                        inputs[b].page.timeStamp > inputs[a].page.timeStamp + 150
  }

  predicate Follows(p: Page, q: Page) {
    WithCorrections(p) && WithCorrections(q) && p.mid == q.mid
  }

  // The time stamps stored under a message ID are positive, not later than the pages to come, and
  // more than 150 s older than the pages of another message to come.
  ghost predicate Settled(s: State, current: seq<Sent>, inputs: seq<Input>, messages: seq<Sent>)
    requires Shaped(s) && |current| == MESSAGE_IDS && |inputs| == |messages|
  {
    forall mid, t :: 0 <= mid < MESSAGE_IDS && t in s.times[mid] ==>
                       SettledStamp(t, mid, current[mid], inputs, messages)
  }

  ghost predicate SettledStamp(t: nat, mid: nat, m: Sent, inputs: seq<Input>, messages: seq<Sent>)
    requires |inputs| == |messages|
  {
    t > 0 && Before(t, inputs) && Apart(t, mid, m, inputs, messages)
  }

  ghost predicate Before(t: nat, inputs: seq<Input>) {
    forall b :: 0 <= b < |inputs| ==> t <= inputs[b].page.timeStamp
  }

  ghost predicate Apart(t: nat, mid: nat, m: Sent, inputs: seq<Input>, messages: seq<Sent>)
    requires |inputs| == |messages|
  {
    forall b :: 0 <= b < |inputs| && WithCorrections(inputs[b].page) && inputs[b].page.mid == mid
                && messages[b] != m ==>
                  inputs[b].page.timeStamp > t + 150
  }

  // From the initial state, such pages reuse message IDs properly, whatever the receiver does with
  // them; so RunDecodesWhatWasSent holds of them.
  lemma {:induction false} ApartIsProper(current: seq<Sent>, inputs: seq<Input>, messages: seq<Sent>, c: Codec)
    requires |current| == MESSAGE_IDS && Timed(inputs) && SentApart(inputs, messages, c)
    ensures AllCoherent(Initial(), current, c) && ProperRun(Initial(), current, inputs, messages, c)
  {
    SettledIsProper(Initial(), current, inputs, messages, c);
  }

  lemma {:induction false} PagesDecodeWhatWasSent(current: seq<Sent>, inputs: seq<Input>, messages: seq<Sent>, c: Codec,
                                                  k: nat)
    requires |current| == MESSAGE_IDS && ReedSolomon(c)
    requires Timed(inputs) && SentApart(inputs, messages, c) && k < |inputs| && WithCorrections(inputs[k].page)
    ensures var before := Run(Initial(), inputs[..k], c.decode);
            !before.printed[inputs[k].page.mid] ==> AttemptCorrect(before, inputs[k].page, messages[k], c)
  {
    hide ReedSolomon, ProperRun, AllCoherent, Timely, AttemptCorrect, Run, Senders;
    assert forall j :: 0 <= j < |inputs| ==> ValidInput(inputs[j]);
    ApartIsProper(current, inputs, messages, c);
    RunDecodesWhatWasSent(Initial(), current, inputs, messages, c, k);
  }

  lemma {:induction false} SettledIsProper(s: State, current: seq<Sent>, inputs: seq<Input>, messages: seq<Sent>,
                                           c: Codec)
    requires Shaped(s) && |current| == MESSAGE_IDS && Timed(inputs) && SentApart(inputs, messages, c)
    requires Settled(s, current, inputs, messages)
    ensures ProperRun(s, current, inputs, messages, c)
    decreases |inputs|
  {
    if inputs != [] {
      var i, m := inputs[0], messages[0];
      var next := Handle(s, i.page, c.decode, i.left);
      HandleShaped(s, i, c.decode);
      if !s.printed[i.page.mid] {
        SettledIsAdmissible(s, current, inputs, messages, c);
      }
      StepSettled(s, current, inputs, messages, c);
      hide Handle, Admissible, Settled, PageOf;
      assert Timed(inputs[1..]) && SentApart(inputs[1..], messages[1..], c);
      SettledIsProper(next, Turnover(s, current, i.page, m), inputs[1..], messages[1..], c);
    }
  }

  lemma {:induction false} SettledIsAdmissible(s: State, current: seq<Sent>, inputs: seq<Input>, messages: seq<Sent>,
                                               c: Codec)
    requires Shaped(s) && |current| == MESSAGE_IDS && Timed(inputs) && SentApart(inputs, messages, c)
    requires Settled(s, current, inputs, messages) && inputs != []
    ensures Admissible(s, current, inputs[0].page, messages[0], c)
  {
    hide PageOf;
    var p := inputs[0].page;
    if WithCorrections(p) && current[p.mid] != messages[0] && s.pids[p.mid] != [] {
      assert ValidInput(inputs[0]);
      var t := s.times[p.mid][0];
      assert t in s.times[p.mid];
      assert SettledStamp(t, p.mid, current[p.mid], inputs, messages);
      assert Outdated(s.pids[p.mid], s.times[p.mid], p.timeStamp);
    }
  }

  // What a call does to the time stamps of a message ID.
  lemma {:induction false} TimesOfHandle(s: State, i: Input, rs: Decoder, mid: nat, t: nat)
    requires Shaped(s) && ValidInput(i) && mid < MESSAGE_IDS
    ensures Shaped(Handle(s, i.page, rs, i.left))
    ensures t in Handle(s, i.page, rs, i.left).times[mid] ==>
              t in s.times[mid]
              || (WithCorrections(i.page) && !s.printed[i.page.mid] && mid == i.page.mid && t == i.page.timeStamp)
  {
    HandleShaped(s, i, rs);
    TimesAfterCollect(s, i, rs);
    hide Handle;
    if WithCorrections(i.page) {
      hide Outdated;
      var f := Forget(s, i.page.timeStamp);
      assert f.times[mid] == [] || f.times[mid] == s.times[mid];
    }
  }

  lemma {:induction false} TimesAfterCollect(s: State, i: Input, rs: Decoder)
    requires Shaped(s) && ValidInput(i)
    ensures Handle(s, i.page, rs, i.left).times == if s.printed[i.page.mid] then s.times else Collect(s, i.page).times
  {
    hide Decode, BodyResult, SlotAfter, ParseHeader, Collect;
  }

  lemma {:induction false} StepSettled(s: State, current: seq<Sent>, inputs: seq<Input>, messages: seq<Sent>, c: Codec)
    requires Shaped(s) && |current| == MESSAGE_IDS && Timed(inputs) && SentApart(inputs, messages, c)
    requires Settled(s, current, inputs, messages) && inputs != []
    ensures Shaped(Handle(s, inputs[0].page, c.decode, inputs[0].left))
    ensures Settled(Handle(s, inputs[0].page, c.decode, inputs[0].left),
                    Turnover(s, current, inputs[0].page, messages[0]),
                    inputs[1..], messages[1..])
  {
    hide Handle, PageOf;
    var i := inputs[0];
    HandleShaped(s, i, c.decode);
    var r, now := Handle(s, i.page, c.decode, i.left), Turnover(s, current, i.page, messages[0]);
    forall mid, t | 0 <= mid < MESSAGE_IDS && t in r.times[mid]
      ensures SettledStamp(t, mid, now[mid], inputs[1..], messages[1..])
    {
      TimesOfHandle(s, i, c.decode, mid, t);
      forall b | 0 <= b < |inputs[1..]|
        ensures t <= inputs[1..][b].page.timeStamp
        ensures WithCorrections(inputs[1..][b].page) && inputs[1..][b].page.mid == mid
                && messages[1..][b] != now[mid] ==>
                  inputs[1..][b].page.timeStamp > t + 150
      {
        StampSettled(s, current, inputs, messages, c, mid, t, b + 1);
      }
    }
  }

  // One time stamp against one page to come.
  lemma {:induction false} StampSettled(s: State, current: seq<Sent>, inputs: seq<Input>, messages: seq<Sent>, c: Codec,
                                        mid: nat, t: nat, b: nat)
    requires Shaped(s) && |current| == MESSAGE_IDS && Timed(inputs) && SentApart(inputs, messages, c)
    requires Settled(s, current, inputs, messages) && mid < MESSAGE_IDS && 0 < b < |inputs|
    requires var p := inputs[0].page;
             t in s.times[mid] || (WithCorrections(p) && !s.printed[p.mid] && mid == p.mid && t == p.timeStamp)
    ensures var q := inputs[b].page;
            && t <= q.timeStamp
            && (WithCorrections(q) && q.mid == mid
                && messages[b] != Turnover(s, current, inputs[0].page, messages[0])[mid] ==>
                  q.timeStamp > t + 150)
  {
    hide PageOf;
    var p := inputs[0].page;
    if t in s.times[mid] {
      assert SettledStamp(t, mid, current[mid], inputs, messages);
      assert t <= p.timeStamp;
    }
    assert p.timeStamp <= inputs[b].page.timeStamp;
  }

  // ---- attempts that come too early -----------------------------------------------------------------

  // The first n rows of a message, as a message of its own.
  function FirstPages(m: Sent, n: nat): (r: Sent)
    requires ValidSent(m) && 1 <= n <= m.size
    ensures ValidSent(r)
  {
    Sent(n, m.bits[..PAGE_BITS * n])
  }

  // The code is systematic, so its first n pages are those of the whole message.
  lemma {:induction false} FirstPagesCoherent(pids: seq<nat>, rows: seq<Row>, m: Sent, n: nat, c: Codec)
    requires Coherent(pids, rows, m, c) && ReedSolomon(c) && 1 <= n <= m.size
    requires forall p :: p in pids ==> p <= n
    ensures Coherent(pids, rows, FirstPages(m, n), c)
  {
    var f := FirstPages(m, n);
    forall p | p in pids
      ensures Sendable(p, n) && rows[p - 1] == CodeRow(c, f, p - 1)
    {
      FirstRows(m, n, c, p - 1);
    }
  }

  lemma {:induction false} FirstRows(m: Sent, n: nat, c: Codec, r: nat)
    requires ValidSent(m) && ReedSolomon(c) && r < n <= m.size
    ensures CodeRow(c, FirstPages(m, n), r) == CodeRow(c, m, r)
  {
    var f := FirstPages(m, n);
    assert f.bits[PAGE_BITS * r..PAGE_BITS * (r + 1)] == m.bits[PAGE_BITS * r..PAGE_BITS * (r + 1)];
    forall col: nat | col < OCTETS
      ensures CodeOctet(c, f, r, col) == CodeOctet(c, m, r, col)
    {
      SystematicOctet(c, m, r, col);
      SystematicOctet(c, f, r, col);
    }
  }

  lemma {:induction false} SystematicOctet(c: Codec, m: Sent, r: nat, col: nat)
    requires ValidSent(m) && ReedSolomon(c) && r < m.size && col < OCTETS
    ensures CodeOctet(c, m, r, col) == MatrixRow(m, r)[col]
  {
    var x := InformationColumn(m, col);
    assert c.encode(x)[..INFORMATION][r] == x[r];
  }

  // With the first n pages of a longer message held, an attempt at n pages decodes: to the first n
  // pages, without a sign that more were sent.
  lemma {:induction false} TruncatedMessage(pids: seq<nat>, rows: seq<Row>, m: Sent, n: nat, c: Codec)
    requires Coherent(pids, rows, m, c) && ReedSolomon(c) && 1 <= n == |pids| < m.size
    requires forall p :: p in pids ==> p <= n
    ensures Decode(c.decode, rows, pids, n) == Decoded(m.bits[..PAGE_BITS * n])
  {
    FirstPagesCoherent(pids, rows, m, n, c);
    DecodedIsSent(pids, rows, FirstPages(m, n), c);
  }

  // A run that fails: the first page of any message of two or more pages, then a page of the same
  // message ID that is not stored and carries size 1. The receiver decodes the first page as if it
  // were the message, and drops it.
  lemma {:induction false} PrematureAttempt(m: Sent, first: Input, other: Input, current: seq<Sent>, c: Codec)
    requires ValidInput(first) && ValidInput(other) && ReedSolomon(c) && |current| == MESSAGE_IDS
    requires WithCorrections(first.page) && PageOf(first.page, m, c) && first.page.pid == 1 && m.size >= 2
    requires !WithCorrections(other.page) && other.page.mid == first.page.mid && other.page.size == 1
    ensures ProperRun(Initial(), current, [first, other], [m, m], c)
    ensures var s := Run(Initial(), [first], c.decode);
            && s.pids[first.page.mid] == [1] && !s.printed[first.page.mid]
            && Decode(c.decode, s.rows[first.page.mid], [1], 1) == Decoded(m.bits[..PAGE_BITS])
            && !AttemptCorrect(s, other.page, m, c)
            && Run(Initial(), [first, other], c.decode).pids[first.page.mid] == []
  {
    hide AllCoherent, ReedSolomon, CodeRow, Handle, Decode;
    var p := first.page;
    var s := Handle(Initial(), p, c.decode, first.left);
    FirstPageHeld(first, c);
    RunOfTwo(Initial(), first, other, c.decode);
    FirstPageAttempt(m, first, current, c);
    ProperPair(m, first, other, current, c);
    DecodedClears(s, other, c);
    NotStoredCollect(s, other.page);
  }

  lemma {:induction false} NotStoredCollect(s: State, p: Page)
    requires Shaped(s) && ValidPage(p) && !WithCorrections(p)
    ensures Collect(s, p) == s
  {
  }

  lemma {:induction false} RunOfTwo(s: State, i: Input, j: Input, rs: Decoder)
    requires Shaped(s) && ValidInput(i) && ValidInput(j)
    ensures Shaped(Handle(s, i.page, rs, i.left))
    ensures Run(s, [i], rs) == Handle(s, i.page, rs, i.left)
    ensures Run(s, [i, j], rs) == Handle(Handle(s, i.page, rs, i.left), j.page, rs, j.left)
  {
    hide Handle;
    HandleShaped(s, i, rs);
    RunSnoc(s, [], i, rs);
    RunSnoc(s, [i], j, rs);
    assert [] + [i] == [i] && [i] + [j] == [i, j];
  }

  lemma {:induction false} ProperPair(m: Sent, first: Input, other: Input, current: seq<Sent>, c: Codec)
    requires ValidInput(first) && ValidInput(other) && |current| == MESSAGE_IDS
    requires WithCorrections(first.page) && PageOf(first.page, m, c) && !WithCorrections(other.page)
    ensures ProperRun(Initial(), current, [first, other], [m, m], c)
  {
    hide PageOf, Handle;
    HandleShaped(Initial(), first, c.decode);
    var s := Handle(Initial(), first.page, c.decode, first.left);
    HandleShaped(s, other, c.decode);
    assert [first, other][1..] == [other] && [m, m][1..] == [m] && [other][1..] == [] && [m][1..] == [];
    assert ProperRun(s, Turnover(Initial(), current, first.page, m), [other], [m], c);
  }

  lemma {:induction false} FirstPageAttempt(m: Sent, first: Input, current: seq<Sent>, c: Codec)
    requires ValidInput(first) && ReedSolomon(c) && |current| == MESSAGE_IDS
    requires WithCorrections(first.page) && PageOf(first.page, m, c) && first.page.pid == 1 && m.size >= 2
    ensures var s := Handle(Initial(), first.page, c.decode, first.left);
            Shaped(s) && Decode(c.decode, s.rows[first.page.mid], [1], 1) == Decoded(m.bits[..PAGE_BITS])
  {
    hide Coherent, ReedSolomon, Handle, Decode;
    var p := first.page;
    var s := Handle(Initial(), p, c.decode, first.left);
    StepCoherent(Initial(), current, first, m, c);
    FirstPageHeld(first, c);
    HeldCoherent(s, Turnover(Initial(), current, p, m), p.mid, c);
    TruncatedMessage([1], s.rows[p.mid], m, 1, c);
  }

  lemma {:induction false} HeldCoherent(s: State, current: seq<Sent>, mid: nat, c: Codec)
    requires Shaped(s) && |current| == MESSAGE_IDS && AllCoherent(s, current, c) && mid < MESSAGE_IDS
             && s.pids[mid] != []
    ensures Coherent(s.pids[mid], s.rows[mid], current[mid], c)
  {
  }

  lemma {:induction false} FirstPageHeld(first: Input, c: Codec)
    requires ValidInput(first) && WithCorrections(first.page) && first.page.size >= 2
    ensures var s := Handle(Initial(), first.page, c.decode, first.left);
            s.pids[first.page.mid] == [first.page.pid] && !s.printed[first.page.mid]
  {
    hide InitialSlot;
    var k := Collect(Initial(), first.page);
    assert k.pids[first.page.mid] == [first.page.pid];
  }

  lemma {:induction false} DecodedClears(s: State, i: Input, c: Codec)
    requires Shaped(s) && ValidInput(i) && !s.printed[i.page.mid] && !WithCorrections(i.page)
    requires |s.pids[i.page.mid]| == i.page.size
    requires Decode(c.decode, s.rows[i.page.mid], s.pids[i.page.mid], i.page.size).Decoded?
    ensures Handle(s, i.page, c.decode, i.left).pids[i.page.mid] == []
  {
    hide Decode, BodyResult, SlotAfter, ParseHeader;
  }
}
