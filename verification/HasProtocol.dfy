// The page protocol: whatever the order, the duplicates and the interleaving in which the pages
// of a message arrive, a decoding attempt yields the transmitted bits.
module HasProtocol {
  import opened Options
  import opened Arithmetic
  import opened HasBits
  import opened HasMessage
  import opened HasParser
  import opened HasPages
  import opened HasErasures

  type Information = s: seq<Byte> | |s| == 32 witness seq(32, i => 0)

  // A systematic RS(255,32) code with an erasure decoder.
  datatype Codec = Codec(encode: Information -> Block, decode: Decoder)

  ghost predicate Agrees(received: Block, sent: Block, erasures: seq<int>) {
    forall i :: 0 <= i < 255 && i !in erasures ==> received[i] == sent[i]
  }

  ghost predicate Positions(erasures: seq<int>) {
    Increasing(erasures) && |erasures| <= 223 && forall e :: e in erasures ==> 0 <= e < 255
  }

  // HAS SIS ICD 1.0, section 6.2: information symbols come first, and up to 223 erasures at known
  // positions are corrected.
  ghost predicate ReedSolomon(c: Codec) {
    && (forall x: Information :: c.encode(x)[..32] == x)
    && (forall x: Information, received: Block, erasures: seq<int> ::
          Positions(erasures) && Agrees(received, c.encode(x), erasures) ==>
              c.decode(received, erasures) == Some(c.encode(x)))
  }

  // ---- the sender -----------------------------------------------------------------------------------

  datatype Sent = Sent(size: nat, bits: string)

  ghost predicate ValidSent(m: Sent) {
    1 <= m.size <= 32 && |m.bits| == 424 * m.size && IsBits(m.bits)
  }

  // Row r of the message matrix, zero past the message.
  function MatrixRow(m: Sent, r: nat): Row
    requires |m.bits| == PAGE_BITS * m.size
  {
    if r < m.size then Octets(m.bits[PAGE_BITS * r..PAGE_BITS * (r + 1)]) else ZeroRow()
  }

  function InformationColumn(m: Sent, col: nat): Information
    requires |m.bits| == PAGE_BITS * m.size && col < OCTETS
  {
    seq(INFORMATION, r requires 0 <= r < INFORMATION => MatrixRow(m, r)[col])
  }

  // Row i of the encoded matrix: the content of page i + 1.
  function CodeRow(c: Codec, m: Sent, i: nat): Row
    requires |m.bits| == PAGE_BITS * m.size && i < BLOCK
  {
    seq(OCTETS, col requires 0 <= col < OCTETS => CodeOctet(c, m, i, col))
  }

  function CodeOctet(c: Codec, m: Sent, i: nat, col: nat): Byte
    requires |m.bits| == PAGE_BITS * m.size && i < BLOCK && col < OCTETS
  {
    c.encode(InformationColumn(m, col))[i]
  }

  // The first n encoded columns.
  function CodeColumns(c: Codec, m: Sent, n: nat): (r: seq<Block>)
    requires |m.bits| == PAGE_BITS * m.size && n <= OCTETS
    ensures |r| == n && forall col :: 0 <= col < n ==> r[col] == c.encode(InformationColumn(m, col))
  {
    if n == 0 then [] else CodeColumns(c, m, n - 1) + [c.encode(InformationColumn(m, n - 1))]
  }

  function RowText(row: seq<Byte>): (s: string)
    ensures |s| == 8 * |row| && IsBits(s)
  {
    if row == [] then "" else RowText(row[..|row| - 1]) + Write(row[|row| - 1], 8)
  }

  // A page that is to be stored, told by its own fields: from a satellite in test or operational mode,
  // of the message type with corrections, and with a page ID that is not the reserved one.
  predicate WithCorrections(p: Page) {
    (p.status == 0 || p.status == 1) && p.messageType == 1 && p.pid >= 1
  }

  // Page IDs the sender uses for a message: its own rows and the parity rows.
  predicate Sendable(pid: nat, size: nat) {
    1 <= pid <= size || 32 < pid <= 255
  }

  // A page sent for message m.
  ghost predicate PageOf(p: Page, m: Sent, c: Codec) {
    && ValidPage(p) && ValidSent(m) && p.size == m.size
    && Sendable(p.pid, m.size) && p.bits == RowText(CodeRow(c, m, p.pid - 1))
  }

  // ---- octets ------------------------------------------------------------------------------------------

  lemma {:induction false} RowTextAt(row: seq<Byte>, k: nat)
    requires k < |row|
    ensures RowText(row)[8 * k..8 * k + 8] == Write(row[k], 8)
  {
    var front := row[..|row| - 1];
    if k < |row| - 1 {
      RowTextAt(front, k);
      assert RowText(row)[8 * k..8 * k + 8] == RowText(front)[8 * k..8 * k + 8];
    }
  }

  // bitset<8>(substr(8k, 8)).to_ulong() gives back the octets a page was made of.
  lemma {:induction false} OctetsOfRowText(row: Row)
    ensures Octets(RowText(row)) == row
  {
    forall k | 0 <= k < OCTETS
      ensures Octets(RowText(row))[k] == row[k]
    {
      RowTextAt(row, k);
      assert Pow2(8) == 256;
      FieldRoundTrip(row[k], 8);
    }
  }

  // ---- decoding ------------------------------------------------------------------------------------------

  // All pages held for a message ID come from one message.
  ghost predicate Coherent(pids: seq<nat>, rows: seq<Row>, m: Sent, c: Codec) {
    && ValidSent(m) && |rows| == BLOCK && Distinct(pids) && InBlock(pids)
    && forall p :: p in pids ==> Sendable(p, m.size) && rows[p - 1] == CodeRow(c, m, p - 1)
  }

  lemma {:induction false} ColumnAgrees(pids: seq<nat>, rows: seq<Row>, m: Sent, c: Codec, col: nat)
    requires Coherent(pids, rows, m, c) && ReedSolomon(c) && col < OCTETS
    ensures Agrees(Column(rows, pids, col), c.encode(InformationColumn(m, col)), Erasures(pids, m.size))
  {
    var x := InformationColumn(m, col);
    ErasureCover(pids, m.size);
    forall i | 0 <= i < BLOCK && i !in Erasures(pids, m.size)
      ensures Column(rows, pids, col)[i] == c.encode(x)[i]
    {
      if i + 1 in pids {
        assert rows[(i + 1) - 1] == CodeRow(c, m, (i + 1) - 1);
      } else {
        assert m.size <= i < INFORMATION;
        assert c.encode(x)[i] == c.encode(x)[..INFORMATION][i] == x[i];
      }
    }
  }

  lemma {:induction false} ColumnsDecoded(pids: seq<nat>, rows: seq<Row>, m: Sent, c: Codec, n: nat)
    requires Coherent(pids, rows, m, c) && ReedSolomon(c) && |pids| == m.size && n <= OCTETS
    ensures Columns(c.decode, rows, pids, Erasures(pids, m.size), n) == Some(CodeColumns(c, m, n))
  {
    if n > 0 {
      ColumnsDecoded(pids, rows, m, c, n - 1);
      ColumnAgrees(pids, rows, m, c, n - 1);
      ErasuresAllowed(pids, rows, m, c);
    }
  }

  lemma {:induction false} ErasuresAllowed(pids: seq<nat>, rows: seq<Row>, m: Sent, c: Codec)
    requires Coherent(pids, rows, m, c) && |pids| == m.size
    ensures Positions(Erasures(pids, m.size))
  {
    ErasureCount(pids, m.size);
    ErasureCover(pids, m.size);
  }

  // Octet k of a bit string.
  function OctetText(text: string, k: nat): (octet: string)
    requires 8 * k + 8 <= |text|
    ensures |octet| == 8
  {
    text[8 * k..8 * k + 8]
  }

  lemma {:induction false} SplitOctets(text: string, n: nat)
    requires |text| == 8 * n + 8 && IsBits(text)
    ensures text == text[..8 * n] + OctetText(text, n) && IsBits(OctetText(text, n)) && IsBits(text[..8 * n])
    ensures forall k: nat :: k < n ==> OctetText(text[..8 * n], k) == OctetText(text, k)
  {
  }

  lemma {:induction false} RowRestored(columns: seq<Block>, row: nat, text: string)
    requires row < INFORMATION && |text| == 8 * |columns| && IsBits(text)
    requires forall k: nat :: k < |columns| ==> columns[k][row] == Unsigned(OctetText(text, k))
    ensures RowBits(columns, row) == text
  {
    if columns != [] {
      hide Unsigned, OctetText, Write, IsBits;
      var n := |columns| - 1;
      SplitOctets(text, n);
      RowRestored(columns[..n], row, text[..8 * n]);
      WriteOfUnsigned(OctetText(text, n));
    }
  }

  // Page n of a message.
  function PageText(m: Sent, n: nat): (text: string)
    requires ValidSent(m) && n < m.size
    ensures |text| == PAGE_BITS && IsBits(text)
  {
    m.bits[PAGE_BITS * n..PAGE_BITS * (n + 1)]
  }

  lemma {:induction false} MessageRestored(columns: seq<Block>, m: Sent, n: nat)
    requires ValidSent(m) && n <= m.size && |columns| == OCTETS
    requires forall col, r :: 0 <= col < OCTETS && 0 <= r < m.size ==> columns[col][r] == MatrixRow(m, r)[col]
    ensures MessageBits(columns, n) == m.bits[..PAGE_BITS * n]
  {
    if n > 0 {
      hide RowBits, Unsigned, MatrixRow, OctetText, IsBits, PageText;
      MessageRestored(columns, m, n - 1);
      var text := PageText(m, n - 1);
      forall k: nat | k < OCTETS
        ensures columns[k][n - 1] == Unsigned(OctetText(text, k))
      {
        MatrixRowAt(m, n - 1, k);
      }
      RowRestored(columns, n - 1, text);
      PagesAppend(m, n - 1);
    }
  }

  lemma {:induction false} PagesAppend(m: Sent, n: nat)
    requires ValidSent(m) && n < m.size
    ensures m.bits[..PAGE_BITS * (n + 1)] == m.bits[..PAGE_BITS * n] + PageText(m, n)
  {
  }

  lemma {:induction false} MatrixRowAt(m: Sent, r: nat, k: nat)
    requires ValidSent(m) && r < m.size && k < OCTETS
    ensures MatrixRow(m, r)[k] == Unsigned(OctetText(PageText(m, r), k))
  {
  }

  // A decoding attempt on pages of one message yields exactly that message.
  lemma {:induction false} DecodedIsSent(pids: seq<nat>, rows: seq<Row>, m: Sent, c: Codec)
    requires Coherent(pids, rows, m, c) && ReedSolomon(c) && |pids| == m.size
    ensures Decode(c.decode, rows, pids, m.size) == Decoded(m.bits)
  {
    ErasuresAllowed(pids, rows, m, c);
    ColumnsDecoded(pids, rows, m, c, OCTETS);
    var columns := CodeColumns(c, m, OCTETS);
    forall col, r | 0 <= col < OCTETS && 0 <= r < m.size
      ensures columns[col][r] == MatrixRow(m, r)[col]
    {
      var x := InformationColumn(m, col);
      assert c.encode(x)[r] == c.encode(x)[..INFORMATION][r] == x[r];
    }
    MessageRestored(columns, m, m.size);
    assert m.bits[..PAGE_BITS * m.size] == m.bits;
  }

  // ---- every run --------------------------------------------------------------------------------------------

  datatype Input = Input(page: Page, left: Leftover)

  ghost predicate ValidInput(i: Input) {
    ValidPage(i.page) && ValidSlot(i.left.slot)
  }

  // No step of the receiver breaks the shape of its state: per message ID the held page IDs are in
  // 1..255 and there are at least as many stored time stamps, so the age scan stays in range.
  lemma {:induction false} HandleShaped(s: State, i: Input, rs: Decoder)
    requires Shaped(s) && ValidInput(i)
    ensures Shaped(Handle(s, i.page, rs, i.left))
  {
    if !s.printed[i.page.mid] {
      TryDecodeShaped(Collect(s, i.page), i, rs);
    }
  }

  lemma {:induction false} TryDecodeShaped(s: State, i: Input, rs: Decoder)
    requires Shaped(s) && ValidInput(i)
    ensures Shaped(TryDecode(s, i.page, rs, i.left))
  {
    var p := i.page;
    if |s.pids[p.mid]| == p.size {
      var attempt := Decode(rs, s.rows[p.mid], s.pids[p.mid], p.size);
      if attempt.Decoded? {
        var h := ParseHeader(attempt.bits[..HEADER_BITS]);
        SlotAfterValid(h, s.masks[h.maskId], attempt.bits[HEADER_BITS..], i.left);
      }
    }
  }

  lemma {:induction false} SlotAfterValid(h: Header, slot: MaskSlot, bits: string, left: Leftover)
    requires ValidSlot(slot) && ValidSlot(left.slot)
    ensures ValidSlot(SlotAfter(h, slot, bits, left))
  {
    if MaskStage(Blank(h), slot, bits).Got? {
      MaskKeepsSlot(h, slot, bits);
    }
  }

  // A stored row that is not zero belongs to a held page.
  ghost predicate RowsHeld(s: State)
    requires Shaped(s)
  {
    forall mid, i :: 0 <= mid < MESSAGE_IDS && 0 <= i < BLOCK && s.rows[mid][i] != ZeroRow() ==> i + 1 in s.pids[mid]
  }

  ghost predicate DistinctPids(s: State)
    requires Shaped(s)
  {
    forall mid :: 0 <= mid < MESSAGE_IDS ==> Distinct(s.pids[mid])
  }

  // The state reached after the inputs.
  ghost function Run(s: State, inputs: seq<Input>, rs: Decoder): (r: State)
    requires Shaped(s) && forall k :: 0 <= k < |inputs| ==> ValidInput(inputs[k])
    ensures Shaped(r)
    decreases |inputs|
  {
    if inputs == [] then s
    else
      HandleShaped(s, inputs[0], rs);
      Run(Handle(s, inputs[0].page, rs, inputs[0].left), inputs[1..], rs)
  }

  lemma {:induction false} RunSnoc(s: State, inputs: seq<Input>, i: Input, rs: Decoder)
    requires Shaped(s) && ValidInput(i) && forall k :: 0 <= k < |inputs| ==> ValidInput(inputs[k])
    ensures forall k :: 0 <= k < |inputs| + 1 ==> ValidInput((inputs + [i])[k])
    ensures Run(s, inputs + [i], rs) == Handle(Run(s, inputs, rs), i.page, rs, i.left)
    decreases |inputs|
  {
    hide Handle;
    if inputs == [] {
      HandleShaped(s, i, rs);
      assert ([] + [i])[0] == i && ([] + [i])[1..] == [];
    } else {
      assert ValidInput(inputs[0]);
      HandleShaped(s, inputs[0], rs);
      RunSnoc(Handle(s, inputs[0].page, rs, inputs[0].left), inputs[1..], i, rs);
      assert (inputs + [i])[1..] == inputs[1..] + [i] && (inputs + [i])[0] == inputs[0];
    }
  }

  lemma {:induction false} CollectKeepsStore(s: State, p: Page)
    requires Shaped(s) && ValidPage(p) && RowsHeld(s) && DistinctPids(s)
    ensures RowsHeld(Collect(s, p)) && DistinctPids(Collect(s, p))
  {
    if WithCorrections(p) {
      var f := Forget(s, p.timeStamp);
      assert RowsHeld(f) && DistinctPids(f);
      AnnotateKeepsStore(f, p);
    }
  }

  lemma {:induction false} AnnotateKeepsStore(s: State, p: Page)
    requires Shaped(s) && ValidPage(p) && p.pid > 0 && RowsHeld(s) && DistinctPids(s)
    ensures RowsHeld(Annotate(s, p)) && DistinctPids(Annotate(s, p))
  {
    var r := Annotate(s, p);
    forall mid, i | 0 <= mid < MESSAGE_IDS && 0 <= i < BLOCK && r.rows[mid][i] != ZeroRow()
      ensures i + 1 in r.pids[mid]
    {
      if mid == p.mid && p.pid !in s.pids[mid] {
        if i == p.pid - 1 {
          assert r.pids[mid][|s.pids[mid]|] == p.pid;
        } else {
          assert s.rows[mid][i] != ZeroRow();
        }
      }
    }
  }

  lemma {:induction false} HandleKeepsStore(s: State, i: Input, rs: Decoder)
    requires Shaped(s) && ValidInput(i) && RowsHeld(s) && DistinctPids(s)
    ensures Shaped(Handle(s, i.page, rs, i.left))
    ensures RowsHeld(Handle(s, i.page, rs, i.left)) && DistinctPids(Handle(s, i.page, rs, i.left))
  {
    HandleShaped(s, i, rs);
    if !s.printed[i.page.mid] {
      CollectKeepsStore(s, i.page);
      StoreAfterAttempt(s, i, rs);
    }
  }

  // A call leaves the pages collected, or clears those of the message ID.
  lemma {:induction false} StoreAfterAttempt(s: State, i: Input, rs: Decoder)
    requires Shaped(s) && ValidInput(i) && !s.printed[i.page.mid]
    requires RowsHeld(Collect(s, i.page)) && DistinctPids(Collect(s, i.page))
    ensures Shaped(Handle(s, i.page, rs, i.left))
    ensures RowsHeld(Handle(s, i.page, rs, i.left)) && DistinctPids(Handle(s, i.page, rs, i.left))
  {
    HandleShaped(s, i, rs);
    hide Collect, Decode, ParseHeader, BodyResult, SlotAfter;
    var c, r := Collect(s, i.page), Handle(s, i.page, rs, i.left);
    var cleared := ClearPages(c, i.page.mid);
    assert (r.pids == c.pids && r.rows == c.rows) || (r.pids == cleared.pids && r.rows == cleared.rows);
  }

  // Page-store invariant over every run from the initial state.
  lemma {:induction false} RunKeepsStore(s: State, inputs: seq<Input>, rs: Decoder)
    requires Shaped(s) && RowsHeld(s) && DistinctPids(s)
    requires forall k :: 0 <= k < |inputs| ==> ValidInput(inputs[k])
    ensures RowsHeld(Run(s, inputs, rs)) && DistinctPids(Run(s, inputs, rs))
    decreases |inputs|
  {
    if inputs != [] {
      HandleKeepsStore(s, inputs[0], rs);
      RunKeepsStore(Handle(s, inputs[0].page, rs, inputs[0].left), inputs[1..], rs);
    }
  }

  lemma {:induction false} ReachableStore(inputs: seq<Input>, rs: Decoder)
    requires forall k :: 0 <= k < |inputs| ==> ValidInput(inputs[k])
    ensures RowsHeld(Run(Initial(), inputs, rs)) && DistinctPids(Run(Initial(), inputs, rs))
  {
    RunKeepsStore(Initial(), inputs, rs);
  }

  // ---- the protocol over every run -----------------------------------------------------------------------------

  ghost predicate AllCoherent(s: State, current: seq<Sent>, c: Codec)
    requires Shaped(s) && |current| == MESSAGE_IDS
  {
    forall mid :: 0 <= mid < MESSAGE_IDS ==> s.pids[mid] == [] || Coherent(s.pids[mid], s.rows[mid], current[mid], c)
  }

  // A page that is stored is of message `m`, and a message ID passes on to a new message only when
  // no page of the previous one is held any more. Pages that are not stored may be anything.
  ghost predicate Admissible(s: State, current: seq<Sent>, p: Page, m: Sent, c: Codec)
    requires Shaped(s) && |current| == MESSAGE_IDS && ValidPage(p)
  {
    WithCorrections(p) ==> PageOf(p, m, c) && (current[p.mid] == m || Forget(s, p.timeStamp).pids[p.mid] == [])
  }

  // What the message IDs stand for after page `p`, which is of `m` when it is stored.
  function Turnover<T>(s: State, current: seq<T>, p: Page, m: T): (r: seq<T>)
    requires Shaped(s) && |current| == MESSAGE_IDS && p.mid < MESSAGE_IDS
    ensures |r| == MESSAGE_IDS
  {
    if WithCorrections(p) && !s.printed[p.mid] then current[p.mid := m] else current
  }

  // When the receiver attempts to decode after collecting a page, the attempt gives the message.
  ghost predicate AttemptCorrect(s: State, p: Page, m: Sent, c: Codec)
    requires Shaped(s) && ValidPage(p)
  {
    var k := Collect(s, p);
    |k.pids[p.mid]| == p.size ==> Decode(c.decode, k.rows[p.mid], k.pids[p.mid], p.size) == Decoded(m.bits)
  }

  // The check of lines 245 to 250 stands outside the filter of lines 217 to 243, so a page that is
  // not stored can trigger an attempt. It is in time unless it does so with a size that is not that
  // of message `m`.
  predicate Timely(s: State, p: Page, m: Sent)
    requires Shaped(s) && ValidPage(p)
  {
    |Collect(s, p).pids[p.mid]| == p.size ==> p.size == m.size
  }

  lemma {:induction false} ForgetCoherent(s: State, current: seq<Sent>, now: nat, c: Codec)
    requires Shaped(s) && |current| == MESSAGE_IDS && AllCoherent(s, current, c)
    ensures AllCoherent(Forget(s, now), current, c)
  {
  }

  lemma {:induction false} AnnotateCoherent(f: State, current: seq<Sent>, p: Page, m: Sent, c: Codec)
    requires Shaped(f) && |current| == MESSAGE_IDS && AllCoherent(f, current, c)
    requires WithCorrections(p) && PageOf(p, m, c) && (current[p.mid] == m || f.pids[p.mid] == [])
    ensures AllCoherent(Annotate(f, p), current[p.mid := m], c)
  {
    var k := Annotate(f, p);
    OctetsOfRowText(CodeRow(c, m, p.pid - 1));
    if p.pid !in f.pids[p.mid] {
      CoherentAdd(f.pids[p.mid], f.rows[p.mid], p.pid, m, c);
    }
    forall mid | 0 <= mid < MESSAGE_IDS
      ensures k.pids[mid] == [] || Coherent(k.pids[mid], k.rows[mid], current[p.mid := m][mid], c)
    {
      assert f.pids[mid] == [] || Coherent(f.pids[mid], f.rows[mid], current[mid], c);
      if mid != p.mid {
        assert k.pids[mid] == f.pids[mid] && k.rows[mid] == f.rows[mid];
      }
    }
  }

  lemma {:induction false} CollectCoherent(s: State, current: seq<Sent>, p: Page, m: Sent, c: Codec)
    requires Shaped(s) && |current| == MESSAGE_IDS && ValidPage(p) && !s.printed[p.mid]
    requires AllCoherent(s, current, c) && Admissible(s, current, p, m, c)
    ensures AllCoherent(Collect(s, p), Turnover(s, current, p, m), c)
  {
    if WithCorrections(p) {
      ForgetCoherent(s, current, p.timeStamp, c);
      AnnotateCoherent(Forget(s, p.timeStamp), current, p, m, c);
    }
  }

  lemma {:induction false} CoherentAdd(pids: seq<nat>, rows: seq<Row>, pid: nat, m: Sent, c: Codec)
    requires pids == [] || Coherent(pids, rows, m, c)
    requires ValidSent(m) && |rows| == BLOCK && Sendable(pid, m.size) && pid !in pids
    ensures Coherent(pids + [pid], rows[pid - 1 := CodeRow(c, m, pid - 1)], m, c)
  {
  }

  // An attempt on pages of message `m` gives `m` exactly when the page that triggers it carries the
  // size of `m`.
  lemma {:induction false} AttemptExactly(k: State, mid: nat, size: nat, m: Sent, c: Codec)
    requires Shaped(k) && mid < MESSAGE_IDS && ReedSolomon(c) && |k.pids[mid]| == size <= INFORMATION
    requires Coherent(k.pids[mid], k.rows[mid], m, c)
    ensures Decode(c.decode, k.rows[mid], k.pids[mid], size) == Decoded(m.bits) <==> size == m.size
  {
    if size == m.size {
      DecodedIsSent(k.pids[mid], k.rows[mid], m, c);
    }
  }

  // One call: the pages held stay those of one message, and an attempt gives that message unless it
  // is triggered by a page that is not stored and carries another size.
  lemma {:induction false} StepCoherent(s: State, current: seq<Sent>, i: Input, m: Sent, c: Codec)
    requires Shaped(s) && |current| == MESSAGE_IDS && ValidInput(i) && ReedSolomon(c)
    requires AllCoherent(s, current, c)
    requires s.printed[i.page.mid] || Admissible(s, current, i.page, m, c)
    ensures Shaped(Handle(s, i.page, c.decode, i.left))
    ensures var p := i.page;
            var now := Turnover(s, current, p, m);
            && AllCoherent(Handle(s, p, c.decode, i.left), now, c)
            && (!s.printed[p.mid] ==>
                  && (AttemptCorrect(s, p, now[p.mid], c) <==> Timely(s, p, now[p.mid]))
                  && (WithCorrections(p) ==> Timely(s, p, m)))
  {
    HandleShaped(s, i, c.decode);
    var p := i.page;
    if !s.printed[p.mid] {
      var now := Turnover(s, current, p, m);
      CollectCoherent(s, current, p, m, c);
      var k := Collect(s, p);
      if |k.pids[p.mid]| == p.size {
        AttemptExactly(k, p.mid, p.size, now[p.mid], c);
      }
      HandleKeepsPages(s, i, now, c);
    }
  }

  // A call leaves the pages collected, or clears those of the message ID.
  lemma {:induction false} HandleKeepsPages(s: State, i: Input, now: seq<Sent>, c: Codec)
    requires Shaped(s) && ValidInput(i) && !s.printed[i.page.mid] && |now| == MESSAGE_IDS
    requires AllCoherent(Collect(s, i.page), now, c)
    ensures Shaped(Handle(s, i.page, c.decode, i.left))
    ensures AllCoherent(Handle(s, i.page, c.decode, i.left), now, c)
  {
    HandleShaped(s, i, c.decode);
    hide Coherent, Collect, Decode, ParseHeader, BodyResult, SlotAfter;
    var k := Collect(s, i.page);
    var r := Handle(s, i.page, c.decode, i.left);
    var cleared := ClearPages(k, i.page.mid);
    assert (r.pids == k.pids && r.rows == k.rows) || (r.pids == cleared.pids && r.rows == cleared.rows);
  }

  // A run of pages, with the message each stored page belongs to, in which message IDs are reused
  // properly.
  ghost predicate ProperRun(s: State, current: seq<Sent>, inputs: seq<Input>, messages: seq<Sent>, c: Codec)
    requires Shaped(s) && |current| == MESSAGE_IDS && |inputs| == |messages|
    requires forall k :: 0 <= k < |inputs| ==> ValidInput(inputs[k])
    decreases |inputs|
  {
    inputs == [] ||
    var i, m := inputs[0], messages[0];
    HandleShaped(s, i, c.decode);
    && (s.printed[i.page.mid] || Admissible(s, current, i.page, m, c))
    && ProperRun(Handle(s, i.page, c.decode, i.left), Turnover(s, current, i.page, m), inputs[1..], messages[1..], c)
  }

  // What the message IDs stand for after a run.
  ghost function Senders<T>(s: State, current: seq<T>, inputs: seq<Input>, messages: seq<T>, rs: Decoder): (r: seq<T>)
    requires Shaped(s) && |current| == MESSAGE_IDS && |inputs| == |messages|
    requires forall k :: 0 <= k < |inputs| ==> ValidInput(inputs[k])
    ensures |r| == MESSAGE_IDS
    decreases |inputs|
  {
    if inputs == [] then current
    else
      var i := inputs[0];
      HandleShaped(s, i, rs);
      Senders(Handle(s, i.page, rs, i.left), Turnover(s, current, i.page, messages[0]), inputs[1..], messages[1..], rs)
  }

  // In every run, for every arrival order, with any duplicates, any interleaving of message IDs and
  // any pages in between that are not stored, a decoding attempt yields exactly the transmitted
  // message if and only if the page that triggers it carries the size of that message; a page that
  // is stored does.
  lemma {:induction false} RunDecodesWhatWasSent(s: State, current: seq<Sent>, inputs: seq<Input>,
                                                 messages: seq<Sent>, c: Codec, k: nat)
    requires Shaped(s) && |current| == MESSAGE_IDS && |inputs| == |messages| && ReedSolomon(c)
    requires forall j :: 0 <= j < |inputs| ==> ValidInput(inputs[j])
    requires AllCoherent(s, current, c) && ProperRun(s, current, inputs, messages, c)
    requires k < |inputs|
    ensures var before := Run(s, inputs[..k], c.decode);
            var p := inputs[k].page;
            var m := Turnover(before, Senders(s, current, inputs[..k], messages[..k], c.decode), p, messages[k])[p.mid];
            !before.printed[p.mid] ==>
              && (AttemptCorrect(before, p, m, c) <==> Timely(before, p, m))
              && (WithCorrections(p) ==> m == messages[k] && Timely(before, p, m))
    decreases k
  {
    hide Run, Senders, Handle, Collect, AttemptCorrect, Timely, AllCoherent, ReedSolomon, Admissible;
    StepCoherent(s, current, inputs[0], messages[0], c);
    RunSplit(s, inputs, c.decode, k);
    SendersSplit(s, current, inputs, messages, c.decode, k);
    if k > 0 {
      var next := Handle(s, inputs[0].page, c.decode, inputs[0].left);
      RunDecodesWhatWasSent(next, Turnover(s, current, inputs[0].page, messages[0]), inputs[1..], messages[1..], c,
                            k - 1);
      assert inputs[1..][..k - 1] == inputs[1..k] && messages[1..][..k - 1] == messages[1..k];
    }
  }

  lemma {:induction false} RunSplit(s: State, inputs: seq<Input>, rs: Decoder, k: nat)
    requires Shaped(s) && k < |inputs| && ValidInput(inputs[0])
    requires forall j :: 0 <= j < |inputs| ==> ValidInput(inputs[j])
    ensures Shaped(Handle(s, inputs[0].page, rs, inputs[0].left))
    ensures k == 0 ==> Run(s, inputs[..k], rs) == s
    ensures k > 0 ==> Run(s, inputs[..k], rs) == Run(Handle(s, inputs[0].page, rs, inputs[0].left), inputs[1..k], rs)
  {
    hide Handle;
    HandleShaped(s, inputs[0], rs);
    if k > 0 {
      assert inputs[..k][1..] == inputs[1..k];
    }
  }

  lemma {:induction false} SendersSplit<T>(s: State, current: seq<T>, inputs: seq<Input>, messages: seq<T>, rs: Decoder,
                                           k: nat)
    requires Shaped(s) && |current| == MESSAGE_IDS && k < |inputs| == |messages| && ValidInput(inputs[0])
    requires forall j :: 0 <= j < |inputs| ==> ValidInput(inputs[j])
    ensures Shaped(Handle(s, inputs[0].page, rs, inputs[0].left))
    ensures k == 0 ==> Senders(s, current, inputs[..k], messages[..k], rs) == current
    ensures k > 0 ==> Senders(s, current, inputs[..k], messages[..k], rs)
                      == Senders(Handle(s, inputs[0].page, rs, inputs[0].left),
                                 Turnover(s, current, inputs[0].page, messages[0]), inputs[1..k], messages[1..k], rs)
  {
    hide Handle;
    HandleShaped(s, inputs[0], rs);
    if k > 0 {
      assert inputs[..k][1..] == inputs[1..k] && messages[..k][1..] == messages[1..k];
    }
  }
}
