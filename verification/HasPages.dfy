// The page store of the Galileo HAS receiver and the steps that update it, as functions on
// values: collecting pages, forgetting old ones, vertical Reed-Solomon decoding (HAS SIS ICD 1.0,
// section 6) and publishing.
module HasPages {
  import opened Arithmetic
  import opened HasBits
  import opened HasMessage
  import opened HasParser
  import opened Options

  const MESSAGE_IDS := 32
  const BLOCK := 255         // symbols in an encoded block
  const INFORMATION := 32    // information symbols in a block
  const OCTETS := 53         // octets in a page
  const PAGE_BITS := 424
  const MAX_ERASURES := 223
  const MAX_AGE := 150       // seconds
  const NEVER := 0xFFFF_FFFF_FFFF_FFFF

  datatype Page = Page(status: nat, messageType: nat, mid: nat, size: nat, pid: nat, timeStamp: nat, bits: string)

  ghost predicate ValidPage(p: Page) {
    && p.mid < 32 && 1 <= p.size <= 32 && p.pid <= 255 && p.timeStamp < 0xFFFF_FFFF_FFFF_FFFF
    && |p.bits| == 424 && IsBits(p.bits)
  }

  type Block = s: seq<Byte> | |s| == BLOCK witness seq(BLOCK, i => 0)
  type Row = s: seq<Byte> | |s| == OCTETS witness seq(OCTETS, i => 0)

  // ReedSolomon::decode with its erasure positions; None when it reports failure.
  type Decoder = (Block, seq<int>) -> Option<Block>

  function ZeroRow(): Row {
    seq(OCTETS, i => 0)
  }

  function ZeroRows(): seq<Row> {
    seq(BLOCK, i => ZeroRow())
  }

  datatype Publication = Publication(mid: nat, timeStamp: nat, data: HasData)

  datatype State = State(
    pids: seq<seq<nat>>, times: seq<seq<nat>>, rows: seq<seq<Row>>,
    printed: seq<bool>, printedAt: seq<nat>,
    masks: seq<MaskSlot>, data: HasData, newMessage: bool, published: seq<Publication>)

  ghost predicate Shaped(s: State) {
    && |s.pids| == |s.times| == |s.rows| == |s.printed| == |s.printedAt| == MESSAGE_IDS
    && (forall i :: 0 <= i < MESSAGE_IDS ==> |s.rows[i]| == BLOCK && |s.pids[i]| <= |s.times[i]|)
    && (forall i, p :: 0 <= i < MESSAGE_IDS && p in s.pids[i] ==> 1 <= p <= BLOCK)
    && |s.masks| == MASK_IDS && forall i :: 0 <= i < MASK_IDS ==> ValidSlot(s.masks[i])
  }

  // ---- pages in -----------------------------------------------------------------------------------

  // The octets of a page string.
  function Octets(bits: string): (r: Row)
    requires |bits| == PAGE_BITS
  {
    seq(OCTETS, k requires 0 <= k < OCTETS => OctetAt(bits, k))
  }

  function OctetAt(bits: string, k: nat): Byte
    requires k < OCTETS && |bits| == PAGE_BITS
  {
    UnsignedBound(bits[8 * k..8 * k + 8]);
    assert Pow2(8) == 256;
    Unsigned(bits[8 * k..8 * k + 8])
  }

  // delete_outdated_data drops the pages of a message ID when the oldest nonzero time stamp
  // among the first |pids| stored ones is too old.
  predicate Outdated(pids: seq<nat>, times: seq<nat>, now: nat)
    requires |pids| <= |times|
  {
    exists j :: 0 <= j < |pids| && times[j] > 0 && now > times[j] + MAX_AGE
  }

  predicate Forgettable(printed: bool, printedAt: nat, now: nat) {
    printed && now > printedAt + MAX_AGE
  }

  function Forget(s: State, now: nat): (r: State)
    requires Shaped(s)
    ensures Shaped(r)
  {
    s.(pids := seq(MESSAGE_IDS, i requires 0 <= i < MESSAGE_IDS =>
                 if Outdated(s.pids[i], s.times[i], now) then [] else s.pids[i]),
       times := seq(MESSAGE_IDS, i requires 0 <= i < MESSAGE_IDS =>
                 if Outdated(s.pids[i], s.times[i], now) then [] else s.times[i]),
       rows := seq(MESSAGE_IDS, i requires 0 <= i < MESSAGE_IDS =>
                 if Outdated(s.pids[i], s.times[i], now) then ZeroRows() else s.rows[i]),
       printed := seq(MESSAGE_IDS, i requires 0 <= i < MESSAGE_IDS =>
                 s.printed[i] && !Forgettable(s.printed[i], s.printedAt[i], now)),
       printedAt := seq(MESSAGE_IDS, i requires 0 <= i < MESSAGE_IDS =>
                 if Forgettable(s.printed[i], s.printedAt[i], now) then NEVER else s.printedAt[i]))
  }

  function Annotate(s: State, p: Page): (r: State)
    requires Shaped(s) && ValidPage(p) && p.pid > 0
    ensures Shaped(r)
  {
    if p.pid in s.pids[p.mid] then s
    else
      var block: seq<Row> := s.rows[p.mid];
      s.(pids := s.pids[p.mid := s.pids[p.mid] + [p.pid]],
         times := s.times[p.mid := s.times[p.mid] + [p.timeStamp]],
         rows := s.rows[p.mid := block[p.pid - 1 := Octets(p.bits)]])
  }

  // Pages that carry corrections; PID 0 is reserved.
  predicate Stored(p: Page) {
    p.status <= 1 && p.pid != 0 && p.messageType == 1
  }

  function Collect(s: State, p: Page): (r: State)
    requires Shaped(s) && ValidPage(p)
    ensures Shaped(r)
  {
    if Stored(p) then Annotate(Forget(s, p.timeStamp), p) else s
  }

  // ---- vertical decoding -------------------------------------------------------------------------

  // Positions i - 1 of the page IDs i in [lo, hi) that are not held.
  function Missing(pids: seq<nat>, lo: nat, hi: nat): (r: seq<int>) {
    if hi <= lo then []
    else Missing(pids, lo, hi - 1) + (if hi - 1 in pids then [] else [hi - 2])
  }

  function Erasures(pids: seq<nat>, size: nat): (r: seq<int>) {
    Missing(pids, 1, size + 1) + Missing(pids, INFORMATION + 1, BLOCK + 1)
  }

  function Column(rows: seq<Row>, pids: seq<nat>, col: nat): (c: Block)
    requires |rows| == BLOCK && col < OCTETS
  {
    seq(BLOCK, i requires 0 <= i < BLOCK => if i + 1 in pids then rows[i][col] else 0)
  }

  // The first n decoded columns.
  function Columns(rs: Decoder, rows: seq<Row>, pids: seq<nat>, erasures: seq<int>, n: nat): (r: Option<seq<Block>>)
    requires |rows| == BLOCK && n <= OCTETS
    ensures r.Some? ==> |r.value| == n
  {
    if n == 0 then Some([])
    else
      match (Columns(rs, rows, pids, erasures, n - 1), rs(Column(rows, pids, n - 1), erasures))
      case (Some(done), Some(c)) => Some(done + [c])
      case _ => None
  }

  // Row `row` of the message matrix, as bits.
  function RowBits(columns: seq<Block>, row: nat): (s: string)
    requires row < INFORMATION
    ensures |s| == 8 * |columns|
  {
    if columns == [] then ""
    else RowBits(columns[..|columns| - 1], row) + Write(columns[|columns| - 1][row], 8)
  }

  // The first n rows of the message matrix, as bits.
  function MessageBits(columns: seq<Block>, n: nat): (s: string)
    requires n <= INFORMATION && |columns| == OCTETS
    ensures |s| == PAGE_BITS * n
  {
    if n == 0 then "" else MessageBits(columns, n - 1) + RowBits(columns, n - 1)
  }

  // Too many erasures; the decoder reports failure; the decoded message.
  datatype Attempt = Undecodable | Uncorrected | Decoded(bits: string)

  function Decode(rs: Decoder, rows: seq<Row>, pids: seq<nat>, size: nat): (r: Attempt)
    requires |rows| == BLOCK && size <= INFORMATION
    ensures r.Decoded? ==> |r.bits| == PAGE_BITS * size
  {
    var erasures := Erasures(pids, size);
    if |erasures| > MAX_ERASURES then Undecodable
    else
      match Columns(rs, rows, pids, erasures, OCTETS)
      case None => Uncorrected
      case Some(columns) => Decoded(MessageBits(columns, size))
  }

  // ---- reading and publishing ---------------------------------------------------------------------

  // What an unreadable body leaves behind where the source stops in the middle of a sequence of
  // assignments.
  datatype Leftover = Leftover(data: HasData, slot: MaskSlot)

  function ClearPages(s: State, mid: nat): (r: State)
    requires Shaped(s) && mid < MESSAGE_IDS
    ensures Shaped(r)
  {
    s.(pids := s.pids[mid := []], rows := s.rows[mid := ZeroRows()])
  }

  function BodyResult(s: State, bits: string): Parse<Reading>
    requires Shaped(s) && |bits| >= HEADER_BITS
  {
    var h := ParseHeader(bits[..HEADER_BITS]);
    Body(h, s.masks[h.maskId], bits[HEADER_BITS..])
  }

  // The mask slot after a body was read: no block behind the mask changes it, except perhaps the
  // clock subset block. It is unspecified when reading stopped inside the mask.
  function SlotAfter(h: Header, slot: MaskSlot, bits: string, left: Leftover): (r: MaskSlot)
    requires ValidSlot(slot)
  {
    var m := MaskStage(Blank(h), slot, bits);
    if m.Failed? || (h.subsetFlag && Body(h, slot, bits).Failed?) then left.slot else m.value.slot
  }

  // Header and body of a decoded message.
  function ReadMessage(s: State, bits: string, left: Leftover): (r: State)
    requires Shaped(s) && |bits| >= HEADER_BITS
  {
    var h := ParseHeader(bits[..HEADER_BITS]);
    var slot := SlotAfter(h, s.masks[h.maskId], bits[HEADER_BITS..], left);
    var body := BodyResult(s, bits);
    s.(masks := s.masks[h.maskId := slot], data := if body.Got? then body.value.data else left.data)
  }

  // galileo_e6_has_msg_receiver.cc, lines 245-263: decode when as many pages are held as the message has.
  function TryDecode(s: State, p: Page, rs: Decoder, left: Leftover): (r: State)
    requires Shaped(s) && ValidPage(p)
  {
    if |s.pids[p.mid]| != p.size then s.(newMessage := false)
    else
      match Decode(rs, s.rows[p.mid], s.pids[p.mid], p.size)
      case Undecodable => ClearPages(s, p.mid).(newMessage := false)
      case Uncorrected => s.(newMessage := false)
      case Decoded(bits) =>
        var s1 := ClearPages(s, p.mid);
        var h := ParseHeader(bits[..HEADER_BITS]);
        var s2 := ReadMessage(s1, bits, left);
        s2.(newMessage := BodyResult(s1, bits).Got? && s2.masks[h.maskId].nsat != 0)
  }

  function Process(s: State, p: Page, rs: Decoder, left: Leftover): (r: State)
    requires Shaped(s) && ValidPage(p)
  {
    TryDecode(Collect(s, p), p, rs, left)
  }

  // msg_handler_galileo_e6_has
  function Handle(s: State, p: Page, rs: Decoder, left: Leftover): (r: State)
    requires Shaped(s) && ValidPage(p)
  {
    Publish(if s.printed[p.mid] then s else Process(s, p, rs, left), p)
  }

  function Publish(s: State, p: Page): (r: State)
    requires |s.printed| == |s.printedAt| == MESSAGE_IDS && ValidPage(p)
  {
    if !s.newMessage then s
    else s.(printed := s.printed[p.mid := true], printedAt := s.printedAt[p.mid := p.timeStamp],
            newMessage := false, published := s.published + [Publication(p.mid, p.timeStamp, s.data)])
  }

  function InitialSlot(): (slot: MaskSlot)
    ensures ValidSlot(slot)
  {
    assert Pow2(SATELLITE_MASK) > 0 && Pow2(SIGNAL_MASK) > 0;
    MaskSlot(0, 0, seq(GNSS_IDS, i => SystemMask(0, 0, 0, false, 0)),
             seq(GNSS_IDS, i => seq(SATELLITE_MASK, j => seq(SIGNAL_MASK, k => false))))
  }

  function Initial(): (s: State)
    ensures Shaped(s)
  {
    var slot := InitialSlot();
    State(seq(MESSAGE_IDS, i => []), seq(MESSAGE_IDS, i => []), seq(MESSAGE_IDS, i => ZeroRows()),
          seq(MESSAGE_IDS, i => false), seq(MESSAGE_IDS, i => NEVER),
          seq(MASK_IDS, i => slot), Blank(Header(0, false, false, false, false, false, false, 0, 0, 0)), false, [])
  }
}
