# A verified model of five cores of GNSS-SDR

The project models, in Dafny, five parts of the receiver and proves what they are for.

1. **The Galileo HAS message receiver** (`src/core/libs/galileo_e6_has_msg_receiver.cc`; HAS SIS ICD
   Issue 1.0, sections 5.1, 5.2, 6.2 and 6.4.1). `HasReceiver` is the class with the fields the handler
   updates; every method of it is tied to a function of `HasPages` (page store, erasures, decoding,
   publishing) or `HasParser` (the MT1 body as a chain of parsers). On these functions stand the
   theorems: `HasProtocol` and `HasErasures` (which decoding attempts of a run yield the transmitted
   bits), `HasRuns` (the same told from the pages alone), `HasReception` (once enough pages have come in
   time, the message is decoded and published), `HasEncoder` (round trip of the message body),
   `HasMaskStore` (the mask in force is the last one sent), `HasDelivery` (everything published was
   sent), `HasPublishing` (the same told from the pages alone), `HasWindow` (publish once), `HasOnePage`
   (runs of one-page messages) and `HasAges` (the time-out). `HasBits` and `HasMessage` hold bit strings
   and the data model.
2. **Version comparison and device lookup** (`src/core/libs/uio_fpga.cc`): `VersionOrder`, `UioLookup`.
3. **Control queue and dispatcher** (`src/core/receiver/concurrent_queue.h`, `control_thread.cc`):
   `ConcurrentQueue`, `ControlThread`. A run of the queue is any sequence of enabled atomic steps of any
   number of threads.
4. **INI parser and keyed store** (`src/core/libs/ini.cc`, `INIReader.cc`): `IniText` and `IniParser` work in
   place on a character array, `IniFile` states the language of the parser, `IniReader` the store.
5. **Spreading codes and Clenshaw sums** (`src/algorithms/libs/`): `ShiftRegister`, `CodeGenerators`,
   `L1Rotation`, `L1Codes`, `BeidouCodes`, `B1iRotation`, `B3iRotation`, `B3iSeeds`, `RegisterMaps`, `GpsL5`,
   `GpsL2c`, `GalileoE1`, `Clenshaw`.

Statements about the code use the numbers of the standards, not the constants of the code, and the
fields of pages and events, not the predicates of the code; so the theorems fix both.

`Arithmetic` and `Options` are shared. Imperative code of the source is a class or a method over
arrays, proved equal to a function on values; the theorems are about that function. Automatic induction
is switched off throughout, so every induction is written out.

`dafny verify dfyconfig.toml` checks everything.

## What the proofs brought to light

Where a property does not hold of the code, the code is modelled as it is; each entry names the lemma
with the failure and the one with the exact condition.

- The check that starts a decoding attempt (lines 245-250 of the HAS receiver) stands outside the filter
  for pages that are stored (lines 217-243), and pages with PID 0 or another message type do reach the
  receiver. Such a page can trigger an attempt on an incomplete message, with its own size: the first
  pages are then decoded as if they were all, and dropped (`HasRuns.TruncatedMessage`,
  `HasRuns.PrematureAttempt`). An attempt yields the transmitted message if and only if the page that
  triggers it carries the size of that message (`HasProtocol.RunDecodesWhatWasSent`).
- Decoding clears the pages of a message ID but not their time stamps (lines 337-338 and 404-405). The
  age scan then reads stale time stamps: once they are 150 s old, the second page of the next message
  under that ID makes the receiver drop the first one (`HasAges.FreshPageLost`, a run of four pages from
  the initial state). Time stamps and pages are aligned exactly while no attempt has cleared the pages
  since the time stamps were last dropped (`HasAges.AlignedFromStart`). While they are, the scan drops
  pages exactly when one of them is too old (`HasAges.ScanExactUnlessStale`); in any run with time
  stamps in order, it is right at all times exactly when it starts at the time stamp of the first page
  held (`HasAges.ScanExactOnRuns`).
- The age check sits behind the check for published message IDs (line 184). A published ID is released
  exactly by a late page of another, unpublished ID (`HasWindow.ReleasedExactly`). After a one-page
  message is published, pages of its message ID alone are ignored however late they come
  (`HasOnePage.SilentAfterFirst`, runs from the initial state), and a receiver that has published all 32
  IDs is silent for good (`HasWindow.SilentForever`).
- A mask with no system leaves the satellite count of the previous mask in the store (lines 481-546):
  `HasMaskStore.OrphanSatellites`, `HasMaskStore.CountAgreesExactly`.
- A receiver that has missed a mask reads the next message without one by the old mask, and can publish
  what it reads (`HasOnePage.WrongMaskPublished`, a run of two pages from the initial state, and
  `HasOnePage.WrongMaskOccurs`, which gives such pages; `HasDelivery.MissedMask` for any state). What is
  published is the message sent if and only if the latest mask decoded is the one it was made for
  (`HasDelivery.StepPublishesExactly`).
- With `chip_shift` close to 2^32, a shifted GPS L1 C/A code can fail to be a rotation of the unshifted
  one (`L1Rotation.LastChipOf138`). It is one if and only if `chip_shift` is at most 2^32 - 1017 and
  1023 - delay + `chip_shift` is below 2^32 (`L1Rotation.RotatesExactly`); up to 2^32 - 1017 the index
  into G1 may wrap without effect, because G1 starts with ten equal bits. For BeiDou B1I and B3I the
  bound is the one where the sum of the code length and `chip_shift` reaches 2^32
  (`B1iRotation.RotatesExactly`, `B3iRotation.RotatesExactly`).
- The PRN checks of the GPS L1 C/A and BeiDou B3I generators let an index pass that is past the table,
  for PRN 52 and 64 and for no other (`CodeGenerators.L1CheckExactly`, `BeidouCodes.B3iCheckExactly`).
- The energy of the CBOC replica is its number of samples if and only if there is a multiple of 4 of
  them in each chip (`GalileoE1.EnergyExactly`).
- A line of an INI file is a continuation if and only if it is nonblank and starts with a blank, even if
  a comment or a section follows the blank (`IniFile.ContinuationExactly`). Its name is that of the last
  pair, across section headers (`IniFile.StrayContinuation`, `IniFile.ContinuationName`); writing to the
  last character of the previous name (line 153) does not forget it.

## Assumptions

- The Reed-Solomon decoder is a parameter with the contract `HasProtocol.ReedSolomon`: systematic
  RS(255,32), and up to 223 erasures at known positions are corrected.
- Pages have a message ID below 32, a size of 1 to 32, a page ID of at most 255, 424 bits and a time stamp
  below 2^64 - 1 (`HasPages.ValidPage`).
- In the protocol theorems, stored pages are as their sender made them, with the size of their message and
  page IDs of the message or of parity rows, and a message ID passes on to a new message only when no page
  of the previous one is held any more (`HasProtocol.Admissible`); `HasRuns.ApartIsProper` derives the
  latter from time stamps. Pages that are not stored may be anything. `HasPublishing.PagesPlanned` asks in
  addition for one mask per mask ID and for the size of the last message on pages that are not stored;
  `HasReception.Completes` says which pages complete a message.
- The phase table of BeiDou B1I is taken as it is (`BeidouCodes.PhasesDistinct` says that it is in order,
  without repetitions); for GPS L1 C/A and BeiDou B3I the tables are proved against another description
  (`L1Codes`, `B3iSeeds`).
- The sine, cosine and hyperbolic functions are parameters of which parity and the addition laws are used.

## Model

| member | source | states |
|---|---|---|
| HasProtocol.RunDecodesWhatWasSent | src/core/libs/galileo_e6_has_msg_receiver.cc:163-388 | In every run of pages, in any arrival order, with duplicates, interleaved message IDs and pages that are not stored, a decoding attempt yields exactly the bits of the transmitted message if and only if the page that triggers it carries the size of that message, which every stored page does (given a systematic RS(255,32) erasure decoder) |
| HasProtocol.AttemptExactly | src/core/libs/galileo_e6_has_msg_receiver.cc:245-250 | An attempt on pages of one message, at any size, yields the message if and only if the size is its own |
| HasProtocol.DecodedIsSent | src/core/libs/galileo_e6_has_msg_receiver.cc:300-388 | When as many pages of one message are held as it has, erasure list, 53 column decodings and row serialisation together return the transmitted bits |
| HasProtocol.StepCoherent | src/core/libs/galileo_e6_has_msg_receiver.cc:163-264 | For every page, stored or not: a handler call keeps the held pages of a message ID on one message, and an attempt is right exactly when the page carries the size of the message held |
| HasRuns.ApartIsProper | src/core/libs/galileo_e6_has_msg_receiver.cc:163-297 | From the initial state, pages with positive, nondecreasing time stamps, in which a message ID passes to another message more than 150 s after the last page of the old one, reuse message IDs properly |
| HasRuns.PagesDecodeWhatWasSent | src/core/libs/galileo_e6_has_msg_receiver.cc:163-388 | So in such a run every attempt triggered by a stored page yields the message that page belongs to |
| HasRuns.StepSettled | src/core/libs/galileo_e6_has_msg_receiver.cc:229-287 | One call keeps the stored time stamps positive, not later than the pages to come, and more than 150 s older than those of another message |
| HasRuns.TruncatedMessage | src/core/libs/galileo_e6_has_msg_receiver.cc:245-388 | With the first n pages of a longer message held, an attempt at n pages decodes to the first n pages |
| HasRuns.PrematureAttempt | src/core/libs/galileo_e6_has_msg_receiver.cc:215-264 | A run that fails: the first page of any longer message, then a page that is not stored and carries size 1; the first page is decoded as the message and dropped |
| HasProtocol.CollectCoherent | src/core/libs/galileo_e6_has_msg_receiver.cc:217-243 | Storing an admissible page, after forgetting old ones, keeps the pages of every message ID on one message |
| HasProtocol.ColumnAgrees | src/core/libs/galileo_e6_has_msg_receiver.cc:350-358 | Outside the erasure positions, a received column equals the codeword of the sent column; the padding rows are zeros on both sides |
| HasProtocol.ColumnsDecoded | src/core/libs/galileo_e6_has_msg_receiver.cc:350-374 | All columns are decoded to the codewords sent |
| HasProtocol.MessageRestored | src/core/libs/galileo_e6_has_msg_receiver.cc:378-388 | Reading the matrix by rows restores the sent bit string |
| HasProtocol.OctetsOfRowText | src/core/libs/galileo_e6_has_msg_receiver.cc:232-238 | A page text split into octets gives back the octets it was printed from |
| HasProtocol.HandleShaped | src/core/libs/galileo_e6_has_msg_receiver.cc:215-297 | No handler call breaks the bounds the age scan relies on: page IDs stay in 1..255, with at least as many time stamps as pages |
| HasProtocol.HandleKeepsStore | src/core/libs/galileo_e6_has_msg_receiver.cc:215-405 | Held page IDs stay distinct, and a stored row that is not zero belongs to a held page, through every clearing path |
| HasProtocol.ReachableStore | src/core/libs/galileo_e6_has_msg_receiver.cc:56-297 | Both hold in every state reachable from the initial one |
| HasErasures.ErasureCount | src/core/libs/galileo_e6_has_msg_receiver.cc:309-340 | With as many distinct pages as the message has, the list has 223 entries plus one per held page ID strictly between the size and 33; so decoding is given up exactly when such a page is held |
| HasErasures.ErasureCover | src/core/libs/galileo_e6_has_msg_receiver.cc:309-356 | The list is strictly increasing; a position is listed exactly when its page is not held and it is not one of the zero rows that pad the message to 32 |
| HasErasures.MissingMembers | src/core/libs/galileo_e6_has_msg_receiver.cc:309-322 | One range of the list holds, in order, exactly the positions of the page IDs not held |
| HasErasures.MissingCount | src/core/libs/galileo_e6_has_msg_receiver.cc:309-322 | Held and missing page IDs of a range add up to the range |
| HasDelivery.PublishedWasSent | src/core/libs/galileo_e6_has_msg_receiver.cc:163-264 | Everything a run publishes is, field by field, a message sent under that message ID, with loss, duplication and reordering of pages, any pages in between that are not stored, and masks that change |
| HasDelivery.StepPublishesExactly | src/core/libs/galileo_e6_has_msg_receiver.cc:184-264 | A call publishes at most one message; it is the one sent if and only if the latest mask decoded under its mask ID is the one it was made for; a usable message whose mask is the latest is published |
| HasDelivery.StepAccounted | src/core/libs/galileo_e6_has_msg_receiver.cc:184-264 | A call keeps the pages held on one message, the store on the latest masks decoded, and the new-message flag down |
| HasDelivery.ReadExactly | src/core/libs/galileo_e6_has_msg_receiver.cc:407-437 | Reading a transmitted message: what it does to the mask store, and when it is ready to be published |
| HasDelivery.BodyExactly | src/core/libs/galileo_e6_has_msg_receiver.cc:470-886 | A body is read back whole if and only if it is read with the mask it was made for |
| HasDelivery.MissedMask | src/core/libs/galileo_e6_has_msg_receiver.cc:407-437 | A message without a mask or correction block, made for another mask than the one known, is ready to be published with the satellites and cells of the known one |
| HasDelivery.AttemptMissesMask | src/core/libs/galileo_e6_has_msg_receiver.cc:245-264 | An attempt on the pages of such a message marks it for publication, not as it was sent |
| HasDelivery.UnreadableNotPublished | src/core/libs/galileo_e6_has_msg_receiver.cc:245-264 | A message whose body breaks off is not published |
| HasOnePage.WrongMaskPublished | src/core/libs/galileo_e6_has_msg_receiver.cc:163-585 | A run that fails, from the initial state: a one-page message brings a mask; a one-page message of another message ID, made for a different mask under the same mask ID and without a mask of its own or a block, is then published with the mask of the first, and not as it was sent |
| HasOnePage.WrongMaskOccurs | src/core/libs/galileo_e6_has_msg_receiver.cc:441-550 | Two concrete pages that meet the conditions of this run, whatever the codec |
| HasOnePage.FirstPublished | src/core/libs/galileo_e6_has_msg_receiver.cc:163-264 | From the initial state, a one-page message with its mask is published at once, field by field as it was sent |
| HasPublishing.PagesPublishWhatWasSent | src/core/libs/galileo_e6_has_msg_receiver.cc:163-264 | From the initial state, with conditions on the pages alone (positive time stamps in order, message IDs that pass on after 150 s, one mask for each mask ID, pages that are not stored of the size of the last message): everything published is, field by field, a message sent with one of the pages |
| HasPublishing.PlannedIsReadable | src/core/libs/galileo_e6_has_msg_receiver.cc:163-264 | Such pages never trigger an attempt with a wrong size or read a message by another mask, whatever the receiver does with them |
| HasPublishing.StepOnPlan | src/core/libs/galileo_e6_has_msg_receiver.cc:184-264 | One call keeps what this needs: time stamps settled, sizes of the messages held, masks held and stored as planned, no pages under published message IDs |
| HasReception.Reception | src/core/libs/galileo_e6_has_msg_receiver.cc:215-388 | Completeness: from no pages and no time stamps under an unpublished message ID, the page that brings the last page ID needed within 150 s triggers an attempt, which decodes the message sent, in any order, with duplicates and other pages in between |
| HasReception.ReceptionPublishes | src/core/libs/galileo_e6_has_msg_receiver.cc:163-264 | If that message brings its mask and a time of hour in range, it is published, once, and its message ID marked with the time stamp of that page |
| HasReception.RunHolds | src/core/libs/galileo_e6_has_msg_receiver.cc:215-297 | Until then, in every such run, exactly the page IDs offered are held, each with its row, and none is dropped |
| HasReception.OwnHolds | src/core/libs/galileo_e6_has_msg_receiver.cc:217-250 | A page of the message joins those held, unless it is held already, and triggers no attempt before they are enough |
| HasReception.PageHeld | src/core/libs/galileo_e6_has_msg_receiver.cc:215-243 | A page of an unpublished message ID with status 0 or 1, message type 1 and a page ID other than 0: when the call makes no attempt, the page ID is held afterwards with the octets of the page, unless it was held before, and of every message ID the pages with a time stamp more than 150 s old among those scanned are forgotten |
| HasReception.PageIgnored | src/core/libs/galileo_e6_has_msg_receiver.cc:215-264 | For every other page of an unpublished message ID nothing is stored or forgotten, of any message ID, and without an attempt the receiver stays as it is |
| HasWindow.PublishOnce | src/core/libs/galileo_e6_has_msg_receiver.cc:184-297 | With nondecreasing time stamps, two publications under one message ID are more than 150 s apart, and the new-message flag is down between calls |
| HasWindow.StepWindowed | src/core/libs/galileo_e6_has_msg_receiver.cc:184-297 | One call keeps the invariant that ties published IDs to the time of their last publication |
| HasWindow.ReleasedExactly | src/core/libs/galileo_e6_has_msg_receiver.cc:184-297 | A published message ID is released if and only if a stored page of an unpublished ID comes more than 150 s later |
| HasWindow.SilentWhilePrinted | src/core/libs/galileo_e6_has_msg_receiver.cc:184-187 | Pages of published message IDs change nothing at all, however late they come |
| HasWindow.SilentForever | src/core/libs/galileo_e6_has_msg_receiver.cc:184-297 | A receiver that has published all 32 message IDs never publishes again |
| HasOnePage.SilentAfterFirst | src/core/libs/galileo_e6_has_msg_receiver.cc:163-264 | A run from the initial state: after the publication of a one-page message, pages of the same message ID, however late, leave the whole receiver as it was |
| HasAges.HeldTimesFollow | src/core/libs/galileo_e6_has_msg_receiver.cc:217-287 | What a call does to the pages and to the arrival times of the pages of a message ID: keep, drop, append, or restart with this page |
| HasAges.ScanExactWhenAligned | src/core/libs/galileo_e6_has_msg_receiver.cc:270-287 | For pages stored in order, the age scan gives the time-out of HAS SIS ICD 1.0 section 6.4.1 at all times if and only if the first stored time stamp is that of the first held page |
| HasAges.DecodingLeavesTimes | src/core/libs/galileo_e6_has_msg_receiver.cc:403-405 | A decoded message leaves its time stamps behind when its pages are cleared |
| HasAges.StaleTimesDropFreshPage | src/core/libs/galileo_e6_has_msg_receiver.cc:215-287 | Two handler calls in any state with time stamps left behind that are 150 s old: the second page of the next message drops the first one |
| HasAges.AlignedExactly | src/core/libs/galileo_e6_has_msg_receiver.cc:215-405 | In every run, the time stamps stored under a message ID are those of its pages exactly while no decoding attempt has cleared the pages since the time stamps were last dropped |
| HasAges.StepAligned | src/core/libs/galileo_e6_has_msg_receiver.cc:215-405 | The same for one call |
| HasAges.AlignedFromStart | src/core/libs/galileo_e6_has_msg_receiver.cc:56-405 | The same for every run from the initial state |
| HasAges.ScanExactUnlessStale | src/core/libs/galileo_e6_has_msg_receiver.cc:215-287 | In every run, while no attempt has left time stamps behind, the age scan drops the pages of a message ID at a time if and only if one of them is too old then |
| HasAges.ScanExactOnRuns | src/core/libs/galileo_e6_has_msg_receiver.cc:215-287 | In every run of positive, nondecreasing time stamps, the scan of the pages held is right at all times if and only if it starts at the time stamp of the first of them |
| HasAges.StepOrdered | src/core/libs/galileo_e6_has_msg_receiver.cc:215-287 | One call keeps the stored time stamps of every message ID positive, ascending, and not later than the pages to come |
| HasAges.FreshPageLost | src/core/libs/galileo_e6_has_msg_receiver.cc:163-297 | A run from the initial state: a one-page message, a page of another message ID more than 150 s later, then two pages of the next message at most 150 s apart; the first of these is dropped, though no held page is too old |
| HasMaskStore.MaskAgreement | src/core/libs/galileo_e6_has_msg_receiver.cc:477-585 | After any sequence of messages, a message is read with exactly the latest mask sent under its mask ID (its own if it has one); if there is none, if it has no satellite, or if an out-of-range time of hour revoked it, no correction block is read; a mask without a system makes the mask ID unknown |
| HasMaskStore.DeliverAgrees | src/core/libs/galileo_e6_has_msg_receiver.cc:477-585 | One message keeps every mask slot equal to the latest mask sent under its ID |
| HasMaskStore.StageOf | src/core/libs/galileo_e6_has_msg_receiver.cc:477-585 | Which mask is in force while the corrections are read: the one of the message, the stored one, or none |
| HasMaskStore.DeliverIsReadMessage | src/core/libs/galileo_e6_has_msg_receiver.cc:411-416 | The store of the whole receiver changes by exactly this step |
| HasMaskStore.CountAgreesExactly | src/core/libs/galileo_e6_has_msg_receiver.cc:480-546 | After a message with a mask, the stored satellite count is that of the mask sent if and only if the mask has a system or nothing was stored before |
| HasMaskStore.OrphanSatellites | src/core/libs/galileo_e6_has_msg_receiver.cc:558-572 | In the other case the next message without a mask is read with satellites that belong to no system |
| HasEncoder.BodyInverse | src/core/libs/galileo_e6_has_msg_receiver.cc:470-886 | Parsing the encoding of any well-formed MT1 body returns the message, the updated mask slot and exactly the bits that follow, whether the mask is in the message or in the store |
| HasEncoder.HeaderInverse | src/core/libs/galileo_e6_has_msg_receiver.cc:441-454 | Header round trip |
| HasEncoder.MaskInverse | src/core/libs/galileo_e6_has_msg_receiver.cc:477-550 | Mask block round trip, and what it leaves in the mask slot |
| HasEncoder.MaskStageInverse | src/core/libs/galileo_e6_has_msg_receiver.cc:477-585 | The mask in force is the one sent, from the message or from the store |
| HasEncoder.SystemInverse | src/core/libs/galileo_e6_has_msg_receiver.cc:492-542 | Round trip of one system of the mask, with a cell mask whose size depends on the ones of the two masks before it |
| HasEncoder.CellsInverse | src/core/libs/galileo_e6_has_msg_receiver.cc:524-537 | Cell mask round trip; without a cell mask every cell is off |
| HasEncoder.StoreHolds | src/core/libs/galileo_e6_has_msg_receiver.cc:481-544 | After the mask block the slot holds the mask sent |
| HasEncoder.OrbitInverse | src/core/libs/galileo_e6_has_msg_receiver.cc:587-631 | Orbit block round trip, with an issue-of-data width that depends on the owner of each satellite |
| HasEncoder.ClockInverse | src/core/libs/galileo_e6_has_msg_receiver.cc:639-657 | Clock full-set round trip |
| HasEncoder.RowsPerSatellite | src/core/libs/galileo_e6_has_msg_receiver.cc:746-806 | The bias blocks have one row per satellite, so the row counter of the nested loops ends at Nsat, and no row is wider than the matrix |
| HasEncoder.RowPlace | src/core/libs/galileo_e6_has_msg_receiver.cc:743-806 | The place of every row of a bias matrix: the row of satellite j of a system is behind those of all satellites of the systems before it, it holds exactly the signals that the cell mask of the system lets through, or all of them without one, and the satellite is one of that system |
| HasEncoder.WidthIsMost | src/core/libs/galileo_e6_has_msg_receiver.cc:749-787 | The bias matrix is as wide as the system with the most signals |
| HasEncoder.BiasBlockInverse | src/core/libs/galileo_e6_has_msg_receiver.cc:740-881 | Round trip of a code or phase bias block: only active cells are in the bit stream, the others are zero |
| HasEncoder.CodeStageInverse | src/core/libs/galileo_e6_has_msg_receiver.cc:740-809 | Code biases sent are code biases read, with the other fields unchanged |
| HasEncoder.PhaseStageInverse | src/core/libs/galileo_e6_has_msg_receiver.cc:811-885 | Phase biases and discontinuity indicators sent are those read |
| HasParser.BodyKeepsSlot | src/core/libs/galileo_e6_has_msg_receiver.cc:470-886 | Whatever the bits, the blocks behind the mask do not change the mask slot, and the slot stays well formed |
| HasParser.MaskStageFits | src/core/libs/galileo_e6_has_msg_receiver.cc:477-585 | Whatever the bits, the mask in force has Nsys systems, masks within their widths and rectangular cell masks |
| HasParser.StoreValid | src/core/libs/galileo_e6_has_msg_receiver.cc:481-544 | Storing up to 15 systems keeps a slot well formed |
| HasParser.BiasRowsWidth | src/core/libs/galileo_e6_has_msg_receiver.cc:746-806 | No satellite has more signals than the width of the bias matrix, so column indices are in range |
| HasParser.UnknownStops | src/core/libs/galileo_e6_has_msg_receiver.cc:587-631 | With a satellite of a system other than 0 and 2 in the mask, the orbit block has no corrections from that satellite on, and no block behind it is read |
| HasParser.OrbitBehindUnknown | src/core/libs/galileo_e6_has_msg_receiver.cc:596-630 | What is read behind such a satellite: the issue of data of GPS and Galileo satellites, and nothing for others |
| HasMessage.GnssIdOwner | src/core/system_parameters/galileo_has_data.cc:390-403 | The i-th satellite of a mask is owned by the system whose satellite mask holds it |
| HasMessage.GnssIdPastEnd | src/core/system_parameters/galileo_has_data.cc:390-403 | Past the last satellite the result is the wrong-system mark, and nowhere else unless a system has that number |
| HasBits.ReadUint | src/core/libs/galileo_e6_has_msg_receiver.cc:930-961 | The shift loop reads the number denoted by the bits, modulo the register width |
| HasBits.ReadInt16 | src/core/libs/galileo_e6_has_msg_receiver.cc:964-990 | The sign-extending loop, with its conversions to 16 bits, reads two's complement for 1 to 16 bits |
| HasBits.FirstBit | src/core/libs/galileo_e6_has_msg_receiver.cc:930-961 | The first bit of a field weighs most |
| HasBits.FieldRoundTrip | src/core/libs/galileo_e6_has_msg_receiver.cc:993-1006 | A field gives back every value that fits it |
| HasBits.SignedFieldRoundTrip | src/core/libs/galileo_e6_has_msg_receiver.cc:964-990 | A two's complement field gives back every value in its range |
| HasBits.UnsignedOfWrite | src/core/libs/galileo_e6_has_msg_receiver.cc:385-386 | Printing a number and reading it back keeps its low bits |
| HasBits.WriteOfUnsigned | src/core/libs/galileo_e6_has_msg_receiver.cc:235-237 | Reading a bit string and printing it back gives the same string |
| HasBits.PopCountOfUnsigned | src/core/libs/galileo_e6_has_msg_receiver.cc:768-779 | The population count of a mask is the number of ones in its bit string |
| HasBits.CountBits | src/core/libs/galileo_e6_has_msg_receiver.cc:768-779 | The shift-and-count loop is the population count |
| HasBits.CountOnesIn | src/core/libs/galileo_e6_has_msg_receiver.cc:501-508 | Counting the characters 1 of a mask |
| HasReceiver.TakeUint | src/core/libs/galileo_e6_has_msg_receiver.cc:480-484 | Reads an unsigned field off the front of the message; fails where the message is too short |
| HasReceiver.TakeInt16 | src/core/libs/galileo_e6_has_msg_receiver.cc:622-623 | The same for a signed field |
| HasReceiver.ReadCellMask | src/core/libs/galileo_e6_has_msg_receiver.cc:526-536 | Nested loops over the cells of one system |
| HasReceiver.HasReceiver.constructor | src/core/libs/galileo_e6_has_msg_receiver.cc:56-103 | The receiver starts in the initial state |
| HasReceiver.HasReceiver.HeaderParameter | src/core/libs/galileo_e6_has_msg_receiver.cc:889-927 | A header parameter is the number in its bit range |
| HasReceiver.HasReceiver.ReadMt1Header | src/core/libs/galileo_e6_has_msg_receiver.cc:441-454 | All header fields, nothing else of the data |
| HasReceiver.HasReceiver.ReadSystem | src/core/libs/galileo_e6_has_msg_receiver.cc:494-541 | One system of the mask |
| HasReceiver.HasReceiver.ReadMaskSystems | src/core/libs/galileo_e6_has_msg_receiver.cc:492-542 | All systems of the mask, into the data and into the slot of its mask ID, no other slot |
| HasReceiver.HasReceiver.ReadMask | src/core/libs/galileo_e6_has_msg_receiver.cc:477-550 | The mask block, including Nsys of zero |
| HasReceiver.HasReceiver.ReadOrRecallMask | src/core/libs/galileo_e6_has_msg_receiver.cc:477-585 | The mask in force: read, recalled, or revoked by the time of hour |
| HasReceiver.HasReceiver.GetGnssId | src/core/system_parameters/galileo_has_data.cc:390-403 | The system that owns a satellite |
| HasReceiver.HasReceiver.ReadOrbitItem | src/core/libs/galileo_e6_has_msg_receiver.cc:596-631 | One satellite of the orbit block, and whether its system is a known one |
| HasReceiver.HasReceiver.ReadOrbitItems | src/core/libs/galileo_e6_has_msg_receiver.cc:596-631 | All satellites of the orbit block |
| HasReceiver.HasReceiver.ReadOrbits | src/core/libs/galileo_e6_has_msg_receiver.cc:587-637 | The orbit block |
| HasReceiver.HasReceiver.ReadClock | src/core/libs/galileo_e6_has_msg_receiver.cc:639-661 | The clock full-set block |
| HasReceiver.HasReceiver.ReadMultipliers | src/core/libs/galileo_e6_has_msg_receiver.cc:645-650 | One multiplier per system, one more than the bits say |
| HasReceiver.HasReceiver.ReadClockCorrections | src/core/libs/galileo_e6_has_msg_receiver.cc:652-657 | One clock correction per satellite |
| HasReceiver.HasReceiver.CountBiases | src/core/libs/galileo_e6_has_msg_receiver.cc:746-787 | Satellites and signals of each system and the widest system; fails for an available cell mask without satellites |
| HasReceiver.HasReceiver.ReadBiasRow | src/core/libs/galileo_e6_has_msg_receiver.cc:796-803 | The biases of one satellite into one row of the matrix; fails on a row past Nsat |
| HasReceiver.HasReceiver.ReadBiases | src/core/libs/galileo_e6_has_msg_receiver.cc:743-806 | A bias block |
| HasReceiver.HasReceiver.ReadCodeBiases | src/core/libs/galileo_e6_has_msg_receiver.cc:740-809 | The code bias block, if announced and the mask is known |
| HasReceiver.HasReceiver.ReadPhaseBiases | src/core/libs/galileo_e6_has_msg_receiver.cc:811-885 | The phase bias block, if announced and the mask is known |
| HasReceiver.HasReceiver.ReadCorrections | src/core/libs/galileo_e6_has_msg_receiver.cc:587-885 | All blocks behind the mask, in order |
| HasReceiver.HasReceiver.ReadMt1Body | src/core/libs/galileo_e6_has_msg_receiver.cc:470-886 | The whole body: data, mask slot and success as the parsing function says |
| HasReceiver.HasReceiver.DeleteOutdatedData | src/core/libs/galileo_e6_has_msg_receiver.cc:267-297 | Which message IDs lose their pages and which published ones are released |
| HasReceiver.HasReceiver.OldestTimeStamp | src/core/libs/galileo_e6_has_msg_receiver.cc:272-281 | The oldest nonzero time stamp scanned decides whether the pages are outdated |
| HasReceiver.HasReceiver.DeleteOldPages | src/core/libs/galileo_e6_has_msg_receiver.cc:270-288 | Exactly the outdated message IDs lose pages, time stamps and rows |
| HasReceiver.HasReceiver.ReleaseOldMids | src/core/libs/galileo_e6_has_msg_receiver.cc:289-296 | Exactly the IDs published more than 150 s ago are released |
| HasReceiver.HasReceiver.ErasuresIn | src/core/libs/galileo_e6_has_msg_receiver.cc:309-322 | Missing positions of one range |
| HasReceiver.HasReceiver.DecodeColumns | src/core/libs/galileo_e6_has_msg_receiver.cc:350-374 | The decoded columns, or failure at the first column that does not decode |
| HasReceiver.HasReceiver.SerialiseRows | src/core/libs/galileo_e6_has_msg_receiver.cc:378-388 | The first rows of the message matrix as bits |
| HasReceiver.HasReceiver.DecodeMessageType1 | src/core/libs/galileo_e6_has_msg_receiver.cc:300-438 | The three outcomes of a decoding attempt, what each clears, and the result code |
| HasReceiver.HasReceiver.ReadDecodedMessage | src/core/libs/galileo_e6_has_msg_receiver.cc:407-437 | Header and body of a decoded message; an unreadable body gives -1 |
| HasReceiver.HasReceiver.CollectPage | src/core/libs/galileo_e6_has_msg_receiver.cc:217-243 | Which pages are stored, after old ones are dropped |
| HasReceiver.HasReceiver.StorePage | src/core/libs/galileo_e6_has_msg_receiver.cc:229-238 | A page ID, its time stamp and its octets go into the store |
| HasReceiver.HasReceiver.ProcessHasPage | src/core/libs/galileo_e6_has_msg_receiver.cc:215-264 | One page through the store, the decoder and the reader |
| HasReceiver.HasReceiver.PublishMessage | src/core/libs/galileo_e6_has_msg_receiver.cc:199-211 | Publishes the data once and marks the message ID |
| HasReceiver.HasReceiver.MsgHandler | src/core/libs/galileo_e6_has_msg_receiver.cc:163-212 | One handler call takes the state to the state of the specification |
| VersionOrder.StrictTotalOrder | src/core/libs/uio_fpga.cc:75-148 | sort_directories is a strict weak order, as std::sort requires, and distinct strings are always ordered |
| VersionOrder.CompareExactly | src/core/libs/uio_fpga.cc:75-141 | The comparison of any two strings without its tables: the digits that the common part ends with and the first difference decide; in an integer by the length of the digit runs, behind zeros that start a number the string whose digits go on comes first, else by the characters |
| VersionOrder.Fractions | src/core/libs/uio_fpga.cc:75-141 | Behind zeros that start a number, digits compare as text, and the string whose run of digits goes on comes first |
| VersionOrder.StateExactly | src/core/libs/uio_fpga.cc:90-123 | The state of the automaton is told by the digits that the common part ends with |
| VersionOrder.Transitive | src/core/libs/uio_fpga.cc:75-141 | Transitivity of the comparison from every automaton state |
| VersionOrder.Antisymmetric | src/core/libs/uio_fpga.cc:75-141 | Exchanging the arguments exchanges the sign |
| VersionOrder.ZeroMeansEqual | src/core/libs/uio_fpga.cc:104-117 | Zero exactly on equal strings |
| VersionOrder.RunFirst | src/core/libs/uio_fpga.cc:129-137 | Inside an integer the shorter remaining digit run comes first |
| VersionOrder.Table | src/core/libs/uio_fpga.cc:90-103 | What the two tables decide in each state at the first difference |
| VersionOrder.MyStrverscmp | src/core/libs/uio_fpga.cc:75-141 | The pointer loop computes the comparison defined by recursion on the strings |
| VersionOrder.AtFirstDifference | src/core/libs/uio_fpga.cc:124-140 | The table lookup after the loop |
| VersionOrder.CompareLengths | src/core/libs/uio_fpga.cc:129-137 | The digit-run loop compares the lengths of two digit runs |
| UioLookup.KthDevice | src/core/libs/uio_fpga.cc:151-187 | For a listing in any order of directories with a digit-free prefix and a decimal number, the result is the number of the k-th matching device in increasing numeric order, before the first one whose name cannot be read; if there are not so many, the search fails at that device, or is -1 when all names can be read |
| UioLookup.PathOrder | src/core/libs/uio_fpga.cc:144-148 | Such names are ordered as their numbers are |
| UioLookup.CanonicalOrder | src/core/libs/uio_fpga.cc:75-141 | Decimal numbers without leading zeros compare as numbers |
| UioLookup.SameLengthDigits | src/core/libs/uio_fpga.cc:97-137 | Inside an integer, digit strings of one length compare as numbers |
| UioLookup.SkipPrefix | src/core/libs/uio_fpga.cc:106-123 | A common digit-free prefix does not matter |
| UioLookup.SortDetermined | src/core/libs/uio_fpga.cc:163-163 | Any two ordered arrangements of one listing are equal, so the result of std::sort is determined |
| UioLookup.SortOrdered | src/core/libs/uio_fpga.cc:163-163 | The specification of the sort gives an ordered listing |
| UioLookup.SortPaths | src/core/libs/uio_fpga.cc:156-163 | Sorting directories sorts their numbers |
| UioLookup.SearchPaths | src/core/libs/uio_fpga.cc:165-186 | Searching a sorted listing returns the k-th matching number, with the same end at an unreadable name |
| UioLookup.FindUioNum | src/core/libs/uio_fpga.cc:151-187 | The search loop with its counter; an unreadable device name ends it as the exception does |
| UioLookup.GetUioNum | src/core/libs/uio_fpga.cc:30-47 | The number that starts at the first digit |
| UioLookup.Atoi | src/core/libs/uio_fpga.cc:45-46 | The value of the leading digits |
| UioLookup.UioNumOfPath | src/core/libs/uio_fpga.cc:30-47 | A directory name gives back the number it was made from |
| ConcurrentQueue.QueueSafety | src/core/receiver/concurrent_queue.h:44-95 | In every interleaving the values pushed are the values the calls gave back, in order, followed by the contents; while a consumer sleeps, the length is at most the pending notifications plus the woken consumers |
| ConcurrentQueue.PopExactly | src/core/receiver/concurrent_queue.h:58-95 | After any schedule, a call that pops gives back nothing if and only if everything pushed was given back before; otherwise the first value that was not |
| ConcurrentQueue.RunConserves | src/core/receiver/concurrent_queue.h:44-95 | The same from any state: queued and pushed values are those given back and those queued after |
| ConcurrentQueue.NoLostWakeUp | src/core/receiver/concurrent_queue.h:44-95 | From every reachable state, the notifications and woken consumers run out in a bounded number of steps, and then a consumer sleeps only on an empty queue |
| ConcurrentQueue.StepConserves | src/core/receiver/concurrent_queue.h:44-95 | What is queued and what goes in with a step is what the call gives back and what is queued after, in order |
| ConcurrentQueue.StepAttends | src/core/receiver/concurrent_queue.h:44-95 | No step, including time-outs and spurious wake-ups, breaks the bound on the length while someone sleeps |
| ConcurrentQueue.InternalRunsEnd | src/core/receiver/concurrent_queue.h:48-94 | Notifications and resumed waits cannot go on for ever |
| ConcurrentQueue.StuckIsIdle | src/core/receiver/concurrent_queue.h:48-94 | When none of these steps is possible there is no pending notification and no woken consumer |
| ConcurrentQueue.ConcurrentQueue.PushData | src/core/receiver/concurrent_queue.h:44-48 | Push up to the unlock |
| ConcurrentQueue.ConcurrentQueue.NotifyOne | src/core/receiver/concurrent_queue.h:49-49 | notify_one wakes one sleeping consumer, if there is one |
| ConcurrentQueue.ConcurrentQueue.PopFront | src/core/receiver/concurrent_queue.h:65-66 | Front and pop |
| ConcurrentQueue.ConcurrentQueue.TryPopData | src/core/receiver/concurrent_queue.h:58-68 | Pops the front, or reports an empty queue and changes nothing |
| ConcurrentQueue.ConcurrentQueue.BeginWait | src/core/receiver/concurrent_queue.h:70-86 | A blocking or timed pop until it waits or returns |
| ConcurrentQueue.ConcurrentQueue.EndWait | src/core/receiver/concurrent_queue.h:73-95 | The same after a wait: a timed pop returns false exactly on an empty queue, a blocking one waits again |
| ControlThread.FlowgraphCalls | src/core/receiver/control_thread.cc:279-327 | Over every event sequence the flowgraph gets, in order, the channel events dispatched outside standby, every command but 200, and an acquisition request per time-out outside standby; the control plane gets exactly 200 and 300; every message is counted |
| ControlThread.DispatchedExactly | src/core/receiver/control_thread.cc:395-405 | The events dispatched are those of the first turns: up to the first one at which the flowgraph does not run, the stop flag is set, or the event before was a command 200 or 300 with action 0 or 1 |
| ControlThread.AccountedStep | src/core/receiver/control_thread.cc:279-327 | Accounting for the events of a run, one event at a time |
| ControlThread.EndOfRun | src/core/receiver/control_thread.cc:395-447 | Nothing is dispatched after action 0 or 1, and a started run asks for a restart exactly when its last event was action 1 |
| ControlThread.DispatchOne | src/core/receiver/control_thread.cc:279-327 | What one event does to standby, stop, restart, the counter and the flowgraph |
| ControlThread.RunFresh | src/core/receiver/control_thread.cc:339-448 | A whole run of a fresh receiver: its calls, and result 42 exactly after RESTART |
| ControlThread.ControlThread.ApplyAction | src/core/receiver/control_thread.cc:917-974 | The new state for every action code |
| ControlThread.ControlThread.EventDispatcher | src/core/receiver/control_thread.cc:279-327 | The new state for every event and for a time-out |
| ControlThread.ControlThread.Run | src/core/receiver/control_thread.cc:339-448 | The main loop, its early exits and its result code |
| IniFile.PrintParse | src/core/libs/ini.cc:116-190 | Parsing printed sections, pairs, continuation lines, blank lines and comments, with blanks around names and values, comments behind values and anything behind a section bracket, calls the handler with exactly the triples printed, in order, and without an error |
| IniFile.ErrorLine | src/core/libs/ini.cc:116-194 | For arbitrary lines and an always-succeeding handler the result is the number of the first malformed line, or 0 |
| IniFile.ErrorExactly | src/core/libs/ini.cc:116-194 | With any handler the result is the number of the first line that is malformed or whose call the handler refuses, or 0 |
| IniFile.BadMeansMalformed | src/core/libs/ini.cc:131-189 | A line is an error exactly when it is unindented, no comment, and lacks its closing bracket or equals sign |
| IniFile.ErrorKept | src/core/libs/ini.cc:138-187 | The first error is kept, with any handler |
| IniFile.ContinuationExactly | src/core/libs/ini.cc:131-142 | A line is a continuation if and only if it is nonblank and starts with a blank |
| IniFile.ContinuationName | src/core/libs/ini.cc:133-142 | After any lines, a continuation calls the handler with the name of the last pair, or an empty one, whatever sections came in between |
| IniFile.StrayContinuation | src/core/libs/ini.cc:133-160 | Right after a section header, a continuation reaches the handler with the last name of the section before and the new section |
| IniFile.SectionLineParses | src/core/libs/ini.cc:145-154 | A printed section line, whatever is behind its bracket |
| IniFile.PairLineParses | src/core/libs/ini.cc:161-182 | A printed pair, with blanks around the name and the value and a comment behind it |
| IniFile.MoreLineParses | src/core/libs/ini.cc:133-142 | A printed continuation line, with any blanks in front and behind |
| IniFile.NoteLineParses | src/core/libs/ini.cc:131-161 | Blank lines, and lines that start with a semicolon, are nothing |
| IniFile.ItemParses | src/core/libs/ini.cc:118-189 | What one printed line does to section, previous name, error and calls |
| IniFile.LongLine | src/core/libs/ini.cc:119-130 | Of a line the first 199 characters count |
| IniParser.IniParser.FillLine | src/core/libs/ini.cc:119-130 | The line, cut to 199 characters, terminated in the buffer |
| IniParser.IniParser.ReadLine | src/core/libs/ini.cc:119-131 | The stripped line and where its first nonblank is |
| IniParser.IniParser.InvokeHandler | src/core/libs/ini.cc:179-182 | A handler call and the error it may leave |
| IniParser.IniParser.ContinuationLine | src/core/libs/ini.cc:133-142 | A continuation line |
| IniParser.IniParser.SectionLine | src/core/libs/ini.cc:145-160 | A section line, from the buffer into the section |
| IniParser.IniParser.PairLine | src/core/libs/ini.cc:161-189 | A pair, from the buffer to the handler |
| IniParser.IniParser.TakePair | src/core/libs/ini.cc:178-182 | The name is kept, and the handler called |
| IniParser.IniParser.SplitPair | src/core/libs/ini.cc:167-175 | Cutting the buffer in place into name and value |
| IniParser.IniParser.CutName | src/core/libs/ini.cc:167-168 | The name, without affecting the text behind the cut |
| IniParser.IniParser.CutValue | src/core/libs/ini.cc:169-175 | The value, without its comment and blanks |
| IniParser.IniParser.CutComment | src/core/libs/ini.cc:170-174 | Cutting at the comment |
| IniParser.IniParser.ParseOne | src/core/libs/ini.cc:118-189 | One line takes the state to the state of the specification |
| IniParser.IniParser.ParseFile | src/core/libs/ini.cc:116-194 | All lines, and the result |
| IniText.Rstrip | src/core/libs/ini.cc:48-56 | Strips blanks off the end and changes nothing else |
| IniText.Lskip | src/core/libs/ini.cc:59-66 | The first nonblank character |
| IniText.FindCharOrComment | src/core/libs/ini.cc:70-77 | The first delimiter or comment, or the end |
| IniText.Strncpy0 | src/core/libs/ini.cc:80-88 | Copies a text, cut to the room there is, and terminates it |
| IniText.CutText | src/core/libs/ini.cc:151-173 | Writing a NUL into a text cuts it |
| IniText.TextBehind | src/core/libs/ini.cc:167-175 | The text behind a cut is not affected |
| IniReader.ReadPrinted | src/core/libs/INIReader.cc:35-96 | A printed file reads back: Get returns the last value among the pairs whose text agrees with section.name character by character up to the case of ASCII letters, HasSection finds exactly the sections with pairs, in the same sense |
| IniReader.KeyExactly | src/core/libs/INIReader.cc:65-74 | Two pairs share a key if and only if their texts agree up to the case of ASCII letters |
| IniReader.PrefixExactly | src/core/libs/INIReader.cc:65-96 | The key of a pair starts with the key of a section if and only if its text does, up to case |
| IniReader.LastExactly | src/core/libs/INIReader.cc:47-83 | The value under a key is that of the last pair whose text agrees |
| IniReader.BoundDecides | src/core/libs/INIReader.cc:86-96 | The single key at the lower bound decides whether any key has the prefix |
| IniReader.Between | src/core/libs/INIReader.cc:89-95 | A key between a prefix and a key with it has the prefix |
| IniReader.StoredIsLast | src/core/libs/INIReader.cc:77-83 | The store holds the last value given for each key |
| IniReader.LowerBound | src/core/libs/INIReader.cc:89-89 | The least key not below the given one |
| IniReader.INIReader.ValueHandler | src/core/libs/INIReader.cc:77-83 | One pair into the store, other keys unchanged |
| IniReader.INIReader.constructor | src/core/libs/INIReader.cc:35-38 | The store and the error after parsing a file |
| IniReader.INIReader.Get | src/core/libs/INIReader.cc:47-51 | The stored value or the default; a value stored under a text that agrees up to case is found |
| IniReader.INIReader.HasSection | src/core/libs/INIReader.cc:86-96 | True exactly when some stored key starts with the key of the section |
| ShiftRegister.SeedReturns | src/algorithms/libs/gps_sdr_signal_replica.cc:62-79 | Every nonzero seed of n bits returns within 2^n - 1 steps |
| ShiftRegister.StepInjective | src/algorithms/libs/gps_sdr_signal_replica.cc:68-78 | A step whose feedback includes the outgoing bit is injective |
| ShiftRegister.NeverZero | src/algorithms/libs/gps_sdr_signal_replica.cc:68-78 | A nonzero seed never reaches the all-zero state |
| ShiftRegister.RunRepeats | src/algorithms/libs/gps_sdr_signal_replica.cc:62-79 | Once returned, the whole run repeats |
| ShiftRegister.Window | src/algorithms/libs/gps_sdr_signal_replica.cc:65-78 | Cell i of the register is the bit emitted i steps later |
| ShiftRegister.Recurrence | src/algorithms/libs/gps_sdr_signal_replica.cc:65-78 | The emitted bits satisfy the linear recurrence read off the taps |
| ShiftRegister.ShiftInPlace | src/algorithms/libs/gps_sdr_signal_replica.cc:71-78 | The shift loop on the register |
| CodeGenerators.ChipShiftRotates | src/algorithms/libs/gps_sdr_signal_replica.cc:81-100 | For any two sequences, chip i of a shifted code is chip (i + shift) mod L of the unshifted one while no 32-bit sum wraps |
| CodeGenerators.RotatedIndexExactly | src/algorithms/libs/gps_sdr_signal_replica.cc:89-89 | For any code length that does not divide 2^32, the index into the first sequence is the rotated one exactly for the chips whose sum does not wrap |
| L1Rotation.RotatesExactly | src/algorithms/libs/gps_sdr_signal_replica.cc:81-100 | For every PRN of the table and every 32-bit shift, the shifted code is a rotation of the unshifted one if and only if the shift is at most 2^32 - 1017 and the sum that gives the start of G2 does not wrap |
| L1Rotation.LastChipFails | src/algorithms/libs/gps_sdr_signal_replica.cc:81-100 | One shift above the bound the last chip fails, for every delay of 8 or more |
| L1Rotation.LastChipOf138 | src/algorithms/libs/gps_sdr_signal_replica.cc:81-100 | A concrete chip that fails: PRN 138, shift 2^32 - 1016, chip 1022 |
| L1Rotation.ChipWithoutStartWrap | src/algorithms/libs/gps_sdr_signal_replica.cc:87-100 | While the start does not wrap, a chip whose index wraps rotates if and only if G1 has equal bits four places apart there |
| L1Rotation.EarlyChipFails | src/algorithms/libs/gps_sdr_signal_replica.cc:87-100 | When the start wraps with ten chips before the wrap of G1, one of the first ten chips fails |
| L1Rotation.LateChipFails | src/algorithms/libs/gps_sdr_signal_replica.cc:87-100 | When the start wraps with fewer, a chip behind the wrap fails, because the recurrences of G1 and G2 have only zero in common |
| L1Codes.CodeOfStages | src/algorithms/libs/gps_sdr_signal_replica.cc:39-100 | The code of PRN 1 to 32, chip by chip and with its sign: G1 and the two stages of the G2 register that Table 3-I of IS-GPS-200 selects for the PRN |
| L1Codes.CodeOfSetting | src/algorithms/libs/gps_sdr_signal_replica.cc:39-100 | The code of PRN 120 to 138, chip by chip and with its sign: G1 and the G2 register started from the setting of the PRN |
| L1Codes.DelayedIsStages | src/algorithms/libs/gps_sdr_signal_replica.cc:39-100 | The G2 sequence delayed as the table says is the sum of the two stages, at all times |
| L1Codes.GapForever | src/algorithms/libs/gps_sdr_signal_replica.cc:62-79 | For the seven distances between stages: where the sum of two places of the G2 sequence is the sequence from its start |
| L1Codes.AllSettingsReached | src/algorithms/libs/gps_sdr_signal_replica.cc:39-79 | The G2 register has the setting of PRN 120 to 138 after 1023 - delay steps |
| L1Codes.G2Returns | src/algorithms/libs/gps_sdr_signal_replica.cc:62-79 | The G2 register is in its first state again after 1023 steps |
| RegisterMaps.ApplyMoves | src/algorithms/libs/gps_sdr_signal_replica.cc:62-79 | The linear map of n steps, given by its columns, takes every state of a register where n steps take it |
| RegisterMaps.TableMoves | src/algorithms/libs/gps_sdr_signal_replica.cc:62-79 | Each table entry is the map of 2^k steps |
| CodeGenerators.L1CheckExactly | src/algorithms/libs/gps_sdr_signal_replica.cc:46-60 | The check lets an index past the table through for PRN 52 and no other |
| CodeGenerators.GpsL1CaCodeGenInt | src/algorithms/libs/gps_sdr_signal_replica.cc:25-101 | The chips written, and that a PRN out of range writes nothing |
| CodeGenerators.GenerateL1 | src/algorithms/libs/gps_sdr_signal_replica.cc:62-79 | Both registers emit the sequences of their taps |
| CodeGenerators.Combine | src/algorithms/libs/gps_sdr_signal_replica.cc:81-100 | The last loop with its incremental, wrapped delay |
| BeidouCodes.BeidouB1iCodeGenInt | src/algorithms/libs/beidou_b1i_signal_replica.cc:26-96 | The chips written, and that a PRN out of range writes nothing |
| BeidouCodes.CodeOfPhases | src/algorithms/libs/beidou_b1i_signal_replica.cc:56-95 | The code of a PRN, chip by chip and with its sign: G1 and the selected phases of the G2 register |
| BeidouCodes.PhasesDistinct | src/algorithms/libs/beidou_b1i_signal_replica.cc:29-31 | No two satellites select the same phases, and the table lists them in the order of their phases, two before three |
| BeidouCodes.GenerateB1i | src/algorithms/libs/beidou_b1i_signal_replica.cc:56-73 | Both sequences |
| BeidouCodes.TappedIsDelayed | src/algorithms/libs/beidou_b1i_signal_replica.cc:60-60 | Adding phases of the register is adding shifted copies of its output |
| B1iRotation.RotatesExactly | src/algorithms/libs/beidou_b1i_signal_replica.cc:56-95 | For every satellite and every 32-bit shift, the shifted code is a rotation of the unshifted one if and only if the sum of 2046 and the shift stays below 2^32 |
| B1iRotation.EarlyChipFails | src/algorithms/libs/beidou_b1i_signal_replica.cc:75-95 | When that sum wraps by less than 26, one of the first eleven chips fails, whatever the phases of the satellite |
| B1iRotation.LateChipFails | src/algorithms/libs/beidou_b1i_signal_replica.cc:75-95 | When it wraps by more, one of the chips behind the wrap of G1 fails, because the recurrences of G1 and G2 have only zero in common |
| BeidouCodes.B1iRotates | src/algorithms/libs/beidou_b1i_signal_replica.cc:75-95 | The chips below the bound |
| BeidouCodes.B1iRegistersReturn | src/algorithms/libs/beidou_b1i_signal_replica.cc:36-73 | Both registers return to their seed within 2047 steps |
| BeidouCodes.BeidouB3iCodeGenInt | src/algorithms/libs/beidou_b3i_signal_replica.cc:26-165 | The chips written, and that a PRN out of range writes nothing |
| B3iSeeds.CodeOfShifts | src/algorithms/libs/beidou_b3i_signal_replica.cc:30-164 | The code of a PRN, chip by chip and with its sign: G1 with its resets, and one and the same sequence, shifted by a number of places of its own |
| B3iSeeds.EverySeed | src/algorithms/libs/beidou_b3i_signal_replica.cc:30-137 | The initial state of every satellite is that of one register, started with all ones, after its number of shifts |
| BeidouCodes.GenerateB3i | src/algorithms/libs/beidou_b3i_signal_replica.cc:116-143 | Both sequences, G1 with its reset |
| BeidouCodes.ResetG1 | src/algorithms/libs/beidou_b3i_signal_replica.cc:138-142 | The conditional reset |
| B3iRotation.RotatesExactly | src/algorithms/libs/beidou_b3i_signal_replica.cc:116-164 | For every satellite and every 32-bit shift, the shifted code is a rotation of the unshifted one if and only if the sum of 10230 and the shift stays below 2^32 |
| B3iRotation.EarlyChipFails | src/algorithms/libs/beidou_b3i_signal_replica.cc:145-164 | With thirteen chips left in front of the places that 2^32 mod 10230 skips, one of them fails, because G2 does not return after 2^12 steps |
| B3iRotation.LateChipFails | src/algorithms/libs/beidou_b3i_signal_replica.cc:116-164 | With fewer, a chip behind the wrap of G1 fails, in a window without a reset of G1 |
| B3iRotation.QuietAfter | src/algorithms/libs/beidou_b3i_signal_replica.cc:124-142 | From the seed and from every reset of G1 on, at least 51 steps pass without a reset |
| BeidouCodes.B3iRotates | src/algorithms/libs/beidou_b3i_signal_replica.cc:145-164 | The chips below the bound |
| ShiftRegister.PowerOfTwoPeriod | src/algorithms/libs/beidou_b3i_signal_replica.cc:116-137 | A register whose taps are even in number, bit 0 included, returns after 2^k steps from no state but zero |
| CodeGenerators.RotatesWithWrap | src/algorithms/libs/beidou_b1i_signal_replica.cc:75-95 | For any two sequences without a delay: which bits decide, when the start has wrapped, whether a chip is the one of a rotation |
| BeidouCodes.B3iCheckExactly | src/algorithms/libs/beidou_b3i_signal_replica.cc:110-114 | The check lets an index past the table through for PRN 64 and no other |
| GpsL5.XbIsShiftRegister | src/algorithms/libs/gps_l5_signal_replica.cc:48-61 | The deque shift is the shift register step, read backwards |
| GpsL5.MakeXb | src/algorithms/libs/gps_l5_signal_replica.cc:78-117 | The XB sequence |
| GpsL5.XbInjective | src/algorithms/libs/gps_l5_signal_replica.cc:48-61 | Distinct XB states have distinct successors |
| GpsL5.XbCode | src/algorithms/libs/gps_l5_signal_replica.cc:78-89 | XB returns within 8191 steps and satisfies its recurrence |
| GpsL5.XbRecurs | src/algorithms/libs/gps_l5_signal_replica.cc:48-61 | The recurrence of the generator polynomial, with its places as numbers |
| GpsL2c.CodeLinear | src/algorithms/libs/gps_l2c_signal_replica.cc:31-39 | For every length the code of x xor y is the chipwise xor of the codes of x and y |
| GpsL2c.ChipsRecur | src/algorithms/libs/gps_l2c_signal_replica.cc:25-39 | The chips of every satellite obey the recurrence of the generator polynomial of order 27, with its places as numbers |
| GpsL2c.ShiftLinear | src/algorithms/libs/gps_l2c_signal_replica.cc:25-28 | The Galois step is linear over xor |
| GpsL2c.Unshifted | src/algorithms/libs/gps_l2c_signal_replica.cc:25-28 | On 27-bit states the step has a left inverse |
| GpsL2c.Shifted | src/algorithms/libs/gps_l2c_signal_replica.cc:25-28 | It is also a right inverse, so the step is a bijection |
| GpsL2c.ShiftFixesOnlyZero | src/algorithms/libs/gps_l2c_signal_replica.cc:25-28 | Only zero is fixed |
| GpsL2c.RunInjective | src/algorithms/libs/gps_l2c_signal_replica.cc:33-38 | Different seeds never meet, and a nonzero one never becomes zero |
| GpsL2c.MCode | src/algorithms/libs/gps_l2c_signal_replica.cc:31-39 | The loop writes the chips of the seed |
| Clenshaw.Clsin | src/algorithms/libs/geofunctions.cc:638-660 | The backward loop computes the sum of a(t) sin(t x) for every coefficient vector and degree |
| Clenshaw.Clksin | src/algorithms/libs/geofunctions.cc:663-700 | The loop computes the real and imaginary parts of the sum of a(t) sin(t z) for a complex argument |
| Clenshaw.SineRecurrence | src/algorithms/libs/geofunctions.cc:648-657 | The three-term recurrence behind it |
| Clenshaw.ComplexRecurrence | src/algorithms/libs/geofunctions.cc:676-692 | The same for a complex argument |
| Clenshaw.RemainsStep | src/algorithms/libs/geofunctions.cc:652-657 | What one iteration keeps |
| Clenshaw.ComplexRemainsStep | src/algorithms/libs/geofunctions.cc:683-692 | What one iteration keeps, in both parts |
| Clenshaw.RealAxis | src/algorithms/libs/geofunctions.cc:638-700 | On the real axis both sums agree |
| GalileoE1.EnergyExactly | src/algorithms/libs/galileo_e1_signal_replica.cc:111-140 | For every code of ones and minus ones, both signals and every length of the destination, the energy of the CBOC replica is the number of samples in whole chips if and only if there is a multiple of 4 of them in each chip |
| GalileoE1.CorrelationExactly | src/algorithms/libs/galileo_e1_signal_replica.cc:111-140 | Which weight goes with which sub-carrier: the correlation of the replica with SinBOC(1,1) is alpha times the samples in whole chips, and with SinBOC(6,1) beta times them for E1B and minus that for E1C, if and only if there is a multiple of 4 of them in each chip |
| GalileoE1.SubCarrierSamples | src/algorithms/libs/galileo_e1_signal_replica.cc:61-95 | Sample j of a chip: SinBOC(1,1) has the sign of the chip in its first half, SinBOC(6,1) at even samples |
| GalileoE1.OrthogonalExactly | src/algorithms/libs/galileo_e1_signal_replica.cc:61-95 | The two sub-carriers are orthogonal in a chip if and only if the samples per chip are a multiple of 4 |
| GalileoE1.ChipCorrelationClosed | src/algorithms/libs/galileo_e1_signal_replica.cc:61-95 | Their correlation after any number of samples of a chip |
| GalileoE1.EnergyUpTo | src/algorithms/libs/galileo_e1_signal_replica.cc:111-140 | The energy after any whole number of chips and samples |
| GalileoE1.GalileoE1SinBoc11GenInt | src/algorithms/libs/galileo_e1_signal_replica.cc:61-76 | The first sub-carrier, written by chips |
| GalileoE1.GalileoE1SinBoc61GenInt | src/algorithms/libs/galileo_e1_signal_replica.cc:79-95 | The second sub-carrier, written by interleaved loops |
| GalileoE1.GalileoE1GenFloat | src/algorithms/libs/galileo_e1_signal_replica.cc:111-140 | The weighted sum or difference; another signal writes nothing |

## Left out

- HasMaskStore.MaskAgreement: speaks of messages without a clock subset block.
- HasDelivery.PublishedWasSent: speaks of runs in which no attempt is triggered with a wrong size and no mask was missed, conditions that `HasPublishing` derives from the pages; a step outside them is `HasProtocol.StepCoherent` and `HasDelivery.StepPublishesExactly`.
- HasDelivery.StepAccounted: speaks of steps that trigger no attempt with a wrong size; with one, `HasProtocol.StepCoherent` tells when the attempt is right, and `HasRuns.PrematureAttempt` a run in which it is not.
- HasEncoder.BodyInverse: speaks of bodies without a clock subset block.
- HasReceiver.HasReceiver.ReadCorrections: the clock subset block counts as a failure.
- HasReceiver.HasReceiver.ReadMt1Body: where the source throws or reads out of range, the result is failure, and the data and the mask slot it leaves are unspecified; the clock subset block counts as such a case.
- HasReceiver.HasReceiver.PublishMessage: the status, the message ID and the absolute time of week written into the data (lines 202-204) are not part of it.
- HasReceiver.HasReceiver.MsgHandler: the same three fields.
- CodeGenerators.GpsL1CaCodeGenInt: requires the PRN not to be 52, for which the source reads past its table.
- BeidouCodes.BeidouB3iCodeGenInt: requires the PRN not to be 64, for which the source reads past its table.
- UioLookup.Atoi: numbers beyond 32 bits, for which C++ gives no result, keep their value.
- UioLookup.GetUioNum: the same.
- ControlThread.ControlThread.ApplyAction: what cold, hot and warm start do besides ending standby (ephemeris, satellite priorities, assistance data).
- The HAS clock subset block (lines 663-738 of the HAS receiver): with its flag set and a mask in force the body counts as unreadable, because the source counts its satellites one bit short and writes into vectors that are only reserved.
- The internals of the Reed-Solomon decoder, represented by its contract; the decoder is also taken to be a function of the column and the erasure positions.
- `d_M_matrix`, the decoded matrix, is a local value of the decoding method, as nothing reads it afterwards.
- The receiver fields of the masks are one record per mask ID instead of parallel vectors; the octets of the page store are rows of bytes in a sequence.
- `std::sort` is represented by an insertion sort on names; `SortDetermined` shows that any correct sort gives the same result.
- The directory listing, the device names in the file system and the opening of INI files (result -1) are parameters or absent.
- The flowgraph, keyboard, message queue and telecommand threads: a turn of the main loop says whether the flowgraph runs and which event, if any, was popped.
- Queue memory and the mutex itself: each critical section is one atomic step, and time is not modelled, so a timed wait may end at any moment.
- The functions of the INI reader that convert text to integers, and the query for a single value.
- GPS L5 XA and BeiDou B3I G1 are reset before their period ends, so injectivity and return are not stated for them; B3I G1 is specified with its reset.
- The initial registers of GPS L2C and the XB offsets of GPS L5 are parameters or absent.
- Maximality of the register periods: the theorems give the upper bound 2^n - 1 for every tap set.
- Complex and sampled versions of the codes, digitising, secondary codes, and floating-point rounding; the code tables of Galileo E1 are a parameter.
- Geodetic iterations and coordinate transformations other than the two Clenshaw sums.
- GNU Radio plumbing, logging, console output, network sinks, and FPGA memory and interrupts.
