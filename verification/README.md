# ipsc2mmdvm: verified model

A Dafny model of the bridge between Motorola IPSC repeaters, Hytera repeaters and MMDVM networks, with proofs.
It covers five parts of the bridge.

* **Forward error correction.** The BPTC(196,96) product code, the Reed-Solomon(12,9) parity over GF(256), the
  embedded link control matrix, its CRC-5, and the assembly of voice bursts.
* **Arbitration.** The timeslot manager with the client loops that drain it, and the ingress guard.
* **Group routing.** The subscription manager with its two inverted indexes and lazy expiry.
* **Translation.** Both directions of the IPSC translator, down to the bytes of the IPSC and RTP headers.
* **Transformations.** The talkgroup rewrite chains and the Hytera wire codec.

`dafny verify dfyconfig.toml` checks everything.

## How the model is built

Code that updates state in place is a class or a method with loops, proved against a function; the theorems are
about that function, or about all runs of it. A run is a sequence of calls with explicit times; where a theorem needs
a clock that never goes back, it says so. What a guard, a timeslot, a subscription manager or a translator answers is
also stated on the run, both ways: from the calls before and their answers. A call is atomic,
as the original holds a lock. Map iteration order is left open: whatever element a loop may take first, the contracts
hold.

Bits are booleans, bytes are 8-bit vectors, ids and counters are natural numbers with every wrap-around written out.
Objects that several map keys share are places in a list of all objects created. Strings that only serve as map
keys (the guard's fingerprints) are tuples of the values they are printed from.

Where a comment of the original and its code disagree, the code is modelled: the translator sends two startup headers
(its state comment says three), a data packet does carry the RTP marker if it is the first (its comment says it does
not), a burst is split after 98 code bits (its comments say 97), and the slot type code has distance 8 (its comment names 7).

| files | part |
|---|---|
| `BitSequences`, `Bytes`, `ByteValues`, `Options` | bits, bytes, numbers |
| `Bptc`, `BptcCode`, `BptcTheorems`, `BptcCorrection`, `LcBurst`, `SlotType` | BPTC(196,96) and the data burst |
| `Gf256`, `ReedSolomon`, `LinkControl` | the full link control |
| `Crc5`, `EmbeddedLc`, `VoiceBurst`, `VoiceLcTheorems`, `EmbeddedReading` | embedded link control and voice bursts |
| `Dmrd` | the packet all parts exchange |
| `Guard`, `GuardTheorems`, `GuardHistory` | the ingress guard |
| `Timeslot`, `TimeslotTheorems`, `TimeslotHistory` | the timeslot manager |
| `Rewrite`, `RewriteChains`, `MmdvmClient`, `ClientRoutes` | rewrite chains and the client's packet paths |
| `Arbitration`, `Admission`, `ClientRuns`, `Turns`, `StaleRelease` | a timeslot shared by clients |
| `RouteOrder`, `SnapshotOrder`, `Subscriptions`, `SubscriptionTheorems` | group routing |
| `IpscHeader`, `Streams`, `ReverseTranslator`, `ReverseTheorems`, `ReverseServing`, `ReverseAnswers`, `ForwardTranslator`, `ForwardTheorems`, `ForwardPhases`, `ForwardServing`, `ForwardAnswers`, `TranslatorRoundTrip`, `CallRelay` | the IPSC translator |
| `Hytera`, `HyteraTheorems`, `HyteraStreams` | the Hytera codec |

## Model

| member | source | states |
|---|---|---|
| `BptcCode.ComputeRowParity` | internal/dmr/bptc/bptc19696.go:96-104 | fills the four parity cells so that the row checks, and touches nothing else |
| `BptcCode.ComputeColParity` | internal/dmr/bptc/bptc19696.go:108-120 | fills the four parity cells so that the column checks, and touches nothing else |
| `BptcCode.Encode` | internal/dmr/bptc/bptc19696.go:22-59 | refines `Encoded`, the interleaved product codeword defined cell by cell; its linearity, checks and distance are proved below |
| `BptcCode.CorrectRow` | internal/dmr/bptc/bptc19696.go:143-156 | repairs one row: flips the cell the syndrome table names, reports whether it did, leaves other rows alone |
| `BptcCode.CorrectRows` | internal/dmr/bptc/bptc19696.go:141-157 | after the row pass the grid is `RowPassed`, the count is the number of repaired rows among 0-8, and the flag tells whether a row could not be repaired |
| `BptcCode.CorrectCol` | internal/dmr/bptc/bptc19696.go:161-175 | repairs one column likewise |
| `BptcCode.CorrectCols` | internal/dmr/bptc/bptc19696.go:159-176 | after the column pass the grid is `ColPassed`, with the count of repaired columns and the flag |
| `BptcCode.ExtractData` | internal/dmr/bptc/bptc19696.go:73-89 | reads the 96 information cells |
| `BptcCode.Decode` | internal/dmr/bptc/bptc19696.go:63-92 | refines `Decoded`: deinterleave, row pass, column pass, extract, with corrected count and flag |
| `BptcTheorems.EncodedLinear` | internal/dmr/bptc/bptc19696.go:22-59 | Encode is linear over exclusive-or, for all pairs of messages |
| `BptcTheorems.CodewordChecks` | internal/dmr/bptc/bptc19696.go:96-120 | all 13 rows (parity rows 9-12 included) and all 15 columns of every codeword have zero syndrome |
| `BptcTheorems.RowUnitFlip` | internal/dmr/bptc/bptc19696.go:126-129 | the row syndrome table names exactly the flipped cell, for every single flip |
| `BptcTheorems.ColUnitFlip` | internal/dmr/bptc/bptc19696.go:132-135 | the column syndrome table names exactly the flipped cell, for every single flip |
| `BptcTheorems.InterleaveRoundTrip` | internal/dmr/bptc/bptc19696.go:53-68 | interleaving and deinterleaving are inverse permutations of the 196 bits |
| `BptcTheorems.DataOfCodeword` | internal/dmr/bptc/bptc19696.go:73-89 | extraction after placement and parity returns the message |
| `BptcTheorems.EncodedDistance` | internal/dmr/bptc/bptc19696.go:22-59 | distinct messages encode to blocks that differ in at least 9 of 196 bits |
| `BptcTheorems.MessageOnAir` | internal/dmr/bptc/bptc19696.go:27-57 | message bit k leaves at place 181 a mod 196, where a counts from the fourth column of row 0 through 8 cells and then 11 cells of each of rows 1-8 |
| `BptcTheorems.DecodeDependsOnErrorOnly` | internal/dmr/bptc/bptc19696.go:63-92 | decoding a corrupted codeword gives the message xor what the error pattern alone decodes to, with the count and flag of the pattern alone |
| `BptcCorrection.LoneResidueRepaired` | internal/dmr/bptc/bptc19696.go:137-179 | whenever the row pass leaves at most one error per column, the message is recovered, with the exact count and no flag |
| `BptcCorrection.RowBurstRepaired` | internal/dmr/bptc/bptc19696.go:137-179 | any number of flips confined to one of the 13 grid rows is repaired |
| `BptcCorrection.ScatteredRepaired` | internal/dmr/bptc/bptc19696.go:137-179 | at most one flip in each of rows 0-8 and at most one flip per column within rows 9-12, bit 0 free: the message is recovered, corrected equals the number of flips outside bit 0, no flag |
| `BptcCorrection.TwoFlips` | internal/dmr/bptc/bptc19696.go:137-179 | two flips anywhere in the grid: data survives if and only if they are not two cells of rows 9-12 in one data column other than rows 9 and 12; the flag is raised exactly for rows 9 and 12 of one column |
| `LcBurst.BuildLCDataBurst` | internal/dmr/bptc/bptc19696.go:205-245 | refines `BuiltBurst`: codeword halves around slot type and sync, packed into 33 bytes |
| `LcBurst.DecodeLCFromBurst` | internal/dmr/bptc/bptc19696.go:249-272 | refines `LcIn`; zeros on failure |
| `LcBurst.LcRoundTrip` | internal/dmr/bptc/bptc19696.go:205-272 | decoding a built burst returns the 12 bytes, for every data type and color code |
| `LcBurst.LcSurvivesScatteredErrors` | internal/dmr/bptc/bptc19696.go:249-272 | so does decoding any burst whose information bits differ from it in a scattered pattern, whatever the other bits |
| `SlotType.GolayDistance` | internal/dmr/bptc/bptc19696.go:276-300 | slot type words of different bytes differ in at least 8 of 20 bits |
| `SlotType.SlotTypeInBurst` | internal/dmr/bptc/bptc19696.go:225-235 | a built burst carries the data sync in its middle and, around it, the slot type word, whose first eight bits are color code and data type |
| `Gf256.GF256Mul` | internal/dmr/link_control.go:65-81 | the shift-and-add loop computes the product `Mul` of GF(256) modulo 0x11D |
| `Gf256.MulComm` | internal/dmr/link_control.go:65-81 | the product is commutative |
| `Gf256.MulAssoc` | internal/dmr/link_control.go:65-81 | the product is associative |
| `Gf256.RightDistributes` | internal/dmr/link_control.go:65-81 | the product distributes over exclusive-or |
| `Gf256.NoZeroDivisors` | internal/dmr/link_control.go:65-81 | a product is zero only if a factor is |
| `ReedSolomon.ReedSolomon129Parity` | internal/dmr/link_control.go:51-63 | the feedback register loop computes `Parity3`, for data of every length |
| `ReedSolomon.WordVanishes` | internal/dmr/link_control.go:51-63 | every 9-byte message followed by its parity, as a polynomial, vanishes at 2, 4 and 8 |
| `ReedSolomon.WordDistance` | internal/dmr/link_control.go:51-63 | distinct 9-byte messages give 12-byte words that differ in at least 4 bytes |
| `LinkControl.BuildStandardLCBytesForDataType` | internal/dmr/link_control.go:17-38 | refines `StandardLc`: call type, service options, addresses, masked parity |
| `LinkControl.IdRoundTrip` | internal/dmr/link_control.go:17-38 | three bytes carry exactly the low 24 bits of an id |
| `LinkControl.CallRoundTrip` | internal/dmr/link_control.go:17-49 | a link control names the call it was built for, ids cut to 24 bits, for every data type |
| `LinkControl.LcDistance` | internal/dmr/link_control.go:17-63 | link controls of calls that differ on the air differ in at least 4 of 12 bytes, under every mask |
| `LinkControl.ReceiverChecks` | internal/dmr/link_control.go:17-63 | a link control without its mask, 0x96 for headers, 0x99 for terminators and none otherwise, vanishes at 2, 4 and 8 |
| `Crc5.EmbeddedLCCRC5` | internal/dmr/embedded_lc.go:4-14 | the register loop computes `Crc`, for bit strings of every length |
| `Crc5.EmbeddedLCCRC5Residual` | internal/dmr/embedded_lc.go:18-28 | the register loop computes `Residual`, for bit strings of every length |
| `Crc5.FormsAgree` | internal/dmr/embedded_lc.go:4-28 | the first form equals the second on the bits followed by five zeros, xor 0x1F |
| `Crc5.SelfCheck` | internal/dmr/embedded_lc.go:4-14 | bits followed by their own CRC bits have CRC 0 |
| `Crc5.BurstDetected` | internal/dmr/embedded_lc.go:4-14 | two strings that differ only within five consecutive bits never share a CRC |
| `Crc5.CrcLinear` | internal/dmr/embedded_lc.go:4-14 | the CRC is linear over exclusive-or |
| `Crc5.SingleError` | internal/dmr/embedded_lc.go:4-14 | a single flipped bit is always noticed |
| `Crc5.DoubleError` | internal/dmr/embedded_lc.go:4-14 | two flipped bits go unnoticed if and only if their distance is a multiple of 15 |
| `EmbeddedLc.EncodeEmbeddedLC` | internal/ipsc/translator.go:1079-1160 | the matrix loops compute `Fragments`, the 16 bytes read column by column |
| `EmbeddedLc.RowChecks` | internal/ipsc/translator.go:1107-1147 | each of the 8 matrix rows, the parity row included, is an extended Hamming(16,11,4) word |
| `EmbeddedLc.ColumnEven` | internal/ipsc/translator.go:1107-1147 | every column of 8 has even parity, the parity columns included |
| `EmbeddedLc.ColumnWiseDistance` | internal/ipsc/translator.go:1079-1160 | distinct 77-bit contents differ in at least 8 of 128 output bits |
| `EmbeddedLc.FragmentBytesEven` | internal/ipsc/translator.go:1149-1160 | each of the 16 output bytes has even parity |
| `EmbeddedLc.FragmentDistance` | internal/ipsc/translator.go:1079-1176 | distinct 24-bit source, 24-bit destination or group flag give fragments that differ in at least 8 of 128 bits |
| `EmbeddedReading.FragmentsRead` | internal/ipsc/translator.go:1079-1160 | a receiver that reads the 77 content bits back from the columns finds the call type, the service options, both 24-bit addresses and the CRC of what it found |
| `VoiceBurst.BitWriter.WriteBits` | internal/dmr/voice_burst.go:27-39 | ors exactly the bits that exist in the source into the buffer at the cursor and moves the cursor by that many |
| `VoiceBurst.CopyBits` | internal/dmr/voice_burst.go:133-142 | ors the given bit range into the given place and changes nothing else |
| `VoiceBurst.EncodeVoiceLC` | internal/dmr/voice_burst.go:82-131 | the matrix loops compute `VoiceFragments` |
| `VoiceBurst.ApplyEmbeddedControl` | internal/dmr/voice_burst.go:63-80 | puts the two bytes of the EMB codeword on either side of the fragment, for every sequence number |
| `VoiceBurst.EmbInMiddle` | internal/dmr/voice_burst.go:63-80 | patching four nibbles of a burst with a blank frame of 8 bits on each side is the same as writing the EMB bytes there |
| `VoiceBurst.AssembleVoiceBurst` | internal/dmr/voice_burst.go:41-61 | refines `AssembledFrom`: frames of any length, each written as far as it goes, around the 48 middle bits |
| `VoiceBurst.AssembledNine` | internal/dmr/voice_burst.go:41-61 | for frames of nine bytes that is `Assembled`, the burst the round trips are about |
| `VoiceLcTheorems.VoiceFragmentDistance` | internal/dmr/voice_burst.go:82-131 | fragments of different 24-bit addresses differ in at least 4 of 128 bits, although this matrix has no row parity |
| `VoiceBurst.ExtractVoiceFramesFromBurst` | internal/dmr/voice_burst.go:144-153 | reads the three frames |
| `VoiceBurst.ExtractMiddle48` | internal/dmr/voice_burst.go:155-159 | reads the 48 middle bits |
| `VoiceBurst.ExtractAssembled` | internal/dmr/voice_burst.go:41-159 | extraction after assembly returns the three frames, for every sequence number; the middle is the sync word, or EMB high byte, fragment, EMB low byte |
| `VoiceBurst.ReassembleExtracted` | internal/dmr/voice_burst.go:41-159 | reassembling an extracted burst agrees with it in every bit outside 108-155 |
| `EmbeddedReading.FragmentOf` | internal/dmr/voice_burst.go:41-61 | every burst but the first carries a fragment, in turn, between the halves of its EMB word |
| `EmbeddedReading.SuperframeNames` | internal/dmr/voice_burst.go:41-131 | whatever frames they hold, bursts 1 to 4 together name the call and carry the CRC of what they name |
| `Guard.Guard.EvictExpired` | internal/repeater/guard.go:153-174 | the loops forget exactly the sightings, slot owners and group owners past their times |
| `Guard.Guard.AllowGroup` | internal/repeater/guard.go:117-143 | refuses just when another source holds the group; otherwise the group is claimed, or freed by a terminator |
| `Guard.Guard.AllowSlot` | internal/repeater/guard.go:81-114 | refuses just when another source holds the slot; otherwise the slot is claimed, or freed by a terminator |
| `Guard.Guard.AllowIngress` | internal/repeater/guard.go:59-115 | the new state and the answer are those of the step function over the evicted state, group check before slot check |
| `Guard.Guard.MarkForwarded` | internal/repeater/guard.go:145-151 | records the egress sighting over the evicted state |
| `GuardTheorems.EvictionInvisible` | internal/repeater/guard.go:59-174 | in every run with a forward clock each answer is that of a guard that never evicts |
| `GuardTheorems.SlotExclusion` | internal/repeater/guard.go:81-114 | two sources are accepted on one slot within the call timeout only if the first source ended its call in between |
| `GuardTheorems.GroupExclusion` | internal/repeater/guard.go:117-143 | two sources pass the group check on one talkgroup within the group time only if the first ended its call in between |
| `GuardTheorems.DuplicatesSpaced` | internal/repeater/guard.go:71-74 | the same packet of the same source is accepted again only after the dedup time |
| `GuardTheorems.EchoesBlocked` | internal/repeater/guard.go:66-70 | a packet forwarded to a source is refused from it for the echo time |
| `GuardHistory.AnswerIff` | internal/repeater/guard.go:59-183 | every answer of every run, on the run alone: echo or duplicate exactly if the same packet was sent there, or accepted from there, within the time; group or slot busy exactly if the last packet that passed the group check, or was accepted on the slot, is of another source, no terminator and recent enough; accepted otherwise |
| `Timeslot.Manager.FindPending` | internal/timeslot/manager.go:111-118 | finds the first queue entry of a stream, or says there is none |
| `Timeslot.Manager.Submit` | internal/timeslot/manager.go:127-193 | the slot becomes `Submitted`, the other slot is untouched, and the answer tells whether the packet passes |
| `Timeslot.Manager.Release` | internal/timeslot/manager.go:199-234 | the slot becomes `Released`; the next stream's buffer is returned, nothing for a stream that is not active |
| `Timeslot.Manager.SetTimeout` | internal/timeslot/manager.go:67-72 | a timeout that is not positive is ignored |
| `TimeslotTheorems.ShapeAlways` | internal/timeslot/manager.go:127-234 | in every run pending ids are distinct, the active id is never pending, a free slot has an empty queue |
| `TimeslotTheorems.Conservation` | internal/timeslot/manager.go:127-234 | in every run, packets handed over, waiting and discarded together are exactly those submitted, as multisets |
| `TimeslotTheorems.ExactlyOneFate` | internal/timeslot/manager.go:127-234 | each submitted packet is exactly once handed over, waiting, or discarded |
| `TimeslotTheorems.FiledAlways` | internal/timeslot/manager.go:127-234 | packets wait and are handed over under the stream they were submitted under |
| `TimeslotTheorems.StreamOrder` | internal/timeslot/manager.go:127-234 | within a stream, packets wait and leave in the order of submission |
| `TimeslotTheorems.FirstComeFirstServed` | internal/timeslot/manager.go:127-234 | streams leave the queue in the order of their first packets, ahead of all that still wait |
| `TimeslotHistory.SubmissionIff` | internal/timeslot/manager.go:127-193 | every submission of every run, on the outputs and their times: it waits exactly if the stream of the last output is another, has not released since, and that output is at most the timeout old; otherwise it is handed over at once, and what waits is discarded exactly if that other stream had been silent for longer |
| `TimeslotHistory.ReleaseIff` | internal/timeslot/manager.go:199-234 | every release of every run: if its stream made the last output and has not released since, it hands over all that waits of the stream that has waited longest, in order, and leaves the rest; otherwise nothing changes hands |
| `Rewrite.Apply` | internal/mmdvm/rewrite/rewrite.go:35-42 | the loop applies the first matching rule and says whether there is one |
| `Rewrite.BuildRewriteRules` | internal/mmdvm/client.go:175-245 | the loops build the RF, network and fallback chains of a configuration |
| `Rewrite.RestoredIff` | internal/mmdvm/client.go:175-245 | a group packet rewritten by a talkgroup rule is restored by the network chain if and only if the first network rule to match is a talkgroup rule that moves ids as that rule does; for a target range within the word that is never a later rule |
| `Rewrite.Overflows` | internal/mmdvm/rewrite/rewrite.go:58-75 | an entry whose target range passes the top of the word lets no packet back and moves every packet it takes, so its packets return only by another entry with the same move |
| `Rewrite.DisjointTargetsRestore` | internal/mmdvm/client.go:175-245 | it is restored exactly whenever target ranges on one slot do not meet and do not overflow, whatever the other rules |
| `Rewrite.AllRestoredIff` | internal/mmdvm/client.go:175-245 | what a configuration check can ask: all such packets are restored if and only if, for every id that reaches an entry, some target holds its image and the first such entry has the same move |
| `Rewrite.ReversibleIff` | internal/mmdvm/client.go:175-245 | where no range overflows, that is: no earlier entry on the same target slot holds the image of an id that reaches an entry |
| `Rewrite.OverlapLoses` | internal/mmdvm/client.go:175-245 | two valid rules with one target send talkgroup 2 back as talkgroup 1 |
| `RewriteChains.Outbound` | internal/mmdvm/rewrite/rewrite.go:58-155 | every packet through the outbound chain: number k of the source range of the first talkgroup entry that takes it, or for want of one of the first type entry, or for private packets of the first private entry, leaves as number k of the target range on the target slot, private after a type entry, all else unchanged; no other packet matches |
| `RewriteChains.Inbound` | internal/mmdvm/rewrite/rewrite.go:58-219 | every packet through the inbound chain: talkgroup entries backwards, then source entries, which move the source alone, then unchanged where the slot passes all of its kind; no other packet matches |
| `RewriteChains.Decided` | internal/mmdvm/rewrite/rewrite.go:35-42 | of any entries either none takes an id, or exactly one is the first, under exactly one number |
| `ClientRoutes.RoutedIff` | internal/mmdvm/client.go:820-836 | which packets go to the master and as what, for every configuration and packet: by the outbound entries, else as they are where the slot passes all of their kind, else not at all |
| `MmdvmClient.ServedIs` | internal/mmdvm/client.go:687-746 | how many waiting calls a drain serves: up to and including the first whose buffer has no terminator |
| `MmdvmClient.MidwayRelease` | internal/mmdvm/client.go:687-746 | what each release in the middle of a drain returns and leaves |
| `MmdvmClient.Path.Deliver` | internal/mmdvm/client.go:694-710 | delivers a buffer in order and reports whether it held a terminator, and the stream of the last one |
| `MmdvmClient.Path.DrainPending` | internal/mmdvm/client.go:687-746 | the loop ends, delivers exactly a prefix of the queue in order, and leaves the slot free or held by a stream whose delivered buffer had no terminator |
| `MmdvmClient.Path.Arbitrate` | internal/mmdvm/client.go:662-681 | one packet on its slot: buffered, delivered, or delivered with a drain behind its terminator; delivered if no manager is set |
| `MmdvmClient.Path.HandleOutboundPacket` | internal/mmdvm/client.go:654-682 | dropped without a matching rule, otherwise rewritten and arbitrated |
| `MmdvmClient.Path.HandleInboundPacket` | internal/mmdvm/client.go:820-857 | one round of the loop: the same with the fallback chain, and whether it went through |
| `MmdvmClient.Path.HandleInboundPackets` | internal/mmdvm/client.go:818-860 | the loop over a burst: each packet in turn, and whether any went through at once |
| `ClientRuns.PathIsRun` | internal/mmdvm/client.go:654-746 | what a path does with a packet is its submission followed by one release after another on the timeslot shared by all clients: the same queue, active stream and delivered packets; the other slot and other drains stay as they were |
| `Arbitration.HandoverJustified` | internal/mmdvm/client.go:654-746 | in every run of submissions and releases by any number of clients, other calls coming between the releases of a drain, granted packets go from one stream to another only behind a terminator of the old stream or after a silence longer than the timeout |
| `Admission.AdmittedIff` | internal/mmdvm/client.go:662-681 | in every run, a packet that a client can submit is held back exactly if the last grant is of another stream, at most the timeout old, and no client has released that stream since; otherwise it is granted at once |
| `Turns.TurnsJustifiedIff` | internal/mmdvm/client.go:654-746 | in every run, each stream that loses the slot within the timeout had ended in that very turn, if and only if no call takes the slot from an open turn: a release by the stream that holds it while another waits, or a packet of another stream that finds the slot free |
| `Turns.TurnsJustified` | internal/mmdvm/client.go:654-746 | so it is whenever no packet of a stream is submitted while a release by that stream is outstanding, whatever else comes between |
| `Turns.EndedStreamsJustified` | internal/mmdvm/client.go:654-746 | and, as a condition on the packets alone, whenever no packet of a stream is submitted after its terminator |
| `StaleRelease.StaleDrain` | internal/mmdvm/client.go:687-712 | without such a condition the terminator may be an old one: three clients, each ending its drain before its next packet, and a late release takes the slot from a stream that has not ended |
| `Subscriptions.SubscriptionManager.constructor` | internal/routing/subscriptions.go:57-67 | no subscriptions, and the default time to live for none given |
| `Subscriptions.SubscriptionManager.ReplaceStatic` | internal/routing/subscriptions.go:69-89 | devices and static index hold exactly the replaced set; malformed calls change nothing |
| `Subscriptions.SubscriptionManager.ActivateDynamic` | internal/routing/subscriptions.go:91-119 | devices and dynamic index hold the activation with its expiry; a static group is not activated; a zero time means the current one |
| `Subscriptions.SubscriptionManager.RemoveDynamicLocked` | internal/routing/subscriptions.go:317-331 | one dynamic subscription leaves its device and the index, and empty buckets go |
| `Subscriptions.SubscriptionManager.RemoveDynamic` | internal/routing/subscriptions.go:121-128 | the view without that subscription |
| `Subscriptions.SubscriptionManager.RemoveDevice` | internal/routing/subscriptions.go:130-152 | the view without that device, in all three maps |
| `Subscriptions.SubscriptionManager.ResolveSlot` | internal/routing/subscriptions.go:166-186 | the routes of one slot, its expired subscriptions removed |
| `Subscriptions.SubscriptionManager.ResolveRoutes` | internal/routing/subscriptions.go:154-197 | a strictly sorted list of exactly the targets a scan of all subscriptions gives, from the indexes alone |
| `Subscriptions.SubscriptionManager.Expire` | internal/routing/subscriptions.go:199-216 | exactly the expired dynamic subscriptions go |
| `Subscriptions.SubscriptionManager.SnapshotDevice` | internal/routing/subscriptions.go:218-276 | for each slot the list, by group and then by kind, of exactly the live subscriptions; expired ones are removed |
| `SnapshotOrder.Sort` | internal/routing/subscriptions.go:268-273 | lists entries by group, then by kind |
| `SnapshotOrder.InOrderIff` | internal/routing/subscriptions.go:268-273 | the order is by group and, within one group, the dictionary order of the kinds' names |
| `RouteOrder.Sort` | internal/routing/subscriptions.go:188-196 | lists a set of routes in the strict order by device, then slot |
| `RouteOrder.SortedUnique` | internal/routing/subscriptions.go:188-196 | there is only one such list |
| `RouteOrder.SortedIff` | internal/routing/subscriptions.go:188-196 | it is in the dictionary order of the devices and, on one device, by slot |
| `SubscriptionTheorems.RunAlike` | internal/routing/subscriptions.go:69-276 | in every run the manager and one that never forgets agree on all that can still be asked |
| `SubscriptionTheorems.LazyExpiryInvisible` | internal/routing/subscriptions.go:154-276 | so each resolution in a run with a forward clock returns the very list of the manager that never forgets, wherever expiry happens |
| `SubscriptionTheorems.LastActivation` | internal/routing/subscriptions.go:91-152 | a dynamic subscription is its last effective activation, untouched since, with that expiry |
| `SubscriptionTheorems.StaticIff` | internal/routing/subscriptions.go:69-152 | a group is static on a device and slot if and only if the last declaration of that device and slot names it and the device was not removed since |
| `SubscriptionTheorems.RoutedIff` | internal/routing/subscriptions.go:69-197 | on the calls of a run alone: a packet goes to a device and slot if and only if it does not come from that device and the group was declared static there by the last declaration, or was activated there, untouched since, less than the time to live ago |
| `SubscriptionTheorems.SnapshotIff` | internal/routing/subscriptions.go:218-276 | likewise a snapshot lists a group as static, or as dynamic with its expiry |
| `IpscHeader.HeaderRoundTrip` | internal/ipsc/translator.go:277-352 | a reader finds every header and RTP field that was written, as far as it fits, whatever follows |
| `ReverseTranslator.Translator.FindRecentReverseStream` | internal/ipsc/translator.go:646-660 | finds a live stream of the same addresses seen within the window, or there is none |
| `ReverseTranslator.Translator.FindRecentReverseStreamByPeer` | internal/ipsc/translator.go:662-676 | finds a live stream of the same peer seen within the window, or there is none |
| `ReverseTranslator.Translator.Open` | internal/ipsc/translator.go:736-774 | the frame gets the stream of its call control, else a stream the search may find, else a new one with the next id |
| `ReverseTranslator.Turn` | internal/ipsc/translator.go:785-838 | the switch on the burst type: packets, stream afterwards, whether the call has ended |
| `ReverseTranslator.Translator.Serve` | internal/ipsc/translator.go:775-905 | what a frame turns into on its stream, and the stream and aliases after it |
| `ReverseTranslator.Translator.TranslateToMMDVM` | internal/ipsc/translator.go:694-856 | the new state and the packets are those of the step functions, for every frame; the original stops with an index error if and only if the packet is of a supported type and has exactly 30 bytes |
| `ReverseTheorems.StreamProtocol` | internal/ipsc/translator.go:694-997 | in every run, the packets of one stream object are numbered 0, 1, 2, ... mod 256, hold at most one header and at most one terminator with nothing after it, run voice phases 0-5 from the header with sync exactly at 0, and keep the addresses of the stream; no alias leads to a stream whose terminator is out, and every other stream is still reachable; the embedded link control kept for its voice is that of the call its header names |
| `ReverseTheorems.IdProtocol` | internal/ipsc/translator.go:754-774 | the same of all packets that carry one stream id, until the 32-bit counter comes round |
| `ReverseTheorems.CreationFixed` | internal/ipsc/translator.go:754-781 | a stream keeps the id and addresses it was created with, over every continuation of a run |
| `ReverseTheorems.PayloadCarried` | internal/ipsc/translator.go:861-905 | decoding the burst of a data packet gives the 12 link-control bytes of the frame |
| `ReverseServing.ServedIff` | internal/ipsc/translator.go:736-774 | which stream serves a frame, in every run that obeys the search: the one its call control leads to since a frame with it was served there, unless that stream ended; else a current one with the source, destination, call type and slot of the frame; else, unless it is a header or its link control decodes, a current one with its peer, call type and slot; else a new one, and only then is an id given out. Current is last served at most 1500 ms before |
| `ReverseServing.RememberedAlways` | internal/ipsc/translator.go:754-781 | a stream has the addresses, peer, call type and slot of the first frame it served, and was last seen with the last |
| `ReverseAnswers.AnswerIff` | internal/ipsc/translator.go:775-997 | what a frame becomes: a header a packet unless its stream sent one, a terminator if it has the end flag, voice and other types if long enough; with the next number, the phase that follows from the voice sent, the addresses of the stream unless zero, slot and call type of the frame, and the voice burst or the burst around the link control |
| `ForwardTranslator.BuildIPSCHeader` | internal/ipsc/translator.go:277-328 | writes the 18 header bytes and nothing else |
| `ForwardTranslator.BuildRTPHeader` | internal/ipsc/translator.go:331-352 | writes the 12 RTP bytes and nothing else, and moves the counters |
| `ForwardTranslator.Build` | internal/ipsc/translator.go:356-537 | headers, then body |
| `ForwardTranslator.BuildVoiceHeaders` | internal/ipsc/translator.go:162-171 | two headers with consecutive RTP counters, the marker on the first if nothing was sent before |
| `ForwardTranslator.Translator.FindRecentForwardStream` | internal/ipsc/translator.go:249-263 | finds a live stream of the same addresses seen within the window, or there is none |
| `ForwardTranslator.Translator.Open` | internal/ipsc/translator.go:115-149 | the packet gets the stream of its id, else for voice a stream the search may find, else a new one with the next call control |
| `ForwardTranslator.Translator.Serve` | internal/ipsc/translator.go:150-213 | what a packet turns into on its stream, and the stream and aliases after it |
| `ForwardTranslator.Translator.TranslateToIPSC` | internal/ipsc/translator.go:106-240 | the new state and the bytes sent are those of the step functions, for every packet |
| `ForwardTranslator.Translator.CleanupStream` | internal/ipsc/translator.go:243-247 | forgets one stream id |
| `Streams.RemoveAliases` | internal/ipsc/translator.go:678-690 | deletes exactly the aliases of one stream object |
| `Streams.IdsDiffer` | internal/ipsc/translator.go:754-758 | ids differ until the 32-bit counter comes round |
| `ForwardTheorems.StreamDiscipline` | internal/ipsc/translator.go:106-274 | in every run, whatever aliases come and go, the n-th packet of a stream object carries its call control, RTP sequence n mod 2^16 and timestamp 480 n mod 2^32, read from the bytes; the marker is on the first header or data packet and on no other; nothing follows the end flag |
| `ForwardTheorems.MarkedOnce` | internal/ipsc/translator.go:164-187 | so the RTP marker is set at most once in a call |
| `ForwardPhases.VoicePhases` | internal/ipsc/translator.go:198-204 | in every run a voice packet has 52, 66 or 57 bytes for phase A, E or the others, by the number of voice packets taken in on its stream since the header modulo 6, skipped data bursts included, and carries its vocoder bytes |
| `ForwardTheorems.CallDiscipline` | internal/ipsc/translator.go:106-352 | the same of all packets that carry one call control, until the 32-bit counter comes round |
| `ForwardServing.ServedIff` | internal/ipsc/translator.go:115-149 | which stream serves a packet, in every run that obeys the search: the one its stream id leads to, unless that stream ended or the id was forgotten; else, for voice, one last served at most 8000 ms before with a packet of the same source, destination, call type and slot; else a new one, and only then is a call control given out |
| `ForwardServing.RememberedAlways` | internal/ipsc/translator.go:115-149 | a stream has the addresses, call type and slot of the last packet it served, and was last seen with it |
| `ForwardAnswers.AnswerIff` | internal/ipsc/translator.go:150-537 | what a packet becomes, byte by byte: two headers, one terminator, data or voice packet, or none, each with peer, addresses, call type, slot, end flag and call control, the header number that counts earlier data packets and terminators, RTP number and timestamp that count earlier packets, and the link control or the voice of its phase |
| `TranslatorRoundTrip.HeaderRead` | internal/ipsc/translator.go:277-328 | any packet sent is read back by the other direction with the same call control, call type, slot and 24-bit addresses |
| `TranslatorRoundTrip.LcRelayed` | internal/ipsc/translator.go:356-419 | a header or terminator sent arrives as one, and after the second translation its burst decodes to the same 12 bytes |
| `TranslatorRoundTrip.VoiceRelayed` | internal/ipsc/translator.go:455-537 | voice arrives as voice on the same call, with the same 19 vocoder bytes |
| `CallRelay.FirstCallRelayed` | internal/ipsc/translator.go:80-856 | the instance for two fresh translators: only the packets of the call are assumed, and it comes out as stream 1 |
| `CallRelay.CallRelayed` | internal/ipsc/translator.go:106-856 | a whole call through both directions, from any states in which it is new: it comes out as one stream numbered from 0, one header first, its voice payloads in order and in phase, one terminator last, both with the link control that went in, and neither side knows the call any more |
| `Hytera.SwapDMRPayload` | internal/hytera/server.go:2014-2027 | byte by byte: the two bytes of each pair change places, an odd payload ends in a zero and its last byte, an even one loses its second last byte; an empty payload stops the original |
| `Hytera.BuildFrame` | internal/hytera/server.go:1782-1820 | the 72 bytes of a frame, with bytes 26+i and 27+i holding payload bytes i+1 and i |
| `Hytera.Server.EncodeFromMMDVM` | internal/hytera/server.go:1750-1821 | the sequence byte moves on for every packet; the frame, or the refusal of an unsupported type |
| `Hytera.Server.DecodeToMMDVM` | internal/hytera/server.go:1603-1695 | the new state and the outcome (delivered, ignored, rejected) are those of the step function; the original stops if and only if a frame with a header and a slot type in use has no payload |
| `Hytera.Server.TakeIn` | internal/hytera/server.go:1641-1694 | repeats dropped by the sequence byte, streams started as `ShouldStartNewInboundStream` says, the packet delivered |
| `HyteraTheorems.SwapTwice` | internal/hytera/server.go:2014-2027 | swapping an odd payload twice gives it back |
| `HyteraTheorems.Id24RoundTrip` | internal/hytera/server.go:1997-2012 | four bytes carry exactly the low 24 bits of an id |
| `HyteraTheorems.SlotTypeRoundTrip` | internal/hytera/server.go:1823-1895 | every encodable kind comes back, voice normalised to sync exactly at phase 0, and never as sync or wakeup |
| `HyteraTheorems.FrameRoundTrip` | internal/hytera/server.go:1603-1640 | reading a frame gives the packet's slot, kind, 24-bit ids, call type and 33 bytes |
| `HyteraTheorems.FrameLayout` | internal/hytera/server.go:1782-1895 | where a repeater finds sequence byte, packet type, slot, slot type (one digit copied four times: the data type, or the voice phase), color code, call type and ids |
| `HyteraTheorems.UnprefixedRead` | internal/hytera/server.go:1728-1748 | a frame whose first nine bytes are anything still reads the same |
| `HyteraTheorems.ReadingIs` | internal/hytera/server.go:1603-1640 | what becomes of any bytes: fewer than 38 are malformed; without a header or a slot type in use they are ignored; otherwise 72 bytes are read, 38 stop the original, and every other length is malformed |
| `HyteraTheorems.EndToEnd` | internal/hytera/server.go:1603-1821 | for every sender and receiver state, an encodable packet is delivered if and only if its sequence byte is not the last one seen on the slot, and then with its contents; the other slot is untouched |
| `Hytera.StandardizeMotoLCPacketWithSO` | internal/hytera/server.go:704-717 | headers and terminators get a fresh link control, other packets pass |
| `HyteraTheorems.StandardizedEndToEnd` | internal/hytera/server.go:704-717 | decoding the burst of a delivered standardised header or terminator gives the 12 bytes, masked parity included, and they name the same call |
| `HyteraTheorems.StandardizedBurst` | internal/hytera/server.go:704-717 | only the burst changes, only in headers and terminators, and it says of itself the color code and which of the two it is |
| `HyteraTheorems.Lossless` | internal/hytera/server.go:1603-1821 | over every sequence of encodable packets on both slots, each packet sent arrives once, in order, with its contents |
| `HyteraStreams.IdIsCall` | internal/hytera/server.go:1661-1673 | in every run of the receiver, until the 32-bit counter comes round, packets delivered under one stream id are one call: on one slot, nothing after a terminator, and every later link control header names the call of the packet before it, within the hang time |
| `HyteraStreams.SlotHistory` | internal/hytera/server.go:1641-1726 | in every run the packets delivered on a slot are numbered 0, 1, 2, ... mod 256 across calls, and the stream changes from one to the next exactly when the next does not continue the call |
| `HyteraStreams.DeliveredIff` | internal/hytera/server.go:1603-1660 | in every run a frame is delivered if and only if it can be read and does not repeat the sequence byte of the last delivered frame on its slot that had one |

## Left out

- CallRelay.CallRelayed: does not follow a call whose first packet the receiver joins to a recent stream with the same addresses, nor calls interleaved on one translator; the theorems about each direction cover those.
- Sockets, goroutines, pacing, handshakes, login and ping handling of all servers and clients: input and output only.
- The dmrgo library and the vocoder: decoding a full link control, synthesising one, decoding and encoding a voice burst, and telling data from voice are inputs of the translator model; so is the embedded signalling a voice burst is filled with.
- Correcting errors in the slot type: the bridge never decodes it.
- Bit arrays holding values other than 0 and 1: the code's callers never make them.
- MmdvmClient.Path.DrainPending: is one atomic run; calls of other clients between two releases are in `Arbitration`, not here.
- MmdvmClient.Path.HandleInboundPackets: does not model the `done` channel, which may end it at any delivery when the client stops.
- ForwardTranslator.Translator.TranslateToIPSC: does not model the count of headers sent, which nothing reads.
- Hytera.Server.DecodeToMMDVM: does not model the cache of startup templates, nor wakeup and sync packets built from them.
- The snapshot of all devices: it is that of each.
- The private, type and source rewrite rules have no way back: the configuration gives them no reverse rule.
- The client's queries whether a packet would match its rules: they run the chains on a copy and drop the result.
- Metrics, logging, configuration, registry, web interface, audio, G.711, the DMRD wire format, and private-call routing: easy or without state worth an invariant.
