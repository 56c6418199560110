# Verified models of the network code

This project models the hard parts of the repository in Dafny and proves what they are for. It
covers the ENet reliable-UDP library in `src/enet`, the multipart body scanner and the base64
encoder in `src/httplib/httplib.h`, and the base64 codec in `src/string_codec/string_codec.cpp`.
`dafny verify dfyconfig.toml` checks everything.

Each part has the same shape: functions on values say what the code computes, lemmas say what that
means, and classes and methods in the code's own form - fields updated in place, loops over arrays -
are proved equal to those functions. Sequence numbers, windows, counters and bytes have the code's
widths, with wrap-around written out.

**Range coder** (`src/enet/compress.c`). `RangeInterval` and `CodeStream` hold the 32-bit
interval arithmetic and what the emitted bytes say as a number. `FrequencyTree` and `PpmModel` hold
the adaptive order-2 model, each context named by the bytes before it instead of by where its
symbol happens to be allocated; `PpmCodec` proves the round trip there. `SymbolMemory`,
`TableUpdates`, `SymbolSearch`, `RescaleSteps`, `TrainingOrder`, `Climbing` and `CoderSteps` relate that
model to the array of linked records, which the two sides fill in different orders. `RangeLoops`
and `RangeCoder` are the code. `PpmCounting` says what is written without any of this, by counting which
bytes occur after which, and `CountedModel` proves that it is what the compressor writes.

**Channel protocol** (`src/enet/peer.c`, `src/enet/protocol.c`). `Windows`, `Outgoing`,
`FlightWindow`, `SendPass`, `PassInvariant`, `Resend`, `Timeouts` and `DropSafety` are the sender,
and `SenderRuns` all its runs against any acknowledgements whatever; `FlowControl`, `ThrottleShare`,
`GivingUp` and `NextTimeout` say what it holds back, drops and gives up, and why. `Incoming`,
`ReceiveOrder`, `Parcels`, `Receiving` and `Arrivals` are the receiver, and `Acceptance` says what it takes in;
`Sending` and `Layout` are what is queued, and `SendFlags` tells it from a packet's flags and size.
`Delivery` joins two endpoints by a network that never forgets a command or an acknowledgement and may
present any of them at any time, any number of times or never, and proves one mutual invariant of all
three; `ReliableChannel` and `OnTheAir` draw the theorems over whole runs from it, and `Completion` shows
that no channel ever gets stuck. `SendingPeer` and `ReceivingPeer` are the code. `UnreliableQueue`,
`UnreliableTaken` and `UnreliableFreed` are unreliable delivery, `Unsequenced` the duplicate filter,
`SendTurn`, `TurnOutcome` and `SendProgress` the loop that builds datagrams, with its termination and what
it leaves.

**The rest.** `Bandwidth` is the fair-share allocator of `src/enet/host.c`, `HostCounters` the peer state
machine with the host's counters, `PeerStates` its diagram and what being connected rests on, `Lists` the
circular lists of `src/enet/list.c` on heap nodes, `Crc` the table-driven checksum of `src/enet/packet.c`,
`MultipartBody` the streaming body scanner, `Base64` the two encoders and the decoder.

## Where the code does not do what it is for

- The throttle drop loop (`src/enet/protocol.c:1498-1517`) recognises the fragments of a dropped
  packet by their two sequence numbers alone. An unsequenced command has the numbers 0 and 0, and so
  has every 65536th reliable command of a channel; queued right behind a throttled unsequenced one it
  is dropped without ever being sent (`ThrottleDrop.ThrottleLosesReliable`), and the flight bound goes
  with it (`ThrottleDrop.DropSkipsWindowRule`). A control command, a ping say, whose peer-wide number
  is 0 fares worse: it has no packet, and the loop follows its null pointer at
  `src/enet/protocol.c:1502-1504`, where the model drops it. `DropSafety.SetupSparesIff` and
  `DropSafety.SendSparesIff` say of every queueing step exactly when it endangers a command so,
  `DropSafety.PassSpares` and its neighbours that nothing else does, `ThrottleDrop.DropsReliableIff`
  what is then taken along. The flight bound and the delivery theorems of a channel exclude those steps
  on that channel; counters, transit and acknowledgements are right without.
- A command whose packet has been dispatched is taken for a new one when the number it is mistaken for
  is at most six windows ahead, which for packets that begin less than 65536 numbers behind means more
  than nine windows behind; and an acknowledgement settles the wrong command when one is in flight a
  multiple of 65536 numbers later. Runs exclude just these arrivals, which
  `ReliableChannel.StaleIsTaken` and `ReliableChannel.StaleAcknowledges` describe.
- A packet may be cut into 1048576 fragments, but a sender stays within seven windows of 4096 numbers
  of what has been dispatched, and a packet is dispatched when it is complete. One that reaches further
  is never completed and blocks its channel (`ReliableChannel.LongPacketStalls`).
- Of the incomplete unreliable packets that still have a chance, dispatching keeps only the last two
  and frees the others, even when it dispatches nothing (`UnreliableFreed.KeepsLastTwo`,
  `UnreliableFreed.FirstOfThreeIsFreed`).
- Once the bandwidth allocator holds a peer to the peer's own figure, the data that peer will not send
  stays in the data the common throttle is a share of, so that bandwidth is left unused
  (`Bandwidth.UnusedIff`, `Bandwidth.LeavesUnused`). In the other direction a peer without a figure of its
  own is told 0, which it takes for no limit (`Bandwidth.ToldIsFair`).
- Overdue commands are only looked for once the first command in flight is overdue, whatever the timeouts
  of those behind it (`NextTimeout.SweepsWhenFirstIsOverdue`).
- `base64_decode` takes texts with foreign symbols and stray bits;
  `Base64.EncodesDecoded` says exactly which ones are no encodings.

## Model

| member | source | states |
|---|---|---|
| PpmCodec.RoundTrip | src/enet/compress.c:246-342 | for every input and every output limit not below its length, decompressing what compressing it gives yields exactly the input and stops there, through rescales and fresh starts of the symbol table |
| RangeCoder.CompressAndDecompress | src/enet/compress.c:246-627 | the same of the two routines on one coder object, for every list of non-empty buffers: whenever the first returns n > 0, the second run on those n bytes writes the concatenated input and returns its length; 0 is returned only for no buffers, an input limit of 0, or lack of room |
| RangeCoder.RangeCoder.Compress | src/enet/compress.c:246-342 | writes exactly the bytes of the canonical coder, or returns 0 exactly if they do not fit |
| RangeCoder.RangeCoder.Decompress | src/enet/compress.c:498-627 | returns what decoding with the canonical model gives; fails exactly where that fails |
| RangeInterval.NarrowNests | src/enet/compress.c:121-125 | a slot narrows the interval to a non-empty part of it, and range / total is at least 1 |
| RangeInterval.ShiftKeepsValid | src/enet/compress.c:126-136 | a byte is shifted out only when it is settled: no bit of the range is lost and low + range stays at most 2^32 |
| RangeInterval.CutKeepsValid | src/enet/compress.c:130-131 | where the range is cut to -low & 0xFFFF, that is not 0, never lengthens the interval and brings low to a multiple of 2^16 |
| RangeInterval.XorComparesTopBytes | src/enet/compress.c:128-128 | the exclusive-or test is a comparison of the top bytes |
| RangeInterval.NegatedMaskIsRemainder | src/enet/compress.c:131-131 | the masked negation is the distance to the next multiple of 2^16 |
| RangeInterval.Normalize | src/enet/compress.c:126-136 | the renormalising loop ends, with a valid interval of at least 2^16 |
| CodeStream.NormalizeKeepsCode | src/enet/compress.c:365-369 | whatever the encoder shifted out, the decoder finds its code inside the same interval again |
| CodeStream.ReadFindsSlot | src/enet/compress.c:352-352 | READ gives a number inside the slot that was encoded |
| CodeStream.FlushIsExact | src/enet/compress.c:139-146 | after the flush the stream is exactly the number low, followed by zeros |
| CodeStream.NormalizeKeepsFlushed | src/enet/compress.c:354-371 | and stays so however the decoder renormalises |
| PpmCodec.CompressedIsNotEmpty | src/enet/compress.c:246-342 | input that is not empty never compresses to nothing |
| PpmCodec.EncodedCodeIsInside | src/enet/compress.c:121-146 | the final value lies in every interval the encoder went through |
| PpmCodec.DecodeRetraces | src/enet/compress.c:529-596 | a byte that was encoded is decoded in the same context, with the same interval and the same position in the stream |
| PpmCodec.DecodeStops | src/enet/compress.c:529-580 | at the end of the stream the decoder reads escapes from every context and stops at the root |
| PpmCodec.DecodeUndoesEncode | src/enet/compress.c:498-627 | the round trip from any valid model and interval on |
| FrequencyTree.WalkIsCumulative | src/enet/compress.c:170-197 | the sum that the encoder adds up on its way down is the number of occurrences of all smaller values |
| FrequencyTree.FindInvertsWalk | src/enet/compress.c:373-438 | a code anywhere in the slot the encoder gives a value, one without a node included, makes the decoder find that value and that slot |
| FrequencyTree.FoundSlotIsWalked | src/enet/compress.c:373-438 | whatever value the decoder finds, it finds the slot the encoder would use |
| FrequencyTree.InsertCounts | src/enet/compress.c:159-199 | counting a value changes no other count |
| FrequencyTree.RescaleHalves | src/enet/compress.c:90-105 | rescaling keeps the order and all values and at least halves the counts upward |
| PpmModel.BumpKeepsValid | src/enet/compress.c:300-329 | every update keeps total = escapes + sum of counts + 256 * minimum, counts within 8 bits and totals within 16, rescaling included |
| PpmModel.LearnKeepsValid | src/enet/compress.c:148-157 | learning a byte keeps the model valid and never needs more than the 4096 symbols of the table |
| PpmModel.FoundInContext | src/enet/compress.c:415-438 | unless the code is beyond the total, decoding in a context ends at a value and its encoding slot |
| SymbolMemory.InsertAtInserts | src/enet/compress.c:170-197 | an in-place insertion into the linked array changes the tree of one context and nothing else |
| SymbolMemory.RescaledTree | src/enet/compress.c:90-105 | an in-place rescale of the array is a rescale of the tree it holds, `under` sums included |
| TableUpdates.SymbolAdded | src/enet/compress.c:68-80 | a symbol allocated anywhere in the table is a new context nobody has seen, and all others stay as they are |
| TrainingOrder.PatchingIsTraining | src/enet/compress.c:598-615 | entering a decoded byte into the longer contexts from the longest downwards ends in the model the encoder reaches by climbing down |
| SymbolSearch.SearchStarts | src/enet/compress.c:373-413 | the search of the decoder, which counts before it knows the value, counts exactly along the path of the value it finds |
| RangeLoops.RangeEncode | src/enet/compress.c:121-137 | emits the bytes the slot settles, or fails exactly if they do not fit |
| RangeLoops.RangeFlush | src/enet/compress.c:139-146 | writes low without its trailing zero bytes |
| RangeLoops.RangeSeed | src/enet/compress.c:344-350 | the code is the first four bytes, missing ones being 0 |
| RangeLoops.RangeDecode | src/enet/compress.c:354-371 | the interval follows the encoder's and the code is the window on the stream behind what was shifted out |
| RangeCoder.RangeCoder.ContextEncode | src/enet/compress.c:159-199 | the table holds the context with the value counted once more; `under` and `count` are the cumulative sums |
| RangeCoder.RangeCoder.ContextDecode | src/enet/compress.c:373-438 | the same table for the value that the code selects, found with its slot or rejected |
| RangeCoder.RangeCoder.Rescale | src/enet/compress.c:90-105 | every count of the subtree is halved upward, every `under` made right again, and the sum returned |
| RangeCoder.RangeCoder.ContextRescale | src/enet/compress.c:107-112 | the context of the table is the halved one |
| RangeCoder.RangeCoder.EncodeByte | src/enet/compress.c:275-329 | one byte emits what the canonical coder emits and trains the contexts it trains |
| RangeCoder.RangeCoder.NextInput | src/enet/compress.c:331-336 | the next context is the one of the last two bytes; a full table starts afresh |
| RangeCoder.RangeCoder.DecodeByte | src/enet/compress.c:529-615 | one byte is decoded as the canonical decoder does, and leaves the canonical model and parent links |
| RangeCoder.RangeCoder.PatchContexts | src/enet/compress.c:598-615 | the loop over the longer contexts leaves the table as the encoder would have filled it, with every parent link set |
| CountedModel.CompressedByCounting | src/enet/compress.c:246-342 | for every input, what the compressor writes is told by counting alone: which bytes have been seen under the last two, one and no bytes since the last fresh start, 3 for every occurrence in the root and 2 elsewhere, 5 to escape for each different byte, halvings and 4094 records included; without a tree, a table or a context of the model |
| CountedModel.ModelIsCounted | src/enet/compress.c:300-336 | after any input the history is the last two bytes since the last fresh start, and counts, escapes and total of every context are those by counting |
| CountedModel.OneByteAnswer | src/enet/compress.c:313-314 | one byte v is written as the base-256 digits of (1 + v) * (0xFFFFFFFF / 257) without trailing zeros |
| PpmCounting.FiguresAreOccurrences | src/enet/compress.c:148-157 | until the first halving k occurrences of n give a count of 3k + 1 out of 257 + 3n in the root, and elsewhere 2k, with 5 escapes for each different byte |
| CountedModel.RescaleCounts | src/enet/compress.c:90-105 | rescaling halves every single count upward |
| CodeStream.NormalizeShifts | src/enet/compress.c:126-136 | renormalising only shifts: the emitted digits followed by the new low are the old low, the new interval is a part of the old, and nothing is emitted exactly if the top bytes differ and the range is at least 2^16 |
| ReliableChannel.DeliveredIsPrefix | src/enet/peer.c:786-1004 | in every state of every run, with every reliable command and acknowledgement free to be lost, repeated and reordered, the packets dispatched on a channel are the first of those queued reliably on it, whole and in order |
| ReliableChannel.NothingIsLost | src/enet/protocol.c:196-283 | once a sender holds no reliable command of the channel any more, all it ever queued has been dispatched: no command is settled that the receiver has not got |
| Completion.AllCanBeDelivered | src/enet/protocol.c:1386-1565 | no channel ever gets stuck: from every state of every run, whatever was lost, refused or held back, some continuation delivers all that has been queued, if no packet has more than 12288 commands |
| Acceptance.NextPacketIsDelivered | src/enet/peer.c:786-974 | in every state of every run, when the last missing command of the next packet arrives and there is room, the packet is dispatched |
| OnTheAir.SentIsOnTheAir | src/enet/protocol.c:1459-1486 | in every state of every run the numbers counted as sent are exactly those of commands that have been in a datagram |
| SenderRuns.FlightIsBounded | src/enet/protocol.c:1406-1467 | in every state of every run of a sender that endangers no command of the channel, whatever number is acknowledged on whatever channel and whenever, its sent and unacknowledged commands have distinct 16-bit numbers within seven consecutive windows; reliableWindows[w] is exactly their number in window w, at most 4096, and the bit of w in usedReliableWindows is set if and only if that is not 0 |
| SenderRuns.CountersAreExact | src/enet/protocol.c:1461-1465 | in every state of every run, whatever is queued and whatever throttling drops, reliableWindows[w] is exactly the number of the channel's sent and unacknowledged commands whose 16-bit number lies in window w, and the bit of w is set if and only if that is not 0 |
| SenderRuns.TransitIsExact | src/enet/protocol.c:1469-1485 | in every state of every run reliableDataInTransit is the sum over the commands sent and not acknowledged, at most 65536, and what waits to be sent again comes before all that was never sent |
| SenderRuns.AcknowledgementFinds | src/enet/protocol.c:204-240 | in every state of every run an acknowledgement finds a command if and only if its number is in flight on its channel, although the second search gives up early |
| SenderRuns.ActionKeepsValid | src/enet/protocol.c:1386-1565 | every action of a sender - sending or queueing anything, a pass, a sweep of timeouts, any acknowledgement - keeps it valid: counters, transit, order of the queue |
| SenderRuns.ActionKeepsSafe | src/enet/protocol.c:1386-1565 | and unless it endangers a command of the channel, keeps the order and the flight bound of the channel |
| ReliableChannel.SenderNearReceiver | src/enet/protocol.c:1410-1416 | what has been sent is at most seven windows ahead of what has been dispatched, so no number is ambiguous |
| ReliableChannel.LongPacketStalls | src/enet/peer.c:120-141 | in no run is a packet dispatched, or any after it, that ends more than seven windows after those before it; packets of 32768 fragments or more always do, although up to 1048576 pass the check |
| ReliableChannel.StaleIsTaken | src/enet/peer.c:842-850 | a number already dispatched, however far behind, is taken for a new one if and only if the next number with the same 16 bits is at most six windows ahead; within 65536 numbers, if and only if it is more than nine windows behind: the exact extent of the freshness assumption on commands |
| ReliableChannel.StaleAcknowledges | src/enet/protocol.c:204-240 | an acknowledgement settles another command than its own if and only if that is in flight a multiple of 65536 numbers later: the exact extent of the assumption on acknowledgements |
| ThrottleDrop.ThrottleLosesReliable | src/enet/protocol.c:1498-1517 | a family of senders for which the throttle drop loop discards a command that was never sent and wants an acknowledgement, on any channel or the control channel |
| ThrottleDrop.LosingSender | src/enet/protocol.c:1498-1517 | there is such a sender: one whose 65535 reliable packets have all been acknowledged |
| ThrottleDrop.DropSkipsWindowRule | src/enet/protocol.c:1410-1416 | and with it the test at the start of a window, so that the next command goes out seven windows ahead of one in flight and the flight bound is lost |
| ThrottleDrop.SkippingSender | src/enet/protocol.c:1410-1416 | there is such a sender: one that waits for the acknowledgement of number 36864 |
| ThrottleDrop.SparedDropsHavePackets | src/enet/protocol.c:1500-1503 | where all channels and the control commands are spared, every command dropped has a packet, as the loop takes for granted |
| ThrottleDrop.DropsReliableIff | src/enet/protocol.c:1498-1517 | dropping takes a reliable command of a channel along if and only if one stands among the commands that follow with the dropped one's numbers |
| ThrottleDrop.DropRunTakes | src/enet/protocol.c:1502-1517 | the loop takes out exactly the commands that follow with the same two numbers |
| ThrottleDrop.ReliableBehindUnsequenced | src/enet/peer.c:637-650 | queueing an acknowledged command, a ping or another control command included, behind an unsequenced one makes that possible if and only if its number is 0 |
| DropSafety.SetupSparesIff | src/enet/peer.c:619-682 | for every command queued on any channel behind any others: a reliable command becomes droppable if and only if the next number of its channel, or of the peer, is 0 and the queue ends in commands numbered 0 and 0 the first of which throttling may drop; no other command ever does |
| DropSafety.SetupNumberedIff | src/enet/peer.c:630-661 | the numbers that rests on: plain commands keep them if and only if a sequenced unreliable packet is begun before its channel's 65535 numbers are used up |
| DropSafety.SequencedNeverEndangers | src/enet/peer.c:652-657 | behind a sequenced unreliable command no command ever becomes droppable |
| DropSafety.SendSparesIff | src/enet/peer.c:99-215 | the same for a packet, whole or in fragments: only its first command can be endangered, and none of another channel |
| DropSafety.PassSpares | src/enet/protocol.c:1386-1556 | a pass never brings such a pair about |
| DropSafety.TimeoutsSpare | src/enet/protocol.c:1333-1384 | nor does a sweep of timeouts |
| DropSafety.RemovalSpares | src/enet/protocol.c:196-283 | nor an acknowledgement |
| Delivery.StepKeepsInv | src/enet/protocol.c:1386-1565 | each step of the channel - sending, retransmitting, a pass over the queue, acknowledgements, arrivals - keeps the mutual invariant of sender window, network and receiver queue |
| Delivery.RunKeepsInv | src/enet/protocol.c:1386-1565 | so does every run |
| Delivery.SenderStaysNear | src/enet/protocol.c:1410-1416 | the window rule and the acknowledgement rule together bound how far the sender is ahead |
| Delivery.TransmitKeepsInv | src/enet/protocol.c:1386-1565 | for a pass over the outgoing commands, whatever is queued by then |
| Delivery.TimeoutKeepsInv | src/enet/protocol.c:1333-1384 | for a sweep of timeouts |
| Delivery.AcknowledgedKeepsInv | src/enet/protocol.c:196-283 | for any acknowledgement ever sent, unless a later command in flight has its 16 bits |
| Delivery.SendKeepsInv | src/enet/peer.c:99-220 | for enet_peer_send of any packet on any other channel, and on this one unless it is endangered |
| Delivery.ArriveKeepsInv | src/enet/protocol.c:435-455 | for the arrival of any reliable command or fragment ever sent, unless its packet has been dispatched and is taken for a new one |
| Windows.AheadOfBase | src/enet/peer.c:842-849 | the window arithmetic on wrapped numbers gives the true distance in windows for numbers up to 65535 ahead |
| Windows.BehindBase | src/enet/peer.c:842-849 | and for numbers behind it, 16 windows more |
| Windows.WireIsInjective | src/enet/peer.c:637-641 | two numbers closer than 65536 are told apart by their 16 bits |
| Windows.MaskTestsNearWindows | src/enet/protocol.c:1414-1415 | the shifted mask tests exactly the ten windows from the given one on, cyclically |
| Windows.MaskTestsCounts | src/enet/protocol.c:1413-1415 | on a bit set kept in step with the counters it tests whether any of those windows has a command in flight |
| Windows.MarkedCounts | src/enet/protocol.c:1463-1464 | setting the bit and counting up keep the bit set in step with the counters |
| Windows.UnmarkedCounts | src/enet/protocol.c:247-251 | so do counting down and clearing the bit at 0 |
| FlightWindow.EnterWindow | src/enet/protocol.c:1410-1416 | passing the test at the start of a window means nothing is in flight seven windows back, and the last window has had an acknowledgement |
| FlightWindow.LaunchKeepsBound | src/enet/protocol.c:1461-1465 | sending the next number for the first time keeps the flight bound |
| FlightWindow.SettleKeepsBound | src/enet/protocol.c:242-252 | taking an acknowledged command out of flight keeps it, and its counter is not 0 before |
| FlightWindow.FlightIsDistinct | src/enet/protocol.c:1406-1465 | numbers in flight are told apart by their 16 bits |
| FlightWindow.CountFits | src/enet/protocol.c:1464-1464 | no counter of a window exceeds 4096 |
| SendPass.LaunchKeepsValid | src/enet/protocol.c:1459-1486 | sending a command keeps the sender valid: attempted commands first in the queue, reliableDataInTransit the sum over the sent list and within bounds, counters exact on every channel |
| SendPass.LaunchKeepsOrder | src/enet/protocol.c:1406-1465 | and keeps the flight bound of every channel that has it |
| Outgoing.RecordsArePacked | src/enet/protocol.h:71-175 | every command is as long as its header and its fields together |
| SendPass.EmitKeepsShape | src/enet/protocol.c:1445-1553 | what is put into a datagram keeps it within the mtu, 32 commands and 65 buffers |
| PassInvariant.AdvanceKeepsValid | src/enet/protocol.c:1400-1556 | every turn of the loop keeps the sender valid and the datagram within its limits, and takes a command off the list or steps over it; it stops only at a datagram that is not empty |
| PassInvariant.AdvanceKeepsOk | src/enet/protocol.c:1400-1556 | and keeps the order and the flight bound of every channel it spares |
| PassInvariant.PassKeepsValid | src/enet/protocol.c:1386-1556 | so does every pass, which puts into the datagram only what was queued |
| PassInvariant.PassKeepsOk | src/enet/protocol.c:1386-1556 | a whole pass keeps the flight bound of a channel that is spared, and loses none of its reliable commands |
| FlowControl.LeftHasReason | src/enet/protocol.c:1400-1556 | a pass goes on until the datagram has no place for a command, or until every command left is on a channel while one in the queue must wait for its window, or carries reliable data while one in the queue would put more in transit than allowed |
| FlowControl.DataIsSentIff | src/enet/protocol.c:1425-1443 | reliable data that no window holds back goes out if it fits and max(throttle * window / 32, mtu) bytes are not exceeded in transit; beyond that none goes out for the rest of the pass |
| FlowControl.OthersAreSent | src/enet/protocol.c:1445-1527 | any other command that no window holds back goes out if it fits, except unreliable packets whose turn the throttle counter says is to be dropped |
| FlowControl.WaitingHoldsBack | src/enet/protocol.c:1406-1423 | a command on a channel is stepped over exactly when one before it, or itself, must wait for its window |
| FlowControl.MustWaitIff | src/enet/protocol.c:1410-1416 | the first command of a window must wait exactly while all 4096 of the window before are in flight, or any of its own window and the next nine |
| ThrottleShare.ThrottleLetsThrough | src/enet/protocol.c:1491-1494 | a throttle of t lets t + 1 of any 32 unreliable packets in a row through, 31 and 32 all of them |
| Resend.SetupKeepsValid | src/enet/peer.c:619-682 | numbering and queueing a command keeps the sender valid and settles nothing |
| Resend.SearchAgainFinds | src/enet/protocol.c:216-240 | the search that gives up at the first command never sent still finds every sent one that carries the number |
| Resend.RemovalFinds | src/enet/protocol.c:204-240 | an acknowledgement whose number is in flight always finds its command, also while that waits to be sent again |
| Resend.RemoveSentSettles | src/enet/protocol.c:196-283 | an acknowledgement keeps the sender valid, and takes exactly the one command in flight with its number out on a channel in order, and nothing otherwise |
| Timeouts.TimeoutsKeepValid | src/enet/protocol.c:1333-1384 | putting overdue commands back keeps the sender valid and loses nothing |
| Timeouts.TimeoutsKeepOrder | src/enet/protocol.c:1333-1384 | and keeps the flight bound and settles nothing |
| Timeouts.TimeoutsRequeueOverdue | src/enet/protocol.c:1345-1384 | exactly the overdue commands go back, in order and with doubled timeouts, before all that was queued |
| GivingUp.OverdueIff | src/enet/protocol.c:1348-1349 | a command is overdue exactly once it has been out for its timeout, across the wrap-around of the clock |
| GivingUp.TimeoutDoubles | src/enet/protocol.c:1370-1370 | the first timeout is the round-trip time and four times its variance, and every time a command is overdue it doubles; its limit stays |
| GivingUp.LimitAfterFive | src/enet/protocol.c:1357-1358 | with a limit of 32 that is reached when the command has been sent five times |
| GivingUp.GivesUpIff | src/enet/protocol.c:1343-1363 | a sweep gives the connection up if and only if an overdue command has been without an answer since the earliest overdue sending for the maximum, or for the minimum at the limit of its backoff |
| GivingUp.EarliestIsFirst | src/enet/protocol.c:1351-1353 | the earliest overdue sending is that of the command sent first, across the wrap-around of the clock |
| NextTimeout.NextTimeoutIsFirst | src/enet/protocol.c:277-280 | in every state of every run nextTimeout is when the first command in flight falls due |
| NextTimeout.SweepsWhenFirstIsOverdue | src/enet/protocol.c:1596-1599 | so a turn looks for overdue commands exactly when the first in flight is overdue |
| ReceiveOrder.QueueDistances | src/enet/peer.c:840-882 | in a sorted queue every distance from the current number is between 1 and 0x6FFF, without duplicates |
| ReceiveOrder.PlaceFinds | src/enet/peer.c:857-882 | the backward search finds a queued number, or shows it is not queued |
| ReceiveOrder.InsertKeepsSorted | src/enet/peer.c:857-974 | inserting a command with numbers of its own keeps the queue sorted, across wrap-around |
| ReceiveOrder.DispatchTakesRun | src/enet/peer.c:786-810 | dispatching takes exactly the longest run of complete commands that follow on the current number |
| ReceiveOrder.DispatchKeepsQueueOk | src/enet/peer.c:786-823 | and leaves a sorted queue whose head has to wait |
| Parcels.CutMeans | src/enet/peer.c:143-178 | the fragments of enet_peer_send are the parts of the packet, numbered and placed |
| Parcels.FragmentsPartition | src/enet/peer.c:143-178 | joined together they are the packet |
| Parcels.Reassembles | src/enet/protocol.c:525-632 | fragments in any order and any number of times: fragmentsRemaining is the number of those missing, is 0 exactly when all have arrived, and then the buffer is the packet |
| Parcels.FillHolds | src/enet/protocol.c:614-629 | one fragment, new or repeated, keeps what is there right |
| Sending.SendQueuesParcel | src/enet/peer.c:99-220 | a packet whose flags and size have it sent reliably is queued whole under the channel's next numbers |
| Sending.SendPlain | src/enet/peer.c:99-220 | any other packet queues no reliable command |
| Sending.RouteByFlags | src/enet/peer.c:106-209 | flags, size and the unreliable numbers used decide which packets are turned away and which are sent reliably; the branches of the code do just that |
| SendFlags.ReliableIsQueued | src/enet/peer.c:129-205 | a packet flagged reliable, one too long that is not flagged for unreliable fragments, and one for which no unreliable number is left: the whole new state, every command of the packet under its number and wanting an acknowledgement |
| SendFlags.UnsequencedIsQueued | src/enet/peer.c:194-198 | an unsequenced packet in one piece: the whole new state |
| SendFlags.SequencedIsQueued | src/enet/peer.c:200-209 | a plain packet in one piece: the whole new state |
| SendFlags.FragmentsAreQueued | src/enet/peer.c:129-133 | a packet cut unreliably: the whole new state, its fragments under one unreliable number being together the packet |
| SendFlags.RejectedIsDropped | src/enet/peer.c:106-127 | a packet turned away changes nothing |
| SendFlags.FragmentSize | src/enet/peer.c:112-114 | a fragment has the mtu less 28 bytes, or 32 with a checksum |
| Layout.LayOutMore | src/enet/peer.c:634-641 | the numbers of a new packet follow those of the packets before and move none of them |
| Receiving.DispatchDelivers | src/enet/peer.c:786-823 | what is dispatched are the next packets, and nothing received is forgotten |
| Arrivals.WholeArrives | src/enet/protocol.c:435-455 | an unfragmented command, however late or often: the next packets are dispatched, nothing else counts as received, and it is acknowledged only if it has been received |
| Arrivals.FragmentArrives | src/enet/protocol.c:525-632 | the same for a fragment |
| Acceptance.WholeIsTaken | src/enet/protocol.c:435-455 | a command not dispatched yet is refused if and only if it is too long, or less than seven windows ahead, not queued, and there is no room |
| Acceptance.FragmentIsTaken | src/enet/protocol.c:525-632 | a fragment not dispatched yet is refused if and only if it or its packet is too long, or its packet begins less than seven windows ahead, is not queued, and there is no room |
| Acceptance.DueIsKept | src/enet/protocol.c:435-455 | what is not refused is kept, and acknowledged if it is then less than seven windows ahead |
| Acceptance.AcknowledgedIff | src/enet/peer.c:595-602 | within 65536 numbers, one is left without an acknowledgement if and only if it is seven or eight windows ahead, or eight or nine behind |
| SendingPeer.OutgoingChannel.MayNotOpen | src/enet/protocol.c:1410-1415 | the test with the counter and the mask, on the bit set, is the window rule |
| SendingPeer.OutgoingChannel.CountLaunch | src/enet/protocol.c:1461-1465 | counts a first sending and keeps the bit set in step |
| SendingPeer.OutgoingChannel.CountAcknowledged | src/enet/protocol.c:242-252 | counts an acknowledgement and keeps the bit set in step |
| SendingPeer.SendingPeer.SetupOutgoingCommand | src/enet/peer.c:619-682 | numbers a command by its kind and queues it, changing the state as specified |
| SendingPeer.SendingPeer.Send | src/enet/peer.c:99-220 | queues a packet or its fragments as specified, and fails exactly for a channel that does not exist, too long a packet, or more than 1048576 fragments |
| SendingPeer.CutPacket | src/enet/peer.c:143-178 | the fragmenting loop gives the specified fragments |
| SendingPeer.SendingPeer.CheckOutgoingCommands | src/enet/protocol.c:1386-1556 | the in-place pass leaves the specified state, datagram, output and canPing |
| SendingPeer.SendingPeer.LaunchAt | src/enet/protocol.c:1459-1486 | one command is counted, stamped and moved to the sent list |
| SendingPeer.SendingPeer.SendOrDropAt | src/enet/protocol.c:1487-1527 | an unacknowledged command is sent or throttled out with those behind it |
| SendingPeer.SendingPeer.RemoveSentReliableCommand | src/enet/protocol.c:196-283 | the two searches, the counters, the transit and the next timeout are as specified |
| SendingPeer.SendingPeer.CheckForTimeouts | src/enet/protocol.c:1333-1384 | the in-place sweep is as specified |
| ReceivingPeer.IncomingChannel.FindPlace | src/enet/peer.c:860-882 | the case-by-case comparison of wrapped numbers finds the place by distance |
| ReceivingPeer.IncomingChannel.FindUnreliablePlace | src/enet/peer.c:893-924 | the same for sequenced unreliable commands |
| ReceivingPeer.ReceivingPeer.DispatchIncomingReliableCommands | src/enet/peer.c:786-823 | moves the ready run and, only then, starts the unreliable numbers afresh and dispatches them |
| ReceivingPeer.ReceivingPeer.DispatchIncomingUnreliableCommands | src/enet/peer.c:703-784 | the loop with its four iterators moves and frees as specified |
| ReceivingPeer.ReceivingPeer.QueueIncomingReliable | src/enet/peer.c:826-974 | a reliable command is discarded, refused, or put in its place and dispatched from |
| ReceivingPeer.ReceivingPeer.QueueIncomingUnreliable | src/enet/peer.c:826-985 | the same for an unreliable or unsequenced command |
| ReceivingPeer.ReceivingPeer.HandleSendReliable | src/enet/protocol.c:435-455 | as specified, with the error returns |
| ReceivingPeer.ReceivingPeer.HandleSendFragment | src/enet/protocol.c:525-632 | as specified, with the error returns |
| ReceivingPeer.ReceivingPeer.QueueAcknowledgement | src/enet/peer.c:587-617 | an acknowledgement is queued unless the number is seven or eight windows ahead |
| ReceivingPeer.ReceivingPeer.ReceiveReliable | src/enet/protocol.c:1187-1205 | a received command has exactly the effect of an arrival in the runs of Delivery, acknowledgement included |
| UnreliableQueue.DispatchIsOrdered | src/enet/peer.c:703-784 | each command is freed, kept or moved exactly once; what is moved is due and its unreliable numbers strictly increase; what is freed is not due; what is kept, but for the one being worked on, is not overtaken |
| UnreliableFreed.KeepsLastTwo | src/enet/peer.c:737-783 | what is kept, but for the one being worked on, is exactly: of the incomplete commands newer than all dispatched the last two, and what is ahead |
| UnreliableFreed.FirstOfThreeIsFreed | src/enet/peer.c:737-739 | so of three incomplete packets the first is freed, although it is neither stale nor overtaken |
| UnreliableFreed.HappensKeepsAdmitted | src/enet/peer.c:885-925 | arrivals and fragments keep what that rests on: what is ahead in the queue would still be taken in |
| UnreliableFreed.AdvanceKeepsAdmitted | src/enet/peer.c:813-823 | and so do reliable dispatches by at most nine windows |
| UnreliableQueue.ArrivalKeepsOrder | src/enet/peer.c:885-925 | from one arrival to the next the dispatched unreliable numbers keep increasing and the queue stays sorted |
| UnreliableQueue.AdvanceKeepsOrder | src/enet/peer.c:813-823 | so after a reliable dispatch by at most nine windows; stale commands are freed |
| UnreliableQueue.FillKeepsOrder | src/enet/protocol.c:729-746 | and when a fragment counts an incomplete packet down, or completes it |
| UnreliableQueue.DispatchedInOrder | src/enet/peer.c:703-784 | whatever arrives between two reliable dispatches, fragments that complete a packet included: the unreliable numbers dispatched strictly increase over the whole sequence |
| UnreliableTaken.ArrivalIsTaken | src/enet/peer.c:842-985 | an unreliable command is discarded exactly if its reliable number is not admitted, it is overtaken, or it is a copy; otherwise it goes out at once if it is due, unsequenced ones always, and waits if not |
| UnreliableTaken.CompletedGoesOut | src/enet/protocol.c:729-746 | the last fragment of a packet whose turn it is sends it out |
| SendTurn.AcknowledgementsFit | src/enet/protocol.c:1281-1327 | acknowledgements keep the datagram within its limits, and what is left asks for another |
| TurnOutcome.TurnLeavesReasons | src/enet/protocol.c:1594-1626 | a turn that does not ask for another has sent all acknowledgements, and all commands but those that the window rule or the data in transit holds back |
| TurnOutcome.RestingPeerIsPinged | src/enet/protocol.c:1607-1615 | a connected peer with nothing queued, in flight or to acknowledge is pinged exactly if it has been silent for the interval; the ping goes out alone and is in flight |
| SendProgress.FinishForward | src/enet/protocol.c:1386-1556 | a pass makes nothing late and adds nothing; if it asks for another it has sent something |
| SendProgress.PingIsSent | src/enet/protocol.c:1620-1626 | a ping queued last is sent in the same pass, unless another datagram is needed or something plain was drained |
| SendProgress.CommandsForward | src/enet/protocol.c:1618-1626 | the commands of one peer, ping included, lessen a lexicographic measure whenever they ask to go on |
| SendProgress.TurnGoesForward | src/enet/protocol.c:1594-1629 | so does a whole turn of a peer, timeouts included, within its datagram |
| SendProgress.TurnRequeues | src/enet/protocol.c:1333-1384 | a turn puts back only commands that were overdue, in order; those and the ones overdue afterwards are the ones overdue before |
| SendProgress.LaterSweepIsIdle | src/enet/protocol.c:1333-1384 | once a turn has swept a peer, a later sweep in the same call puts nothing back |
| SendProgress.Host.SendOutgoingCommands | src/enet/protocol.c:1567-1701 | the loop over all peers ends, with no acknowledgement left and every command left held back for a reason; every datagram is within its peer's mtu, 32 commands and 65 buffers, and each overdue command is put back at most once |
| Unsequenced.AcceptedAgainIff | src/enet/protocol.c:474-498 | after a group was accepted, whatever arrives in whatever order: while the window has moved less than 64 windows since, a copy is accepted if and only if it has moved more than 32 |
| Unsequenced.RefusedWasAccepted | src/enet/protocol.c:474-498 | a group in reach that is refused has been accepted before |
| Unsequenced.Receiver.HandleSendUnsequenced | src/enet/protocol.c:457-501 | the code on the bit array of 32 words is that transition |
| Unsequenced.SetTests | src/enet/protocol.c:498-498 | setting one bit of the array sets that place and no other |
| Bandwidth.SettlingBalances | src/enet/host.c:394-415 | settling a peer never makes the remaining bandwidth or data negative, and the unsettled peers still fit at the same throttle |
| Bandwidth.RatesAddUp | src/enet/host.c:374-442 | what all peers may be sent adds up from the settled and the throttled ones |
| Bandwidth.LotIsBounded | src/enet/host.c:398-440 | no limit is above 32, nor 0 unless the common throttle is |
| Bandwidth.LotInNumbers | src/enet/host.c:398-440 | a peer gets the largest limit that its own figure allows, or 1 where that is 0, and only if it has more to send; or the common throttle, if that stays within its figure |
| Bandwidth.UnusedIff | src/enet/host.c:421-424 | one step more for the unsettled peers would fit if and only if what the settled ones have to send beyond their figures makes the quotient smaller |
| Bandwidth.LeavesUnused | src/enet/host.c:414-415 | two peers for which it does: one is held to 15/32 although 28/32 would be within the bandwidth |
| Bandwidth.ToldIsFair | src/enet/host.c:478-494 | every connected peer is told the smaller of its own figure and the share, together no more than the bandwidth |
| Bandwidth.Host.SettlePeers | src/enet/host.c:374-417 | the fixpoint loop ends, with the balance kept |
| Bandwidth.Host.ThrottleOutgoing | src/enet/host.c:346-442 | every connected peer gets its own limit or the common throttle; that is 32, or the most that the bandwidth less the settled peers' figures allows for the data less those figures; the sum of limit times data stays within 32 times the host's bandwidth, but for peers raised to 1 |
| Bandwidth.Host.LimitIncoming | src/enet/host.c:446-497 | the fair share: peers that send less keep their figure, and all that is told together is within the host's bandwidth, but would not be with a larger share |
| Bandwidth.Host.BandwidthThrottle | src/enet/host.c:336-499 | at most once a second and only with connected peers, both halves one after the other |
| HostCounters.CountersAreRight | src/enet/peer.c:345-367 | in every state of every run connectedPeers is the number of peers in CONNECTED or DISCONNECT_LATER and bandwidthLimitedPeers the number of those with a limit, so neither underflows |
| HostCounters.StepCounts | src/enet/protocol.c:35-57 | every event of the peer state machine keeps that |
| HostCounters.CountsMove | src/enet/peer.c:345-367 | what changing one peer does to the two numbers |
| PeerStates.StateDiagram | src/enet/protocol.c:35-159 | state by state, what every event makes of the peer it concerns, and that no other peer moves but by a flush |
| PeerStates.ConnectedShookHands | src/enet/protocol.c:911-996 | in every state of every run of a host, a peer is connected, or about to be told so, only after the other side has answered this connection, which has stood since |
| PeerStates.FreePeerTaken | src/enet/host.c:182-206 | a new connection takes the first free peer and no other, whichever side begins it |
| HostCounters.Host.PeerOnConnect | src/enet/peer.c:345-355 | counts a peer that was not counted |
| HostCounters.Host.PeerOnDisconnect | src/enet/peer.c:357-367 | uncounts a peer that was; neither counter is 0 before |
| HostCounters.Host.ProtocolChangeState | src/enet/protocol.c:35-57 | any change of state keeps the counters right |
| HostCounters.Host.PeerReset | src/enet/peer.c:374-429 | so does a reset, which forgets the limit |
| HostCounters.Host.PeerDisconnect | src/enet/peer.c:530-565 | so does a disconnection, with all that the flush sends |
| HostCounters.Host.PeerDisconnectNow | src/enet/peer.c:499-522 | the immediate one |
| HostCounters.Host.PeerDisconnectLater | src/enet/peer.c:573-585 | and the delayed one |
| HostCounters.Host.HostConnect | src/enet/host.c:182-206 | a new connection takes the first free peer and is not counted yet |
| HostCounters.Host.ProtocolHandleConnect | src/enet/protocol.c:285-340 | nor is one that comes in |
| HostCounters.Host.ProtocolHandleVerifyConnect | src/enet/protocol.c:936-996 | the limit of a peer becomes known before it is counted |
| HostCounters.Host.ProtocolHandleDisconnect | src/enet/protocol.c:808-835 | by the state the peer is in |
| HostCounters.Host.ProtocolHandleAcknowledge | src/enet/protocol.c:911-933 | the acknowledged command completes a connection or a disconnection |
| HostCounters.Host.ProtocolHandleBandwidthLimit | src/enet/protocol.c:761-774 | a new limit moves the second counter exactly as needed |
| HostCounters.Host.ProtocolNotifyConnect | src/enet/protocol.c:119-134 | with and without an event to fill |
| HostCounters.Host.ProtocolNotifyDisconnect | src/enet/protocol.c:136-159 | with and without an event to fill |
| HostCounters.Host.ProtocolDispatch | src/enet/protocol.c:59-96 | pending connections become connections, zombies are reset |
| Lists.Insert | src/enet/list.c:20-32 | the ring has the node in front of the position and is otherwise the same, only its neighbours being written |
| Lists.Remove | src/enet/list.c:34-41 | the ring without the node; the node's own links stay |
| Lists.Move | src/enet/list.c:43-59 | a chain leaves its ring and stands in front of the position of another ring, or of the same one, in order |
| Lists.Size | src/enet/list.c:61-72 | the number of nodes besides the sentinel |
| Lists.InsertAndRemove | src/enet/list.c:20-41 | removing a node just inserted gives every link of the list its old value |
| Lists.TiedIsRing | src/enet/list.c:25-29 | a chain tied in between two neighbours gives one ring |
| Lists.BridgedIsRing | src/enet/list.c:37-38 | bridging over a chain leaves a ring without it |
| Crc.Checksum.Crc32Of | src/enet/packet.c:142-163 | the table-driven loop over any list of buffers computes the bit-by-bit CRC-32 of their concatenation |
| Crc.Checksum.InitializeCrc32 | src/enet/packet.c:118-140 | every entry is eight bit steps of its index |
| Crc.ReflectCrc | src/enet/packet.c:104-116 | for 8 and 32 bits, the bits in reverse order |
| Crc.TableEntry | src/enet/packet.c:123-136 | the unreflected steps on the reflected byte, reflected back, are the reflected steps |
| Crc.StepsReflect | src/enet/packet.c:128-134 | a left step of the reflection is the reflection of a right step |
| Crc.StepsAreLinear | src/enet/packet.c:157-157 | bit steps distribute over exclusive or |
| Crc.LooksUpByte | src/enet/packet.c:157-157 | eight bit steps are one shift and one look-up |
| Crc.WholeReversed | src/enet/packet.c:104-116 | the bit loop's result is the reversal of all bits, or of the lowest eight |
| Crc.CheckValue | src/enet/packet.c:142-163 | the checksum of the digits 1 to 9 is the check value 0xCBF43926 |
| Crc.PolynomialTerms | src/enet/packet.c:131-131 | the polynomial term by term |
| MultipartBody.Parser.ParseChunks | src/httplib/httplib.h:4340-4372 | from the moment the body is entered, whatever is in the buffer and for every cutting of the rest, the content handed on is that of the whole: all before the first delimiter, or all but what may belong to one; what follows the delimiter is still unread |
| MultipartBody.Parser.Scan | src/httplib/httplib.h:4340-4372 | one look at the buffer hands on what cannot belong to a delimiter, and past one leaves content, delimiter and unread bytes that together are all that was read |
| MultipartBody.DeliveredIsUnique | src/httplib/httplib.h:4340-4372 | that content and whether it is complete depend on the bytes alone |
| MultipartBody.Parser.ParseBody | src/httplib/httplib.h:4340-4372 | one more chunk keeps it so; a refusal by the callback leaves the bytes unread |
| MultipartBody.Parser.Find | src/httplib/httplib.h:4469-4505 | the first full occurrence of the delimiter, or the size |
| MultipartBody.Parser.Append | src/httplib/httplib.h:4507-4530 | the unread bytes, moved to the front in place, followed by the new ones |
| MultipartBody.FoundInView | src/httplib/httplib.h:4346-4356 | an occurrence in the unread bytes is the first in all that has arrived |
| MultipartBody.NotInView | src/httplib/httplib.h:4357-4371 | holding back the length of the delimiter is enough |
| MultipartBody.FoundStays | src/httplib/httplib.h:4346-4356 | bytes that arrive after the delimiter do not matter |
| Base64.EncodeBlocks | src/string_codec/string_codec.cpp:260-304 | whole blocks, with the padding written over their end, give the encoding of RFC 4648 |
| Base64.EncodeBits | src/httplib/httplib.h:1877-1909 | the bit accumulator, its value a 32-bit int that overflows, gives the same encoding |
| Base64.EncodersAgree | src/string_codec/string_codec.cpp:260-304 | the two encoders give the same string for every input |
| Base64.Decode | src/string_codec/string_codec.cpp:332-399 | which texts are taken, and what is put out for them; nothing for the others |
| Base64.DecodesEncoded | src/string_codec/string_codec.cpp:332-399 | every encoded text is taken and decodes to the input |
| Base64.EncodesDecoded | src/string_codec/string_codec.cpp:332-399 | a text that is taken is the encoding of what it decodes to if and only if it has no foreign symbol and no stray bits |
| Base64.PaddingIsWrittenOver | src/string_codec/string_codec.cpp:291-301 | overwriting the last symbols of the zero-filled blocks gives the padded encoding |
| Base64.TakesByte | src/httplib/httplib.h:1887-1896 | what one byte lets out of the accumulator completes a group or its known beginning |
| Base64.TripleOfQuad | src/string_codec/string_codec.cpp:384-394 | the three bytes of a block are those of its group |
| Base64.QuadOfTriple | src/string_codec/string_codec.cpp:384-394 | and the other way round exactly for symbols of the alphabet |
| Base64.TableIsIndexed | src/string_codec/string_codec.cpp:215-257 | the index of a symbol is its place in the table |
| Base64.TestVectors | src/string_codec/string_codec.cpp:260-304 | the test vectors f, fo and foo of section 10 of RFC 4648 |

## Left out

- Sockets, clocks, name resolution and allocation failure; time and received bytes are parameters.
- RangeCoder.RangeCoder.Decompress: once a READ in the root context gives a code beyond the interval, which no output of the compressor does, the model stops with `beyond`, where the code goes on with wrapped arithmetic.
- RangeCoder.RangeCoder.Compress: needs non-empty buffers, because the fetch (`src/enet/compress.c:275-284`) reads a byte of each new buffer without checking; a null coder and the code under ENET_CONTEXT_EXCLUSION, which the file undefines, are not modelled.
- RangeCoder.CompressAndDecompress: takes the compressed bytes as a value, so input and output buffers that overlap are not captured.
- The division of the range inside READ is part of the narrowing in RangeLoops.RangeDecode.
- ENetPeer is split into a sending and a receiving half, whose fields are disjoint; the queues of these two are sequences indexed by position, not linked nodes (`Lists` has the nodes), so aliasing between lists is not captured there. `serial`, `issued`, `launched` and `turned` are history that no code reads.
- Packets' reference counts, flags and free callbacks, the statistics of sent, lost and received data, round-trip estimation and the adaptation of packetThrottle; a command's round-trip values are parameters.
- Delivery.StepKeepsInv: commands of a datagram arrive one at a time, from a receiver in CONNECTED; a datagram that is malformed, compressed or fails its checksum never arrives.
- ReliableChannel.DeliveredIsPrefix: assumes that none of the queueing steps and stale arrivals described above happens.
- SenderRuns.FlightIsBounded: assumes that none of those queueing steps happens on the channel, without which numbers in flight may be seven windows apart or more; SenderRuns.CountersAreExact and SenderRuns.TransitIsExact assume nothing of the kind.
- Completion.AllCanBeDelivered: for packets of at most 12288 commands; ReliableChannel.LongPacketStalls says that those of 32768 and more never arrive, and of the ones between nothing is said. The continuation acknowledges what is in flight on the other channels, which the runs allow at any time.
- GivingUp.OverdueIff: for times less than a day apart, beyond which the 32-bit clock cannot tell their order; GivingUp.TimeoutDoubles as long as the timeout fits 32 bits.
- CountedModel.OneByteAnswer: of longer inputs the bytes are told by CountedModel.CompressedByCounting through the narrowing and renormalising of the interval.
- SendingPeer.SendingPeer.SendOrDropAt: a command without a packet in the dropped run is dropped silently, where the code follows a null pointer; ThrottleDrop.SparedDropsHavePackets says when there is none.
- The fragment bit array of `src/enet/protocol.c:614-618` is a sequence of booleans, and the buffer of a new packet is zero-filled.
- reliableWindows and sendAttempts are unbounded naturals; FlightWindow.CountFits shows the former fit where the flight bound holds.
- totalWaitingData is only the limit on what is accepted: dropped commands are not subtracted from it, so it is not the number of bytes queued.
- UnreliableQueue.FillUnreliable: of the handler of unreliable fragments (`src/enet/protocol.c:634-750`) only the counting down and the dispatch that completion causes, not the checks before and the copying.
- UnreliableQueue.ArrivalKeepsOrder: sequenced unreliable commands carry an unreliable number of at least 1, as enet_peer_setup_outgoing_command gives them.
- SendProgress.Host.SendOutgoingCommands: for peers with positive timeouts, each taking its turn as a value, by the function whose parts SendingPeer does in place; the disconnection of drained DISCONNECT_LATER peers (`src/enet/protocol.c:1558-1562`), header flags, compression and packet-loss bookkeeping are not in it.
- Unsequenced.Receiver.HandleSendUnsequenced: the state, channel and length checks before it, which change nothing, are not in it.
- Bandwidth.Host.BandwidthThrottle: over unbounded integers, so the overflow of 32-bit products is not captured; no peer is already stamped with the current time, which after at least a second can only be a stamp of 0 at time 0 or one 2^32 milliseconds old.
- HostCounters.Host.ProtocolHandleConnect: the search for duplicate peers is the parameter `refused`.
- The dispatch queue and its NEEDS_DISPATCH flag, eventData and recalculateBandwidthLimits are not part of HostCounters.
- Crc.Checksum.Crc32Of: up to the final conversion to network byte order; the table is filled by the constructor instead of at first use.
- MultipartBody.Parser.ParseBody: only the body state; the header states and the boundary states before and after it depend on the cutting.
- Base64.EncodeBlocks: null pointers are not modelled, nor the overloads for other containers.
- enet_peer_throttle, session identifiers, window-size negotiation, the hex codec, byte swapping and option setters: straight-line code without invariants.
- asio, websocketpp, OpenSSL, regex and JSON wrappers and the rest of httplib: plumbing over libraries that are not part of this repository.
