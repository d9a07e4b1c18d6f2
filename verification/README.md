# Sponge TCP, modelled and proved in Dafny

A user-space TCP: a byte stream, a reassembler, 32-bit sequence numbers, a
retransmitting sender, a receiver, the connection that joins them, and the wire
format below. The project models that code and proves what it is for: whatever
the network loses, repeats or reorders, each side assembles a prefix of what the
other wrote, what an application reads is the beginning of what the other wrote,
and a connection that closes without error has delivered both streams completely. Nor is delivery ever out of reach: from every state two
endpoints reach without error some way to go on delivers everything, and every
fair one does. Clean close can be lost, and when it is, is said exactly.

`dafny verify dfyconfig.toml` checks the whole project (Dafny 4.11).

## How it is built

Each stateful part of the source is a class here (`ByteStream`,
`StreamReassembler`, `TCPReceiver`, `RetransmissionTimer`, `TCPSender`,
`TCPConnection`, `InternetChecksum`, `NetParser`, `TCPOverIPv4Adapter`). Its
methods are proved equal, call by call, to functions on plain values (`Stream`,
`Store`, `Receiver`, `Timer`, `Sender`, `Connection`, `Parser`, `Adapter`). The
reassembler is the exception in kind: its sorted set of pieces is proved to
refine a different and much simpler object, a map from index to byte. The laws of
the protocol are then proved about those values, over every run; `Simulation`
drives two `TCPConnection` objects through any run and brings the laws back to them.

| layer | modules |
|---|---|
| numbers | `Words`, `WrappingIntegers` |
| streams and reassembly | `ByteStreams`, `Stores` (the map), `Pieces` (the sorted set), `Reassembly` (the refinement) |
| receiver | `Segments`, `Receivers` |
| sender | `Timers`, `Senders`, `TcpSenders`; proofs in `Segmentation`, `SenderProofs`, `SenderRuns`, `SenderTheorems`, `TcpStates` |
| one direction over a bad network | `Links`, `LinkRuns`, `Overtaking` |
| connection | `Connections`, `TcpConnections`; proofs in `ConnectionProofs`, `ConnectionTheorems`, `Replies` (what is sent in answer), `Lingering` (the end) |
| two connections over a bad network | `Sides`, `Pairs` (safety), `Upkeep`, `Progress`, `Fairness` (delivery), `Closing`, `CloseTheorems`, `Wearing` (clean close), `PairFlow` (flow control), `Conversations` (what the applications write and read), `Simulation` (the objects) |
| wire | `Checksums`, `Parsing`, `TcpWire`, `Ipv4Wire`, `TcpOverIp`, `WireLayout` (what is sent, byte by byte), `WireVerdicts` (what is accepted) |

Runs are lists of events: application calls, clock ticks, and deliveries. The
network keeps everything ever sent and may deliver any of it at any time, so loss,
repetition and reordering are all covered. Theorems about one endpoint hold for
every stream whose 64-bit counters do not overflow (`Countable`, 2^63). Theorems
about two endpoints assume that the stream, SYN and FIN stay below 2^31 sequence
numbers (`Short`), which is what makes a 32-bit number unambiguous between them
(section 3.3 of RFC 793). Machine widths that matter
are written out: 32-bit raw numbers, the 64-bit results of `unwrap`, of the stream
index and of the remaining window, 16-bit lengths and windows, the 32-bit
checksum accumulator.

## What the code does that one might not expect

* `unwrap` returns the value nearest its checkpoint exactly when checkpoint plus
  offset stays below 2^64 (`UnwrapNearestIff`).
* Acknowledged segments are popped by comparing raw 32-bit numbers. Nothing
  unacknowledged is ever dropped, but the pops are exact only if the head and the
  acknowledgment lie in the same turn of the 32-bit circle (`PopExactIff`), and the
  head never leaves the first turn. So in every run the queue is empty if and only
  if nothing is in flight and the last acknowledgment has not wrapped
  (`QueueTheorem`); with the largest initial sequence number the acknowledged SYN
  stays queued and is sent again (`WrapStalls`). An idle connection past that point
  resets itself after nine timeouts, and before it does not (`IdleResetsIff`,
  `IdleResetsItself`).
* The same counting can cost a clean close. An endpoint past the wrap that lingers
  with everything acknowledged goes on counting timeouts, and late duplicates keep
  starting its linger time again. At eight timeouts it can close only if its timer
  outlasts the linger time or it hears of a closed window, which stops the
  counting. `CanCloseIff` says exactly, for every state reached without error, when
  both endpoints can still close cleanly; `CloseCanBeLost` is a run from fresh
  endpoints after which they cannot.
* The remaining window is unsigned. Filling keeps the sender within the window
  exactly when it was within it before (`FillWithinWindowIff`), and an
  acknowledgment does exactly when what it leaves in flight fits
  (`AckWithinWindowIff`); one that repeats the last number with a smaller window
  makes the sender send everything it has (`StaleWindowFloods`). A run where an
  older acknowledgment overtakes a newer one ends with three numbers in flight
  against a window of one (`OvertakingFloods`). With acknowledgments in order the
  bound always holds (`FlowControl`, `PairFlowControl`).
* The right-hand trim of a substring is computed from its original index, so a
  piece cut at the front can reach past the window; only the byte stream's own
  truncation removes the excess. `HandleSubstring` therefore speaks of the indices
  below the window's end, and `PushSubstring` is exact again.
* A header and payload of up to 65535 bytes can be sent, twenty more than the
  IPv4 length field can express: the field wraps on both sides, and the datagram
  parser does not look at the header parser's result (`SendableIff`,
  `DatagramRoundTripIff`).
* For the same reason no datagram is refused for its header checksum: whether one
  is accepted depends on its lengths and version alone (`DatagramAcceptedIff`), and
  its two checksum bytes can be anything (`HeaderChecksumIgnored`). The TCP checksum
  is enforced (`SegmentAcceptedIff`), but a data offset below 5 is not an error: the
  payload then starts after the fixed header.
* A data offset of 16 or more is serialized with its upper bits cut off. Such a
  segment is parsed without error and handed up, but is not the one sent
  (`SegmentRoundTripIff`, `ConnectedCarriesIff`).
* The checksum's 32-bit accumulator may wrap without harm to the round trip:
  2^32 - 1 is a multiple of 65535 (`ChecksOut`, `SegmentRoundTrip`).

## Model

| member | source | states |
|---|---|---|
| `Pairs.PairTheorem` | libsponge/tcp_connection.cc:26-185 | every run of two connections over a network that loses, repeats and reorders: each side's assembled bytes are a prefix of what the other wrote; last acknowledgment, peer's acknowledgment number and next number stay in order; input ends only after complete assembly; an acknowledged FIN means complete delivery; closed without error means both streams delivered completely |
| `Conversations.ConversationTheorem` | libsponge/tcp_connection.cc:26-185 | the same in the words of the applications, over every run: what one has read so far, what its endpoint has assembled and what the other wrote (the accepted beginnings of its writes, in their order) begin alike; a reader meets the end only after the writer set it and it has read everything; closed without error means both have all that was written |
| `Conversations.AnyConversation` | libsponge/tcp_connection.cc:26-177 | for any two byte strings, initial numbers and buffers of at least a byte there is a run from the start in which one application writes exactly the one and the other reads exactly it, likewise the other way, and both connections close cleanly |
| `Conversations.RunWrites` | libsponge/tcp_connection.cc:70-80 | over every run the outgoing stream is the concatenation, in the order of the calls, of what was accepted of each write: as many of its first bytes as there was room for, while active and not ended |
| `Conversations.RunEnds` | libsponge/tcp_connection.cc:106-110 | it is ended if and only if the application ended it |
| `Conversations.RunReads` | libsponge/tcp_connection.cc:26-68 | over every run the bytes the application read, joined, are the assembled stream up to the read position; nothing but reading moves that |
| `Conversations.WriteGains` | libsponge/tcp_connection.cc:70-80 | a write while active and not ended appends the first min(length, free capacity) bytes of the data, else nothing |
| `Conversations.EachAlone` | libsponge/tcp_connection.cc:26-185 | in a pair each endpoint does exactly what it would do alone with the calls made at it |
| `Pairs.DeliveryIsLegal` | libsponge/tcp_connection.cc:26-68 | in every such run each delivery meets what the receiver and reassembler objects ask of their caller |
| `Pairs.PairRunInv` | libsponge/tcp_connection.cc:26-185 | the invariant of the pair holds after every run |
| `Simulation.Simulate` | libsponge/tcp_connection.hh:11-27 | two fresh connection objects driven through any possible run end as the run of the values does; the bytes that came out of each are the beginning of what was written into the other, all of them at end of file; closed without error means both have everything |
| `Simulation.Drive` | libsponge/tcp_connection.cc:26-185 | call after call the two objects follow the run of the values, and their reads return its bytes |
| `Progress.CanAlwaysDeliver` | libsponge/tcp_connection.cc:26-135 | from every reachable state without error, whatever was lost so far, some way to go on ends with each side having assembled exactly what the other wrote, and its end if there is one |
| `Fairness.FairDelivers` | libsponge/tcp_connection.cc:26-135 | from every reachable state without error, once connected and nothing more written: any run of fair rounds (the peer reads, what was outstanding arrives after that, what had arrived is acknowledged), whatever else happens in it, has delivered the stream and its end after at most two rounds per sequence number |
| `Fairness.RoundAdvances` | libsponge/tcp_connection.cc:26-135 | each fair round that does not end in error moves the peer's number or the next number forward, unless all has arrived |
| `Fairness.FairRoundExists` | libsponge/tcp_connection.cc:26-135 | there is always a fair round |
| `CloseTheorems.CanCloseIff` | libsponge/tcp_connection.cc:84-177 | for every reachable state without error and receive buffers of at least a byte: both endpoints can still close cleanly if and only if each is safe or its peer can announce a closed window, or each is safe or has time to wait out its linger time |
| `CloseTheorems.SafeWhen` | libsponge/tcp_connection.cc:84-103 | an endpoint not past the wrap of the raw numbers, or below eight timeouts, or not acknowledged to the end, is safe |
| `CloseTheorems.ClosableBefore` | libsponge/tcp_connection.cc:26-185 | no call on either endpoint makes a clean close possible that was not |
| `Closing.CloseA` | libsponge/tcp_connection.cc:84-177 | a finished endpoint that is safe can be closed without error, its peer untouched |
| `Wearing.CloseCanBeLost` | libsponge/tcp_connection.cc:84-177 | a run from two fresh endpoints that ends with both streams ended and nobody in error, after which no way to go on closes both cleanly |
| `Wearing.WearDown` | libsponge/tcp_connection.cc:84-103 | any finished endpoint that lingers past the wrap and never hears of a closed window can be brought there by late duplicates |
| `CloseTheorems.CanAlwaysClose` | libsponge/tcp_connection.cc:84-177 | in exactly those states, some way to go on delivers what both applications wrote and closes both connections without error |
| `CloseTheorems.AnyExchange` | libsponge/tcp_connection.cc:26-177 | any two byte strings can be exchanged and both connections closed cleanly, from the start, for any initial numbers and any buffers of at least a byte |
| `Progress.PushOn` | libsponge/tcp_receiver.cc:15-37 | while something sent is missing, reading and delivering one segment moves the acknowledgment forward |
| `Progress.PullOn` | libsponge/tcp_sender.cc:89-125 | while something is left to send and all sent has arrived, one call moves the next number forward |
| `Progress.WantedArrives` | libsponge/stream_reassembler.cc:53-123 | a receiver with room that gets the segment covering the number it wants gets on, SYN and FIN included |
| `Upkeep.KeenStep` | libsponge/tcp_connection.cc:26-135 | every call that does not end in error leaves all that is outstanding on the wire and no open window unused |
| `Upkeep.AckOutStep` | libsponge/tcp_connection.cc:26-68 | every call that does not end in error leaves the latest acknowledgment on the wire |
| `Upkeep.WindowStep` | libsponge/tcp_connection.cc:26-135 | the window an endpoint believes in is one it was told |
| `Upkeep.SentCarries` | libsponge/tcp_connection.cc:118-158 | every acknowledgment an endpoint sends, in a reset too, carries the number and capped window its receiver has after the call |
| `Upkeep.PairRunKeen` | libsponge/tcp_connection.cc:26-185 | in every run of a pair all that is outstanding and the latest acknowledgment are on the wire, no open window is unused, and a window believed closed was announced so |
| `Sides.SideStep` | libsponge/tcp_connection.cc:26-185 | any call on one endpoint keeps both directions consistent with the peer, and all it puts on the wire is a slice of its stream with an acknowledgment it may give |
| `LinkRuns.EndToEnd` | libsponge/tcp_sender.cc:29-162 | the same safety for one sender and one receiver, with acknowledgments delivered in any order |
| `LinkRuns.FlowControl` | libsponge/tcp_sender.cc:48-84 | with acknowledgments that do not overtake one another, in every reachable state at most the advertised window, or one, is in flight |
| `PairFlow.PairFlowControl` | libsponge/tcp_connection.cc:26-135 | two connections, each side's segments lost and repeated but not overtaking one another: in every reachable state each side has at most the window it was last told, or one, in flight |
| `PairFlow.OrderedIsRun` | libsponge/tcp_connection.cc:26-135 | every such run is a run of the pair |
| `LinkRuns.FlowStep` | libsponge/tcp_receiver.cc:43-66 | one step keeps: acknowledgments given never go back in number or right edge, the sender's view is the one delivered last, and it keeps to that window |
| `Links.LinkedMeaning` | libsponge/tcp_receiver.cc:43-57 | what the link invariant says: prefix, order of the three numbers, end of input, meaning of an acknowledged FIN |
| `Links.EmittedFits` | libsponge/tcp_receiver.cc:15-37 | any segment the sender ever emitted unwraps at this receiver to its true place, and is a slice of the stream there |
| `Links.SegmentArrives` | libsponge/tcp_receiver.cc:15-37 | delivering any segment ever emitted keeps the link invariant and moves number and right edge forward |
| `Links.AckArrives` | libsponge/tcp_sender.cc:89-125 | delivering any acknowledgment ever given keeps the invariant and sets the last number to the larger one |
| `Links.AckRead` | libsponge/tcp_sender.cc:89-96 | such an acknowledgment unwraps to its true absolute number, never beyond the next one |
| `Links.AckGiven` | libsponge/tcp_receiver.cc:43-57 | the number the receiver gives is its absolute number wrapped, and is legal for the sender |
| `WrappingIntegers.UnwrapNearestIff` | libsponge/wrapping_integers.cc:49-57 | the result is the nearest to the checkpoint of all 64-bit values that wrap to n, ties upward, if and only if checkpoint plus offset is below 2^64 |
| `WrappingIntegers.UnwrapNearest` | libsponge/wrapping_integers.cc:49-57 | in particular whenever the checkpoint is at least 2^32 below the top |
| `WrappingIntegers.UnwrapWrapsBack` | libsponge/wrapping_integers.cc:22-57 | wrapping the result gives n back, always |
| `WrappingIntegers.UnwrapOfWrapIff` | libsponge/wrapping_integers.cc:22-57 | at any checkpoint, unwrap undoes wrap if and only if the value is at most 2^31 above the checkpoint, or less than 2^31 below it and below 2^64 - 2^32, or above it and below 2^32 where no lower candidate exists, or one of the smallest numbers that the 64-bit overflow brings back |
| `WrappingIntegers.WrapInjective` | libsponge/wrapping_integers.cc:22-26 | two numbers wrap alike exactly when they agree modulo 2^32 |
| `ByteStreams.FirstInFirstOut` | libsponge/byte_stream.cc:45-116 | over any calls, the bytes read plus the bytes still buffered are exactly those buffered at the start plus what was accepted of each write, in order; the stream gains just that; the capacity and an ended stream do not change |
| `ByteStreams.ByteStream.constructor` | libsponge/byte_stream.cc:31-40 | an empty, open stream |
| `ByteStreams.ByteStream.Write` | libsponge/byte_stream.cc:45-63 | the new state is the old with the accepted prefix appended; returns its length |
| `ByteStreams.ByteStream.PeekOutput` | libsponge/byte_stream.cc:69-76 | the next bytes of the history, at most those buffered |
| `ByteStreams.ByteStream.PopOutput` | libsponge/byte_stream.cc:83-94 | moves the read position by what is buffered at most |
| `ByteStreams.ByteStream.Read` | libsponge/byte_stream.cc:104-116 | peek and pop in one |
| `ByteStreams.ByteStream.EndInput` | libsponge/byte_stream.cc:125-128 | the stream is ended, all else as before |
| `ByteStreams.ByteStream.AtEof` | libsponge/byte_stream.cc:153-157 | input ended and history read to its end |
| `ByteStreams.ByteStream.RemainingCapacity` | libsponge/byte_stream.cc:175-179 | capacity less the bytes buffered |
| `Reassembly.StreamReassembler.PushSubstring` | libsponge/stream_reassembler.cc:53-81 | the sorted set of pieces refines the map: a push keeps the bytes inside the window, adds them to the map, moves the longest contiguous run to the output, and ends the input when the end is reached |
| `Reassembly.StreamReassembler.MemoryLimit` | libsponge/stream_reassembler.cc:34-46 | the counter is the number of bytes held, and with the unread bytes never exceeds the capacity |
| `Reassembly.StreamReassembler.constructor` | libsponge/stream_reassembler.cc:21-30 | the empty map over an empty stream |
| `Reassembly.StreamReassembler.HandleSubstring` | libsponge/stream_reassembler.cc:84-123 | below the window's end, exactly the indices of the substring not yet assembled are added; pieces stay tidy and truthful although the last may overrun |
| `Reassembly.StreamReassembler.HandleOverlap` | libsponge/stream_reassembler.cc:128-163 | one loop against the new piece's original bounds leaves disjoint sorted pieces covering exactly the union |
| `Reassembly.StreamReassembler.StoreAndDrain` | libsponge/stream_reassembler.cc:61-73 | storing and then writing out the pieces at the front is the map's union followed by its longest run |
| `Reassembly.StreamReassembler.Drain` | libsponge/stream_reassembler.cc:67-73 | pieces are written out while they start at the first unassembled index, across the stream's own truncation |
| `Reassembly.StreamReassembler.Finish` | libsponge/stream_reassembler.cc:75-81 | input ends exactly when the end index has been assembled |
| `Reassembly.StreamReassembler.BufErase` | libsponge/stream_reassembler.cc:34-38 | one piece leaves, the counter follows |
| `Reassembly.StreamReassembler.BufInsert` | libsponge/stream_reassembler.cc:42-46 | set insertion, counter raised; a piece with a key already present is not inserted |
| `Reassembly.StreamReassembler.ReadOutput` | libsponge/stream_reassembler.hh:128-134 | reading the output moves the window and keeps the representation |
| `Pieces.InsertKeeps` | libsponge/stream_reassembler.cc:42-46 | inserting a piece disjoint from all others never collides on a key, keeps order and disjointness, and adds exactly its indices and length |
| `Pieces.TrimmedMeaning` | libsponge/stream_reassembler.cc:84-123 | the two trims keep, below the window's end, exactly the indices from the first unassembled on |
| `Pieces.MergeIsHull` | libsponge/stream_reassembler.cc:167-198 | merging two pieces that meet gives the piece spanning both, truthful to the stream |
| `Pieces.GrowMerge` | libsponge/stream_reassembler.cc:131-162 | comparing with the original bounds suffices because stored pieces are disjoint: one merge keeps the loop's invariant |
| `Pieces.HeldCount` | libsponge/stream_reassembler.cc:202-206 | the piece lengths add up to the number of indices held |
| `Stores.PushFaithful` | libsponge/stream_reassembler.cc:53-81 | a push of a slice keeps the map true to the stream and adds exactly the indices of the slice below the window's end to those known |
| `Stores.OrderIndependent` | libsponge/stream_reassembler.cc:53-198 | two sequences of slices covering the same indices, in any order with any overlap and repetition, give the same output, the same held bytes and the same end flag |
| `Stores.EverythingArrives` | libsponge/stream_reassembler.cc:53-198 | slices covering the whole stream and its end leave exactly the stream assembled, nothing held, input ended |
| `Stores.DoAllFaithful` | libsponge/stream_reassembler.cc:53-198 | after any pushes the indices known are exactly those covered, and the end is known exactly if it was seen |
| `Stores.KnownDetermines` | libsponge/stream_reassembler.cc:53-198 | what is known determines output, held bytes and end flag |
| `Stores.ReadFaithful` | libsponge/stream_reassembler.hh:128-134 | reading loses nothing that is known |
| `Receivers.ReceiverRunForward` | libsponge/tcp_receiver.cc:15-66 | over every run of arrivals and reads the absolute acknowledgment and the advertised right edge never go back, and the output only grows; beyond slices of one stream this speaks of the index-to-byte map, which the object refines for slices |
| `Receivers.ReceiverRunFaithful` | libsponge/tcp_receiver.cc:15-66 | when the segments fall on one stream, the output is always a prefix of it |
| `Receivers.SegmentTakes` | libsponge/tcp_receiver.cc:15-37 | an arriving segment in full: the first SYN fixes the numbering and nothing counts before it; after that exactly the bytes below the window's edge become known, at the place the number unwraps to, payload on the SYN at the start, and the end with FIN; the next number wanted is the first byte not known |
| `Receivers.SegmentFaithful` | libsponge/tcp_receiver.cc:15-37 | an arriving segment keeps the store true and forgets neither SYN, number nor end |
| `Receivers.TCPReceiver.constructor` | libsponge/tcp_receiver.hh:47 | a receiver that has heard nothing |
| `Receivers.TCPReceiver.SegmentReceived` | libsponge/tcp_receiver.cc:15-37 | the new state is the specified one, with the 64-bit wrap-around of the index |
| `Receivers.TCPReceiver.AckNumber` | libsponge/tcp_receiver.cc:43-57 | no number before SYN; after it, the absolute number wrapped |
| `Receivers.TCPReceiver.Window` | libsponge/tcp_receiver.cc:62-66 | the room in the output stream, never negative |
| `Timers.CountdownIsElapsed` | libsponge/tcp_sender.hh:14-61 | after any ticks the countdown has expired exactly if some prefix of them sums to the timeout or more, else what remains is the timeout less their sum |
| `Timers.RetransmissionTimer.Start` | libsponge/tcp_sender.hh:16-20 | running with the full timeout, not expired |
| `Timers.RetransmissionTimer.Stop` | libsponge/tcp_sender.hh:22-26 | stopped |
| `Timers.RetransmissionTimer.Tick` | libsponge/tcp_sender.hh:30-46 | counts down, expires at zero, only while running |
| `SenderTheorems.SegmentationTheorem` | libsponge/tcp_sender.cc:29-162 | in every run the first transmissions tile the numbers used; their payloads joined are the bytes taken from the stream; SYN and FIN are first sent at most once, FIN only after the ended stream was taken whole; all that is emitted is a slice at its own number |
| `SenderTheorems.StepLays` | libsponge/tcp_sender.cc:29-85 | what one call sends first starts where the last ended, and is exactly what the call appends to the outgoing queue |
| `SenderTheorems.QueueTheorem` | libsponge/tcp_sender.cc:89-125 | in every run, for any initial number, the queue tiles a stretch ending at the next number and starting at or before the last acknowledgment and before the raw wrap; the timer runs exactly while it is non-empty, is never left expired and has at most the timeout to go; the queue is empty if and only if nothing is in flight and isn plus the last acknowledgment is below 2^32; below it the head is never fully acknowledged |
| `SenderTheorems.QueueEmptyIff` | libsponge/tcp_sender.cc:103-122 | the same equivalence for any sender that has kept its invariant |
| `SenderTheorems.QueueStuck` | libsponge/tcp_sender.cc:103-110 | once acknowledgments pass the wrap by a segment, the head stays queued although fully acknowledged |
| `SenderTheorems.WrapStalls` | libsponge/tcp_sender.cc:103-110 | the input that shows the condition is needed: initial number 2^32 - 1 |
| `SenderTheorems.AckWithinWindowIff` | libsponge/tcp_sender.cc:89-125 | after an accepted acknowledgment the sender is within the window if and only if what it leaves in flight fits the window it announces |
| `SenderTheorems.StaleWindowFloods` | libsponge/tcp_sender.cc:48-84 | an acknowledgment that repeats the last number with less than is in flight makes the sender send all it has |
| `Overtaking.OvertakingFloods` | libsponge/tcp_sender.cc:48-84 | a run from a fresh sender and receiver in which an older acknowledgment overtakes a newer one and three numbers are in flight against a window of one |
| `SenderTheorems.RetransmissionRule` | libsponge/tcp_sender.cc:129-146 | over any calls with no acknowledgment of new data the oldest segment is first sent again at exactly the tick that brings the elapsed time to the timeout, which then doubles unless the window is zero (section 5 of RFC 6298) |
| `SenderTheorems.AckEffect` | libsponge/tcp_sender.cc:89-125 | what an acknowledgment does to last number, window, count, timeout and timer: nothing beyond the next number; new data clears the count, takes the timeout back to the initial one and starts the timer over in full, or stops it when nothing is left (rules 5.2 and 5.3 of section 5 of RFC 6298); any other leaves count, timeout and a running timer alone |
| `SenderTheorems.ResendTheorem` | libsponge/tcp_sender.cc:89-146 | over any calls since the one that last started the timer (new data acknowledged, first transmission, resend) the oldest segment is sent again at exactly the tick that brings the time since then to the timeout in force |
| `SenderProofs.FillTarget` | libsponge/tcp_sender.cc:29-85 | where filling stops, in closed form: the window's edge or the end of what there is to send, FIN included |
| `SenderProofs.FillLoopGreedy` | libsponge/tcp_sender.cc:48-84 | every data segment but the last that one fill sends is full, and none but the first is without payload: FIN rides on the last data whenever the window has a number for it |
| `SenderProofs.FillWithinWindowIff` | libsponge/tcp_sender.cc:48-84 | after filling the sender is within max(1, window) if and only if it was before |
| `SenderProofs.PopKeepsUnacked` | libsponge/tcp_sender.cc:103-110 | popping drops only fully acknowledged segments, for any numbers at all |
| `SenderProofs.PopStaysLow` | libsponge/tcp_sender.cc:103-110 | popping never takes the head past the wrap of the raw numbers |
| `SenderProofs.PopExactIff` | libsponge/tcp_sender.cc:103-110 | at any distance, it drops all of them if and only if head and acknowledgment are in the same turn, or the head is not fully acknowledged |
| `SenderProofs.RawComparison` | libsponge/tcp_sender.cc:105 | what the raw comparison decides |
| `Segmentation.FillExtends` | libsponge/tcp_sender.cc:29-85 | filling appends, to both queues alike, segments that continue the tiling and carry the stream's own slices; no stale payload or flag |
| `Segmentation.LaidMeaning` | libsponge/tcp_sender.cc:29-85 | SYN at 0, byte i at i+1, FIN at length+1: the payloads of a tiling are the stream's slice, with one SYN and one FIN at most |
| `SenderRuns.SenderRunOk` | libsponge/tcp_sender.cc:29-170 | the sender's invariant holds after every run, and nothing it has done is undone |
| `TcpSenders.TCPSender.constructor` | libsponge/tcp_sender.cc:18-21 | the fresh sender, the initial number given |
| `TcpSenders.TCPSender.BytesInFlight` | libsponge/tcp_sender.cc:25 | next number less last acknowledgment |
| `TcpSenders.TCPSender.FillWindow` | libsponge/tcp_sender.cc:29-85 | SYN, data and FIN as specified; the loop terminates and leaves the reused segment variable harmless |
| `TcpSenders.TCPSender.FillLoop` | libsponge/tcp_sender.cc:48-84 | the loop computes the specified recursion |
| `TcpSenders.TCPSender.AckReceived` | libsponge/tcp_sender.cc:89-125 | the specified new state, of which `AckEffect`, `PopExactIff` and `FillTarget` say what it is: numbers beyond the next one ignored; else acknowledged segments popped, timer started over or stopped, window taken, window filled |
| `TcpSenders.TCPSender.PopOutstanding` | libsponge/tcp_sender.cc:103-110 | the loop pops the specified prefix |
| `TcpSenders.TCPSender.Tick` | libsponge/tcp_sender.cc:129-146 | on expiry sends the head again, doubles the 32-bit timeout and counts unless the window is zero, restarts the timer |
| `TcpSenders.TCPSender.SendSegment` | libsponge/tcp_sender.cc:152-162 | numbers, queues and tracks the segment, starts the timer |
| `TcpSenders.TCPSender.SendEmptySegment` | libsponge/tcp_sender.cc:166-170 | a bare segment with the next number, not tracked |
| `TcpStates.FinAckedIff` | libsponge/tcp_helpers/tcp_state.cc:94-110 | for a sender that has kept its invariant the summary is FIN_ACKED exactly when the last acknowledgment covers SYN, the whole ended stream and FIN |
| `TcpStates.SenderSummaryIff` | libsponge/tcp_helpers/tcp_state.cc:94-110 | CLOSED, SYN_SENT, SYN_ACKED and FIN_SENT by the numbers: nothing sent; nothing acknowledged; SYN acknowledged and FIN not sent; all sent and not all acknowledged |
| `TcpStates.ReceiverSummaryIff` | libsponge/tcp_helpers/tcp_state.cc:82-92 | LISTEN, SYN_RECV and FIN_RECV: no SYN yet; SYN and no end; SYN and the end |
| `TcpStates.SenderForward` | libsponge/tcp_helpers/tcp_state.cc:94-110 | the sender's summary never goes back |
| `TcpConnections.SenderSummaryOf` | libsponge/tcp_helpers/tcp_state.cc:94-110 | read off the object, the summary is that of its state |
| `TcpConnections.ReceiverSummaryOf` | libsponge/tcp_helpers/tcp_state.cc:82-92 | likewise for the receiver |
| `ConnectionTheorems.BackoffTheorem` | libsponge/tcp_connection.cc:84-103 | in every run the timeout is the initial one times 2 to the retransmission count, the count is at most 9 and 32 bits suffice; an active connection has at most 8 and an empty sender queue |
| `ConnectionTheorems.GiveUpTheorem` | libsponge/tcp_connection.cc:84-158 | the tick on which a ninth retransmission falls due queues exactly the oldest outstanding segment, stamped and with RST set, puts both streams in error and ends the connection |
| `ConnectionTheorems.LeftBehind` | libsponge/tcp_connection.cc:137-158 | what the window had room for is cut and numbered on that tick, up to the fill target, and stays in the sender's queue |
| `ConnectionTheorems.TickCounts` | libsponge/tcp_connection.cc:84-103 | the count passes 8 exactly on such a tick |
| `ConnectionTheorems.OtherTicks` | libsponge/tcp_connection.cc:84-103 | any other tick leaves both streams alone and queues at most the oldest segment, again |
| `ConnectionTheorems.NineTimeouts` | libsponge/tcp_connection.cc:84-103 | with something outstanding and the window open, ticks of any length as long as each lasts its timeout leave an unfinished connection active through the eighth timeout in a row, and the ninth resets it |
| `ConnectionTheorems.TimeoutsTheorem` | libsponge/tcp_connection.cc:84-103 | over any calls at all with no reset and no acknowledgment of new data the retransmission count is the number of timeouts with an open window; the connection is active exactly while that is at most eight, and reset by the ninth |
| `ConnectionTheorems.IdleResetsIff` | libsponge/tcp_connection.cc:84-103 | an idle connection with nothing in flight is reset by nine timeouts if and only if its last acknowledgment lies past the wrap of the raw numbers |
| `ConnectionTheorems.IdleResetsItself` | libsponge/tcp_connection.cc:84-103 | a connection with initial number 2^32 - 1 that has connected and had SYN acknowledged has nothing in flight and is reset by nine timeouts |
| `ConnectionTheorems.AckDuty` | libsponge/tcp_connection.cc:26-68 | a segment that occupies sequence space, is no reset and leaves a SYN known is answered by at least one segment; every one queued carries the current number and capped window; the sender's queue is left empty |
| `ConnectionTheorems.RunRanks` | libsponge/tcp_helpers/tcp_state.cc:82-110 | over every run both summaries only move forward, and an inactive connection stays so |
| `ConnectionTheorems.GoingInactive` | libsponge/tcp_connection.cc:26-185 | in every run a connection goes inactive in error if and only if the call brings a reset or is the tick on which it gives up, both streams then in error; and without error if and only if a segment or tick leaves FIN_ACKED and FIN_RECV and it does not linger or the ticks since the last segment sum to ten timeouts |
| `ConnectionTheorems.InactiveIff` | libsponge/tcp_connection.cc:26-185 | the same for one call at any connection that has kept its invariant |
| `ConnectionTheorems.ResetHeard` | libsponge/tcp_connection.cc:26-37 | an arriving reset makes an active connection inactive with both streams in error, sends nothing, sets the time since the last segment to zero and changes nothing else of either half |
| `ConnectionTheorems.InactiveIsSilent` | libsponge/tcp_connection.cc:26-87 | an inactive connection takes no segment, write or tick |
| `Lingering.LingerTheorem` | libsponge/tcp_connection.cc:161-168 | in every run the linger flag is dropped if and only if some segment or tick, taken while active and not ending in error, left the peer's stream ended while this side's own was not ended or not read to its end |
| `Lingering.FirstToFinishLingers` | libsponge/tcp_connection.cc:161-177 | an endpoint whose own stream was at its end when the peer's end arrived closes without error only after ticks since the last segment sum to ten timeouts |
| `Lingering.LastToFinishCloses` | libsponge/tcp_connection.cc:161-177 | one that has dropped the flag closes with the first segment or tick that leaves its FIN acknowledged |
| `Replies.ReplyTheorem` | libsponge/tcp_connection.cc:40-63 | what goes out in answer to a segment, apart from reset and opening: the data its acknowledgment released, tiling the numbers from where the sender stood to where it stands; then one bare segment at the next number if the segment occupied sequence space and no data went out, or if it occupied none and stood one before the number wanted; nothing else, and all stamped |
| `Replies.KeepAliveIff` | libsponge/tcp_connection.cc:57-61 | of the segments that occupy no sequence space exactly those one before the number wanted draw a bare answer, at the sender's next number and with the current acknowledgment and window |
| `Replies.CallSends` | libsponge/tcp_connection.cc:70-116 | connecting, writing and ending send new data only, tiling the numbers from where the sender stood to where it stands |
| `Replies.OpeningTheorem` | libsponge/tcp_connection.cc:39-47 | an endpoint that has sent nothing, told to connect or hearing a SYN, sends exactly one segment: its SYN at its initial number, with acknowledgment and window exactly when it has a SYN to acknowledge |
| `Replies.PassiveOpen` | libsponge/tcp_connection.cc:26-47 | a fresh endpoint answers a plain SYN by one SYN that acknowledges the number after it and offers the whole buffer, capped at 65535 |
| `ConnectionProofs.ConnRunOk` | libsponge/tcp_connection.cc:26-185 | the connection's invariant holds after every run |
| `TcpConnections.TCPConnection.constructor` | libsponge/tcp_connection.hh:11-27 | both halves fresh, active, lingering, and all its parts newly made |
| `TcpConnections.TCPConnection.SegmentReceived` | libsponge/tcp_connection.cc:26-68 | the specified new state, in the source's order of steps; `ResetHeard`, `ReplyTheorem`, `OpeningTheorem` and `InactiveIff` say what it is for every segment |
| `TcpConnections.TCPConnection.Write` | libsponge/tcp_connection.cc:70-80 | nothing when inactive or ended; else the outgoing stream gains the first min(length, free capacity) bytes of the data, and their number is returned; then fill and flush |
| `TcpConnections.TCPConnection.Tick` | libsponge/tcp_connection.cc:84-103 | time passes, then give up or flush, then the closing tests |
| `TcpConnections.TCPConnection.EndInputStream` | libsponge/tcp_connection.cc:106-110 | ends the stream, fills and flushes |
| `TcpConnections.TCPConnection.Connect` | libsponge/tcp_connection.cc:113-116 | fills and flushes |
| `TcpConnections.TCPConnection.SendSegment` | libsponge/tcp_connection.cc:118-135 | moves the sender's whole queue out, each stamped with the acknowledgment and capped window once SYN is known |
| `TcpConnections.TCPConnection.SendRstSegment` | libsponge/tcp_connection.cc:137-158 | fills, marks the first queued segment RST and sends it alone; with an empty queue sends none |
| `TcpConnections.TCPConnection.CleanShutdown` | libsponge/tcp_connection.cc:161-177 | drops the linger flag when the peer finished first, and goes inactive when both halves are done and lingering is over; `LingerTheorem` and `GoingInactive` say exactly when, over every run |
| `TcpConnections.TCPConnection.UncleanShutdown` | libsponge/tcp_connection.cc:180-185 | both streams in error, inactive |
| `Checksums.FoldMeaning` | libsponge/util/util.cc:100-108 | the fold loop ends and computes the sum modulo 65535, with 65535 for its non-zero multiples (section 1 of RFC 1071) |
| `Checksums.ChecksOut` | libsponge/util/util.cc:89-108 | adding its own check value to any 32-bit sum never overflows and always checks out |
| `Checksums.WordSumConcat` | libsponge/util/util.cc:89-98 | adding in pieces is adding the whole, odd lengths included |
| `Checksums.CorruptionNoticed` | libsponge/util/util.cc:89-108 | changing any one byte of data that checks out is noticed, whether or not the 32-bit sum wraps |
| `Checksums.InternetChecksum.Add` | libsponge/util/util.cc:89-98 | adds the data's word sum modulo 2^32, whatever the parity, and keeps the parity |
| `Checksums.InternetChecksum.Value` | libsponge/util/util.cc:100-108 | the complement of the folded sum |
| `Parsing.IntRoundTrip` | libsponge/util/parser.cc:26-60 | reading back a written integer of any width gives it back |
| `Parsing.BytesRoundTrip` | libsponge/util/parser.cc:26-60 | and writing back a read one gives its bytes |
| `Parsing.RecordRoundTrip` | libsponge/util/parser.cc:26-60 | any list of fields written and then read field by field comes back, leaving exactly the rest, without error |
| `Parsing.NetParser.CheckSize` | libsponge/util/parser.cc:20-24 | too little data sets the error |
| `Parsing.NetParser.ParseInt` | libsponge/util/parser.cc:26-43 | the big-endian value and the shortened buffer, or 0 with the buffer kept once in error |
| `Parsing.NetParser.RemovePrefix` | libsponge/util/parser.cc:45-51 | drops the prefix, or nothing once in error |
| `Parsing.UnparseInt` | libsponge/util/parser.cc:53-60 | appends the big-endian bytes |
| `TcpWire.SegmentRoundTrip` | libsponge/tcp_helpers/tcp_segment.cc:12-45 | every segment with 5 <= doff <= 15, any payload and any 32-bit pseudo-header sum: the bytes parse back without error to the same segment with its checksum filled in |
| `TcpWire.SegmentRoundTripIff` | libsponge/tcp_helpers/tcp_segment.cc:12-45 | everything the source agrees to serialize is parsed without error, all header fields but the offset as they were; it is the same segment if and only if doff is at most 15 |
| `TcpWire.CorruptSegmentRefused` | libsponge/tcp_helpers/tcp_segment.cc:12-23 | whatever the source agrees to serialize, with any one byte changed, is refused as a bad checksum, and the object is left alone |
| `TcpWire.HeaderRoundTrip` | libsponge/tcp_helpers/tcp_header.cc:17-78 | every header with 5 <= doff <= 15 comes back in all fields, leaving the payload |
| `TcpWire.SerializeHeader` | libsponge/tcp_helpers/tcp_header.cc:51-78 | the fields and the padding, or nothing for a short doff |
| `TcpWire.ParseHeader` | libsponge/tcp_helpers/tcp_header.cc:17-48 | the fields read, the options skipped, the result the source reports |
| `TcpWire.SerializeSegment` | libsponge/tcp_helpers/tcp_segment.cc:30-45 | two additions to one checksum give the checksum of the whole |
| `TcpWire.ParseSegment` | libsponge/tcp_helpers/tcp_segment.cc:12-23 | a bad checksum leaves the object alone; else header and payload, with the parser's error |
| `Ipv4Wire.DatagramRoundTripIff` | libsponge/tcp_helpers/ipv4_datagram.cc:11-41 | what the source agrees to serialize parses back without error to the same datagram if and only if header length and offset fit their four and thirteen bits, and the announced length is the real one or there are no options |
| `Ipv4Wire.IpChecksOut` | libsponge/tcp_helpers/ipv4_datagram.cc:23-41 | the header checksum filled in checks out |
| `Ipv4Wire.PseudoSumMeaning` | libsponge/tcp_helpers/ipv4_header.cc:112-131 | the pseudo-header sum is the word sum of twelve bytes: source and destination address, zero, protocol, payload length (section 3.1 of RFC 793) |
| `Ipv4Wire.JudgedSealed` | libsponge/tcp_helpers/ipv4_header.cc:49-75 | on a header that checks out the length test alone decides between success and a truncated packet with the options left in place |
| `Ipv4Wire.IpFieldsRead` | libsponge/tcp_helpers/ipv4_header.cc:23-110 | the ten reads find exactly the fields written |
| `Ipv4Wire.SerializeIpHeader` | libsponge/tcp_helpers/ipv4_header.cc:78-110 | fields and padding, or nothing for a wrong version or a short length |
| `Ipv4Wire.ParseIpHeader` | libsponge/tcp_helpers/ipv4_header.cc:23-75 | the tests in the source's order, and what each leaves in the parser |
| `Ipv4Wire.SerializeDatagram` | libsponge/tcp_helpers/ipv4_datagram.cc:23-41 | nothing for a payload of the wrong size; else checksummed header and payload |
| `Ipv4Wire.ParseDatagram` | libsponge/tcp_helpers/ipv4_datagram.cc:11-21 | header, payload and result, the header parser's own result unused |
| `TcpOverIp.ConnectedCarriesIff` | libsponge/tcp_helpers/tcp_over_ip.cc:26-90 | wrapped, serialized, parsed and unwrapped, every segment that can be sent comes out of a connected adapter if and only if the adapters face each other, and is the same, with ports and checksum filled in, if and only if also doff is at most 15 |
| `TcpOverIp.ListenerCarriesIff` | libsponge/tcp_helpers/tcp_over_ip.cc:26-90 | a listening adapter hands up exactly the segments that open a connection to its port, the same ones if and only if doff is at most 15, and then faces the sender |
| `TcpOverIp.SendableIff` | libsponge/tcp_helpers/tcp_over_ip.cc:75-90 | a segment can be sent if and only if doff is legal and header and payload together are at most 65535 bytes |
| `TcpOverIp.SentChecksOut` | libsponge/tcp_helpers/tcp_over_ip.cc:75-90 | for every segment an adapter wraps, the checksum over those twelve bytes followed by the datagram's payload, from zero, checks out; the announced payload length is the real one exactly for segments that can be sent |
| `TcpOverIp.DatagramArrives` | libsponge/tcp_helpers/ipv4_datagram.cc:11-41 | every datagram an adapter makes and can send survives the wire, the wrapped length field notwithstanding |
| `TcpOverIp.TCPOverIPv4Adapter.WrapTcpInIp` | libsponge/tcp_helpers/tcp_over_ip.cc:75-90 | ports set in the segment, addresses and sixteen-bit length in the datagram; a datagram exactly when doff is at least 5, and then pseudo-header and payload check out |
| `TcpOverIp.TCPOverIPv4Adapter.UnwrapTcpInIp` | libsponge/tcp_helpers/tcp_over_ip.cc:26-71 | the filters in the source's order, and what a listener learns |
| `WireLayout.TcpLayout` | libsponge/tcp_helpers/tcp_header.cc:51-78 | the byte offset, width, byte order and flag bits of every field of a serialized TCP header, zeros for options, then the payload (section 3.1 of RFC 793) |
| `WireLayout.IpLayout` | libsponge/tcp_helpers/ipv4_header.cc:78-110 | likewise for the IPv4 header (section 3.1 of RFC 791) |
| `WireLayout.SentHeaderLayout` | libsponge/tcp_helpers/tcp_over_ip.cc:75-90 | in front of every segment sent stand version 4, five words, no service type, the real length modulo 65536, no fragmentation, 128 hops, protocol 6, a header checksum that checks out, and the adapter's addresses |
| `WireLayout.SentLayout` | libsponge/tcp_helpers/tcp_over_ip.cc:75-90 | the whole datagram on the wire: the adapter's addresses and ports, the segment's numbers, flags and window at their offsets, the payload at the end |
| `WireVerdicts.TcpRead` | libsponge/tcp_helpers/tcp_header.cc:17-48 | whatever a buffer of at least twenty bytes holds, the parsed header has the fields at their offsets |
| `WireVerdicts.SegmentAcceptedIff` | libsponge/tcp_helpers/tcp_segment.cc:12-23 | from the raw bytes: a buffer parses as a segment if and only if it checks out, has twenty bytes, and as many as its data offset says or an offset below 5; the checksum error if and only if it does not check out; where the payload starts |
| `WireVerdicts.IpHeaderVerdict` | libsponge/tcp_helpers/ipv4_header.cc:23-75 | the header parser's result on every packet, from the raw bytes, the fields it leaves and where it stops |
| `WireVerdicts.DatagramAcceptedIff` | libsponge/tcp_helpers/ipv4_datagram.cc:11-21 | a packet of at least twenty bytes parses as a datagram if and only if its version and lengths are in order, or what follows the fixed header is as long as the payload announced; a shorter one if and only if the object's previous header announced its length; which payload it gives |
| `WireVerdicts.HeaderChecksumIgnored` | libsponge/tcp_helpers/ipv4_datagram.cc:11-21 | packets that differ in the header checksum only are accepted or refused alike |
| `WireVerdicts.HandsUpIff` | libsponge/tcp_helpers/tcp_over_ip.cc:26-71 | from the raw bytes and for every datagram: an adapter hands up a segment if and only if the datagram says TCP, the payload makes a segment and is for it (a listener: its port, SYN and no RST; else both addresses and ports), with the fields at their offsets; a listener then faces the sender, and nothing else changes an adapter |

## Left out

- Applications, sockets, the event loop, the tun device, the fd and lossy adapters and the threaded socket: the network of the run theorems stands for them.
- The random initial sequence number: any 32-bit number, given as a parameter.
- Streams whose length plus 2 reaches 2^31: the theorems about two endpoints assume less; without that a 32-bit number is ambiguous between them.
- Byte counters and indices passing 2^64: written out only where the source reaches the edge (unwrap, the stream index, the remaining window).
- Substrings that are not slices of one stream, and an end flag that is not at its end: `PushSubstring` and `SegmentReceived` ask for slices, which `DeliveryIsLegal` shows of every delivery between two such connections.
- Peers that are not this sender, for instance payload or FIN on a repeated SYN: their segments need not be slices where the receiver places them.
- Fairness of a network: `FairDelivers` says what fair rounds achieve, not that a network has them.
- Receive buffers of no bytes at all: nothing can be delivered through them.
- Rejection of malformed packets beyond what `SegmentAcceptedIff` and `DatagramAcceptedIff` say: both parsers ignore the header parser's result, so no more is promised.
- Ethernet, ARP and routing: not in the repository beyond tests.
- The destructor, names and printing of states, headers and dumps, and Buffer's reference counting: buffers are byte sequences.
- TCPState's constructor from a named state: a table used by tests.
- Long loop bodies and conditionals of the source are split into methods of their own (`Pass`, `DataRound`, `FinRound`, `Advance`, `PassTime`, `Conclude`, `Hear`, `Respond` and the like).
