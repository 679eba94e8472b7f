# Polyraptor, verified

A Dafny model of the parts of the Polyraptor simulation in which something can go wrong: the receiver-driven transport,
its connection layer, and the planner of its FatTree multicast.

- `SeqNum` relates 32-bit circular sequence numbers to unbounded positions. All queues are proved on positions and executed on
  sequence numbers.
- `Sender`, `Receiver` and `PullProtocol` model fresh symbols, cumulative pulls and the last-window rule, first as the two
  handlers and then, with a network that delivers, trims and reorders, as one transition system with whole runs.
- `Pacer` is the host: one request timer, the round robin over registered connections, and the `nap` flag. `Transfer` runs the
  protocol and the pacer of the receiver's host side by side; whether a transfer can stop is decided there.
- `ReceiveSpec` and `RcvQueue` are the receive queue of merged regions, as a specification with history and as the in-place
  implementation; `ByteStream` adds the send queue of the byte-stream mode and the round trip; `MsgQueues` the message mode;
  `TransmitInfo` the transmission history.
- `ConnTable` is demultiplexing, forking and ephemeral ports; `Fsm` the state machine of RFC 793 with its timers;
  `WindowScale` the advertised window of RFC 1323.
- `Multicast`, `MulticastPlanner` and `MulticastDelivery` are the in-place compression of per-receiver paths into a forwarding
  table and what a packet does that follows it; `Topology` the links such a table may use; `Combinations` and `Layout` the group
  enumeration, the server layout and the traffic matrix. `Wrappers` and `Sequences` hold what all of them share.

Code that updates objects is modelled by classes whose methods are proved against functions on values; the theorems about
whole runs are lemmas about those functions. Where the code does not keep a promise for all inputs, the code is modelled as it
is, and the condition under which the promise holds is proved in both directions:

- no transfer halts before its end, whatever the order of arrival, if and only if the initial window is one, at most one
  symbol is wanted, or exactly one symbol more than the window; as long as symbols stay in order, if and only if the window is
  one, at most one symbol is wanted, or more than the window (`Transfer.DeadlockFreeIff`);
- a transfer has halted early if and only if its timer is off and all the credit that late arrivals have left waits in the
  pull queue (`HaltedIff`);
- no wake-up is lost if and only if every connection wants no symbols or more than its initial window
  (`NoLostWakeupIffSafeSizes`);
- a waiting pull is served within a fixed time if and only if the timer runs and the pacer does not nap (`ServedInTimeIff`);
- byte-stream insertion keeps every byte in place if and only if no buffered region straddles the end of the segment
  (`InsertionIsFaithfulIff`), and extraction keeps the queue exact if and only if it skips no gap (`ExtractionIsSoundIff`);
- the space check is sound if and only if segments are at most one byte longer than the buffer (`SpaceCheckIsExactIff`);
- the fork of a listener throws if and only if its remote half was already filled in and its local half is listened on
  (`Fork`);
- a timer error is possible if and only if the establishment timer runs in LISTEN (`InternalErrorIff`), which only a SYN that
  carries a payload brings about (`RunsAreSafeUnlessSynDropped`): the space check refuses every such payload
  (`SynPayloadIsRefused`);
- ESTABLISHED is entered exactly by a segment without FIN in SYN_RCVD or an acceptable answer to our SYN (`EstablishedIff`), and
  a connection that is being set up is timed if and only if it was opened passively (`SetupIsTimedIff`);
- a connection in TIME_WAIT closes by itself if and only if it came from FIN_WAIT_1 or CLOSING or has heard a segment since
  (`TimeWaitEndsIff`);
- the 16-bit window field holds every scaled window if and only if the buffer fits the configured shift or, with a shift that
  is looked for, is below 2^30 bytes and, for an active opener, no power of two from 2^16 up (`FieldHoldsIff`);
- the multicast table serves every receiver if and only if none is in another rack of the sender's pod
  (`DeliversIffNoOtherRack`).

## Model

| member | source | states |
|---|---|---|
| `SeqNum.CircularOrder` | rqtransportlayer/RaptorQ/raptorq_common/RQSegment.h:36-50 | for positions less than 2^31 apart, seqLess, seqLE, seqGreater, seqGE, seqMin and seqMax on the wrapped numbers agree with the order of the positions |
| `SeqNum.CircularOrderIsTight` | rqtransportlayer/RaptorQ/raptorq_common/RQSegment.h:38-39 | within one turn, seqLE agrees with the order of the positions if and only if they are at most half a turn apart in the one direction and less in the other |
| `SeqNum.SignedGap` | rqtransportlayer/RaptorQ/RQConnectionRcvSegment.cc:326-328 | the 32-bit difference of two counters below 2^31, read as a signed number, is their difference |
| `Sender.RQSender.GetNewSymbolToSend` | rqtransportlayer/RaptorQ/RQConnectionRcvSegment.cc:62-77 | appends the next fresh symbol number and changes nothing else |
| `Sender.RQSender.SendInitialWindow` | rqtransportlayer/RaptorQ/RQConnectionRcvSegment.cc:81-147 | sends the symbols 1, ..., IW with their own numbers once, and nothing on a second call |
| `Sender.RQSender.ProcessRequest` | rqtransportlayer/RaptorQ/RQConnectionRcvSegment.cc:314-418 | a pull sends exactly the missing symbols in ascending order, each payload under its own number, and none if the pull is old |
| `Sender.PullAnswersUpTo` | rqtransportlayer/RaptorQ/RQConnectionRcvSegment.cc:326-417 | after a pull the answered count is the maximum of the old one and the pull number, and the symbol index moved by the same amount |
| `Sender.CumulativePulls` | rqtransportlayer/RaptorQ/RQConnectionRcvSegment.cc:90-417 | for every sequence of pulls, lost, repeated, reordered and from several receivers, the answered count is the largest pull number, esi is IW more, and the symbols sent are 1, 2, 3, ..., each once |
| `Receiver.RQConnection.AddRequestToPullsQueue` | rqtransportlayer/RaptorQ/RQConnectionRcvSegment.cc:655-699 | a pull with the next number goes to the end of the queue |
| `Receiver.RQConnection.SendRequestFromPullsQueue` | rqtransportlayer/RaptorQ/RQConnectionRcvSegment.cc:701-709 | takes exactly the front pull |
| `Receiver.RQConnection.DecidePull` | rqtransportlayer/RaptorQ/RQConnectionRcvSegment.cc:514-577 | issues a pull for an arrival exactly as the last-window rule says and moves the symbol index as it prescribes; what that comes to over a run is PullsAreAskedFor |
| `Receiver.RQConnection.CountSymbol` | rqtransportlayer/RaptorQ/RQConnectionRcvSegment.cc:482-577 | one arrival is counted, may issue one pull and tells whether the object was complete before |
| `Receiver.RQConnection.HandOver` | rqtransportlayer/RaptorQ/RQConnectionRcvSegment.cc:602-646 | a wanted symbol goes to the application and PEER_CLOSED is signalled when the last one has come |
| `Receiver.SymbolKeepsInv` | rqtransportlayer/RaptorQ/RQConnectionRcvSegment.cc:482-646 | for every symbol number in every state: the pull queue stays the consecutive run of numbers ending at request_id, the application has min(n, W) symbols, and PEER_CLOSED was signalled once if n >= W > 0 and else never |
| `Receiver.HeaderKeepsInv` | rqtransportlayer/RaptorQ/RQConnectionRcvSegment.cc:425-454 | the same for a trimmed header |
| `Receiver.ReceiverRun` | rqtransportlayer/RaptorQ/RQConnectionRcvSegment.cc:425-709 | for every order of arrivals: the application gets exactly the first min(n, W) symbols as they came and one PEER_CLOSED once n reaches W > 0; while n < W the index is the largest number seen, and from the W-th arrival on it counts them; the pulls that left and those that wait are together 1, 2, ..., request_id |
| `Receiver.PullsAreAskedFor` | rqtransportlayer/RaptorQ/RQConnectionRcvSegment.cc:425-577 | the last-window rule over the list of arrivals alone, in every run: request_id is the number of headers, plus the arrivals up to the (W - IW)-th whose number exceeds all earlier ones, plus the later ones before the W-th whose number exceeds the largest earlier one by more than 1 |
| `PullProtocol.RunKeepsInv` | rqtransportlayer/RaptorQ/RQConnectionRcvSegment.cc:81-699 | the system invariant, which accounts for every symbol, header and pull between sender, network and receiver, holds in every run of deliveries, trims and pull transmissions |
| `PullProtocol.SymbolMovesRequest` | rqtransportlayer/RaptorQ/RQConnectionRcvSegment.cc:523-577 | an arrival before the last window asks for a replacement unless it is late; in the last window an arrival that skips a number does, and no other |
| `PullProtocol.CreditLaw` | rqtransportlayer/RaptorQ/RQConnectionRcvSegment.cc:482-577 | while symbols are missing, symbols in flight + headers in flight + unanswered pulls = min(IW, W - n) (IW - n if W < IW) + skips - late arrivals, with skips below max(min(IW, W), 1), in every run and every order of arrival; so credit is lost exactly by late arrivals |
| `PullProtocol.CorrectionsAreArrivals` | rqtransportlayer/RaptorQ/RQConnectionRcvSegment.cc:523-577 | the two corrections of that law, over the arrived numbers alone: skips are the arrivals between the (W - IW)-th and the W-th whose number exceeds the largest earlier one by more than 1, late arrivals the earlier ones whose number does not exceed all before it |
| `PullProtocol.InOrderIsNeverLate` | rqtransportlayer/RaptorQ/RQConnectionRcvSegment.cc:523-577 | if the network keeps full symbols in order, no arrival is late |
| `PullProtocol.FewWantedIsNeverLate` | rqtransportlayer/RaptorQ/RQConnectionRcvSegment.cc:523-577 | with at most one symbol more than the window wanted, no arrival is late, in any order |
| `PullProtocol.SymbolsSent` | rqtransportlayer/RaptorQ/RQConnectionRcvSegment.cc:90-577 | with h headers received, at most W + IW - 1 + h symbols are ever sent |
| `PullProtocol.ActionsAreCounted` | rqtransportlayer/RaptorQ/RQConnectionRcvSegment.cc:314-699 | the number of steps of a run is determined by the state it reaches |
| `PullProtocol.RunsAreBounded` | rqtransportlayer/RaptorQ/RQConnectionRcvSegment.cc:314-699 | a run with t trims has at most 3W + IW + 5t steps of the protocol |
| `Transfer.RunKeepsNet` | rqtransportlayer/RaptorQ/RQConnectionRcvSegment.cc:81-709 | the system invariant of the protocol holds in every run in which pulls leave the queue only when the timer of the receiver's host fires |
| `Transfer.RunsAreHosted` | rqtransportlayer/RaptorQ/RaptorQ.cc:964-1138 | the host of such a run takes exactly the steps of the pacer |
| `Transfer.RunKeepsWakes` | rqtransportlayer/RaptorQ/RaptorQ.cc:964-1138 | with W <= 1 or W > IW no wake-up is lost while symbols are missing |
| `Transfer.HaltedIff` | rqtransportlayer/RaptorQ/RaptorQ.cc:1094-1138 | a run with symbols missing has come to a halt if and only if no pull is under way, the timer is off, and all the credit that late arrivals have left waits in the pull queue; that queue is empty unless 2 <= W <= IW |
| `Transfer.NoDeadlock` | rqtransportlayer/RaptorQ/RaptorQ.cc:1094-1138 | a run that has come to a halt has delivered everything, W symbols at the application and one PEER_CLOSED: in any order if IW = 1, W <= 1 or W = IW + 1, and in order if IW = 1, W <= 1 or W > IW |
| `Transfer.InOrderRunsGoOn` | rqtransportlayer/RaptorQ/RaptorQ.cc:1094-1138 | for those sizes an in-order run with symbols missing can be continued in order without another trim |
| `Transfer.InOrderRunsComplete` | rqtransportlayer/RaptorQ/RaptorQ.cc:1094-1138 | for those sizes every in-order run can be completed, in order |
| `Transfer.RunsAreBounded` | rqtransportlayer/RaptorQ/RaptorQ.cc:1094-1138 | with every firing counted, those for nothing included, a run with t trims has at most 4W + 2IW + 6t steps |
| `Transfer.ReorderingCanDeadlock` | rqtransportlayer/RaptorQ/RQConnectionRcvSegment.cc:537-538 | for every IW >= 2 and W >= IW + 2 there is a run without trims, in which one symbol overtakes another, that halts exactly one symbol short |
| `Transfer.LostWakeupCanDeadlock` | rqtransportlayer/RaptorQ/RQConnectionRcvSegment.cc:586-598 | for every 2 <= W <= IW there is an in-order run that halts after its first symbol: its credit is untouched, and all of it waits for a timer that nothing starts |
| `Transfer.DeadlockFreeIff` | rqtransportlayer/RaptorQ/RQConnectionRcvSegment.cc:482-699 | no run halts with symbols missing, whatever the order, if and only if IW = 1, W <= 1 or W = IW + 1; and no in-order run does if and only if IW = 1, W <= 1 or W > IW |
| `Pacer.RaptorQ.AllPullQueuesEmpty` | rqtransportlayer/RaptorQ/RaptorQ.cc:1006-1018 | true exactly if no registered pull queue holds a pull |
| `Pacer.RaptorQ.AllConnFinished` | rqtransportlayer/RaptorQ/RaptorQ.cc:1022-1042 | true exactly if every registered connection is finished, and then the timer is off |
| `Pacer.RaptorQ.RequestTimer` | rqtransportlayer/RaptorQ/RaptorQ.cc:1063-1080 | one timer, 8 microseconds ahead, whatever was scheduled before |
| `Pacer.RaptorQ.SendFirstRequest` | rqtransportlayer/RaptorQ/RaptorQ.cc:964-976 | arms the timer exactly if some registered queue is non-empty |
| `Pacer.RaptorQ.SymbolArrival` | rqtransportlayer/RaptorQ/RQConnectionRcvSegment.cc:482-646 | the whole symbol branch at the host level equals the specified step: pull, wake-up of a napping pacer, registration, hand-over |
| `Pacer.RaptorQ.HeaderArrival` | rqtransportlayer/RaptorQ/RQConnectionRcvSegment.cc:425-454 | the whole header branch at the host level equals the specified step |
| `Pacer.RaptorQ.SetConnFinished` | rqtransportlayer/RaptorQ/RQConnectionRcvSegment.cc:772-776 | only the finished flag of that connection changes |
| `Pacer.RaptorQ.ProcessRequestTimer` | rqtransportlayer/RaptorQ/RaptorQ.cc:1094-1138 | a firing stops if all are finished, naps if all queues are empty, and else serves the first waiting slot in round-robin order after scanning at most as many slots as there are |
| `Pacer.RaptorQ.TimerFires` | rqtransportlayer/RaptorQ/RaptorQ.cc:143-145 | the timer fires at its due time and is off before the scan |
| `Pacer.RaptorQ.ServeNext` | rqtransportlayer/RaptorQ/RaptorQ.cc:1116-1134 | the scan ends, within the number of slots, at the first slot from the counter with a pull, sends exactly its front pull and arms the timer |
| `Pacer.ScanFindsFirst` | rqtransportlayer/RaptorQ/RaptorQ.cc:1116-1134 | the slot found is the nearest waiting one in cyclic order |
| `Pacer.RunKeepsWakeInv` | rqtransportlayer/RaptorQ/RaptorQ.cc:964-1138 | in every run with W = 0 or W > IW on all connections: a registered non-empty queue with something unfinished means a scheduled timer, and an idle timer with something unfinished means nap |
| `Pacer.UnsafeSizeLosesWakeup` | rqtransportlayer/RaptorQ/RQConnectionRcvSegment.cc:586-598 | for any connection with 0 < W <= IW there is a run in which a registered pull waits, nothing is finished, and no timer is scheduled |
| `Pacer.NoLostWakeupIffSafeSizes` | rqtransportlayer/RaptorQ/RaptorQ.cc:964-1138 | no run of a host loses a wake-up if and only if every connection has W = 0 or W > IW |
| `Pacer.FiringMovesCloser` | rqtransportlayer/RaptorQ/RaptorQ.cc:1116-1134 | a firing that does not serve a waiting slot brings the scan strictly closer to it |
| `Pacer.WaitingSlotIsServed` | rqtransportlayer/RaptorQ/RaptorQ.cc:1116-1137 | fairness: with a fixed table of m connections, a slot whose queue stays non-empty is served within m firings |
| `Pacer.UnservedIsEarly` | rqtransportlayer/RaptorQ/RaptorQ.cc:1063-1137 | a slot that waits unserved in a run has not waited beyond the due time of the timer plus 8 microseconds for each slot before it and each time an arrival set the timer anew |
| `Pacer.ServedInTimeIff` | rqtransportlayer/RaptorQ/RQConnectionRcvSegment.cc:693-696 | after any run, with a table of m connections that stays fixed: a waiting slot is served within 8 m microseconds if the timer runs and the pacer is awake, and otherwise can be put off past any time |
| `Pacer.NapsWhileOneWaits` | rqtransportlayer/RaptorQ/RQConnectionRcvSegment.cc:693-696 | a run from the start that leaves the pacer napping with a pull waiting |
| `Pacer.PullsAreSpaced` | rqtransportlayer/RaptorQ/RaptorQ.cc:1063-1087 | any two pulls of a host are at least 8 microseconds apart, in every run from the start |
| `Pacer.RegisteredIff` | rqtransportlayer/RaptorQ/RQConnectionRcvSegment.cc:440-598 | in every run a connection is in the table of the pacer at most once, and it is there if and only if its first arrival was a header or a symbol of which it wants any |
| `Pacer.ForcedCloseSilences` | rqtransportlayer/RaptorQ/RQConnectionRcvSegment.cc:600-646 | after a forced close, in every run: no further symbol of the connection reaches the application, only headers issue pulls, and PEER_CLOSED comes once with the next symbol if it was still missing any |
| `Pacer.FinishedHostStops` | rqtransportlayer/RaptorQ/RQConnectionRcvSegment.cc:505-512 | a surplus symbol turns the timer off if and only if every connection in the table is finished, and a firing of a host with nothing unfinished sends nothing and leaves the timer off |
| `ReceiveSpec.MergeKeepsSorted` | rqtransportlayer/RaptorQ/queues/RQVirtualDataRcvQueue.cc:133-158 | merging a segment keeps the regions sorted, non-empty and non-touching |
| `ReceiveSpec.MergeAddsBytes` | rqtransportlayer/RaptorQ/queues/RQVirtualDataRcvQueue.cc:133-158 | merging adds exactly the positions of the segment |
| `ReceiveSpec.InsertKeepsInv` | rqtransportlayer/RaptorQ/queues/RQVirtualDataRcvQueue.cc:106-158 | for any order, overlap and duplication, the regions cover exactly the bytes received and not extracted, and rcv_nxt is the first byte never received and never moves back |
| `ReceiveSpec.ExtractKeepsInv` | rqtransportlayer/RaptorQ/queues/RQVirtualDataRcvQueue.cc:176-206 | extraction up to a position not beyond rcv_nxt takes exactly the oldest bytes up to there and leaves rcv_nxt |
| `ReceiveSpec.MergeKeepsBytes` | rqtransportlayer/RaptorQ/queues/RQByteStreamRcvQueue.cc:16-46 | as long as no buffered region starts inside the segment and ends beyond it, every byte stays at its sequence number |
| `ReceiveSpec.MergeLosesBytes` | rqtransportlayer/RaptorQ/queues/RQByteStreamRcvQueue.cc:37-38 | a region that straddles the end of the segment gets a wrong byte, since its tail is copied from its beginning |
| `ReceiveSpec.InsertionIsFaithfulIff` | rqtransportlayer/RaptorQ/queues/RQByteStreamRcvQueue.cc:28-42 | inserting a segment keeps the queue faithful for all streams if and only if no buffered region straddles its end |
| `ReceiveSpec.NewBytesDoNotStraddle` | rqtransportlayer/RaptorQ/queues/RQByteStreamRcvQueue.cc:16-46 | segments of bytes not received before never run into that case |
| `ReceiveSpec.ExtractionIsSoundIff` | rqtransportlayer/RaptorQ/queues/RQVirtualDataRcvQueue.cc:176-206 | an extraction to any position keeps the queue exact if and only if something in order is buffered or nothing is taken; otherwise bytes behind a gap are handed out |
| `ReceiveSpec.StreamArrivesIntact` | rqtransportlayer/RaptorQ/queues/RQByteStreamRcvQueue.cc:16-109 | for any order of insertions, repeated and overlapping ones included as long as none ends inside a buffered region, and any interleaving of sound extractions, what was handed on is exactly the stream from the start to the extraction point |
| `ReceiveSpec.BufferedBytesAreTheRest` | rqtransportlayer/RaptorQ/queues/RQVirtualDataRcvQueue.cc:208-216 | the summed region lengths are the number of bytes received and not extracted |
| `ReceiveSpec.LeftEdgeIsMaximal` | rqtransportlayer/RaptorQ/queues/RQVirtualDataRcvQueue.cc:235-249 | the left edge is the start of the longest run of buffered bytes that ends at the position |
| `ReceiveSpec.RightEdgeIsMaximal` | rqtransportlayer/RaptorQ/queues/RQVirtualDataRcvQueue.cc:251-265 | the right edge is the end of the longest run of buffered bytes that starts at the position |
| `RcvQueue.CompareAgrees` | rqtransportlayer/RaptorQ/queues/RQVirtualDataRcvQueue.cc:30-41 | the five-way comparison on sequence numbers is the comparison of the positions |
| `RcvQueue.SpaceCheckIsExact` | rqtransportlayer/RaptorQ/RQConnectionRcvSegment.cc:822-830 | the space check admits a segment of at most the buffer size plus one exactly if it lies within the buffer |
| `RcvQueue.SpaceCheckIsExactIff` | rqtransportlayer/RaptorQ/RQConnectionRcvSegment.cc:822-830 | the check is sound for segments of a given length if and only if that length is at most maxRcvBuffer + 1 |
| `RcvQueue.LongSegmentThrows` | rqtransportlayer/RaptorQ/queues/RQVirtualDataRcvQueue.cc:106-131 | a longer segment that passes the space check fails the range check whenever something is buffered |
| `RcvQueue.MergeRegions` | rqtransportlayer/RaptorQ/queues/RQByteStreamRcvQueue.cc:16-46 | merges exactly touching or overlapping regions, with the bytes the code copies |
| `RcvQueue.SplitRegion` | rqtransportlayer/RaptorQ/queues/RQVirtualDataRcvQueue.cc:21-28 | the two parts of a region on both sides of a position, with their bytes |
| `RcvQueue.RQRcvQueue.InsertBytesFromSegment` | rqtransportlayer/RaptorQ/queues/RQVirtualDataRcvQueue.cc:106-131 | an admitted segment is merged as specified, the range check never throws, and the new rcv_nxt is returned |
| `RcvQueue.RQRcvQueue.Merge` | rqtransportlayer/RaptorQ/queues/RQVirtualDataRcvQueue.cc:133-158 | the in-place loop from the last region down computes the specified merge |
| `RcvQueue.RQRcvQueue.ExtractTo` | rqtransportlayer/RaptorQ/queues/RQVirtualDataRcvQueue.cc:176-206 | hands out the first region up to the position, whole or split, for positions on both sides of rcv_nxt; the queue stays exact if and only if no gap is skipped |
| `RcvQueue.RQRcvQueue.GetFirstSeqNo` | rqtransportlayer/RaptorQ/queues/RQVirtualDataRcvQueue.cc:267-272 | the sequence number of the oldest byte not extracted |
| `RcvQueue.RQRcvQueue.GetAmountOfBufferedBytes` | rqtransportlayer/RaptorQ/queues/RQVirtualDataRcvQueue.cc:208-216 | the number of bytes received and not extracted |
| `RcvQueue.RQRcvQueue.GetAmountOfFreeBytes` | rqtransportlayer/RaptorQ/queues/RQVirtualDataRcvQueue.cc:218-223 | what is left of the buffer, never negative |
| `RcvQueue.RQRcvQueue.GetLE` | rqtransportlayer/RaptorQ/queues/RQVirtualDataRcvQueue.cc:235-249 | the left edge of the run of buffered bytes around the number |
| `RcvQueue.RQRcvQueue.GetRE` | rqtransportlayer/RaptorQ/queues/RQVirtualDataRcvQueue.cc:251-265 | the right edge of the run of buffered bytes around the number |
| `ByteStream.ByteStreamSendQueue.EnqueueAppData` | rqtransportlayer/RaptorQ/queues/RQByteStreamSendQueue.cc:52-61 | the bytes go to the end of the stream |
| `ByteStream.ByteStreamSendQueue.CreateSegmentWithBytes` | rqtransportlayer/RaptorQ/queues/RQByteStreamSendQueue.cc:73-95 | under the two assertions of the method, a segment carries exactly the bytes of the stream at its positions |
| `ByteStream.ByteStreamSendQueue.DiscardUpTo` | rqtransportlayer/RaptorQ/queues/RQByteStreamSendQueue.cc:97-103 | under the assertion of the method, exactly the bytes below the number are dropped |
| `ByteStream.HeldIsAsserted` | rqtransportlayer/RaptorQ/queues/RQByteStreamSendQueue.cc:76-100 | in a buffer below 2^31 bytes those assertions hold for all bytes that are held |
| `ByteStream.ReceivedIsWhatArrives` | rqtransportlayer/RaptorQ/queues/RQVirtualDataRcvQueue.cc:106-131 | the received positions are those of the inserted segments |
| `ByteStream.RoundTrip` | rqtransportlayer/RaptorQ/queues/RQByteStreamSendQueue.cc:52-103 | a stream cut into pieces, delivered in any order and any number of times as long as none ends inside a buffered region, with any interleaving of extractions, comes out as a prefix of the stream, and completely once everything has arrived |
| `TransmitInfo.MarkMeans` | rqtransportlayer/RaptorQ/flavours/RQSegmentTransmitInfoList.cc:11-57 | set changes the records of exactly the bytes sent: a new byte counts one transmission, an old one is sent once more with updated first and last time; the items stay non-empty and contiguous |
| `TransmitInfo.ClearMeans` | rqtransportlayer/RaptorQ/flavours/RQSegmentTransmitInfoList.cc:70-76 | clearTo forgets exactly the bytes below its argument |
| `TransmitInfo.LookupIsCoverage` | rqtransportlayer/RaptorQ/flavours/RQSegmentTransmitInfoList.cc:59-68 | a byte has a record exactly if it lies between the first item and the last |
| `TransmitInfo.HistoryIsExact` | rqtransportlayer/RaptorQ/flavours/RQSegmentTransmitInfoList.cc:11-76 | after any legal history of set and clearTo, the record of a byte is the first time, last time and number of its transmissions |
| `TransmitInfo.RQSegmentTransmitInfoList.Set` | rqtransportlayer/RaptorQ/flavours/RQSegmentTransmitInfoList.cc:11-57 | the in-place splitting computes the specified update, and its loops stay inside the list |
| `TransmitInfo.RQSegmentTransmitInfoList.Get` | rqtransportlayer/RaptorQ/flavours/RQSegmentTransmitInfoList.cc:59-68 | the item that holds the byte, or none |
| `TransmitInfo.RQSegmentTransmitInfoList.ClearUpTo` | rqtransportlayer/RaptorQ/flavours/RQSegmentTransmitInfoList.cc:70-76 | the in-place clearing computes the specified one |
| `MsgQueues.RQMsgBasedSendQueue.EnqueueAppData` | rqtransportlayer/RaptorQ/queues/RQMsgBasedSendQueue.cc:36-47 | the message is queued under the position behind its last byte; the call throws exactly if the buffer length modulo 2^32 comes out above 2^31 |
| `MsgQueues.RQMsgBasedSendQueue.CreateSegmentWithBytes` | rqtransportlayer/RaptorQ/queues/RQMsgBasedSendQueue.cc:59-95 | a segment carries exactly the messages whose last byte it holds |
| `MsgQueues.RQMsgBasedSendQueue.DiscardUpTo` | rqtransportlayer/RaptorQ/queues/RQMsgBasedSendQueue.cc:97-110 | the loop drops a prefix of the queue, the messages that end by the number |
| `MsgQueues.UnackedMeans` | rqtransportlayer/RaptorQ/queues/RQMsgBasedSendQueue.cc:97-110 | exactly the messages ending behind the number stay |
| `MsgQueues.CuttingIsExact` | rqtransportlayer/RaptorQ/queues/RQMsgBasedSendQueue.cc:59-95 | for any consecutive partition of the buffer each message travels in exactly one segment, in order |
| `MsgQueues.DiscardThenCut` | rqtransportlayer/RaptorQ/queues/RQMsgBasedSendQueue.cc:59-110 | discarding acknowledged messages changes no later segment |
| `MsgQueues.RQSegment.TruncateSegment` | rqtransportlayer/RaptorQ/raptorq_common/RQSegment.cc:46-70 | truncation leaves the common part of the ranges with exactly its bytes and the messages that end in it |
| `MsgQueues.RQSegment.TruncateData` | rqtransportlayer/RaptorQ/raptorq_common/RQSegment.cc:116-138 | the same, given the numbers of bytes to cut off |
| `MsgQueues.RQSegment.AddPayloadMessage` | rqtransportlayer/RaptorQ/raptorq_common/RQSegment.cc:197-205 | appends one message |
| `MsgQueues.RQSegment.RemoveFirstPayloadMessage` | rqtransportlayer/RaptorQ/raptorq_common/RQSegment.cc:207-217 | takes the first message, or none if there is none |
| `MsgQueues.RQMsgBasedRcvQueue.InsertBytesFromSegment` | rqtransportlayer/RaptorQ/queues/RQMsgBasedRcvQueue.cc:47-69 | the byte counts of a segment go to the regions as the receive queue specifies, its messages to the list |
| `MsgQueues.RQMsgBasedRcvQueue.InsertMessages` | rqtransportlayer/RaptorQ/queues/RQMsgBasedRcvQueue.cc:51-66 | the one-pass cursor inserts every message at its place and drops duplicates |
| `MsgQueues.PutMeans` | rqtransportlayer/RaptorQ/queues/RQMsgBasedRcvQueue.cc:53-65 | one insertion keeps the list strictly sorted and adds the message unless its end position is there |
| `MsgQueues.MessagesArriveOnce` | rqtransportlayer/RaptorQ/queues/RQMsgBasedRcvQueue.cc:47-68 | whatever segments of a queue arrive, in any order and with duplicates, the list is strictly sorted and holds each message whose last byte arrived exactly once; once all have arrived it is the queue as sent |
| `ConnTable.FindKeyIsMostSpecific` | rqtransportlayer/RaptorQ/RaptorQ.cc:536-576 | a segment is given to a connection exactly if some key fits it, and then to the most specific one |
| `ConnTable.RaptorQ.FindConnForSegment` | rqtransportlayer/RaptorQ/RaptorQ.cc:536-576 | the four lookups find that connection |
| `ConnTable.RaptorQ.GetEphemeralPort` | rqtransportlayer/RaptorQ/RaptorQ.cc:657-678 | the wrapping search ends, with the first unused port of [1024, 5000) behind the last one given out, around the end, whenever there is one, and fails exactly if all are used |
| `ConnTable.RaptorQ.AddSockPair` | rqtransportlayer/RaptorQ/RaptorQ.cc:680-717 | the entry is made and the port marked, or the call fails exactly if the key is taken; the tables stay in agreement |
| `ConnTable.RaptorQ.UpdateSockPair` | rqtransportlayer/RaptorQ/RaptorQ.cc:764-787 | the entry moves to the new key; no other entry is lost if that key is free or its own |
| `ConnTable.RaptorQ.AddForkedConnection` | rqtransportlayer/RaptorQ/RaptorQ.cc:789-807 | the forked connection gets the full key and a new id, the clone the listening key and the old id; it fails exactly if that listening key is taken |
| `ConnTable.RaptorQ.RemoveConnection` | rqtransportlayer/RaptorQ/RaptorQ.cc:809-832 | exactly the entries of the connection go and one mark of its port |
| `ConnTable.RaptorQ.OpenActive` | rqtransportlayer/RaptorQ/RQConnectionEventProc.cc:33-66 | the open throws without a remote half; an unspecified local port becomes a free ephemeral one whenever there is one; otherwise the open throws exactly if the socket pair is taken |
| `ConnTable.RaptorQ.OpenPassive` | rqtransportlayer/RaptorQ/RQConnectionEventProc.cc:88-124 | the listener is entered under its blank remote half and its state machine goes to LISTEN, or the open throws, exactly if that key is taken, the port is missing or the connection was opened before |
| `ConnTable.RQConnection.CloneListeningConnection` | rqtransportlayer/RaptorQ/RQConnectionUtil.cc:838-874 | the clone has the local half, a blank remote half and the same application key; it is a passive opener in LISTEN that forks |
| `ConnTable.RaptorQ.Fork` | rqtransportlayer/RaptorQ/RQConnectionRcvSegment.cc:886-889 | a fork never makes updateSockPair fail its assertions; it throws if and only if the remote half was filled in before and another connection listens on the local half |
| `ConnTable.RaptorQ.ProcessSegmentInListen` | rqtransportlayer/RaptorQ/RQConnectionRcvSegment.cc:882-894 | only a SYN for a listening connection, as demultiplexing picks it, touches the tables: the connection forks if it was opened so and else takes over the socket pair; nobody else loses an entry, and the state machine steps |
| `ConnTable.RaptorQ.UpdateOnSegment` | rqtransportlayer/RaptorQ/RQConnectionRcvSegment.cc:1080-1081 | filling in the socket pair from a segment keeps the tables in agreement and every other entry |
| `ConnTable.SecondSynOfAPeerThrows` | rqtransportlayer/RaptorQ/RQConnectionRcvSegment.cc:886-889 | for all addresses and ports: open, SYN, expiry of the establishment timer back to LISTEN, and the same SYN again makes the fork throw |
| `ConnTable.TracksRemove` | rqtransportlayer/RaptorQ/RaptorQ.cc:826-831 | removing one occurrence of the port keeps the used ports the exact multiset of ephemeral local ports |
| `Fsm.RQConnection.constructor` | rqtransportlayer/RaptorQ/RQConnectionBase.cc:198-220 | a new connection is in INIT with all its timers idle |
| `Fsm.RQConnection.NextState` | rqtransportlayer/RaptorQ/RQConnectionBase.cc:455-738 | the nested switch is the event-by-event transition table, which TableByTarget gives again by target |
| `Fsm.TableByTarget` | rqtransportlayer/RaptorQ/RQConnectionBase.cc:455-738 | the transition table read the other way round: for every state, exactly the states and events that lead into it |
| `Fsm.RQConnection.PerformStateTransition` | rqtransportlayer/RaptorQ/RQConnectionBase.cc:442-763 | state, timers and indications after an event are as specified, and the result says whether the connection is still open |
| `Fsm.RQConnection.StateEntered` | rqtransportlayer/RaptorQ/RQConnectionBase.cc:765-825 | entering a state cancels or deletes its timers and signals the application as specified; the assertion on LISTEN holds |
| `Fsm.TransitionKeepsInv` | rqtransportlayer/RaptorQ/RQConnectionBase.cc:442-825 | no transition that a handler can ask for touches a deleted timer, and each restores the invariant |
| `Fsm.EntersExactly` | rqtransportlayer/RaptorQ/RQConnectionBase.cc:442-763 | in every run every state is entered exactly by the steps named for it, in terms of the calls of the application, the flags of the segment and the timers |
| `Fsm.EstablishedIff` | rqtransportlayer/RaptorQ/RQConnectionRcvSegment.cc:298-306 | in every run ESTABLISHED is entered exactly by a segment without FIN in SYN_RCVD, or in SYN_SENT by an acceptable SYN+ACK without payload, or a plain SYN once such an answer with payload was dropped; both setup timers are deleted then |
| `Fsm.ActiveOpenerConnects` | rqtransportlayer/RaptorQ/RQConnectionRcvSegment.cc:1080-1152 | for every acceptable SYN+ACK without payload there is the run from INIT over the active open to ESTABLISHED |
| `Fsm.PassiveOpenerConnects` | rqtransportlayer/RaptorQ/RQConnectionRcvSegment.cc:298-306 | for every SYN without payload for a known file and every segment without FIN there is the run from INIT over the passive open to ESTABLISHED |
| `Fsm.SetupIsTimedIff` | rqtransportlayer/RaptorQ/RQConnectionEventProc.cc:73-78 | while a connection is set up its establishment timer runs if and only if it was opened passively: an active open starts no timer, so that without an answer the attempt never ends by itself; the retransmission timer runs in SYN_RCVD if and only if a SYN of ours went out |
| `Fsm.ActiveIff` | rqtransportlayer/RaptorQ/RQConnectionEventProc.cc:33-150 | a connection counts as active in every run if and only if it has been in SYN_SENT |
| `Fsm.CloseStartsClosing` | rqtransportlayer/RaptorQ/RQConnectionBase.cc:565-609 | in every run a close with nothing pending leads from ESTABLISHED to FIN_WAIT_1 and from CLOSE_WAIT to LAST_ACK, and one with data pending waits |
| `Fsm.EstablishedClosesInOrder` | rqtransportlayer/RaptorQ/RQConnectionBase.cc:565-738 | a run that has been in ESTABLISHED and ends in CLOSED has had an abort of the application or has passed LAST_ACK or TIME_WAIT |
| `Fsm.ClosingTakesBoth` | rqtransportlayer/RaptorQ/RQConnectionBase.cc:565-738 | in every run FIN_WAIT_1 and FIN_WAIT_2 come only after our close, CLOSING and TIME_WAIT only after our close and, behind it, the FIN of the peer, CLOSE_WAIT and LAST_ACK only after that FIN |
| `Fsm.TimersOverRuns` | rqtransportlayer/RaptorQ/RQConnectionBase.cc:765-825 | in every run the setup timers exist in INIT, LISTEN, SYN_SENT and SYN_RCVD, are deleted on the entry to ESTABLISHED and stay so, and none is running once CLOSED |
| `Fsm.OnlyBackToListen` | rqtransportlayer/RaptorQ/RQConnectionBase.cc:455-738 | every change of state goes up in one fixed order, except from SYN_RCVD back to LISTEN for a passive opener |
| `Fsm.ClosedIsToldOnce` | rqtransportlayer/RaptorQ/RQConnectionBase.cc:806-812 | in every run RQ_I_CLOSED is signalled at most once, and by CLOSED exactly once unless an abort outside TIME_WAIT ended the connection |
| `Fsm.TimeWaitEndsIff` | rqtransportlayer/RaptorQ/RQConnectionRcvSegment.cc:199-296 | in every run: a connection in TIME_WAIT has its 2MSL timer running, and else none, if and only if it came from FIN_WAIT_1 or CLOSING or a segment has come since; from FIN_WAIT_2 it never closes by itself |
| `Fsm.SynPayloadIsRefused` | rqtransportlayer/RaptorQ/RQConnectionRcvSegment.cc:906-953 | the space check refuses every payload of a SYN, whatever the space, since the queue was set up one byte behind it |
| `Fsm.SynWithPayloadIsDropped` | rqtransportlayer/RaptorQ/RQConnectionRcvSegment.cc:938-1120 | a SYN in LISTEN or SYN_SENT that carries any payload is dropped and leaves the state as it is |
| `Fsm.SynIsTaken` | rqtransportlayer/RaptorQ/RQConnectionRcvSegment.cc:886-962 | a SYN in LISTEN leads to SYN_RCVD if and only if it carries no payload, starts the establishment timer in either case, and is never an internal error itself |
| `Fsm.TimeoutListensAgain` | rqtransportlayer/RaptorQ/RQConnectionBase.cc:499-515 | the establishment timer takes a passive opener from SYN_RCVD back to LISTEN |
| `Fsm.InternalErrorIff` | rqtransportlayer/RaptorQ/RQConnectionRcvSegment.cc:938-962 | a reachable state allows an internal error (a timeout in an unexpected state, a timer started twice or after deletion) if and only if the establishment timer runs in LISTEN |
| `Fsm.RunsAreSafeUnlessSynDropped` | rqtransportlayer/RaptorQ/RQConnectionRcvSegment.cc:938-962 | a run in which no SYN with a payload comes for a known file in LISTEN meets no internal error, and right after such a SYN the next expiry is one |
| `Multicast.NextIsFollows` | FatTreeRQ/CentralScheduler.cc:948-1016 | the hop function is the successor relation on the path the planner lays |
| `Multicast.GetUniqueVector` | FatTreeRQ/CentralScheduler.cc:1278-1291 | in-place compaction leaves the first occurrences in order |
| `Multicast.UniqueMeans` | FatTreeRQ/CentralScheduler.cc:1278-1291 | the result has the same elements, each once |
| `Multicast.ScanCollectsHops` | FatTreeRQ/CentralScheduler.cc:1042-1063 | the scan of the sender pod collects exactly the hops behind its edge switch, its aggregation router and the core, and keeps exactly what lies behind |
| `Multicast.ReducedIsBlocks` | FatTreeRQ/CentralScheduler.cc:1087-1089 | without a receiver in another rack of the pod, dropping repeated and trailing marks leaves one marked path per receiver of another pod |
| `Multicast.LeadScansBlocks` | FatTreeRQ/CentralScheduler.cc:1151-1157 | the scan for a leading node takes it off exactly the lists it leads and collects the names behind it |
| `Multicast.NothingToClean` | FatTreeRQ/CentralScheduler.cc:1164-1199 | the clean-up passes between the two stages change nothing |
| `MulticastPlanner.CentralScheduler.LayPaths` | FatTreeRQ/CentralScheduler.cc:943-1017 | the list holds the path of every receiver behind a mark |
| `MulticastPlanner.CentralScheduler.ScanSenderPod` | FatTreeRQ/CentralScheduler.cc:1042-1063 | the erasing scan computes the specified one and never runs past the list |
| `MulticastPlanner.CentralScheduler.CompressStage` | FatTreeRQ/CentralScheduler.cc:1133-1162 | a compression stage adds one entry per leading node and takes the leading nodes off |
| `MulticastPlanner.CentralScheduler.MulticastRoutersLocation` | FatTreeRQ/CentralScheduler.cc:831-1231 | the planner adds exactly the planned entries |
| `MulticastPlanner.CentralScheduler.MapCores` | FatTreeRQ/CentralScheduler.cc:900-912 | appends, for every aggregation router, the core routers numbered through behind it |
| `MulticastPlanner.CentralScheduler.DrawRouters` | FatTreeRQ/CentralScheduler.cc:914-926 | whatever is drawn, and however often the list was filled before: the aggregation router is one of h, and the core router is one of h * h and associated with it |
| `MulticastPlanner.CentralScheduler.PlanGroup` | FatTreeRQ/CentralScheduler.cc:831-1231 | for servers that exist and whatever is drawn: the planned entries of a query with associated routers are added, and they send along links of the tree |
| `MulticastPlanner.PlanUsesLinks` | FatTreeRQ/CentralScheduler.cc:943-1231 | every entry of a plan, for any group, sends only along links of the fat tree, to nodes that are there |
| `Topology.AssociationIsWiring` | FatTreeRQ/Pod.ned:55-64 | aggregation router i and core router c are linked in every pod if and only if c / h = i: the association that the scheduler builds is the wiring |
| `Topology.PathIsLinked` | FatTreeRQ/CentralScheduler.cc:943-1017 | every hop of the path the planner lays for a receiver is a link of the fat tree |
| `MulticastDelivery.LookUpAtMulticastInfoList` | FatTreeRQ/CentralScheduler.cc:1264-1273 | the last entry for the group and the node wins, and without one the argument stays |
| `MulticastDelivery.PlanLooksUp` | FatTreeRQ/CentralScheduler.cc:1095-1225 | every node sends to exactly the next hops of the receivers' paths, each once; with a receiver in another rack of the sender's pod only the sender's pod and the core do |
| `MulticastDelivery.PathsFormATree` | FatTreeRQ/CentralScheduler.cc:948-1016 | a node that two paths share is reached over the same hop |
| `MulticastDelivery.PacketReachesTheReceivers` | FatTreeRQ/CentralScheduler.cc:943-1231 | a packet that follows the table from the sender reaches exactly the receivers, each once, within six hops, and nothing else |
| `MulticastDelivery.DeliversIffNoOtherRack` | FatTreeRQ/CentralScheduler.cc:1129-1131 | the table delivers to every receiver if and only if none is in another rack of the sender's pod; otherwise exactly those in the sender's rack are served |
| `MulticastDelivery.OneEntryPerNode` | FatTreeRQ/CentralScheduler.cc:1095-1225 | at most one entry is added per node |
| `Combinations.CentralScheduler.NChooseK` | FatTreeRQ/CentralScheduler.cc:688-702 | the recursion puts the combinations in front of the list in reverse order and restores the working combination; the unsigned loop bound does not wrap as long as k <= n |
| `Combinations.CombosAreAll` | FatTreeRQ/CentralScheduler.cc:688-702 | the enumeration holds exactly the strictly increasing sequences of length k |
| `Combinations.CombosAreOrdered` | FatTreeRQ/CentralScheduler.cc:688-702 | the enumeration is in strict dictionary order |
| `Combinations.CombosCount` | FatTreeRQ/CentralScheduler.cc:688-702 | it has n! / (k! (n - k)!) members |
| `Combinations.EveryGroupOnce` | FatTreeRQ/CentralScheduler.cc:663-702 | from the fresh state the list ends as every k-subset once, in reverse dictionary order, n! / (k! (n - k)!) of them |
| `Layout.LocationIsBijective` | FatTreeRQ/CentralScheduler.cc:1472-1490 | server numbers and (pod, rack, node) places correspond one to one |
| `Layout.LocationKeepsOrder` | FatTreeRQ/CentralScheduler.cc:1472-1490 | servers are numbered rack by rack and pod by pod, which with the correspondence determines every place |
| `Layout.GroupsHaveDistinctPlaces` | FatTreeRQ/CentralScheduler.cc:1472-1490 | different servers of a group are at different places |
| `Layout.CentralScheduler.GenerateTM` | FatTreeRQ/CentralScheduler.cc:1534-1558 | for any order of the servers the long and the short flows are each a ring over their half |
| `Layout.RingIsOneCycle` | FatTreeRQ/CentralScheduler.cc:1534-1558 | the flows of a half form one cycle through all its servers; somebody sends to himself if and only if the half has one server |
| `WindowScale.ShiftFitsIff` | rqtransportlayer/RaptorQ/RQConnectionUtil.cc:1434-1442 | some shift up to 14 fits the buffer size into 16 bits if and only if it is below 2^30 |
| `WindowScale.ShiftOfOneLessFitsIff` | rqtransportlayer/RaptorQ/RQConnectionUtil.cc:1434-1442 | the shift that is found with one byte less fits the buffer if and only if it is below 2^30 and no power of two from 2^16 up |
| `WindowScale.RQConnection.SearchScale` | rqtransportlayer/RaptorQ/RQConnectionUtil.cc:1434-1442 | the loop picks the least allowed shift that fits the space it sees, or the largest if none does; before the peer's SYN the receive queue stands at -1, and that space is a byte short |
| `WindowScale.RQConnection.ConfigureStateVariables` | rqtransportlayer/RaptorQ/RQConnectionUtil.cc:195-213 | without scaling exactly the configurations are accepted whose first promised window is positive and fits the 16-bit field, with it all; else the whole buffer is promised from the start |
| `WindowScale.RQConnection.ReceiveSyn` | rqtransportlayer/RaptorQ/RQConnectionRcvSegment.cc:906-914 | the advertised edge starts a whole window behind the SYN, and the receive queue right behind it |
| `WindowScale.RQConnection.WriteHeaderOptions` | rqtransportlayer/RaptorQ/RQConnectionUtil.cc:1422-1448 | our SYN, of an active or a passive opener, chooses the shift, by hand or by the loop, and scaling is on once both options went |
| `WindowScale.RQConnection.UpdateRcvWnd` | rqtransportlayer/RaptorQ/RQConnectionUtil.cc:1624-1669 | the announced window is never less than what is still advertised, up to the 16-bit cap without scaling; it grows if and only if more is free, at least a segment or a quarter of the buffer, and then it is all that is free, up to that cap; below 2^31 bytes the advertised edge becomes the further one of the old edge and the end of that window; both assertions hold exactly if the shifted window fits the field |
| `WindowScale.UpdateAnnounces` | rqtransportlayer/RaptorQ/RQConnectionUtil.cc:1624-1651 | the same of the specified update, in every state of the invariant |
| `WindowScale.EdgeMovesLeftIff` | rqtransportlayer/RaptorQ/RQConnectionUtil.cc:1636-1651 | no update of any run moves the advertised edge to the left if and only if the buffer is at most 2^31 + 65535 bytes |
| `WindowScale.FullWindowFailsIff` | rqtransportlayer/RaptorQ/RQConnectionUtil.cc:1641-1667 | once scaling is on, the update of an empty queue fails its assertions if and only if the buffer does not fit with the shift in use |
| `WindowScale.FieldHoldsIff` | rqtransportlayer/RaptorQ/RQConnectionUtil.cc:1422-1669 | no run of a configuration overflows the window field if and only if it does not offer scaling or its buffer fits: with a shift set by hand that is allowed and large enough, with one looked for below 2^30 and, for an active opener, no power of two from 2^16 up |
| `WindowScale.ScalesIff` | rqtransportlayer/RaptorQ/RQConnectionUtil.cc:1422-1448 | in every run the window is scaled if and only if it is supported, the option of the peer has come, and ours went out on a SYN that opens the connection or answers that option |
| `WindowScale.PeerSeesTheWindow` | rqtransportlayer/RaptorQ/RQConnectionUtil.cc:1658-1680 | the window that the peer computes back is never more than the real one and less than one step of the scale below it |

## Left out

- The simulator: modules, gates, message ownership, statistics, display and life cycle. Timers are kept as off or due at a time.
- Randomness: the shuffle, the drawn group and sender, and the numbers the routers are drawn by are arbitrary inputs; the retry loops that draw again are
  not modelled.
- The switch and the codec are not part of this model: a trim is a step of the network, and decoding is counting symbols.
- Symbol, pull and header counters are unbounded, and the theorems about runs ask for fewer than 2^31 pulls; the wrap-around of the
  counters beyond that is not modelled.
- Loss of pulls or headers in the network: the transport has no recovery for it on the live path.
- Multi-sourcing address rewriting and forced close, apart from the external step that finishes a connection; the multicast
  socket pairs, which are not in use.
- Connections are numbered in `Pacer`, and the request table is the list of those numbers; the code keeps the objects in a map with
  ascending keys.
- ReceiveSpec.MergeKeepsBytes: ByteArray is not part of this model; copying to a buffer is taken to copy from its first byte.
- RcvQueue.RQRcvQueue.InsertBytesFromSegment: asks for a payload of at most maxRcvBuffer + 1 bytes. A longer one can pass the
  space check although it lies outside the buffer (SpaceCheckIsExactIff); it is thrown out if something is buffered
  (LongSegmentThrows), and what an empty queue does with it is not modelled.
- MsgQueues.RQMsgBasedRcvQueue.InsertBytesFromSegment: asks for the same.
- RcvQueue.RQRcvQueue.ExtractTo: asks for a position within half a turn of the queue, beyond which its comparisons mean nothing.
- TransmitInfo.RQSegmentTransmitInfoList.Set: the branch that puts an item in front of the list cannot be reached under the method's
  own assertions (the new range would have to be empty), and is not modelled.
- MsgQueues.RQSegment.TruncateData: ByteArray is not part of this model; its own truncation is taken to drop bytes at both ends.
- PullProtocol: the initial window is positive, and both ends are in ESTABLISHED from the start.
- Transfer: the connection is the only one of the receiver's host, which starts with it; how several connections share a pacer is
  in `Pacer` alone. Window and symbols wanted are together below 2^31.
- Extraction from the message receive queue (line 77 of RQMsgBasedRcvQueue.cc and RQSymbolsRcvQueue.cc overwrites the first entry's
  number and reads a list that may be empty).
- ConnTable.RaptorQ.OpenActive: covers the tables; the states in which it is allowed are those of `Fsm`.
- ConnTable.RaptorQ.AddForkedConnection: a fresh connection id is a parameter; deleting the connection object is not modelled, only
  the tables.
- Fsm: the handlers are functions that keep the branches which choose the event or touch a timer; acknowledgement numbers and the file
  are facts about the segment. Retransmission, persist and request timers are not part of it, nor is the PEER_CLOSED
  that the data path signals (see `Receiver`).
- WindowScale.RQConnection.UpdateRcvWnd: the peer keeps to the advertised window, and the maximum segment size is settled
  beforehand.
- WindowScale.RQConnection.WriteHeaderOptions: no byte of the peer has come while our SYN is written; bytes are taken only once
  the connection is established.
- Combinations.CentralScheduler.NChooseK: asks for k <= n; with fewer numbers than k the unsigned bound wraps and the code reads
  behind the vector.
- MulticastPlanner.CentralScheduler.CompressStage: the two stages are one method with a flag for the removal of duplicates, which only
  the first one does.
- MulticastPlanner.CentralScheduler.MulticastRoutersLocation: asks for a non-empty group, since the code reads the last element of the
  routing list of an empty one.
- SACK, Reno and Vegas, round-trip estimation, acknowledgement processing and byte retransmission: floating point, and no longer
  reached by the data path.
- Layout: the number of ports of a switch is even, as a fat tree has it.
- CentralSchedulerTCP.cc repeats the layout and the traffic matrix.
