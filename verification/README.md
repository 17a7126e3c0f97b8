# Large packets over a lossy network, verified

A sender announces a packet of up to 64 sub-packets of 330 bytes with a *signal*. The receiver answers with a
*request*, a 64-bit mask of the sub-packets it wants, and puts the *sub-packets* together in place, in whatever
order they come. When its timer expires it asks again for exactly what is missing, at most four times. This
project models both nodes, their message formats, the static event slots through which datagrams reach the
processes, and a network that loses, duplicates, delays and reorders. It proves that whatever is delivered is
what was sent, when overwriting a request in the middle of a transfer loses nothing that the session needs, that a
session recovers from any loss once one request and its answers get through, and what all of it may cost in
transmissions. Where a property fails (left-over traffic, a registration in the middle of a transfer, a changed
content), it shows the run in which it fails and when it holds, for the first two exactly.

`dafny verify dfyconfig.toml` checks everything.

## How it is built

| file | what it holds |
|---|---|
| `Types`, `Masks` | C integer ranges; mask words as `bv64` and the index sets they mean |
| `LittleEndian`, `Fields`, `Messages` | the store and load loops, message fields, the three formats and their dispatch |
| `Fragments` | cutting a payload into sub-packets and putting it back in place |
| `Slots`, `Listener`, `Observed` | the static event records and their queue; packers, unpackers and handlers on byte buffers; what the processes see of them in a run |
| `Sender`, `SenderNode` | the send loop and the replies, as functions with their theory, and as a class that updates the shared struct |
| `Receiver`, `ReceiverNode` | the session set-up and the receive loop, likewise |
| `Network` | the whole system: one step runs one process from one wait to the next, or is a step of the network |
| `Safety`, `Traffic` | the invariant of every run, end-to-end safety, and the traffic budget |
| `Overwrite`, `StaleRequests`, `Disturbed` | what overwriting the send mask can and cannot lose, and what left-overs can do to a session |
| `Recovery`, `Completion`, `Beside` | how sessions end, in every interleaving, and beside left-overs that never arrive |
| `Reregistration`, `Mislabelling` | what registering does to a session under way, and when another content may be registered |

The classes carry the state of the source in their fields and update it in place; each method is proved against
the function of the same step in `Sender`, `Receiver` or `Slots`, and the theorems are about those functions. In
`Network` every sequence of steps is a run: steps that are not enabled change nothing, and `crashed` records a
copy that would leave its buffer or a shift that would leave its word, which is proved never to happen.

## What is assumed

- `process_start` runs the process to its first wait, `process_exit` ends it, `process_post` queues a pointer and
  may fail when the queue is full. A process runs from one wait to the next without interruption.
- The timer may expire at any wait. An event that arrives when the timer has already expired is treated as a
  time-out, since the source looks at the timer first (`common/large_packet.c:235`).
- Injected faults, failed sends and full queues may happen at any step.
- The receive buffer of the UDP layer holds at least eight bytes: `lpsp_unpack_buffer` reads the header before it
  looks at the length.

## Where the code and its documentation differ

The model follows the code.

- The header tests compare one byte: in `memcmp(data, lpsig_header, sizeof(lpsig_header) != 0)` the comparison
  stands inside the length argument (`common/lp_signal.c:108`, `common/lp_request.c:119`,
  `common/lp_subpacket.c:117`). `Messages.PackOfEvent` states what this admits.
- Two unpackers take the datagram length through an 8-bit parameter (`common/lp_signal.c:180`,
  `common/lp_request.c:201`), so a signal may be 261 bytes long. `Messages.PackOfEvent` states this too.
- The payload length field has 16 bits (`common/lp_subpacket.c:208`), not the 8 bits of the comment above it.
- The done test uses the count in the frame, not the one in the signal (`common/large_packet.c:277-280`). That they
  agree is part of the invariant.
- `len` counts repeated sub-packets again (`common/large_packet.c:273`): `Receiver.LengthIsConserved`.

## Model

| member | source | states |
|---|---|---|
| `Masks.BitsWhole` | common/large_packet.c:138-155 | the whole mask of n sub-packets means exactly the indices 0..n-1, n = 64 included |
| `Masks.BitsWith` | common/large_packet.c:275 | marking a sub-packet as received adds exactly its index |
| `Masks.BitsWithout` | common/large_packet.c:377-379 | clearing a sent sub-packet removes exactly its index |
| `Masks.BitsMissing` | common/large_packet.c:330-339 | the re-request word means exactly the indices below n that were not received, for every received word |
| `Masks.BitsInjective` | common/large_packet.c:277-280 | comparing two mask words compares the sets they mean, which is what the done test relies on |
| `Masks.SingleIsPowerOfTwo` | common/large_packet.c:275 | the bit of index 0 has the value 1, and each index has twice the value of the one before |
| `Masks.WholeIsPowerOfTwoLessOne` | common/large_packet.c:138-155 | the value of the whole mask starts at 0 and is doubled and increased by 1 with each sub-packet, up to n = 64 |
| `Masks.WholeMaskMeans` | common/large_packet.c:138-155 | a count above 64 is an error with the mask 0, and any other count gives the word that means 0..n-1 |
| `Masks.MissingSplitsWhole` | common/large_packet.c:330-347 | missing and received words are disjoint, make up the whole mask, and nothing is missing exactly when the done test holds |
| `LittleEndian.Store` | common/utils.h:50-55 | the store loop writes the bytes of the value at its place and nothing else |
| `LittleEndian.Load` | common/utils.h:60-66 | the load loop accumulates the value of the bytes it reads |
| `LittleEndian.LoadOfStored` | common/utils.h:50-66 | loading what was stored gives the value back, at every width up to eight bytes, for every value that fits |
| `LittleEndian.StoreOfLoaded` | common/utils.h:50-66 | storing what was loaded gives the bytes back, at every width up to eight bytes |
| `LittleEndian.LoadedFits` | common/utils.h:60-66 | a load of w bytes is below 256^w, so no field is cut off |
| `LittleEndian.StoredInTurn` | common/utils.h:50-55 | a store writes the value modulo 256 first, and then the value shifted right by 8 in one byte less |
| `LittleEndian.ValueOfStored` | common/utils.h:50-55 | the stored bytes, read as a number with its least significant byte first, are the value, for every value that fits its width |
| `LittleEndian.ValueOfLoaded` | common/utils.h:60-66 | the loaded value is the number that the bytes mean, least significant byte first |
| `Fields.ValueOfPut` | common/utils.h:48-55 | the bytes of every 8, 16 and 64-bit field mean its value, least significant byte first |
| `Fields.GetOfPut` | common/utils.h:48-66 | every 8, 16 and 64-bit field comes back from its bytes |
| `Fields.PutOfGet` | common/utils.h:48-66 | every byte string of a field's width comes back from its value |
| `Messages.OnTheWire` | common/lp_subpacket.c:188-213 | the bytes of each format: the length, the two header bytes, and for each field its place and the number that its bytes mean, the eight bytes of a request's mask included |
| `Messages.UnpackOfPack` | common/lp_subpacket.c:188-269 | unpacking a packed message returns its fields, for each of the three formats |
| `Messages.DispatchIsExclusive` | common/large_packet.c:434-441 | whatever the bytes, at most one of the three handlers posts an event |
| `Messages.EventsOfPack` | common/large_packet.c:434-441 | a packed message posts exactly its own event, with its own fields |
| `Messages.PackOfEvent` | common/lp_request.c:114-159 | an accepted datagram is reproduced byte for byte by packing its fields if and only if its second header byte is right and its length was not cut to eight bits |
| `Messages.PostsExactlyWhatItShows` | common/large_packet.c:434-441 | a datagram posts a message if and only if it is the packed message but for its second byte, and for any 256 bytes more where the length has eight bits |
| `Messages.PackIsInjective` | common/lp_request.c:174-194 | two messages with the same bytes are the same message |
| `Fragments.CountBounds` | common/large_packet.c:157-162 | a sendable content has 1 to 64 sub-packets, the last of them not empty |
| `Fragments.CountIsLeast` | common/large_packet.c:157-162 | n sub-packets of 330 bytes hold a content if and only if n is not below its count |
| `Fragments.SendableIffCounted` | common/large_packet.c:164-185 | a content can be sent if and only if it needs from 1 to 64 sub-packets, which is from 1 to 330 * 64 bytes |
| `Fragments.PickedLengthIsFragmentLength` | common/large_packet.c:399-414 | the picked length is the length of the fragment: within the content, 1 to 330 bytes |
| `Fragments.FragmentsConcatenate` | common/large_packet.c:157-162 | the fragments laid end to end are the content |
| `Fragments.WritePlaces` | common/large_packet.c:268-272 | storing a fragment puts it in place and disturbs no other sub-packet |
| `Fragments.InPlaceMeansContent` | common/large_packet.c:268-272 | all sub-packets in place means the whole content is in place |
| `Slots.SlotsRefineLossyChannel` | common/lp_subpacket.c:129-163 | for all arrivals and dispatches, every event shows one complete message accepted before it, the latest of its kind, and the kinds of the events, followed by the queue, are those posted, in order |
| `Slots.EventsNeverReorder` | common/lp_subpacket.c:145-163 | two events of one kind show accepted messages in the order of their arrival |
| `Observed.EventsShowAcceptedMessages` | common/large_packet.c:420-442 | in every run of the whole system, the slots of both nodes go through such arrivals and dispatches, and the next event shows the latest message of its kind that the node accepted |
| `Listener.PackSignal` | common/lp_signal.c:161-174 | fills the buffer with the packed signal |
| `Listener.PackRequest` | common/lp_request.c:174-194 | fills the buffer with the packed request |
| `Listener.PackSubPacket` | common/lp_subpacket.c:188-213 | fills the buffer with the packed sub-packet |
| `Listener.UnpackSignalBuffer` | common/lp_signal.c:176-207 | accepts exactly five bytes and returns the fields |
| `Listener.UnpackRequestBuffer` | common/lp_request.c:196-232 | accepts exactly fourteen bytes and returns the fields |
| `Listener.UnpackSubPacketBuffer` | common/lp_subpacket.c:215-269 | accepts exactly a frame as long as it says, copies its payload, and leaves the payload buffer alone otherwise |
| `Listener.Handlers.constructor` | common/lp_subpacket.c:129 | the static records start out empty with nothing queued |
| `Listener.Handlers.HandleSignal` | common/lp_signal.c:98-146 | overwrites the signal record and posts exactly when the datagram is taken for a signal |
| `Listener.Handlers.HandleRequest` | common/lp_request.c:114-159 | overwrites the request record and posts exactly when the datagram is taken for a request |
| `Listener.Handlers.HandleSubPacket` | common/lp_subpacket.c:107-169 | overwrites record and payload buffer and posts exactly when the datagram is taken for a sub-packet; a rejected frame leaves the slot untouched |
| `Listener.Handlers.UdpListenCallback` | common/large_packet.c:420-442 | the three handlers in turn have the effect of one arrival on the slots |
| `Sender.PickIsLeast` | common/large_packet.c:386-418 | the picked index is the least requested one; nothing found means nothing requested below the count |
| `Sender.NextSendIsExact` | common/large_packet.c:349-384 | a successful send transmits the exact slice of the least requested index and removes that index only |
| `Sender.NothingFoundSendsEmpty` | common/large_packet.c:386-418 | when only sub-packets that do not exist are requested, sub-packet 0 goes out empty and only index 0 leaves the mask |
| `Sender.FailedSendEndsLoop` | common/large_packet.c:316-325 | a failed send leaves the mask alone and ends the loop at its next test |
| `Sender.LoopDrains` | common/large_packet.c:296-328 | with sends that succeed, a suspended loop sends the members of its mask once each in ascending order and ends with an empty mask |
| `Sender.WholeTransferCarriesContent` | common/large_packet.c:296-418 | a transfer of the whole mask sends sub-packets 0..n-1 whose payloads concatenate to the registered content |
| `Sender.RequestIsAbsorbed` | sender/large_packet_sender.c:279-294 | whether the loop is idle or busy, exactly the requested sub-packets go out, once each, in order, under the id and with the period of the request |
| `Sender.RequestIsLostAfterFailure` | common/large_packet.c:316-325 | a request that meets a loop whose last send failed gets nothing sent |
| `Sender.LoopEndsIffInRange` | common/large_packet.c:316-320 | with sends that succeed, the loop ends if and only if only existing sub-packets are requested (index 0 when nothing is registered) |
| `SenderNode.SenderNode.constructor` | common/large_packet.c:131 | the zeroed struct with nothing being sent |
| `SenderNode.SenderNode.RegisterTx` | common/large_packet.c:164-196 | returns 0 exactly for a length that needs 1 to 64 sub-packets and registers it with its count; rejects the rest without a change |
| `SenderNode.SenderNode.PickNextToSend` | common/large_packet.c:386-418 | the scanning loop finds what `Sender.PickFrom` defines |
| `SenderNode.SenderNode.LpspSend` | common/lp_subpacket.c:67-105 | the frame handed to the UDP layer is the packed sub-packet |
| `SenderNode.SenderNode.NextSubPacketSend` | common/large_packet.c:349-384 | sends one frame and updates the mask in place as `Sender.NextSend` says |
| `SenderNode.SenderNode.SendLoop` | common/large_packet.c:296-328 | one pass of the send process from its loop test to its wait or its end |
| `SenderNode.SenderNode.TimerExpired` | common/large_packet.c:316-320 | the expired timer resumes the loop exactly when it is suspended |
| `SenderNode.SenderNode.LargePacketSend` | common/large_packet.c:198-211 | refuses while sending, and restarts the send process otherwise |
| `SenderNode.SenderNode.ReplyToRequest` | sender/large_packet_sender.c:276-296 | overwrites id, mask and period of the shared struct, busy or not, then tries to send |
| `Receiver.SignalAsksForAll` | receiver/large_packet_receiver.c:118-154 | a signal is answered with a request for all its sub-packets; more than 64 change nothing |
| `Receiver.StorageFitsLargest` | receiver/large_packet_receiver.c:53-55 | the storage holds, with its terminator, exactly the contents that can be sent |
| `Receiver.SignalStartsSession` | receiver/large_packet_receiver.c:136-147 | whatever the struct held before, a signal leaves an empty session: nothing received, len 0, four re-requests, the id and count of the signal, storage untouched |
| `Receiver.TimeoutAsksForMissing` | common/large_packet.c:235-246 | a time-out asks for exactly what is missing while a re-request is left, and aborts after that |
| `Receiver.StoreReceives` | common/large_packet.c:268-280 | storing a sub-packet keeps every received slice in place, adds its index, and is done exactly when nothing is missing |
| `Receiver.StoresWhatCame` | common/large_packet.c:265-275 | a sub-packet of the session's packet, first or repeated, is copied to its place and nowhere else, counted in len and marked |
| `Receiver.DoneTestUsesFrame` | common/large_packet.c:277-280 | the session is done exactly when the received indices with the new one are 0..n-1 for the count n in the frame, whatever the signal told |
| `Receiver.DoneMeansContent` | common/large_packet.c:277-284 | when the done test holds, the storage starts with the content |
| `Receiver.AnyOrderReassembles` | common/large_packet.c:247-281 | for every order and repetition of sub-packets, the session is done exactly when their indices cover all, posts once, and the bytes are the content with the rest of the storage untouched |
| `Receiver.LengthIsConserved` | common/large_packet.c:271-273 | over every accepted sequence, len is its old value plus the bytes no longer missing plus the bytes of repeats, modulo 2^16 |
| `Receiver.LengthAtCompletion` | common/large_packet.c:271-280 | at completion len is the content length plus the bytes of repeats, modulo 2^16 |
| `Receiver.LengthFromSignal` | receiver/large_packet_receiver.c:136-147 | from any signal, whatever was received and counted before, sub-packets that cover all leave len at the content length plus the bytes of repeats, modulo 2^16 |
| `Receiver.SessionEnds` | common/large_packet.c:225-287 | a session that gets k events is over after k + left + 1 iterations, re-requests at most left times, and posts exactly when it ends through rx_done |
| `Receiver.SessionFromSignal` | receiver/large_packet_receiver.c:134-158 | from its signal a session lasts at most k + 5 iterations and sends at most five requests |
| `ReceiverNode.ReceiverNode.constructor` | receiver/large_packet_receiver.c:84-88 | the zeroed struct over its zeroed storage |
| `ReceiverNode.ReceiverNode.LpreqSend` | common/lp_request.c:63-112 | the frame handed to the UDP layer is the packed request |
| `ReceiverNode.ReceiverNode.RequestForMissingSubpackets` | common/large_packet.c:330-347 | sends a request for the missing word |
| `ReceiverNode.ReceiverNode.OnSignalEvent` | receiver/large_packet_receiver.c:113-162 | resets the struct, requests everything and restarts the receive process |
| `ReceiverNode.ReceiverNode.OnTimerExpired` | common/large_packet.c:235-246 | a time-out of the receive process |
| `ReceiverNode.ReceiverNode.OnSubPacketEvent` | common/large_packet.c:247-287 | copies in place and updates len and mask as `Receiver.OnSubPacket` says, or aborts on another id |
| `Network.HearRequest` | common/large_packet.c:420-442 | a packed request in flight ends up, complete, in the request slot |
| `Network.HearReply` | common/large_packet.c:420-442 | a packed signal or sub-packet in flight ends up, complete, in its slot |
| `Network.AnnouncesWhatIsRegistered` | sender/large_packet_sender.c:249-262 | a registered packet is announced under the id and with the count that its sub-packets will carry |
| `Network.RegisteringLeavesTransfer` | common/large_packet.c:164-196 | a registration touches nothing of a transfer under way but content, count and id; one above 64 times 330 bytes, or empty, touches nothing and is not announced |
| `Network.ExpiryAsksOrAborts` | common/large_packet.c:235-246 | an expired timer, alone or with a sub-packet event, puts one request for exactly what is missing on the network while a re-request is left, and ends the session without a post after that; the event is dropped and what was received stays |
| `Network.DroppedEventChangesNothing` | common/large_packet.c:250-255 | a sub-packet event that meets a fault or no session changes nothing but its queue |
| `Network.OtherPacketEndsSession` | common/large_packet.c:257-263 | a sub-packet of another id ends the session and touches nothing that was received |
| `Network.ForeignEventIsDropped` | sender/large_packet_sender.c:276-296 | an event that no process of its node acts on leaves the queue and changes nothing else |
| `Network.IdleStepChangesNothing` | common/large_packet.c:225-328 | a step that finds nothing to do changes nothing |
| `Safety.StepKeeps` | common/large_packet.c:213-418 | every step keeps the invariant: each received bit has its slice in place, each sub-packet under way carries the exact slice and count, each request asks only for existing sub-packets |
| `Safety.EndToEndSafety` | common/large_packet.c:213-290 | in every run with one content, no copy or shift leaves its range, and whenever event_lp_received is posted the storage starts with the content |
| `Safety.CopiesStayInBuffers` | common/large_packet.c:268-279 | in every run with one content, no step that could be next copies out of the handlers' buffer or out of the storage, or shifts a mask by its width; every datagram in flight meets what the listening callback requires |
| `Safety.SingleActiveTransfer` | common/large_packet.c:198-211 | in every run, the sending flag is set exactly while the send process is suspended in its loop |
| `Safety.RequestsStayInRange` | common/large_packet.c:330-347 | in every run with one content, the send mask and every request in flight or waiting in the slot stay within 0..n-1 |
| `Safety.IdsInTurn` | sender/large_packet_sender.c:218-269 | after k registrations from the start, the next one registers and announces its content under the id k modulo 2^16 |
| `Safety.NearIdsDiffer` | sender/large_packet_sender.c:218-269 | registrations less than 65536 apart never share an id |
| `Traffic.CountersOfDatagrams` | common/large_packet.c:367-379 | the counters of sub-packets and requests count what entered the network |
| `Traffic.TrafficBudget` | common/large_packet.c:223-239 | in every run with one content, sub-packets sent and still to be sent never exceed those asked for, and at most five whole packets go out per signal heard, plus one per copy of a request made by the network |
| `Observed.ObservedTrafficBudget` | common/large_packet.c:223-239 | the same budget against the very requests and signals that the processes took in the run |
| `Overwrite.StepCovers` | common/large_packet.c:275-280 | within a session, every request on its way is left over from before or asks for everything still lacking |
| `Overwrite.ServesIffCovers` | sender/large_packet_sender.c:287-293 | serving a request leaves nothing lacking behind, and the loop under the id of the session, if and only if the request asks for everything lacking under that id |
| `Overwrite.OverwritingLosesNothing` | sender/large_packet_sender.c:276-296 | from any reachable start of a session, in every run of it, serving a request leaves everything that the receiver lacks in the send set, under the id that it waits for, unless the request was on its way at the start and asks for anything but the whole packet announced |
| `Overwrite.OverwritingIsSafeIffNoLeftOver` | sender/large_packet_sender.c:276-296 | for every start of a session: every request served in every run of it leaves nothing lacking behind, under the session's id, if and only if, at the start, every request on its way asks for the whole packet announced under its id |
| `StaleRequests.StaleRequestDropsLacking` | receiver/large_packet_receiver.c:134-158 | for every content of two sub-packets or more there is a run in which a request left over from before the session is served while its transfer is under way, and takes a sub-packet out of the send set that was in it and that the receiver lacks |
| `StaleRequests.StaleRequestCutsShort` | sender/large_packet_sender.c:287-293 | for every content there is a run, with nothing lost and nothing failing, in which a whole-packet request left over for an earlier id is served in the middle of a transfer, and the receiver abandons the live session with all four re-requests unused |
| `Recovery.ServingStartsTransfer` | sender/large_packet_sender.c:276-296 | serving a covering request puts everything lacking on its way, whatever was lost before, busy or not |
| `Recovery.LosslessKeeps` | common/large_packet.c:225-328 | as long as nothing lacking loses its last trace (in the mask, in flight or in the slot), everything lacking stays on its way, through losses of anything spare, faults, time-outs, re-requests, overwrites, and registrations while the send loop is not at work |
| `Recovery.QuietMeansDelivered` | common/large_packet.c:277-287 | when nothing is left on its way, the session has posted exactly once and the storage starts with the content |
| `Disturbed.SessionIsSafeIffStarting` | receiver/large_packet_receiver.c:134-158 | for every start of a session with only sub-packets queued behind its signal: no run cuts the session short and no request served in any run leaves anything lacking behind, if and only if everything left over from before belongs to the announced id and every request left over asks for the whole packet |
| `Completion.StepInSession` | common/large_packet.c:213-328 | every step, lossy or not, keeps a session free of other packets, but for another signal and a registration that changes the id of a loop at work; and the session ends only by posting or by running out of re-requests |
| `Completion.TransferCompletes` | common/large_packet.c:213-328 | a transfer can always be completed by a bounded number of steps without loss |
| `Completion.SessionRecovers` | common/large_packet.c:213-290 | whatever went wrong since the session started, once a request is served with no failed send pending and nothing lacking loses its last trace from there on, the session posts once and delivers as soon as all is quiet |
| `Completion.ReRequestCompletes` | common/large_packet.c:235-246 | in every state of a session that may still re-request, that one re-request and a bounded number of steps without loss deliver the content |
| `Beside.RunBeside` | common/large_packet.c:420-442 | in every run, datagrams in flight that are never heard make no difference to either node |
| `Beside.LostIsNeverHeard` | common/large_packet.c:420-442 | losing any datagrams one by one leads to the state without them: never to arrive is to be lost |
| `Beside.CopyIsOneMore` | common/large_packet.c:420-442 | a copy made by the network is the same as one left-over datagram more |
| `Beside.SessionRecoversBeside` | common/large_packet.c:213-290 | recovery holds beside any left-over requests and replies that do not arrive |
| `Beside.ReRequestCompletesBeside` | common/large_packet.c:235-246 | so does completion by one re-request |
| `Completion.EveryContentCanBeDelivered` | receiver/large_packet_receiver.c:113-162 | from the initial state there is, for every sendable content, a run that delivers it and posts once |
| `Reregistration.NotifyKeepsSessionIff` | common/large_packet.c:180-185 | registering the same content again keeps a session undisturbed if and only if the send loop is not at work or the id is the session's; at work means waiting for its timer with something left to send and no failed send behind it |
| `Reregistration.RegisteringCutsShort` | common/large_packet.c:257-263 | a registration under another id while the loop is at work makes it send under the new id, and the receiver abandons the live session with nothing lost and nothing failing |
| `Reregistration.RegisteringIsSafeIff` | common/large_packet.c:180-185 | in a live session that may still re-request, a registration is safe in every continuation if and only if the send loop is not at work or the id is the session's |
| `Reregistration.RegisteringCanCutShort` | sender/large_packet_sender.c:243-269 | for every content of two sub-packets or more there is a run from the initial state, with nothing lost, in which registering the same content again abandons a live session |
| `Mislabelling.LabelsNeedFixedContent` | sender/large_packet_sender.c:284-293 | for two contents of one count there is a run that delivers the second under the id of the first; for contents of one length, every delivery under the first id is the first content if and only if the contents are equal |
| `Mislabelling.AnotherContentWhenItFits` | common/large_packet.c:164-196 | any content of any length may be registered when nothing under way tells it from the old one, in particular when no session lives and nothing is under way: from there on, in every run, whatever is posted is the new content |

## Left out

- The Mira runtime, radio, UART, UDP sockets, joining, root lookup and route delays: calls into libraries that are
  not part of this model. A send may fail, and the rest is a bag of datagrams.
- Real time and tick arithmetic (`common/large_packet.c:228`, `common/large_packet.c:318`): a timer may expire at any wait.
- `large_packet_monitor_proc`, with its terminator write (`receiver/large_packet_receiver.c:171`): display code that runs
  later on a struct that may have been reset. The guarantee is stated at the post.
- Fault generation (`common/large_packet.c:444-448`): a fault may or may not be injected at each event.
- More than one sender, and addresses and ports: the source does not check them (`README.md:153-155`).
- Changing the registered content while something of the old one is under way: `Mislabelling.LabelsNeedFixedContent`
  shows what happens then. The sender shown registers one static buffer.
- Frames that only a hand could make, with an index of 64 or more, a count above 64 or a payload above 330 bytes: the
  source copies or shifts out of range, which has no meaning to model. The system model records it as a crash, and
  `Safety.CopiesStayInBuffers` shows that no run comes to it.
- Listener.UnpackSubPacketBuffer: requires that a frame that it accepts fits the payload buffer, to which the source
  copies it unchecked; rejected frames may have any length.
- Listener.Handlers.HandleSubPacket: requires the same of a frame that it accepts.
- Listener.Handlers.UdpListenCallback: requires the same of a datagram that is accepted as a sub-packet.
- Receiver.SessionEnds: requires that an event that the loop stores fits the mask and the storage.
- Receiver.SessionFromSignal: the same.
- ReceiverNode.ReceiverNode.OnSubPacketEvent: requires that an event that it stores fits the mask and the storage;
  events that it drops or aborts on are not restricted.
- `large_packet_request` (`common/large_packet.h:77-80`): declared there, with no definition in the repository.
- Null-pointer tests, debug output and address formatting.
- The order in which the processes of one node see a broadcast event: one queue per node, and each event kind has one
  process that acts on it.
- Completion.SessionRecovers: starts from a signal with nothing of another packet id under way and no left-over request for
  less than the whole packet. Without that the session can fail: exactly then no run is cut short and no served request
  leaves anything behind (`Disturbed.SessionIsSafeIffStarting`). Left-overs that never arrive are allowed by
  `Beside.SessionRecoversBeside`. It leaves out runs in which another signal arrives, which starts another session, and
  registrations that change the id of a loop at work (`Reregistration.RegisteringIsSafeIff`). The served request must find
  no failed send pending (`Sender.RequestIsLostAfterFailure`).
- Completion.ReRequestCompletes: the same, with `Beside.ReRequestCompletesBeside`.
- Overwrite.OverwritingLosesNothing: excludes requests left over from before the session that ask for anything but the whole
  packet announced, as it must (`Overwrite.OverwritingIsSafeIffNoLeftOver`).
- Disturbed.SessionIsSafeIffStarting: supposes that no second signal is queued behind the one that starts the session.
- Mislabelling.AnotherContentWhenItFits: is not shown to be exact; the invariant behind it is
  (`Mislabelling.RenewedIffFitsToo`).
- Mislabelling.LabelsNeedFixedContent: for contents of different counts nothing is said of a change under way, because a
  request may then name sub-packets that do not exist (`Sender.LoopEndsIffInRange`).
