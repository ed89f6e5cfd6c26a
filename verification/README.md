# HORD stream: a verified model

HORD carries a byte stream, and one-sided RDMA writes beside it, over one reliable RDMA
connection. This project models the stream state machine (`hord-stream`), the
asynchronous drivers (`hord-async`) and the zero-copy layer (`hord-zerocopy`) in Dafny,
and proves what they promise over every run, every interleaving and every input.

How the modules fit together:

- `StreamState` is one end as a value: the fields of `HordStream`, the queues of its
  connection, registered memory, and the operations on them. `StreamSystem` joins two
  ends by a reliable FIFO channel: a send or a write-with-immediate waits at the head of
  the send queue until the receiver has a posted receive, takes the oldest one, completes
  there, and is acknowledged later. The NIC reads a send slot when it delivers, not when
  the work request is posted, so the byte stream rests on slot ownership. A queue pair can
  die at any time, after which work requests are flushed with failed completions; and it
  can refuse posts while it is alive, also in the middle of a gather.
- `StreamSteps` proves that every move keeps the invariant; `StreamRuns`,
  `StreamTheorems`, `StreamHeadroom`, `StreamProgress`, `StreamDelivery`, `StreamFlush` and
  `SplitPlane` draw the theorems about whole runs, from any two compatible ends and for any schedule.
- `HordStreams` is the object itself, with its fields updated in place. Each method is
  tied to the operations of `StreamState`, and each call to a sequence of moves
  (`CallIsRun`), so the theorems hold between calls.
- `GatherPlan`, `GatherBatches` and `GatherWrites` are the scatter-gather planner;
  `WriteDrivers` and `ZeroCopy` the drivers and the server policy on top, against any
  behaviour of the network and of the other end; `SourcePools` the source buffers.
- `Reactor` and `PumpSplit` are the completion-channel reactor and the multi-waiter pump.
- `EnvelopeCodec`, `HandshakeCodec`, `Negotiation`, `WrIds`, `HeaderText` and
  `HeaderCodec` are the wire formats. `Negotiation.HandshakeCompatible` connects them:
  what the handshake agrees on is where the stream theorems start.

`dafny verify dfyconfig.toml` checks everything.

Where the code does not keep a promise of its documentation, the code is modelled as it
is, the failing case is shown, and the condition is proved:

- a successful `flush` means delivery if the stream is not closed afterwards
  (`FlushBarrier`); if it is closed nothing can be said, by any test of the sender
  (`FlushWithoutDelivery`, `FlushCannotTell`);
- sends and writes fit the send pool in exactly the runs that post no data message over
  pending writes (`SendQueueBound`, `SendQueueOverrun`);
- there is always a receive for every immediate on its way exactly when split mode was
  negotiated or the peer advertised no window, since the admission check does not look at
  the negotiated mode (`ReadyExactly`);
- the two ends agree on split mode unless exactly one of them has no transfer credits
  (`SameModes`, `SplitDisagreement`), on the message size unless a size of 2^32 or more is
  cut by its cast (`SameMessageSize`, `SizeDisagreement`), and on the window exactly below
  65536 buffers (`AdvertisedWindow`, `WindowLost`);
- both write drivers drain every work request before they return, unless they poll a
  completion whose receive is to be posted again and the queue refuses it; that is exactly
  when they return the failed poll, and what they had posted may then still be with the NIC
  (`PostAndDrain`, `GatherAll`, `DriveWrite`, `EarlyReturn`);
- a parked handle can have something to do when another handle's post is refused, in
  exactly the states the guards name, and then until the pump's next turn
  (`PollRead`, `PollWrite`, `PollFlush`, `LostWakeup`, `WakeAfterDeath`).

## Model

| member | source | states |
|---|---|---|
| `StreamTheorems.ByteStream` | hord-stream/src/stream.rs:1404-1511 | In every run the bytes read and held at one end are a prefix of those written at the other, and over a working connection so is everything on its way; unless a post of the sender was refused or one of its sends failed, the bytes written are exactly those read, held, in transit and staged, in order, for any chunking; the stage never holds a whole message |
| `StreamTheorems.CreditConservation` | hord-stream/src/stream.rs:1147-1176 | While both queue pairs work, credits held, data messages in flight or held, credits owed and credits riding back never exceed the advertised pool, and equal it unless one of the receiver's posts was refused; in every run credits and unpolled grants, and held and unpolled messages with the credits owed for those done, stay within the pool, so the saturating addition never saturates |
| `StreamTheorems.AllOwedCreditGoes` | hord-stream/src/stream.rs:1279-1361 | In every run the credits owed are at most the pool and fit the wire field, so a credit return or data message that is posted carries exactly what was owed, as the last frame of the send queue, and nothing is owed afterwards |
| `StreamTheorems.SlotOwnership` | hord-stream/src/stream.rs:1102-1120 | In every run, failures included, each send slot has exactly one owner and each receive slot at most one (exactly one until a post is refused or a flushed receive is polled), the free lists are duplicate-free and in range, and at most one control message is anywhere |
| `StreamTheorems.ReceiverReady` | hord-stream/src/stream.rs:105-115 | At a receiver that has polled its receive completions nothing waits on receiver-not-ready; there is a receive for everything on its way if and only if the immediates fit the headroom and the spare credits; and they do whenever split mode was negotiated or there is no window |
| `StreamTheorems.PostedExactly` | hord-stream/src/stream.rs:147-159 | What such a receiver has posted, exactly: the control slack, the split headroom, one receive for each data message on its way and one for each credit that could still be spent |
| `StreamHeadroom.ReadyExactly` | hord-stream/src/stream.rs:1633-1660 | For any two compatible ends: every run has a receive for every immediate on its way if and only if split mode was negotiated or the peer advertised no window |
| `StreamRuns.RunInv` | hord-stream/src/stream.rs:1063-1178 | Every schedule of moves from a fresh connection keeps the whole invariant |
| `StreamSteps.StepKeeps` | hord-stream/src/stream.rs:1063-1178 | Every single move of either end or NIC keeps it |
| `StreamSteps.PollKeeps` | hord-stream/src/stream.rs:1063-1178 | Handling any completion keeps it: data, control, write, immediate, and every failure |
| `StreamSteps.PostKeeps` | hord-stream/src/stream.rs:1279-1303 | Posting a data message keeps it, whether the post works, the queue pair is dead, or a live one refuses it |
| `StreamSteps.CreditKeeps` | hord-stream/src/stream.rs:1341-1361 | Returning credits over the control lane keeps it, refused or not |
| `StreamSteps.KeepBegin` | hord-stream/src/stream.rs:1853-1886 | Posting admitted one-sided writes keeps it, also when a post in the middle of the gather fails |
| `StreamSteps.PostDataFrames` | hord-stream/src/stream.rs:1279-1303 | The posted message is what the NIC will read next after everything posted before it |
| `StreamSteps.HandleMeans` | hord-stream/src/stream.rs:1063-1178 | Each class of completion field by field, in any state: what it gives back or hands out, that a failure always closes and touches nothing received, and that a success closes exactly when a receive cannot be posted again |
| `StreamSteps.PollSendSlots` | hord-stream/src/stream.rs:1182-1188 | Reaping a send hands its slot from the completion to the free list and changes no other owner |
| `StreamSteps.PollRecvOwners` | hord-stream/src/stream.rs:1122-1177 | Polling a receive sends its slot back to the NIC, or leaves the whole message held in it, or gives it up, and that only when its post is refused or it was flushed; no other slot changes hands |
| `StreamSteps.ReadBytes` | hord-stream/src/stream.rs:1494-1508 | One turn of the read loop moves bytes from held to read and loses none |
| `StreamProgress.DeadlockFree` | hord-stream/src/stream.rs:2232-2241 | In every reachable open state with an accepted byte unread, a deliver, acknowledge, poll, read, flush or credit-return move is possible, with both ends out of credits and with credits returned only from the threshold on |
| `StreamProgress.Unblock` | hord-stream/src/stream.rs:1341-1377 | A sender without slot or credit is never stuck: something that will free one can happen |
| `StreamDelivery.Delivery` | hord-stream/src/stream.rs:1279-1377 | For any bytes and gathers to be written at both ends, every way of carrying out the work, whenever credits are returned, stops within thirteen moves a byte and six a write; where it can go no further, even with credits returned only from the threshold on, each reader has exactly what the other end was given, and all gathers that can be posted at all have landed in order with their IDs handed out |
| `StreamDelivery.MoveWeight` | hord-stream/src/stream.rs:1404-1523 | Each protocol move, credit returns of any size and posted gathers included, lowers a weighted measure of what is unsent, in flight, held, owed and unacknowledged |
| `StreamFlush.FlushBarrier` | hord-stream/src/stream.rs:2272-2300 | In every run, a flushed end that is not closed has had every accepted byte delivered |
| `StreamFlush.FlushWithoutDelivery` | hord-stream/src/stream.rs:1110-1113 | A run in which an end looks flushed although nothing arrived, because a failed completion gave the slot back |
| `StreamFlush.FlushCannotTell` | hord-stream/src/stream.rs:2288-2300 | Two runs that leave the sender in the same state, flushed and closed, one with everything delivered and one with nothing: no test of the sender tells them apart |
| `StreamFlush.SendQueueBound` | hord-stream/src/stream.rs:1633-1660 | In every run, sends and writes fit the send pool at every point if and only if no data message was posted over pending writes; and then the queue pair's `send_pool + 2` entries are never full |
| `StreamFlush.SendQueueOverrun` | hord-stream/src/stream.rs:1269-1271 | A run of two moves that exceeds the pool, because the test for sending does not look at pending writes |
| `StreamFlush.MoveFits` | hord-stream/src/stream.rs:1269-1271 | One move keeps the bound if and only if it is not such a post |
| `StreamFlush.OutstandingIs` | hord-stream/src/stream.rs:528-541 | The free list and the write counter say exactly how full the send queue is |
| `WriteDrivers.Driver.Flush` | hord-stream/src/stream.rs:2272-2300 | Against any network: success means nothing staged or outstanding, and if the stream is then not closed everything accepted has arrived; failure means a closed stream; it is still waiting only with something unflushed and nothing left to handle |
| `WriteDrivers.Driver.AwaitAcks` | hord-stream/src/stream.rs:2288-2300 | The waiting half of it: over exactly when no data send or write is outstanding |
| `WriteDrivers.Driver.Write` | hord-stream/src/stream.rs:2248-2265 | The blocking write accepts every byte, in order; it fails only on a closed stream, and then a prefix was accepted; it is still waiting only with bytes left and nothing left to handle |
| `WriteDrivers.Driver.TryWrite` | hord-stream/src/stream.rs:1404-1453 | As moves of the two ends: a prefix of the buffer is accepted, and all of it unless no message can be sent |
| `WriteDrivers.Driver.Read` | hord-stream/src/stream.rs:2232-2241 | The blocking read hands over the next bytes of the stream, as many as are held and fit; none at all only at its end; it is still waiting only with nothing held and nothing left to handle |
| `SplitPlane.TransferOrder` | hord-stream/src/stream.rs:1072-1099 | Transfer IDs come out once each and in posting order; every write posted up to the last ID out has landed; the count of unreaped immediates is exact and within the peer's window |
| `SplitPlane.TransferBytes` | hord-stream/src/stream.rs:1853-1880 | When a gather's ID comes out, its bytes are in the destination at every address no other write touches, however its writes were interleaved with others |
| `SplitPlane.WritesLanded` | hord-stream/src/stream.rs:1081-1099 | An end that is not closed and has no write outstanding has had every posted write applied at the other end, in order; otherwise what was applied is a prefix |
| `SplitPlane.CreditsUntouched` | hord-stream/src/stream.rs:1072-1080 | Posting, delivering, acknowledging and reaping writes and handing out IDs change no stream credit at either end |
| `HordStreams.CallIsRun` | hord-stream/src/stream.rs:1390-1523 | Whatever one end's code does in a call is a schedule of the two-end system |
| `HordStreams.CallKeepsInv` | hord-stream/src/stream.rs:1390-1523 | So the invariant holds between calls, after any run and any call |
| `HordStreams.HordStream.HandleCompletion` | hord-stream/src/stream.rs:1063-1178 | The dispatcher does exactly `Handle`, whose preservation of the invariant is `PollKeeps`, and fails exactly on runts and refused receives |
| `HordStreams.HordStream.Receive` | hord-stream/src/stream.rs:1122-1177 | The receive branch: the credits of the header are added, saturating at 32 bits; payload is held, and a message without any is one credit more owed unless it is credit-only; an error exactly for runts and refused receives |
| `HordStreams.HordStream.Pump` | hord-stream/src/stream.rs:1021-1047 | Without blocking: one completion handled if there is one |
| `HordStreams.HordStream.PostDataMessage` | hord-stream/src/stream.rs:1279-1303 | The message is the next one the NIC will read after everything posted before, and carries all owed credit up to 65535, which leaves nothing owed; one slot and one credit are spent; a refused post spends neither |
| `HordStreams.HordStream.SendCreditReturn` | hord-stream/src/stream.rs:1341-1361 | All owed credit up to 65535 leaves on the control slot, which is then busy, and nothing stays owed; a refused post closes the stream and changes neither |
| `HordStreams.HordStream.MaybeReturnCredits` | hord-stream/src/stream.rs:1366-1371 | From the threshold on, and only then, all owed credit leaves if the control slot is free and the stream open |
| `HordStreams.HordStream.TryWrite` | hord-stream/src/stream.rs:1404-1453 | Accepts exactly `Accepted` bytes, in order; stops short only when no message can be sent, having returned what credit it could, and returns none otherwise; closes the stream exactly when it comes to a post that is refused |
| `HordStreams.HordStream.TryFlushStage` | hord-stream/src/stream.rs:1459-1470 | True means the stage is empty; false means no message can be sent and no credit is left to return; closes exactly when it comes to a refused post |
| `HordStreams.HordStream.TryRead` | hord-stream/src/stream.rs:1482-1511 | Hands over the first min(len, held) held bytes, leaves the rest of the buffer alone, says would-block exactly when nothing is held and the stream is open; each message read to its end is one credit owed, and the sum goes back exactly when it is a quarter of the pool, rounded down and at least one; closes exactly when it comes to a refused post |
| `HordStreams.HordStream.DrainCompletions` | hord-stream/src/stream.rs:1390-1396 | Every queued completion is handled, in order, once; it fails exactly when the last one it polls cannot be handled |
| `HordStreams.HordStream.ReturnOwedCredits` | hord-stream/src/stream.rs:1516-1523 | Urgent returns whatever is owed, otherwise exactly from a quarter of the pool on; fails exactly when that return is refused |
| `HordStreams.HordStream.NextCompletedTransfer` | hord-stream/src/stream.rs:939-941 | The oldest landed transfer ID, removed |
| `GatherPlan.PackSound` | hord-stream/src/stream.rs:1672-1718 | Work requests of 1 to max_sge non-empty entries and 1 to WRITE_WR_MAX bytes carry every byte of the segments once, in order, and each is full |
| `GatherPlan.PlanOptimal` | hord-stream/src/stream.rs:1677-1717 | No in-order packing of the same segments under both caps uses fewer work requests |
| `GatherPlan.CountSlice` | hord-stream/src/stream.rs:1734-1780 | Any run of the segments needs no more work requests than all of them |
| `GatherPlan.SoloCount` | hord-stream/src/stream.rs:1729-1780 | One segment needs more work requests than the budget if and only if it is longer than budget times WRITE_WR_MAX |
| `GatherPlan.StaysAhead` | hord-stream/src/stream.rs:1672-1780 | Cutting as late as possible makes the fewest parts, for any property closed under sub-ranges |
| `GatherBatches.PlanGather` | hord-stream/src/stream.rs:1672-1718 | The loops over the entry array emit exactly the packing, each work request at the offset of its first byte |
| `GatherBatches.NextBatchLen` | hord-stream/src/stream.rs:1734-1780 | The longest prefix whose packing fits the budget, or the first segment alone, with its exact size |
| `GatherBatches.LongestIs` | hord-stream/src/stream.rs:1734-1780 | A prefix fits the budget if and only if it is no longer than the chosen one |
| `GatherBatches.BatchesAre` | hord-stream/src/stream.rs:1999-2013 | The batches tile the source, each as long as it can be |
| `GatherBatches.BatchesFit` | hord-stream/src/stream.rs:1640-1648 | Every batch of more than one segment passes the send-pool check |
| `GatherBatches.BatchesOptimal` | hord-stream/src/stream.rs:1734-1789 | No cut at segment boundaries into affordable batches makes fewer batches |
| `GatherWrites.GatherIsOneCopy` | hord-stream/src/stream.rs:1799-1886 | The batched writes change exactly `[addr, addr+total)`, which then holds the segments in a row; an immediate rides once, on the last work request, also for empty gathers |
| `GatherWrites.BatchedPutsAre` | hord-stream/src/stream.rs:1983-2016 | The same as a tiling without gap or overlap, batch by batch |
| `GatherWrites.GatherPutsAre` | hord-stream/src/stream.rs:1799-1886 | The same for one gather call |
| `GatherWrites.DescribeWrites` | hord-stream/src/stream.rs:1830-1880 | The posting pass posts exactly those writes, with the immediate on the last or on an empty one |
| `WriteDrivers.Driver.Begin` | hord-stream/src/stream.rs:1633-1886 | Each outcome from the fields: broken pipe exactly when closed; too long exactly when the gather needs more work requests than the send pool; would-block exactly when outstanding writes and new ones exceed the free slots, or an immediate meets a full window; a failed post exactly when the queue then takes fewer; otherwise everything is posted, in order. Nothing is posted on the first three, and an immediate needs no negotiated split mode |
| `WriteDrivers.Driver.PostRetrying` | hord-stream/src/stream.rs:1953-1965 | The retry loop: posted if and only if everything is and the stream is open; too long exactly when the pool is too small for the gather; it gives up only on a stall, a failed poll or a closed stream, and is cut off only with nothing left to handle |
| `WriteDrivers.BatchLengths` | hord-stream/src/stream.rs:1640-1648 | A batch exceeds the send pool if and only if it is a segment longer than the pool times WRITE_WR_MAX |
| `WriteDrivers.Driver.PostAndDrain` | hord-stream/src/stream.rs:1944-1981 | A blocking write succeeds if and only if everything is posted, nothing is outstanding and the stream is open; too long if and only if the gather exceeds the send pool on an open stream (unless cut off or broken off before that is reported); a stall means an immediate and a window of zero; every other error means closed; it is cut off only with nothing left to handle. It reports a failed poll if and only if it polled a completion that could not be handled; after every other error nothing can still read the source, and after that one a blocking write that had posted anything is still outstanding |
| `WriteDrivers.Driver.GatherAll` | hord-stream/src/stream.rs:1983-2016 | Succeeds if and only if exactly `BatchedPuts` is posted, nothing is outstanding and the stream is open; stopping early has posted a prefix; too long only if some segment exceeds the send pool times WRITE_WR_MAX, and with such a segment it never succeeds; the other errors as for `PostAndDrain` |
| `WriteDrivers.Driver.DriveBatches` | hord-async/src/lib.rs:926-959 | Whatever other tasks do on the same end meanwhile, the asynchronous loop posts the same work requests as the blocking one, in order among theirs, and each way it ends means the same |
| `WriteDrivers.Driver.DriveWrite` | hord-async/src/lib.rs:906-965 | On success all of them have landed, in order among the others; each error means what it means for the blocking form; a failed poll is reported if and only if one happened, and otherwise, cancellation included, no work request can still read its source |
| `WriteDrivers.Driver.Dropped` | hord-async/src/lib.rs:695-709 | The armed guard kills the queue pair if and only if a write is outstanding, and changes nothing else |
| `WriteDrivers.Driver.Wait` | hord-stream/src/stream.rs:1021-1047 | The network moves before each look at the queue; meanwhile a blocking write has its end to itself and an asynchronous one shares it with any moves; it wakes having polled or with the stream closed, breaks off if and only if a completion it polls cannot be handled, and stays asleep only with nothing left to handle |
| `WriteDrivers.Driver.Drain` | hord-stream/src/stream.rs:1966-1972 | Polls until no write is outstanding, and not at all if none is; fails if and only if a completion it polls cannot be handled, and then a blocking write is still outstanding |
| `WriteDrivers.Driver.PollNext` | hord-stream/src/stream.rs:1021-1047 | Polling fails if and only if the completion cannot be handled, which closes the stream and reaps nothing |
| `WriteDrivers.EarlyReturn` | hord-stream/src/stream.rs:1961-1971 | A driver built from a run, whose drain loop, blocking or asynchronous, returns the failed poll with a write live over a working connection |
| `WriteDrivers.StallMeansNoWindow` | hord-stream/src/stream.rs:1949-1961 | Back-pressure with nothing in flight happens only for an immediate with a window of zero |
| `ZeroCopy.ServeRdmaWrite` | hord-zerocopy/src/rdma.rs:122-152 | Complete(n) only if n is the object size, the object is in the client's memory with nothing else changed, and the IDs announced are exactly the request's one in split mode and none otherwise, also for an empty object; TooLarge exactly when it does not fit, with nothing written; never Declined; an error only without a source, on a closed stream, beyond the send pool or with an ID and no window; a failed poll is always an error, and after any other error nothing reads the source |
| `ZeroCopy.ServeRdmaWritePooled` | hord-zerocopy/src/rdma.rs:163-189 | The same with a leased source, which is back in the pool when the call is over |
| `ZeroCopy.RunWritePlan` | hord-zerocopy/src/rdma.rs:197-212 | A finished write has placed the source at the address and announced its ID, if any, once; the other ends as for `PostAndDrain`, too long exactly beyond the send pool times WRITE_WR_MAX |
| `ZeroCopy.GatherPlaced` | hord-stream/src/stream.rs:1983-2016 | A finished batched gather has placed its segments in the peer's memory and changed nothing else |
| `ZeroCopy.GatherPlacedAmong` | hord-async/src/lib.rs:906-965 | A finished asynchronous gather has its bytes in the peer's memory at every address no other write posted since touches |
| `ZeroCopy.SourceReleasable` | hord-stream/src/stream.rs:1966-1972 | In every run, with no write outstanding or the queue pair gone, nothing the NIC can still deliver reads a source |
| `HeaderCodec.Decide` | hord-zerocopy/src/lib.rs:251-281 | TooLarge exactly for objects that do not fit; a write exactly for those that do and are not empty or have an ID in split mode, with the ID exactly then and a source of the object's length, one byte if empty; otherwise Complete(0) |
| `SourcePools.PoolRuns` | hord-zerocopy/src/rdma.rs:296-339 | Over any acquires and drops every pooled buffer is in one place, the number registered is the peak ever lent and at most the capacity, slabs have the configured size, and every lease is a slab that is long enough or a buffer of the length asked for; lengths of zero become one |
| `SourcePools.FallbackOnlyWhenNeeded` | hord-zerocopy/src/rdma.rs:332-339 | A one-off registration happens if and only if the request is above the slab size or the whole capacity is lent; without registration a lease succeeds exactly when it fits a slab that is free |
| `SourcePools.SourcePool.AcquireBuffer` | hord-zerocopy/src/rdma.rs:304-339 | The lease and the new pool state, which stays sound; no lease exactly when registering fails and no free slab fits |
| `SourcePools.SourcePool.DropLease` | hord-zerocopy/src/rdma.rs:362-371 | A pooled buffer goes back to the free list |
| `Reactor.NoLostCompletion` | hord-async/src/lib.rs:456-490 | For every interleaving of completions with the drain, arm, park, consume and re-arm steps, a parked driver has a notification pending or an armed, empty queue |
| `Reactor.ParksWhenQuiet` | hord-async/src/lib.rs:456-490 | While nothing arrives, a poll that finds completions handles them all and reports progress, and one that finds none is parked after at most nine steps, armed and with no stale notification |
| `Reactor.CompletionChannel.PollReactor` | hord-async/src/lib.rs:456-490 | Of the code: Ready if and only if it handled a completion or saw a disconnect; completions are neither lost nor invented; Pending leaves the queue empty and armed with no notification; with nothing queued or arriving the answer is Pending unless disconnected |
| `PumpSplit.Shared.PollRead` | hord-async/src/lib.rs:1354-1369 | Pending if and only if there is room, nothing is held and the stream stays open, after returning all credit it can; otherwise the first min(len, held) bytes are in the buffer, and zero only at the end of the stream. No parked handle is left with something to do, if and only if the guard `PollReadCloses` was false before the poll or nobody else is parked |
| `PumpSplit.Shared.PollWrite` | hord-async/src/lib.rs:1371-1386 | Pending if and only if nothing of a non-empty buffer can be accepted and the stream stays open; otherwise exactly `Accepted` bytes are taken; wake-ups as for reading, with the guard `WriteCloses`: posts refused, open, a message filled, and something to send or return |
| `PumpSplit.Shared.PollFlush` | hord-async/src/lib.rs:1388-1405 | Success means flushed, and with the stream open that everything accepted has arrived; failure means closed; Pending means neither, with nothing staged that could be sent; wake-ups with the guard `FlushCloses` |
| `PumpSplit.Shared.PollNext` | hord-async/src/lib.rs:1455-1461 | Ready if and only if an ID is queued or the stream is closed; the oldest ID first, also after a close; no wake-up is lost |
| `PumpSplit.Shared.PumpTurn` | hord-async/src/lib.rs:1228-1248 | A turn does something exactly when there was a completion or a disconnect; it handles the queue to its end or to the first failure, closes the stream exactly on that failure or on a disconnect with nothing queued, leaves no handle parked, and stops exactly when the stream is closed |
| `PumpSplit.Shared.WakeAll` | hord-async/src/lib.rs:1211-1216 | Every parked handle runs again and the list is empty |
| `PumpSplit.Shared.Register` | hord-async/src/lib.rs:1201-1207 | A parked handle's task is on the list, once |
| `PumpSplit.LostWakeup` | hord-async/src/lib.rs:1371-1386 | A schedule of polls after which the parked data plane has something to see and has not been woken |
| `PumpSplit.Shared.Run` | hord-async/src/lib.rs:1187-1248 | Over any schedule of task polls, pump turns and network moves: while no post was refused no parked handle has anything to do; otherwise the pump is still there with a receive posted or unread; once it has stopped nobody is parked |
| `PumpSplit.Shared.WakeAfterDeath` | hord-async/src/lib.rs:1228-1248 | On a dead connection one flushed receive and one turn of the pump wake everybody |
| `PumpSplit.OpenIsAudible` | hord-stream/src/stream.rs:105-115 | An end that is not closed always has two receives posted or unread |
| `PumpSplit.Shared.Network` | hord-async/src/lib.rs:1194-1196 | What the NICs and the other end do gives no parked handle anything to do before the pump drains |
| `Negotiation.HandshakeCompatible` | hord-stream/src/stream.rs:821-853 | Any two valid configurations succeed at both ends with the smaller message size, zero-copy exactly if both have it and split exactly if both ask for both; split comes with the other end's window and a headroom that covers it; the initial credits are the other end's pool; the result is compatible with the stream theorems |
| `Negotiation.SameMessageSize` | hord-stream/src/stream.rs:821-829 | For any configurations, an end succeeds if and only if its size and the peer's, after the cast, exceed the envelope; the ends use the same size if and only if the casts do not get in the way |
| `Negotiation.SizeDisagreement` | hord-stream/src/stream.rs:612-619 | Two configurations beyond the cast whose ends use different message sizes |
| `Negotiation.SameModes` | hord-stream/src/stream.rs:484-486 | For any configurations, zero-copy is agreed; split is agreed if and only if it is not the case that both ask for it and exactly one has no credits |
| `Negotiation.SplitDisagreement` | hord-stream/src/stream.rs:612-619 | Two configurations of which only one ends up in split mode |
| `Negotiation.AdvertisedWindow` | hord-stream/src/stream.rs:612-619 | The initial credits equal the receiver's pool if and only if it is below 65536, and are fewer otherwise |
| `Negotiation.WindowLost` | hord-stream/src/stream.rs:612-619 | A pool of 65536 buffers that is advertised as none |
| `HandshakeCodec.HandshakeRoundTrip` | hord-stream/src/handshake.rs:117-162 | Every handshake reads back from its wire form; cut to fourteen bytes it reads back without transfer credits |
| `HandshakeCodec.HandshakeInverse` | hord-stream/src/handshake.rs:129-162 | What decodes is what was encoded |
| `HandshakeCodec.HandshakeLayout` | hord-stream/src/handshake.rs:117-126 | The sixteen bytes by position: the letters HORD, then version, flags, size, buffers and credits, most significant byte first |
| `HandshakeCodec.Decode` | hord-stream/src/handshake.rs:129-162 | Succeeds exactly on fourteen bytes or more with the magic and version one; too short, foreign magic and other version are told apart, in this order |
| `HandshakeCodec.EncodeArray` | hord-stream/src/handshake.rs:117-126 | Filling the sixteen bytes in place gives the wire form |
| `EnvelopeCodec.FrameRoundTrip` | hord-stream/src/envelope.rs:35-49 | Header and payload read back from a slot, whatever the payload |
| `EnvelopeCodec.DecodeRoundTrip` | hord-stream/src/envelope.rs:42-49 | No two headers share a wire form |
| `EnvelopeCodec.EnvelopeLayout` | hord-stream/src/envelope.rs:35-40 | The eight bytes by position: length, credits and flags, most significant byte first |
| `EnvelopeCodec.EncodeInto` | hord-stream/src/envelope.rs:35-40 | The header is written in place and the rest of the buffer is untouched |
| `WrIds.WrIdRoundTrip` | hord-stream/src/stream.rs:171-207 | The classes of work-request identifiers are disjoint and invert, and none is a handshake's |
| `WrIds.RecvRangesDisjoint` | hord-stream/src/stream.rs:1201-1215 | Receive slots lie inside their region and never overlap |
| `HeaderCodec.ReqRoundTrip` | hord-zerocopy/src/lib.rs:81-115 | Every request reads back from what it prints |
| `HeaderCodec.StatusRoundTrip` | hord-zerocopy/src/lib.rs:141-179 | Every status reads back from what it prints |
| `HeaderCodec.RequestMeans` | hord-zerocopy/src/lib.rs:81-103 | A header parses if and only if every part is blank or has an equals sign, every number of a known key is well formed, and `addr`, `rkey` and `len` are all there; of repeated keys the last counts |
| `HeaderCodec.StatusMeans` | hord-zerocopy/src/lib.rs:141-166 | Which response values mean Complete(n), TooLarge(n) and Declined, exactly: the last `status` decides, and the last number under its name |
| `HeaderCodec.IgnoresExtra` | hord-zerocopy/src/lib.rs:83-96 | In any header value, a blank part or an unknown parameter in front, at the end or between any two parts changes neither parse |
| `HeaderCodec.TrailingSemicolon` | hord-zerocopy/src/lib.rs:83-87 | A trailing semicolon changes neither parse |
| `HeaderCodec.UnknownParameter` | hord-zerocopy/src/lib.rs:83-96 | Nor does any `key=value` with an unknown key, in any spacing |
| `HeaderCodec.IgnoresBlanks` | hord-zerocopy/src/lib.rs:83-96 | Nor do blanks around any part of any header value |
| `HeaderCodec.ParseRequest` | hord-zerocopy/src/lib.rs:81-103 | The loop computes the parse the other results are about, early exits included |
| `HeaderCodec.ParseResponse` | hord-zerocopy/src/lib.rs:141-166 | The same for the response form |
| `HeaderText.HexRoundTrip` | hord-zerocopy/src/lib.rs:187-201 | A printed hexadecimal number with its prefix parses to itself |
| `HeaderText.DigitsRoundTrip` | hord-zerocopy/src/lib.rs:106-110 | Printing and reading digits are inverse in both radices; a printed number has only lower-case digits and no leading zero |
| `HeaderText.ValueByPosition` | hord-zerocopy/src/lib.rs:187-201 | A leading digit weighs the radix to the power of the digits behind it, and one bad digit spoils the number |
| `HeaderText.NumberForms` | hord-zerocopy/src/lib.rs:187-201 | Either hexadecimal prefix, none, and a plus sign make no difference; nothing and a bare sign are no number |

## Left out

- The FFI layer (hord-core), connection-manager events and memory registration: only its contract is kept, as the NIC's moves: FIFO delivery, a completion's opcode fits its work request, a successful completion means landed, and a dead queue pair takes no post.
- Polling the completion queue itself does not fail in the model; errors while handling a completion do occur (`HandleFails`).
- Within one call of the object of `HordStreams`, whether posts are accepted does not change; between the moves of a run it changes at any time, also between two posts of one call.
- Registered memory holds decoded frames, one a slot; their byte image is covered by `FrameRoundTrip` and their place by `RecvRangesDisjoint`.
- Runt messages: no run produces one; `HordStream.Receive` refuses them.
- `FlushBarrier`: states delivery for ends that are not closed afterwards; for closed ones no test of the sender's state decides it (`FlushCannotTell`).
- Bytes copied to a reader count as read even when posting the slot again then fails and the call returns an error.
- 64-bit wrap-around of addresses and offsets in a gather, whose sources would have to exceed the address space.
- The receiving application writing its own destination buffer during a transfer, and a source changing under a pending write.
- Handshake timing, the connection listener, metadata, addresses and clocks; the demo server and client.
- Rust's ownership, `Send` and `RefCell` discipline, and the internals of tokio and epoll: a descriptor is readable when a notification is pending.
- The asynchronous `serve_rdma_write` forms: they run the same decision over `DriveWrite`, whose contract covers cancellation.
- `header_line`, accessors, and the client-side wrappers of the zero-copy layer, which add only easy members.
