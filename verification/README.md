# A verified model of the Raft node's wire codec, epoll server and graph flattener

The repository is an early Raft node. Its election and append-entry handlers are stubs, so nothing
here is about consensus. Three parts of it do real work on memory and on shared state, and these are
modelled and proved:

1. **The nested wire codec.** An append request holds a doubly linked list of key/value entries. It is
   flattened into a length-prefixed buffer by a loop that follows the `next` links up to null, wrapped
   into a frame of type and length, unwrapped, and rebuilt by a loop that counts down the `length`
   field. `AppendLogFormat` describes the byte format on values and says what it is worth as a format
   (canonical, prefix-free, exactly which byte strings are accepted). `AppendLog` has the heap objects
   and the two loops, proved against the format, and `AppendLog.Transfer` runs the whole path.
   `DataProtocal` is the frame, `RequestVote` holds the fixed-size commands, `Bytes` the little-endian
   images.
2. **The epoll server.** `EpollModel` is the server and the part of the kernel it talks to as a state
   machine: client map, queues, interest masks, open descriptors, allocator, and a history of what was
   enqueued, taken and accepted. `EpollInvariant` proves what one event keeps, `EpollRuns` what holds
   after every run of registrations, waits and events, `Watching` what is open and watched after every
   event and run, `Stranding` when waiting responses get out, and `Connections` to which connection.
   `EpollServer` has the server object with its event loop, every method of it proved to do what the
   state machine does. `SharedQueues` is the queue it keeps per descriptor. `VoteDelivery` follows the
   responses from the queue over a byte stream to the peer.
3. **The pointer-graph flattener and the relocating loader.** `AddressSpace` is byte-addressed memory
   with copies and stores; `PointerGraph` has the four interleaved steps, in the order of the code and
   in every other one, and the loaded block; `GraphTransfer` has the two programs working on the memory
   in place, and one run of both from process to process.

Where a promise does not hold for all inputs, the model says exactly when it does:

- A response can be stranded, that is wait in the queue of a watched descriptor that is not armed for
  writing. `RmBadFd` leaves the queue of a closed descriptor in the map, and the kernel may give the
  number to the next connection, which is armed for reading only. `Stranding.ReusedDescriptorStrands`
  is such a run. `Stranding.NeverStrandedIffClean` shows that this is the only way: a run strands
  nothing if and only if no accepted descriptor number still has queued responses, and
  `Stranding.NoReuseNeverStrands` derives the property for all runs that use no number twice.
- A response that was left over can be sent to the new peer (`Connections.OldResponseGoesToNewPeer`). Over
  a run, every response is sent to the connection it was enqueued on if and only if the write branch is
  never entered with an earlier connection's response in front (`Connections.OwnResponsesIffNoForeignSend`).
  Such a response never gets to the front if and only if no descriptor number is opened while it still has
  responses (`Connections.NeverForeignIffCleanOpens`); here a client that is registered under such a number
  counts as well, because registration keeps the old queue.
- A writable event does not always empty the queue: if it is readable too and the read fails or is
  short, the write branch is skipped (`Stranding.DrainedIffReadGoesOn`).
- The write loop gives up on the rest of a frame after any short write
  (`VoteDelivery.ShortWriteCutsStream`). The byte stream is the concatenation of the response frames if
  and only if every write took a whole frame (`VoteDelivery.StreamIntactIffFullWrites`).
- The reader handles one frame per event. A stream of frames is delivered in full if and only if each
  event brings exactly one (`VoteDelivery.StreamReadIffOneFrameEach`): frames that arrive together with
  another one are dropped, and a frame cut before the 27th byte has no effect.
- The flattening steps need not run from the last structure to the first. The block is linked if and only
  if the root is copied after the account and the ledger; the owner pointer in the block is right in
  every order, because the step finds the account, or already its copy, through the root
  (`PointerGraph.AnyOrder`).
- The list codec trusts its two size fields: the round trip holds if and only if `length` counts the
  list, and the buffer is filled exactly if and only if `mem_size` is the sum of the entry sizes.
- Framing the body again gives back the received bytes if and only if the length field tells the truth
  (unframing sizes the body from the received length, not from the field), and a vote response image is
  canonical if and only if its flag byte is 0 or 1.

The format comment in AppendLogCommand.h:71-89 lists no `leaderCommitIndex`. The code copies it, so the
scalar part has 34 bytes and the header 38; the model follows the code.

## Model

| member | source | states |
|---|---|---|
| AppendLog.Transfer | AppendLogCommand.h:26-145 | A well-formed request with any number of entries, flattened, framed, unframed and rebuilt, represents the same request: scalar fields, both size fields and the key/value sequence; the new list is fresh, linked both ways, and shares no buffer with anything |
| AppendLog.CompressAppendLogReq | AppendLogCommand.h:26-69 | With `mem_size` at least the sum of the entry sizes, every copy stays in the buffer of 38 + `mem_size` bytes; the buffer begins with the encoding of the request, each scalar field of the object stands at its own bytes, and the fields of every node in list order behind them |
| AppendLog.CopyEntries | AppendLogCommand.h:52-68 | The loop over the null-terminated links appends the encoded entries in list order and ends at the offset plus their summed sizes |
| AppendLog.CopyEntry | AppendLogCommand.h:54-65 | One round appends key size, key, value size and value of one node and keeps what was written before |
| AppendLog.DecompressAppendLogReq | AppendLogCommand.h:90-145 | Whenever the body decodes, the rebuilt heap list represents the decoded request, with exactly `length` distinct new nodes, previous links inverting next links, null at both ends, and each key and value in a new buffer of its own; every field of the object and of each node is the one at its bytes of the body |
| AppendLog.RebuildEntries | AppendLogCommand.h:113-144 | The counting loop builds a properly linked list filled with the entries found in the body, one node per count |
| AppendLog.Round | AppendLogCommand.h:119-144 | One round fills the last node from the current offset and links a new node behind it exactly when the counter has not run down |
| AppendLog.LinkNew | AppendLogCommand.h:139-142 | Allocating a node and setting the two links extends the chain and its back links by that node |
| AppendLog.FillEntry | AppendLogCommand.h:120-133 | The node gets the sizes and fresh copies of the entry that stands at the offset, and the offset moves behind it |
| AppendLog.ChainIsAcyclic | AppendLogCommand.h:52-68 | A list whose links reach null visits no node twice, so the flattening loop ends |
| AppendLogFormat.RoundTripIffCounted | AppendLogCommand.h:90-144 | Decoding an encoded request, with any bytes behind it, gives it back if and only if `length` counts its list |
| AppendLogFormat.DecodeOfEncode | AppendLogCommand.h:90-144 | What is decoded in general: the first `length` entries, independent of trailing bytes |
| AppendLogFormat.EntriesRoundTrip | AppendLogCommand.h:116-144 | Reading n of the encoded entries gives the first n of them whatever follows |
| AppendLogFormat.EncodingIsPrefixFree | AppendLogCommand.h:26-69 | Encoding is injective, and no encoding is a proper prefix of another |
| AppendLogFormat.EncodeOfDecode | AppendLogCommand.h:26-145 | Re-encoding a decoded request reproduces the bytes it was read from; these are 38 + `mem_size` bytes exactly when the received `mem_size` is truthful |
| AppendLogFormat.AcceptedBytes | AppendLogCommand.h:90-145 | A byte string decodes to a request if and only if it starts with the encoding of it and the request counts its list |
| AppendLogFormat.EncodingFillsBuffer | AppendLogCommand.h:30-68 | The final offset equals the buffer size if and only if `mem_size` is the sum of the entry sizes |
| AppendLogFormat.EntryAt | AppendLogCommand.h:119-133 | The k-th entry can be read at the offset that the sizes of the earlier ones add up to |
| AppendLogFormat.WidthBound | SegmentLog.h:27-31 | For truthful 16-bit size fields: 4 × `length` ≤ `mem_size` ≤ 65535, at most 16383 entries, body at most 65573 and frame at most 65582 bytes, so no size computation wraps |
| AppendLogFormat.NestedRoundTrip | DataProtocalSerializer.h:30-48 | Framing, unframing and decoding an encoded request returns it, with its type and body length, whatever follows the frame in the buffer |
| AppendLogFormat.AppendFrameLayout | DataProtocalSerializer.h:30-38 | The frame of a request: type 3, then the size 38 + `mem_size`, then the encoding |
| DataProtocal.CompressDataPacket | DataProtocalSerializer.h:30-38 | The message is the frame of the packet's type and body in a new buffer, and the inner body is given up |
| DataProtocal.DecompressDataPacket | DataProtocalSerializer.h:40-48 | Type, length field and a fresh copy of everything behind the nine header bytes |
| DataProtocal.UnframeOfFrame | DataProtocalSerializer.h:30-48 | Unframing inverts framing; received bytes behind the frame end up behind the body |
| DataProtocal.FrameOfUnframe | DataProtocalSerializer.h:40-48 | Framing the unframed body reproduces the received bytes if and only if the length field equals the body size |
| RequestVote.VoteReqRoundTrip | RequestVoteCommand.h:30-38 | A vote request survives encoding and decoding with anything behind it |
| RequestVote.VoteReqCanonical | RequestVoteCommand.h:36-38 | Re-encoding a decoded vote request gives the 34 bytes it was read from |
| RequestVote.VoteRespRoundTrip | RequestVoteCommand.h:40-48 | A vote response survives encoding and decoding with anything behind it |
| RequestVote.VoteRespCanonical | RequestVoteCommand.h:22-28 | Re-encoding a decoded response gives the same 27 bytes if and only if the flag byte is 0 or 1 |
| RequestVote.AppendRespRoundTrip | AppendLogCommand.h:147-155 | An append response survives encoding and decoding with anything behind it |
| RequestVote.AppendRespLayout | AppendLogCommand.h:21-24 | The nine bytes of an append response: the term and a flag byte of 1 or 0 |
| RequestVote.CompressVoteResp | RequestVoteCommand.h:40-44 | The packet owns a new body holding exactly the image of the response; its type is untouched |
| RequestVote.DecompressVoteReq | RequestVoteCommand.h:36-38 | The request read is the one whose image the body starts with |
| SharedQueues.SharedQueue.Front | SharedQueue.h:63-70 | The first item, kept in the queue, or none exactly when it is empty |
| SharedQueues.SharedQueue.PopFront | SharedQueue.h:72-77 | Removes the first item and nothing else; an empty queue stays empty |
| SharedQueues.SharedQueue.PushBack | SharedQueue.h:79-87 | Adds behind all items |
| SharedQueues.SharedQueue.WithItem | SharedQueue.h:44-48 | A new queue with one item |
| EpollServer.ProtocalServerEpoll.constructor | ProtocalServerEpoll.cpp:288-400 | Both sockets are watched for reading, edge-triggered; no client, no queue |
| EpollServer.ProtocalServerEpoll.ServeBatch | ProtocalServerEpoll.cpp:29-278 | One turn of the loop handles the reported events in order as the state machine does and keeps the invariant |
| EpollServer.ProtocalServerEpoll.HandleEvent | ProtocalServerEpoll.cpp:42-277 | The new state is a function of the old state, the event and the bytes of this event; what older events left in the shared receive buffer has no influence |
| EpollServer.ProtocalServerEpoll.AcceptAll | ProtocalServerEpoll.cpp:67-87 | Every accepted descriptor is open and watched for reading, in the order of the accepts |
| EpollServer.ProtocalServerEpoll.ReadAll | ProtocalServerEpoll.cpp:118-122 | After the read loop the first `msgsize` bytes of the buffer are the received chunks joined, however the stream was cut |
| EpollServer.ProtocalServerEpoll.Readable | ProtocalServerEpoll.cpp:114-202 | The branches of a readable event: failed or empty read, short message, request, response, other type, and when the rest of the event is skipped |
| EpollServer.ProtocalServerEpoll.TakeRequest | ProtocalServerEpoll.cpp:166-182 | A vote request arms writing and queues one newly allocated response; if arming fails the descriptor is removed and nothing is allocated |
| EpollServer.ProtocalServerEpoll.WriteFrame | ProtocalServerEpoll.cpp:245-259 | The write loop ends after exactly one call; the socket gets a beginning of the frame, and a failed call removes the descriptor |
| EpollServer.ProtocalServerEpoll.SendFront | ProtocalServerEpoll.cpp:226-264 | One round of the drain loop takes the oldest response, sends a beginning of its frame and frees it while it is still allocated |
| EpollServer.ProtocalServerEpoll.DrainQueue | ProtocalServerEpoll.cpp:224-264 | The drain loop ends and does what draining the queue response by response does |
| EpollServer.ProtocalServerEpoll.Writable | ProtocalServerEpoll.cpp:204-275 | A writable event without a queue changes nothing; otherwise the queue is drained and write interest is taken back, or the descriptor removed if it is no longer watched |
| EpollServer.ProtocalServerEpoll.RmBadFd | ProtocalServerEpoll.cpp:421-455 | The own sockets and clients are armed again, any other descriptor is unwatched and closed; no queue is touched |
| EpollServer.ProtocalServerEpoll.RegEpollResponse | ProtocalServerEpoll.cpp:529-539 | Succeeds exactly on watched descriptors and then adds write interest; otherwise the descriptor is removed |
| EpollServer.ProtocalServerEpoll.PutRespInQueue | ProtocalServerEpoll.cpp:541-549 | The response goes behind those already queued for the descriptor, in a new queue if there was none |
| EpollServer.ProtocalServerEpoll.RegisterClient | ProtocalServerEpoll.cpp:460-507 | Client and empty queue are recorded unless the key exists; only a connected client is watched |
| EpollServer.ProtocalServerEpoll.ModClientEpollEvent | ProtocalServerEpoll.cpp:513-523 | A watched client is armed for writing again |
| EpollServer.ProtocalServerEpoll.FreeQueue | ProtocalServerEpoll.cpp:410-417 | Removes one queue with its responses: every block is still either in use or freed as before or freed now, ownership stays exact, and no other queue object leaves the map |
| EpollServer.ProtocalServerEpoll.Destroy | ProtocalServerEpoll.cpp:402-419 | All queues are gone and exactly the blocks still in use have been freed, each once |
| EpollInvariant.HandleInv | ProtocalServerEpoll.cpp:42-277 | Whatever one reported event brings, the invariant holds afterwards: own sockets intact, armed descriptors have queues, ownership exact, responses conserved in order, streams made of frame beginnings |
| EpollInvariant.RegisterClientInv | ProtocalServerEpoll.cpp:460-491 | Registration keeps the invariant, also for a failed connect and a repeated key |
| EpollInvariant.DrainOneInv | ProtocalServerEpoll.cpp:226-264 | The block freed in a round is in use, so it is freed for the first time, and the invariant holds again |
| EpollInvariant.DrainEmpties | ProtocalServerEpoll.cpp:226-264 | The drain leaves its queue empty even after write errors, and no other queue changes |
| EpollInvariant.DrainTakes | ProtocalServerEpoll.cpp:226-264 | The drain takes all queued responses, in order, behind those taken before |
| EpollInvariant.DrainOnlyOn | ProtocalServerEpoll.cpp:226-264 | For the kernel, a drain affects its own descriptor only |
| EpollInvariant.RmBadFdKeeps | ProtocalServerEpoll.cpp:421-455 | Removing a bad descriptor never unwatches the own sockets or arms a descriptor without a queue |
| EpollRuns.RunInv | ProtocalServerEpoll.cpp:14-280 | The invariant holds after every run, with descriptor numbers coming back in any way, and pending reports stay truthful |
| EpollRuns.RunGuarantees | ProtocalServerEpoll.cpp:14-280 | After every run from the constructor: listener and UDP socket keep their masks and have no queue, armed descriptors have one, enqueued equals taken followed by queued, and an allocated response is freed once exactly when it is in no queue, and is queued at most once |
| EpollRuns.PendingStaysReported | ProtocalServerEpoll.cpp:42-277 | Handling one event of a batch leaves the report about the others true |
| EpollRuns.HandleView | ProtocalServerEpoll.cpp:42-277 | Handling an event leaves every other open descriptor open, watched and armed as it was |
| EpollRuns.BatchIsRun | ProtocalServerEpoll.cpp:42-278 | The loop over a batch is a run of the state machine |
| EpollRuns.ReportedEventsGoThrough | ProtocalServerEpoll.cpp:168-220 | For a reported event arming never fails, and a writable descriptor always has a queue: both failure branches are dead |
| Stranding.StepStranding | ProtocalServerEpoll.cpp:67-87 | A step strands a response if and only if it accepts a descriptor number that still has one |
| Stranding.NeverStrandedIffClean | ProtocalServerEpoll.cpp:14-280 | A run never strands a response if and only if each of its accepts is clean |
| Stranding.NoReuseNeverStrands | ProtocalServerEpoll.cpp:14-280 | Without reuse of descriptor numbers no reachable state has a stranded response |
| Stranding.ServerWithoutReuse | ProtocalServerEpoll.cpp:288-400 | The same for all runs of the constructed server |
| Stranding.ReusedDescriptorStrands | ProtocalServerEpoll.cpp:421-455 | A concrete run with a reused number that ends with a stranded response |
| Stranding.WaitingIsArmed | ProtocalServerEpoll.cpp:166-182 | With nothing stranded, a watched descriptor with waiting responses is armed, so that a writable event can be reported for it |
| Stranding.DrainedIffReadGoesOn | ProtocalServerEpoll.cpp:114-275 | A reported writable event, readable as well or not, empties a non-empty queue if and only if it has nothing to read or what it reads is neither a failure nor short; then the queue is taken in order with the response to this event's request last, and otherwise nothing is taken |
| Stranding.ShortReadHoldsResponseBack | ProtocalServerEpoll.cpp:153-158 | A reachable state with a waiting response in which every readable and writable event with a short read changes nothing |
| Connections.StepForeign | ProtocalServerEpoll.cpp:421-491 | A step puts a response of an earlier connection in front of a queue if and only if it opens, by accept or by connect, a descriptor number that still has responses |
| Connections.TakesOwnIffNoForeignSend | ProtocalServerEpoll.cpp:114-264 | A step sends every response to the connection it was enqueued on if and only if it does not get to the write branch with a response of an earlier connection in front; the condition reads only the state before the step, the event and the input |
| Connections.OwnResponsesIffNoForeignSend | ProtocalServerEpoll.cpp:14-280 | Over a run, every response is sent to the connection it was enqueued on if and only if no step is such a send |
| Connections.NeverForeignIffCleanOpens | ProtocalServerEpoll.cpp:421-491 | Over a run, no response of an earlier connection ever comes to the front if and only if no number is opened with responses left; then every response is sent to the connection it was enqueued on |
| Connections.OldResponseGoesToNewPeer | ProtocalServerEpoll.cpp:421-455 | A run in two parts: after the first the descriptor is closed with a response queued and nothing sent; in the second the number is used again, and the new peer is sent that response in front of its own, so that not every response is sent to the connection it was enqueued on |
| EpollRuns.RunThenDestroy | ProtocalServerEpoll.cpp:402-419 | After any run and the destructor every response ever allocated has been freed exactly once, and nothing else |
| Watching.EventOutcome | ProtocalServerEpoll.cpp:42-277 | What an event does to its own connection: it is closed if and only if it is not one of a peer node and the report is about trouble, the read fails or finds the end, or a write fails; otherwise it stays open and its mask is, in this order of cases, write and edge for trouble, read after writing, read and write after a request, unchanged |
| Watching.DrainWatches | ProtocalServerEpoll.cpp:226-264 | A drain closes a connection if and only if one of its writes fails and it is not one of a peer node |
| Watching.RmBadFdWatches | ProtocalServerEpoll.cpp:421-455 | A bad descriptor of a peer node stays open and is watched for writing, edge-triggered; any other connection is closed and unwatched |
| Watching.WritableWatches | ProtocalServerEpoll.cpp:266-274 | A connection that stays after the write branch is watched for reading and nothing else |
| Watching.AcceptOutcome | ProtocalServerEpoll.cpp:67-87 | Exactly the accepted descriptors are opened and watched, for reading and edge-triggered; all others stay as they were |
| Watching.NothingReadNothingElse | ProtocalServerEpoll.cpp:42-158 | An event on an own socket, or one that neither reads a message nor gets to the write branch, changes at most what is open and watched |
| Watching.RegisterOutcome | ProtocalServerEpoll.cpp:460-507 | A registered client is recorded with a queue, an older entry kept; it is open exactly when connected, and watched for writing exactly when the kernel takes it |
| Watching.NobodyIsForgotten | ProtocalServerEpoll.cpp:14-280 | In every reachable state each watched descriptor has one of four masks, none is without interest, and one that is not of a peer node is watched for reading |
| Watching.RunKeepsClient | ProtocalServerEpoll.cpp:437-446 | Over a run, a peer node's connection that is open and watched stays so, whatever errors it has |
| Watching.ConnectedClientStays | ProtocalServerEpoll.cpp:460-507 | A client that is connected and taken by the kernel is recorded, open and watched in every later state of every run |
| Stranding.InputKinds | ProtocalServerEpoll.cpp:123-195 | What the read branch makes of the received bytes, told from their number, the first byte and how the read ended |
| VoteDelivery.VoteEndToEnd | ProtocalServerEpoll.cpp:114-264 | A queue of any length, drained, and read by the peer in any chunks and any number of events: the peer's election logic gets exactly its responses, in order, if and only if every write took a whole frame and each event brings exactly one; if the events are about reading only, nothing else changes |
| VoteDelivery.RunEndToEnd | ProtocalServerEpoll.cpp:14-280 | The same over a whole run of the sender, for all responses ever taken on a descriptor |
| VoteDelivery.StreamReadIffOneFrameEach | ProtocalServerEpoll.cpp:114-195 | However a stream of response frames is split over the events, the reader delivers exactly the responses, in order, if and only if each event brings exactly one frame |
| VoteDelivery.DrainSendsAllIffWritesFull | ProtocalServerEpoll.cpp:226-264 | A drain puts exactly the frames of the whole queue on the wire if and only if the connection is open and every write takes a whole frame |
| VoteDelivery.StreamIntactIffFullWrites | ProtocalServerEpoll.cpp:245-259 | Over a whole run the socket has got the frames of all taken responses if and only if every write took a whole frame |
| VoteDelivery.CoalescedFramesLoseAllButTheFirst | ProtocalServerEpoll.cpp:160-195 | Of several frames read in one event only the first one has an effect |
| VoteDelivery.CutFrameIsDropped | ProtocalServerEpoll.cpp:153-158 | A frame cut before the 27th byte has no effect on the peer |
| VoteDelivery.ShortWriteCutsStream | ProtocalServerEpoll.cpp:248-259 | For every count below the frame size, a run in which a write takes that much: the response is gone from the queue, and the wire holds only that beginning of its frame |
| VoteDelivery.CutFrameCompleteIff | ProtocalServerEpoll.cpp:153-158 | Among the beginnings of a frame, those outside the assumption are exactly the ones of 27 to 35 bytes of a response and 27 to 42 of a request |
| VoteDelivery.ReadReqFrame | ProtocalServerEpoll.cpp:160-173 | The read branch recognizes a request frame and decodes it whatever follows |
| VoteDelivery.RequestAnswered | ProtocalServerEpoll.cpp:160-182 | A request frame, whatever follows it, hands exactly this request to the election logic, arms its connection for reading and writing, and queues the response behind the waiting ones; nothing else changes |
| VoteDelivery.OtherTypeIsDropped | ProtocalServerEpoll.cpp:163-195 | A message of any other type changes nothing |
| VoteDelivery.RespFrameLayout | RequestVoteCommand.h:22-28 | The 36 bytes of a response frame, field by field |
| VoteDelivery.ReqFrameLayout | RequestVoteCommand.h:14-20 | The 43 bytes of a request frame, field by field |
| GraphTransfer.Transfer | draft/compress_recursive.cpp:15-48 | Flattening in one memory, sending size, base and block, and loading in another memory at any address: both lookups return transaction_id and amount of the original ledger in 16 bytes, and the named fields of all four structures are found at their offsets in the loaded block of 128 bytes |
| GraphTransfer.CompressData | draft/compress_recursive.cpp:15-48 | The in-place steps, following pointers in memory as it is, yield a block of 128 bytes with every named field of the four structures at its offset, and with pointers at 32, 40 and 64 to the copies at 48, 112 and 72 |
| GraphTransfer.MoveStructure | draft/compress_recursive.cpp:32-39 | One structure is copied into the block and the pointer that leads to it, found from the root, is changed to the copy |
| GraphTransfer.Move | draft/compress_recursive.cpp:32-33 | What a pointer leads to is copied, and the pointer is changed to the copy, nothing else |
| GraphTransfer.LoadBinData | draft/load_by_binary.cpp:17-102 | The 128 bytes behind the 16-byte header are copied to the new address; the two ledgers are read at offset 112 and at the distance of the old pointer from the old base |
| GraphTransfer.LedgerByPointer | draft/load_by_binary.cpp:56-88 | The ledger read lies where the distance of the root's pointer from the original base puts it |
| PointerGraph.FieldsOfGraph | draft/structure_fixed_size.h:10-31 | Equal data of two graphs means equal named fields, at the offsets of the structures |
| PointerGraph.DeepCopy | draft/compress_recursive.cpp:26-41 | In the order of the code: the block is linked in itself at the computed offsets and holds the values of the originals; the source keeps its data, and its pointers lead into the block |
| PointerGraph.AnyOrder | draft/compress_recursive.cpp:31-41 | The four steps in any order: data is always copied and the old root always leads into the block; the block itself is linked if and only if the root is copied after the account and the ledger steps; in the block the owner pointer is right in every order, and the owner's place only decides whether the old account's pointer changes |
| PointerGraph.StepProgress | draft/compress_recursive.cpp:32-41 | One step, whichever have been done before, follows a pointer that still leads to the original, and keeps data and pointers as the steps done so far determine them |
| PointerGraph.Elsewhere | draft/compress_recursive.cpp:31-41 | Memory apart from the block and the three pointers does not change |
| PointerGraph.BlockCopied | draft/load_by_binary.cpp:36-39 | A block keeps its data and its pointers wherever its bytes are copied |
| PointerGraph.PositionIndependence | draft/load_by_binary.cpp:30-88 | For every original and every new base, pointers taken relative to the original base lead to the fixed offsets, and to the flattened graph |
| PointerGraph.LookupsAgreeIffBaseIsTold | draft/load_by_binary.cpp:30-88 | The lookup by pointer difference and the one by offset agree if and only if the wire carries the true original base |
| PointerGraph.LoaderFindsLedger | draft/load_by_binary.cpp:41-88 | Both lookups of the loader read the ledger that was flattened |
| Bytes.ImageOfValue | AppendLogCommand.h:44-48 | Every byte string is the little-endian image of exactly the number it is read as, within its width |
| Bytes.ValueOfImage | AppendLogCommand.h:97-107 | A number that fits its width is read back from its image |
| Bytes.ByteOfImage | DataProtocalSerializer.h:33-34 | The byte at place k of an image counts 256 to the power of k: least significant byte first |

## Left out

- AppendLog.DecompressAppendLogReq: models the intent in two places. Line 106 adds its offset to a struct pointer and so writes outside the `mem_size` field; the model stores `mem_size` there. Nodes and an empty list's `start` come from malloc with their terminal links unset; the model has null there, which the encoder relies on. The body must decode (every read inside it): the code has no check and reads out of bounds otherwise.
- AppendLog.CompressAppendLogReq: requires `mem_size` to be at least the sum of the entry sizes; with a smaller one the code writes outside its buffer.
- EpollServer.ProtocalServerEpoll.Readable: assumes what one event reads fits the 4096-byte buffer (the code passes 4095 to every read without looking at the offset), and that a vote message that passes the 27-byte check is complete; the code reads out of bounds for a frame of 27 to 35 (response) or 42 (request) bytes.
- EpollServer.ProtocalServerEpoll.ReadAll: the bytes of one event are assumed to fit the 4096-byte buffer, for the same reason.
- EpollServer.ProtocalServerEpoll.AcceptAll: an accept that returns descriptor 0 ends the loop in the code and is not modelled; adding an accepted descriptor to the interest set succeeds (the code exits otherwise).
- EpollServer.ProtocalServerEpoll.RegisterClient: a client is registered under the descriptor it has at that moment and is identified with it; later reconnects by the client object are not modelled. The queue object that a repeated key leaks is not part of the allocator, which counts responses only.
- EpollServer.ProtocalServerEpoll.WriteFrame: a write takes at most what it was given; the buffers of message and packet are fresh arrays and their release is not modelled, except for the inner body in DataProtocal.CompressDataPacket.
- EpollModel.State: the n-th allocated response has the pointer n; malloc handing out an address again after free is not visible. The histories (enqueued, taken, accepted, wire) are kept per descriptor number, across connections that get the same number.
- GraphTransfer.CompressData: the addresses returned by malloc are parameters, and the four structures and the block do not overlap; the failing malloc is not modelled.
- GraphTransfer.LoadBinData: the computed ledger address must lie in memory; the code does not check it. Its prints and the unused size field have no effect in the model.
- The election and append-entry handlers are arbitrary: the response to a request is a parameter, a received response is recorded.
- epoll_ctl MOD succeeds exactly on watched descriptors; a failing epoll_wait, timeouts, logging, the UDP reply and host lookups are not modelled.
- Threads: everything runs on the event-loop thread. The mutex, condition variable and `size` of SharedQueue are left out.
- compressLogEntries and decompressLogEntries in SegmentLog.h copy from and to the address of a pointer field and have no meaningful behaviour to state.
- Socket set-up, the select server, the UDP clients, the draft epoll servers, snapshots, cluster configuration and start-up wiring.
