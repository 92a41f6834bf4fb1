# ioutgt: the data path, modelled and proved

ioutgt is an NVMe-oF target. Per queue it runs a slot engine and a page pool, and
over them a TCP and an RDMA transport. This project models that data path in Dafny
and proves what it is for: the host's bytes arrive as sent, its commands run once
with their own payloads, its answers go out in order, and no tag, page, buffer or
work request is lost or used twice, under every schedule of the kernel, the NIC, the
host and the program's own tasks.

`dafny verify dfyconfig.toml` checks everything.

## How it fits together

Every object the program updates in place is a class with the program's fields
(`BufRing`, `RingMode`, `PduDecoder`, `RecvLoop`, `BufPool`, `SlotArray`, `SendList`,
`StreamSender`, `RdmaQueue`, `MemoryBackend`, `NsCache`, `Registry`). Its methods are
proved against functions of the object's value. Step systems built from those same
functions, with a nondeterministic kernel, NIC or host bound only by its ABI, then
carry the theorems about whole runs.

| component | files | main theorems |
|---|---|---|
| ring receive | `BufRing`, `RingReceive`, `RingSystem`, `RingProgress` | `ReceivedIsStream`, `RetainedHolds`, `ParkedIsWoken`, `ClosedIff`, `ParksIff`, `NeverStuck` |
| PDUs | `Digest`, `Pdu`, `PduDecoder`, `PduRules` | the round trips, `HeaderInPieces`, `BeginsIff`, `TakenIff` |
| receive phases | `RecvMachine`, `RecvChunks`, `RecvFraming`, `RecvSafety`, `RecvOrigin`, `RecvLoop` | `AnyStreamIsSafe`, `EveryCommandWasSent`, `RecvLoop.Drive`, `RecvLoop.TailDirect` |
| receive end to end | `HostCommands`, `HostStream`, `RecvServe`, `RecvRing` | `HostIsServed`, `StaysOpenIff`, `ServeHost`, `StaysInPlaceIff`, `RingServesStream`, `RingServesHost` |
| page pool | `Pool`, `Segments` | `BufPool.Alloc`, `CanLeaseIff`, `SmallRequests`, `Conserved`, `PutGathers` |
| slots and send path | `Slots`, `SendItems`, `Sender`, `ShipTrace`, `SendSystem`, `SendProgress`, `SendOrder`, `StreamSender` | `ShipFailsIff`, `FailsIff`, `WireIsPushedWork`, `CloseSendsEverything`, `TagsAreConserved`, `FailureLosesOneBatch`, `ReleasedOnce`, `PayloadIsHeld`, `R2tPrecedesResponse` |
| send end to end | `HostReads` | `HostSeesPushedWork`, `CompletionIsSeen` |
| RDMA queue | `RdmaState`, `RdmaCommands`, `RdmaRoutes`, `RdmaSystem`, `RdmaServes`, `RdmaOrder`, `RdmaProgress`, `RdmaStarvation`, `RdmaTarget` | `RouteIff`, `EveryCommandIsServed`, `ArrivalIsServed`, `ServedInTurn`, `HostNeverOverruns`, `PagesAndBuffersAreConserved`, `DeferralMakesProgress`, `SendQueueNeverOverflows`, `InflightIsExact`, `OvertakesIff`, `FrontStarves` |
| namespace cache | `NsCache` | `CallsAreFresh`, `NoChangeIsMissed`, `ChangeIsMade` |
| memory store | `Storage`, `Scattered` | `BlocksAreWritten`, `LeaseWriteIsContiguous`, `LeaseReadIsContiguous`, `ContiguousIff`, `AtomicIff`, `PanicsIff` |
| CPU spread | `CpuSpread`, `CpuTurns`, `CpuLocality` | `SpreadCpus`, `OrderCompleteIff`, `TurnsOpenIff`, `OrderKeepsTogether`, `BoundaryDividesOne` |
| controller ids | `Registry` | `Registry.Allocate`, the slice lemmas |

The receive path is specified one byte at a time (`RecvMachine.Feed`). The window
loop, the payload and digest stretches and the direct tail are each proved equal to
it, so every theorem about `Feed` is one about all of them, for any fragmentation.

PDU layouts follow section 3.6.2 of the NVM Express TCP Transport Specification 1.0.
The digest is CRC32C (section 12.1 of RFC 3720); its shift register is written out, and the
rest of the model only uses that it composes over appends.

## Where the code and its comments differ

The model follows the code.

- `fill_order` says it yields every CPU of a node (`crates/ioutgt-cpus/src/spread.rs:150-154`).
  A CPU that is missing from its own mask while a later one is in it can be lost.
  `OrderCompleteIff` gives the exact condition on the masks, `UnmaskedCpuIsLost` an
  example. For one given node `TurnsOpenIff` says exactly when each CPU that is not placed
  by its turn opens it; a CPU passed over can still be placed by a higher one, so whether
  it is lost is not decided by the CPUs below it (`LossIsNotDecidedBelow`).
- `fill_order` says whole sibling sets are contiguous. That holds where the masks are
  consistent (`OrderKeepsTogether`) and can fail where they are not (`LopsidedIsSplit`).
- `drain_deferred` says a large request at the front of the page wait is not starved by
  later ones (`crates/ioutgt-nvme-rdma/src/target.rs:552-556`). Among waiting requests
  that is so, but a newly arrived write is staged ahead of them exactly when its own
  lease fits (`OvertakesIff`), and so the front can be passed any number of times
  (`FrontStarves`, `WritesStarve`).
- The default scattered read and write are the contiguous ones exactly when every segment
  but the last is whole blocks (`ContiguousIff`, `ReadContiguousIff`); a ragged one before
  the last is partly overwritten, or its end read again.
- The default scattered write on its own is not atomic: a transfer that fails after its
  first bytes leaves the earlier segments written (`AtomicIff` for segments of any lengths,
  `WholeAtomicIff`, `ScatteredWriteIsNotAtomic`). The dispatcher does not get there, because it refuses such
  a transfer first (`crates/ioutgt-nvme/src/io.rs:115`).
- The range check of the memory store counts whole blocks only (`ContainedIff`). A partial
  block behind the last one is read from and written to the slack of the last chunk
  (`SlackIsWritten`), and panics exactly when that slack is too small (`PanicsIff`,
  `PastTheEndPanics`).
- The per-port controller id slices are non-empty exactly when there are no more ports
  than ids (`SlicesAreValid`).

## Model

| member | source | states |
|---|---|---|
| BufRings.BufRing.constructor | crates/ioutgt-uring/src/bufring.rs:165-237 | both sub-buffers start out provided, in id order, with no borrow, offset 0 and two provides counted |
| BufRings.BufRing.KernelProvide | crates/ioutgt-uring/src/bufring.rs:283-327 | a provide appends the id to what the kernel may take, restarts its offset, ends its wait, advances the generation and fires a registered waker; slots and 16-bit tail keep holding the last two provides |
| BufRings.BufRing.PollProvide | crates/ioutgt-uring/src/bufring.rs:351-361 | the park is over exactly when a provide happened since the given generation; otherwise the waker is registered and nothing else changes |
| BufRings.BufRing.Borrow | crates/ioutgt-uring/src/bufring.rs:365-368 | one more borrow of that sub-buffer, nothing else |
| BufRings.BufRing.Release | crates/ioutgt-uring/src/bufring.rs:372-383 | one borrow fewer; the last one provides the sub-buffer if the receive loop is done with it |
| BufRings.BufRing.RecvAdvance | crates/ioutgt-uring/src/bufring.rs:395-398 | the running offset moves by the length received |
| BufRings.BufRing.RecvDone | crates/ioutgt-uring/src/bufring.rs:403-410 | provided at once if not borrowed, otherwise marked as awaited |
| BufRings.KernelReadsLog | crates/ioutgt-uring/src/bufring.rs:283-327 | through the wrapping 16-bit counters a kernel at most two behind reads exactly the provides in order, none overwritten before it was read |
| RingReceive.RingMode.ArmRecv | crates/ioutgt-stream/src/reader.rs:290-297 | a receive is submitted only if none is armed, and then remembers the generation |
| RingReceive.RingMode.Fill | crates/ioutgt-stream/src/reader.rs:263-297 | a window with bytes left is handed out as it is; a drained one gives its sub-buffer back if it is retired, and the receive is armed |
| RingReceive.RingMode.OnChunk | crates/ioutgt-stream/src/reader.rs:298-325 | the new window starts at the running offset, which advances unless the sub-buffer is retired; the receive stays armed as the completion says |
| RingReceive.RingMode.OnNoBufs | crates/ioutgt-stream/src/reader.rs:331-338 | out of buffers: rearm if one came back since arming, otherwise park with the waker registered |
| RingReceive.RingMode.OnEnd | crates/ioutgt-stream/src/reader.rs:339-341 | an end of stream or a failed receive, and nothing else, closes the reader |
| RingReceive.RingMode.OnWake | crates/ioutgt-stream/src/reader.rs:331-338 | a woken reader rearms if a provide happened, otherwise parks again |
| RingSystem.StepKeeps | crates/ioutgt-stream/src/reader.rs:263-344 | every step of kernel, reader and borrowers keeps the invariant: each sub-buffer in exactly one of its four places, offsets in step with the kernel's, memory equal to the stream, borrows counted |
| RingSystem.ReceivedIsStream | crates/ioutgt-stream/src/reader.rs:263-344 | after any run the consumed bytes are a prefix of the socket's, the window in hand holds the next ones, the running offset is where the kernel put the next chunk, and at end of stream everything was consumed |
| RingSystem.RetainedHolds | crates/ioutgt-nvme-tcp/src/recv.rs:57-86 | a payload kept in ring memory holds exactly its stretch of the stream, the bytes the copying path is given, from its last byte's arrival until its own release, through any steps |
| RingSystem.ParkedIsWoken | crates/ioutgt-uring/src/bufring.rs:322-410 | a waiting reader has a live receive or a completion; a parked one is being woken, or both sub-buffers are held back by live borrows alone and ending the last borrow of either wakes it |
| RingProgress.ClosedIff | crates/ioutgt-stream/src/reader.rs:296-342 | after any run the reader is closed exactly if it took an end of stream or a failed receive |
| RingProgress.FillWaitsIff | crates/ioutgt-stream/src/reader.rs:263-297 | a fill hands out the window exactly while it has unread bytes; otherwise the reader waits, without a window, for a receive that is live or has completed |
| RingProgress.ChunkIsHandedOut | crates/ioutgt-stream/src/reader.rs:298-325 | a data completion becomes the window, whole and unread, at the place the kernel put it, and it is the caller's turn |
| RingProgress.ParksIff | crates/ioutgt-stream/src/reader.rs:331-338 | when the receive armed last is refused for want of buffers, the reader parks with its waker registered exactly if nothing was provided since it armed, and otherwise waits on a live receive |
| RingProgress.WakeArmsIff | crates/ioutgt-stream/src/reader.rs:331-338 | a parked reader that is polled does the same |
| RingProgress.RetainsIff | crates/ioutgt-nvme-tcp/src/recv.rs:57-86 | a payload is kept in its sub-buffer exactly if all of it fits there |
| RingProgress.NeverStuck | crates/ioutgt-stream/src/reader.rs:263-342 | in every reachable state that is not closed the kernel, the reader or a borrower can move |
| Digest.Crc32cContinues | crates/ioutgt-nvme/src/digest.rs:15-36 | continuing a digest over a second part gives the digest of the whole |
| Digest.Crc32cComposes | crates/ioutgt-nvme/src/digest.rs:15-36 | the digest has the one property the receive and send paths use |
| Pdu.CapsuleCmdRoundTrip | crates/ioutgt-nvme/src/pdu.rs:509-534 | an encoded command capsule header is complete and decodes to the same command, data length and digest flag |
| Pdu.CapsuleRespRoundTrip | crates/ioutgt-nvme/src/pdu.rs:537-546 | the same for a response capsule |
| Pdu.H2CDataRoundTrip | crates/ioutgt-nvme/src/pdu.rs:648-670 | the same for H2CData: command and transfer tags, offset, length, last flag |
| Pdu.C2HDataRoundTrip | crates/ioutgt-nvme/src/pdu.rs:593-621 | the same for C2HData: command tag, offset, length, last and success flags |
| Pdu.R2TRoundTrip | crates/ioutgt-nvme/src/pdu.rs:624-644 | the same for R2T: tags, offset and length |
| Pdu.C2HTermRoundTrip | crates/ioutgt-nvme/src/pdu.rs:673-682 | a termination request decodes to its status and field offset |
| Pdu.IcRoundTrip | crates/ioutgt-nvme/src/pdu.rs:479-504 | ICReq and ICResp decode to the digest bits and the 32-bit parameter |
| PduDecoders.FedSplit | crates/ioutgt-nvme/src/pdu.rs:268-298 | feeding two pieces is feeding their concatenation, in result and in bytes consumed |
| PduDecoders.PiecesDoNotMatter | crates/ioutgt-nvme/src/pdu.rs:268-298 | so is feeding any number of pieces |
| PduDecoders.FedHeader | crates/ioutgt-nvme/src/pdu.rs:268-341 | a complete header with anything behind it is collected exactly, and nothing after it is consumed |
| PduDecoders.HeaderInPieces | crates/ioutgt-nvme/src/pdu.rs:268-341 | the same however the stream is cut |
| PduDecoders.PduDecoder.constructor | crates/ioutgt-nvme/src/pdu.rs:251-259 | a new decoder wants the eight common bytes and holds none |
| PduDecoders.PduDecoder.Absorb | crates/ioutgt-nvme/src/pdu.rs:268-298 | a collected stretch moves the decoder on exactly as the header length says, or is refused exactly when the bytes so far are bad |
| PduDecoders.PduDecoder.FullHeaderLen | crates/ioutgt-nvme/src/pdu.rs:302-341 | the length is read from the bytes collected in the buffer |
| PduDecoders.PduDecoder.Feed | crates/ioutgt-nvme/src/pdu.rs:268-298 | the staged loop over the buffer consumes, collects and refuses exactly what the byte-at-a-time definition does |
| PduDecoders.PduDecoder.TakeHeader | crates/ioutgt-nvme/src/pdu.rs:345-443 | a complete header parses without underflow of its data length, exactly as `PduRules.TakenIff` says; the decoder is reset for the next |
| PduRules.BeginsIff | crates/ioutgt-nvme/src/pdu.rs:302-341 | eight bytes begin a header of n bytes exactly if type, header length, digest flags and PDU length obey the table; otherwise the first wrong field is named |
| PduRules.TakenIff | crates/ioutgt-nvme/src/pdu.rs:345-443 | a complete header is accepted exactly if its digest is its own (where digests were negotiated), its data offset and its type's length field are right; each fault has its code, and an accepted header has the fields its bytes say |
| PduRules.FaultEnds | crates/ioutgt-nvme-tcp/src/recv.rs:459-477 | between PDUs a faulty header, one with a wrong digest in particular, ends the connection with that fault and does nothing else |
| PduRules.MisfitEnds | crates/ioutgt-nvme-tcp/src/recv.rs:459-477 | eight bytes that begin no header end the connection, naming the field |
| PduRules.FaultAfterPdus | crates/ioutgt-nvme-tcp/src/recv.rs:391-477 | after any PDUs that left the connection open, a faulty header ends it with their effects and no other |
| RecvChunks.DataFeeds | crates/ioutgt-nvme-tcp/src/recv.rs:142-181 | a payload stretch taken at once has the effect of its bytes one at a time |
| RecvChunks.DdgstFeeds | crates/ioutgt-nvme-tcp/src/recv.rs:197-231 | the same for a stretch of the data digest |
| RecvSafety.StepSafe | crates/ioutgt-nvme-tcp/src/recv.rs:142-302 | every byte, in every phase, keeps the receive invariant |
| RecvSafety.AnyStreamIsSafe | crates/ioutgt-nvme-tcp/src/recv.rs:584-736 | for any bytes at all: between PDUs the receiving slots are exactly the unfinished R2Ts, each short of a length of at most MDTS; every payload byte lands inside its lease; a submitted command has exactly its length, made of disjoint stretches of the stream in order, each the payload of a PDU found by reading the stream as PDUs from its first byte, and followed by its correct digest if that PDU's header says so and digests were negotiated |
| RecvMachine.LeaseIsFewest | crates/ioutgt-core/src/pool.rs:407-468 | a payload's lease is the fewest whole pages that hold it |
| RecvOrigin.EveryCommandWasSent | crates/ioutgt-nvme-tcp/src/recv.rs:584-700 | for any bytes at all: every command submitted, solicited for or failed is one whose capsule header stands where a PDU of the stream starts, followed by the correct digest of those 72 bytes if digests were negotiated |
| RecvFraming.NoneInside | crates/ioutgt-nvme/src/pdu.rs:268-341 | read from the first byte, no PDU of any stream starts strictly inside another |
| RecvFraming.ToldOnce | crates/ioutgt-nvme/src/pdu.rs:345-443 | so a payload start has exactly one announced length and digest flag |
| RecvLoops.RecvLoop.constructor | crates/ioutgt-nvme-tcp/src/recv.rs:348-390 | a new connection is in the machine's start state |
| RecvLoops.RecvLoop.Finish | crates/ioutgt-nvme-tcp/src/recv.rs:278-302 | in-capsule data submits; solicited data submits at its full length, is refused if marked last short of it, and otherwise waits for more |
| RecvLoops.RecvLoop.AdvanceData | crates/ioutgt-nvme-tcp/src/recv.rs:142-181 | the payload phase takes what it wants of a window, with the machine's effect, and leaves the rest |
| RecvLoops.RecvLoop.AdvanceDdgst | crates/ioutgt-nvme-tcp/src/recv.rs:197-231 | the digest phase likewise |
| RecvLoops.RecvLoop.HandleCapsuleCmd | crates/ioutgt-nvme-tcp/src/recv.rs:636-700 | a command is submitted, solicited, given its in-capsule data or refused as the machine does; which of these, by the command's own fields, is `HostCommands.CommandReadsBack` and `HostStream.HostIsServed` |
| RecvLoops.RecvLoop.HandleH2cData | crates/ioutgt-nvme-tcp/src/recv.rs:704-736 | an H2CData header starts a payload or ends the connection as the machine does |
| RecvLoops.RecvLoop.HandlePduHeader | crates/ioutgt-nvme-tcp/src/recv.rs:584-632 | every kind of PDU is routed as the machine does |
| RecvLoops.RecvLoop.FeedHeader | crates/ioutgt-nvme-tcp/src/recv.rs:459-477 | the header phase consumes at least one byte and has the machine's effect for what it consumed |
| RecvLoops.RecvLoop.Drive | crates/ioutgt-nvme-tcp/src/recv.rs:391-435 | a whole window, worked through phase by phase, is the machine fed the window |
| RecvLoops.RecvLoop.TailDirect | crates/ioutgt-nvme-tcp/src/recv.rs:520-578 | a payload tail received straight into the slot, in pieces of any size, is the machine fed those bytes; a short one means the host closed |
| RecvServe.NeverRetains | crates/ioutgt-nvme-tcp/src/recv.rs:57-86 | without a ring no payload is ever kept in ring memory |
| RecvServe.Turn | crates/ioutgt-nvme-tcp/src/recv.rs:391-455 | one turn of the outer loop is the machine fed the window and then, exactly where a solicited payload has 16 KiB or more to come and there is no ring, a direct tail; it closes exactly if that tail falls short |
| RecvServe.Serve | crates/ioutgt-nvme-tcp/src/recv.rs:391-455 | the outer loop over any windows and direct receives is the machine fed both in the order they were taken; it stops exactly when the connection ended or the windows are used up, at end of stream, or when the host closes inside a direct tail |
| RecvServe.ServeHost | crates/ioutgt-nvme-tcp/src/recv.rs:391-578 | any host, served by the loop with any mix of windows and direct tails: once it has all the host's bytes, or as many as ended the connection, the events and the reason are those its PDUs call for |
| HostStream.HeaderDecodes | crates/ioutgt-nvme-tcp/src/recv.rs:584-632 | a host PDU's header acts as the PDU it encodes |
| HostStream.PayloadActs | crates/ioutgt-nvme-tcp/src/recv.rs:142-231 | a payload with its digest as sent is delivered whole and finished, or, exactly if the digest is not the data's, fails its command and leaves the connection open |
| HostStream.PduAgrees | crates/ioutgt-nvme-tcp/src/recv.rs:584-736 | after each PDU, conforming or not, the machine and the host agree on open transfers, events and the end of the connection |
| HostStream.WindowsDoNotMatter | crates/ioutgt-nvme-tcp/src/recv.rs:391-435 | any cut into windows has the effect of the whole stream |
| HostStream.HostIsServed | crates/ioutgt-nvme-tcp/src/recv.rs:348-578 | for every list of PDUs and any windows: exactly the commands meant are submitted with exactly their payloads, exactly the resident writes are solicited with their id and length, exactly the commands whose digest is wrong are failed, in order, and the connection ends exactly at the first PDU that breaks the protocol, with its reason |
| HostStream.StaysOpenIff | crates/ioutgt-nvme-tcp/src/recv.rs:584-736 | the connection survives exactly the lists in which every command has a tag and at most 128 KiB, and every data PDU continues an open transfer of its command; a wrong data digest does not end it |
| HostStream.StreamIsServed | crates/ioutgt-nvme-tcp/src/recv.rs:391-435 | the same outcome from any prefix of the stream that ended the connection |
| HostCommands.CommandReadsBack | crates/ioutgt-nvme-tcp/src/recv.rs:312-318 | of the 64 bytes a typed command encodes to, the target reads its id and length, and asks for data exactly if it goes to the target, is resident with the host and is not empty |
| HostCommands.EveryCommand | crates/ioutgt-nvme-tcp/src/recv.rs:312-318 | any 64 bytes are such a command |
| RecvRing.RingServesStream | crates/ioutgt-nvme-tcp/src/recv.rs:57-86 | ring and phase machine together, after any schedule: the machine is where the plain stream puts it, and every command started with a payload in ring memory still finds that payload there |
| RecvRing.RingServesHost | crates/ioutgt-nvme-tcp/src/recv.rs:348-455 | any host served over the ring: the same outcome as `StreamIsServed` |
| RecvRing.StaysInPlaceIff | crates/ioutgt-nvme-tcp/src/recv.rs:57-86 | in every reachable state, a payload that starts and is all of its command's data is left in ring memory, and its sub-buffer borrowed, exactly if it fits in what is left of that sub-buffer |
| Pool.CanonicalUnique | crates/ioutgt-core/src/pool.rs:295-307 | a set of free pages has one representation as sorted maximal runs |
| Pool.InsertRun | crates/ioutgt-core/src/pool.rs:295-307 | inserting a run merges it on both sides: sorted, maximal, exactly its pages added |
| Pool.SpansAtMost | crates/ioutgt-core/src/pool.rs:407-468 | no request is spread over more runs than it has pages |
| Pool.SmallRequests | crates/ioutgt-core/src/pool.rs:407-468 | a request of at most MAX_SEGS pages can be met exactly when that many pages are free, however fragmented |
| Pool.CanLeaseIff | crates/ioutgt-core/src/pool.rs:407-468 | any request can be met exactly if one free run holds it or the first 32 do together |
| Pool.FirstFit | crates/ioutgt-core/src/pool.rs:407-468 | the first run large enough, if there is one |
| Pool.CountSpans | crates/ioutgt-core/src/pool.rs:407-468 | exactly whether the first runs that hold the request are within MAX_SEGS |
| Pool.Carve | crates/ioutgt-core/src/pool.rs:407-468 | the lease and what stays free partition the free pages, the lease has the pages asked for, and they are the lowest free ones |
| Pool.Choose | crates/ioutgt-core/src/pool.rs:407-468 | succeeds exactly when the request can be met: the front of the first run large enough, or, if none is, the lowest free pages |
| Pool.Restore | crates/ioutgt-core/src/pool.rs:485-502 | returned segments are free again, runs maximal |
| Pool.LeaseRuns | crates/ioutgt-core/src/pool.rs:407-468 | a lease has at least one run and at most one per page |
| Pool.Conserved | crates/ioutgt-core/src/pool.rs:358-502 | free pages, live leases and the send arena add up to the pool |
| Pool.AllReturned | crates/ioutgt-core/src/pool.rs:485-502 | when everything is returned the pool is one run again |
| Pool.BufPool.constructor | crates/ioutgt-core/src/pool.rs:312-327 | a new pool is one free run of all its pages |
| Pool.BufPool.Alloc | crates/ioutgt-core/src/pool.rs:407-468 | succeeds exactly when the request can be met, from the first run large enough or else from the lowest free pages; then free pages, live leases and arena still partition the pool and the lease is new; a failed request changes nothing |
| Pool.BufPool.ReserveArena | crates/ioutgt-core/src/pool.rs:358-374 | reserves the front of the first run large enough exactly when the pool is registered and has one, and changes nothing otherwise |
| Pool.BufPool.FreeSegs | crates/ioutgt-core/src/pool.rs:485-502 | dropping a lease returns exactly its pages |
| Segments.SubRangeGathers | crates/ioutgt-nvme-tcp/src/recv.rs:482-505 | the sub-segments of a logical range hold exactly that range of the bytes |
| Segments.FillSubsegs | crates/ioutgt-nvme-tcp/src/recv.rs:482-505 | the loop yields those sub-segments |
| Segments.ForEachSeg | crates/ioutgt-core/src/pool.rs:243-260 | the stretches visited concatenate to the logical range |
| Segments.PutGathers | crates/ioutgt-core/src/pool.rs:222-239 | a scattered write reads back as the contiguous one, and memory outside the segments is untouched |
| Segments.WriteAt | crates/ioutgt-core/src/pool.rs:222-239 | the in-place loop performs that write |
| Segments.AdvanceIovs | crates/ioutgt-stream/src/reader.rs:219-233 | moving past landed bytes leaves the segments still open |
| Segments.LandedResumes | crates/ioutgt-stream/src/reader.rs:205-234 | resuming after a short receive continues one and the same write |
| Segments.ReadDirect | crates/ioutgt-stream/src/reader.rs:193-236 | pieces of any size, resumed in place, land as one contiguous write, and nothing else is touched |
| Segments.PutSubRange | crates/ioutgt-nvme-tcp/src/recv.rs:482-578 | receiving into the sub-segments is writing at that offset of the slot |
| Segments.LeaseSegs | crates/ioutgt-core/src/pool.rs:394-402 | a lease's segments lie in the arena, do not overlap and hold all its bytes |
| Storage.MemoryBackend.constructor | crates/ioutgt-backend/src/memory.rs:33-43 | a new store reads as zeros, in its last chunk's slack too |
| Storage.MemoryBackend.ReadRange | crates/ioutgt-backend/src/memory.rs:67-109 | the walk over lazily allocated chunks reads the flat store, and panics exactly past its last chunk |
| Storage.MemoryBackend.WriteRange | crates/ioutgt-backend/src/memory.rs:67-121 | and writes it, across chunk boundaries; a panic leaves what lies in the chunks written |
| Storage.MemoryBackend.ZeroRange | crates/ioutgt-backend/src/memory.rs:127-139 | zeroing, which skips chunks never allocated, writes zeros |
| Storage.MemoryBackend.Read | crates/ioutgt-backend/src/memory.rs:96-109 | for every block and length: out of range, the flat bytes, or a panic, as the reference read of a flat store says |
| Storage.MemoryBackend.Write | crates/ioutgt-backend/src/memory.rs:111-121 | the same for a write; refused it changes nothing |
| Storage.MemoryBackend.WriteZeroes | crates/ioutgt-backend/src/memory.rs:127-139 | fails exactly out of range and then changes nothing, otherwise writes the block range as zeros, inside the device |
| Storage.MemoryBackend.WriteSegs | crates/ioutgt-core/src/backend.rs:126-151 | the default scattered write, for segments of any lengths, is one checked write per segment, up to the first that fails |
| Storage.MemoryBackend.ReadSegs | crates/ioutgt-core/src/backend.rs:92-117 | the default scattered read, for segments of any lengths, is one checked read per segment, up to the first that fails |
| Storage.ContainedIff | crates/ioutgt-core/src/backend.rs:167-175 | a transfer that passes the range check is inside the device exactly when it is whole blocks or does not end in the last one |
| Storage.PanicsIff | crates/ioutgt-backend/src/memory.rs:67-121 | a read or write is refused exactly when its whole blocks go past the device, and panics exactly when they end with it and the partial block behind them does not fit the slack of the last chunk |
| Storage.BlocksAreWritten | crates/ioutgt-backend/src/memory.rs:96-121 | a write of whole blocks that exist is done, and each block of the device then reads as the one written to it, or as before |
| Storage.SlackIsWritten | crates/ioutgt-backend/src/memory.rs:67-121 | a write of one byte more than a one-block device succeeds, and lands behind it |
| Storage.PastTheEndPanics | crates/ioutgt-backend/src/memory.rs:67-121 | the same on a device that fills its chunk panics with the block written |
| Scattered.EachIsPutParts | crates/ioutgt-core/src/backend.rs:126-151 | inside the device no part of a scattered write is refused |
| Scattered.WholeIsContiguous | crates/ioutgt-core/src/backend.rs:126-151 | segments of whole blocks, but for the last, are written as one |
| Scattered.ContiguousIff | crates/ioutgt-core/src/backend.rs:126-151 | inside the device, for all data and contents, the default scattered write succeeds as the contiguous one exactly when every segment but the last is whole blocks |
| Scattered.WriteEachIsWrite | crates/ioutgt-core/src/backend.rs:126-151 | for whole blocks it succeeds exactly when the whole transfer is in range, and is then the contiguous write |
| Scattered.LeaseWriteIsContiguous | crates/ioutgt-core/src/backend.rs:126-151 | for blocks of at most a page, writing out any lease of the pool is the contiguous write of the bytes it holds |
| Scattered.ReadEachIsRead | crates/ioutgt-core/src/backend.rs:92-117 | for whole blocks the default scattered read succeeds exactly when the whole transfer is in range, and then reads the contiguous stretch |
| Scattered.ReadContiguousIff | crates/ioutgt-core/src/backend.rs:92-117 | inside the device the default scattered read fills the segments with the contiguous stretch, whatever the store holds, exactly when every segment but the last is whole blocks |
| Scattered.LeaseReadIsContiguous | crates/ioutgt-core/src/backend.rs:92-117 | for blocks of at most a page, reading into any lease of the pool leaves the contiguous stretch in it and nothing elsewhere |
| Scattered.AtomicIff | crates/ioutgt-core/src/backend.rs:126-151 | for segments of any lengths, a scattered write succeeds or leaves every store as it was exactly when every segment is in range at the block the loop has come to and ends in the store, or the first one with bytes is out of range, or begins where the store ends |
| Scattered.WholeAtomicIff | crates/ioutgt-core/src/backend.rs:126-151 | of whole-block segments, a failing scattered write leaves every store as it was exactly when it fails at its first segment |
| Scattered.DoneIff | crates/ioutgt-core/src/backend.rs:126-151 | whether a scattered write succeeds is decided by those range tests alone, whatever the data |
| Scattered.ScatteredWriteIsNotAtomic | crates/ioutgt-core/src/backend.rs:126-151 | a two-block transfer on a one-block device that fails after writing |
| Storage.TakesAre | crates/ioutgt-core/src/backend.rs:126-151 | the parts taken from the segments are the first `total` bytes |
| Slots.ClaimSound | crates/ioutgt-core/src/slotq.rs:215-223 | a tag is claimed exactly when one is free, it was free, and the freelist stays exact |
| Slots.LifeSound | crates/ioutgt-core/src/slotq.rs:240-302 | every lifecycle move keeps the freelist exact and the gate equal to the number of executing slots |
| Slots.SlotArray.constructor | crates/ioutgt-core/src/slotq.rs:141-153 | all slots start out free |
| Slots.SlotArray.ClaimTag | crates/ioutgt-core/src/slotq.rs:215-223 | pops a free tag into the receiving state |
| Slots.SlotArray.Submit | crates/ioutgt-core/src/slotq.rs:240-248 | receiving to ready |
| Slots.SlotArray.PollCommand | crates/ioutgt-core/src/slotq.rs:251-267 | starts exactly a ready slot and counts it |
| Slots.SlotArray.BeginRespond | crates/ioutgt-core/src/slotq.rs:272-277 | executing to responding, uncounted |
| Slots.SlotArray.RespondReceiving | crates/ioutgt-core/src/slotq.rs:283-287 | receiving to responding without executing |
| Slots.SlotArray.ReleaseTag | crates/ioutgt-core/src/slotq.rs:291-302 | responding to free, back on the freelist once |
| SendItems.ResponseReadsBack | crates/ioutgt-nvme-tcp/src/send.rs:29-91 | a staged response decodes to its data, length and digest, and to its completion unless that is elided into the last data PDU |
| SendItems.PushPayload | crates/ioutgt-nvme-tcp/src/send.rs:29-91 | the segment loop appends exactly the first bytes of the slot |
| SendItems.Stage | crates/ioutgt-nvme-tcp/src/send.rs:29-91 | a work item is appended to the batch as its encoding, from any scattered slot |
| Sender.StagingKeepsOrder | crates/ioutgt-stream/src/lib.rs:491-525 | what is staged, carried over and still queued is what was there, in order; at least one item is staged |
| Sender.ShipShrinks | crates/ioutgt-stream/src/lib.rs:530-610 | each retry leaves fewer bytes, or gives up zero-copy, or gives up fixed buffers |
| Sender.ShipOneKeeps | crates/ioutgt-stream/src/lib.rs:530-610 | each send moves bytes from what is left to the wire, none lost or repeated |
| Sender.ShipAllKeeps | crates/ioutgt-stream/src/lib.rs:530-610 | for any kernel the loop ends, and on success the whole batch is on the wire |
| ShipTrace.ShipFailsIff | crates/ioutgt-stream/src/lib.rs:530-610 | the loop ends in failure exactly if the kernel's last answer is fatal (nothing sent, a broken socket, a bad vector with no fixed buffers to give up, no memory without zero-copy) and no earlier one was; otherwise all is on the wire. What the answers say was sent is what is on the wire, and each zero-copy send owes one notification |
| ShipTrace.AnswersAre | crates/ioutgt-stream/src/lib.rs:530-610 | those answers are the kernel's own, each to the bytes then left |
| ShipTrace.ShortSendsResume | crates/ioutgt-stream/src/lib.rs:530-610 | with a kernel that only sends short, but something, the whole batch goes out |
| ShipTrace.StagingIsGreedy | crates/ioutgt-stream/src/lib.rs:491-525 | every item was added with room and below the cap, and staging stops only for want of room, at the cap or with the queue empty |
| SendSystem.StepKeeps | crates/ioutgt-stream/src/lib.rs:321-469 | every step of slots, pushes, sender and notifications keeps the invariant |
| SendSystem.WireIsPushedWork | crates/ioutgt-stream/src/lib.rs:321-365 | the wire is always a prefix of the pushed work's encodings in push order, all of it when the sender is idle, and all that was staged at an orderly exit |
| SendSystem.TagsAreConserved | crates/ioutgt-core/src/slotq.rs:215-302 | in every reachable state a tag is on the freelist exactly when free, once; the tags of all responses ever pushed are those released, those in one place of the send path and those lost; unless a send failed none is lost and a tag responds exactly when it is in one place of the send path; the gate counts the executing slots |
| SendSystem.FailureLosesOneBatch | crates/ioutgt-stream/src/lib.rs:402-469 | a send that fails loses at most, and by the exit exactly, those tags of its batch that were due at completion |
| SendProgress.FailsIff | crates/ioutgt-stream/src/lib.rs:321-469 | in any run the connection has failed exactly if some send came back broken, with nothing sent, or refused with no fallback left |
| SendProgress.LeavesOnlyWhenTold | crates/ioutgt-stream/src/lib.rs:321-365 | the sender leaves only after a failure or a close |
| SendProgress.CloseSendsEverything | crates/ioutgt-stream/src/lib.rs:321-365 | at an orderly exit everything pushed before the close is on the wire |
| SendProgress.PushedIsCompleted | crates/ioutgt-stream/src/lib.rs:321-365 | what is pushed is what the run's commands completed, refused and solicited, in that order, and an idle sender has put all of it on the wire |
| SendProgress.OnlyPayloadWaits | crates/ioutgt-stream/src/lib.rs:458-469 | unless the connection failed, a tag that a sent batch still holds is that of a response with data |
| SendProgress.OnlyZeroCopyWaits | crates/ioutgt-stream/src/lib.rs:458-469 | in any run a batch waits for notifications only if it was sent at least once without copying |
| SendProgress.NeverStuck | crates/ioutgt-stream/src/lib.rs:321-469 | until it is gone or at rest the sender can go on, or the kernel owes it a notification |
| SendOrder.R2tPrecedesResponse | crates/ioutgt-nvme-tcp/src/queue.rs:91-119 | with commands numbered at their claims, in any run whatever else carries a command's number is an R2T pushed before its only response, and the wire is that order |
| SendSystem.ReleasedOnce | crates/ioutgt-stream/src/lib.rs:369-469 | no tag is released more often than answered, exactly once at an orderly exit, and no exit leaves a notification |
| SendSystem.PayloadIsHeld | crates/ioutgt-stream/src/lib.rs:369-469 | while the kernel owes a batch a notification no step touches its items, and every slot it sends from still responds and holds its data |
| SendSystem.ReleaseTags | crates/ioutgt-stream/src/lib.rs:458-469 | releasing a batch's tags frees exactly those slots |
| HostReads.ItemReads | crates/ioutgt-nvme-tcp/src/send.rs:29-91 | in front of any bytes, a staged item decodes to its R2T, or to its data with a correct digest and its completion, and leaves what follows alone |
| HostReads.WireReads | crates/ioutgt-nvme-tcp/src/send.rs:29-91 | so a wire of any items decodes to exactly those, in order |
| HostReads.HostSeesPushedWork | crates/ioutgt-stream/src/lib.rs:321-365 | after any run, whatever the kernel did with each send, a host decoding the wire of an idle sender sees exactly the pushed responses, read data and R2Ts in push order |
| HostReads.CompletionIsSeen | crates/ioutgt-nvme-tcp/src/send.rs:29-91 | by status, data and configuration: data is seen under the command id of its own completion entry, and the entry itself unless there is data, the status is zero and queue head pointers are off |
| HostReads.EveryEntry | crates/ioutgt-nvme-tcp/src/send.rs:29-91 | any 16 bytes are such an entry |
| StreamSenders.SendList.Push | crates/ioutgt-core/src/slotq.rs:344-349 | appends and fires a registered waker |
| StreamSenders.SendList.TryNext | crates/ioutgt-core/src/slotq.rs:352-354 | takes the oldest item, if any |
| StreamSenders.SendList.PollNext | crates/ioutgt-core/src/slotq.rs:360-369 | ready exactly with work or closed; otherwise the waker is registered |
| StreamSenders.SendList.Close | crates/ioutgt-core/src/slotq.rs:380-385 | closes and wakes, dropping no work |
| StreamSenders.NvmeTcpQueue.Submit | crates/ioutgt-nvme-tcp/src/queue.rs:80-83 | the slot is ready and traffic is noted |
| StreamSenders.NvmeTcpQueue.Complete | crates/ioutgt-nvme-tcp/src/queue.rs:91-95 | the slot responds and its response is last on the send list |
| StreamSenders.NvmeTcpQueue.CompleteReceiving | crates/ioutgt-nvme-tcp/src/queue.rs:100-107 | the same for a command refused before it executes |
| StreamSenders.NvmeTcpQueue.Solicit | crates/ioutgt-nvme-tcp/src/queue.rs:111-119 | the R2T is last on the send list, the slot unchanged |
| StreamSenders.PollNotifs | crates/ioutgt-stream/src/lib.rs:615-629 | in-place swap removal drops exactly the complete notifications and keeps every other |
| StreamSenders.StreamSender.StageBatch | crates/ioutgt-stream/src/lib.rs:491-525 | the loop stages and carries over exactly as specified |
| StreamSenders.StreamSender.ShipBatch | crates/ioutgt-stream/src/lib.rs:530-610 | on success the rest of the batch is on the wire, on failure a prefix of it; which of the two is `ShipTrace.ShipFailsIff` |
| StreamSenders.StreamSender.Recycle | crates/ioutgt-stream/src/lib.rs:159-164 | releases the notification-gated tags and empties the batch |
| StreamSenders.StreamSender.Reap | crates/ioutgt-stream/src/lib.rs:387-394 | after its notifications the batch is recycled |
| StreamSenders.StreamSender.Retire | crates/ioutgt-stream/src/lib.rs:458-469 | releases the tags due at completion; payload tags only if no notification is owed, otherwise the batch waits |
| StreamSenders.StreamSender.Acquire | crates/ioutgt-stream/src/lib.rs:369-376 | a free batch, waiting for the oldest only when both are in flight |
| StreamSenders.StreamSender.Drain | crates/ioutgt-stream/src/lib.rs:402-409 | every exit ends with both batches empty and all their tags released |
| RdmaCommands.RouteIsSafe | crates/ioutgt-nvme-rdma/src/target.rs:742-789 | a staged command needs between one and MAX_SEGS pages, and inline data staged lies inside its capsule |
| RdmaRoutes.RouteIff | crates/ioutgt-nvme-rdma/src/target.rs:742-789 | by the fields of a typed command: passed exactly if it is not a write or DSM on an IO queue; staged exactly if its descriptor is keyed and not empty, or in-capsule, not empty and inside the capsule, with the fewest pages that hold it; otherwise refused |
| RdmaRoutes.EverySqe | crates/ioutgt-nvme-rdma/src/sgl.rs:24-78 | any 64 bytes are such a command |
| RdmaCommands.DecodeIsOk | crates/ioutgt-nvme-rdma/src/sgl.rs:24-78 | the real decode meets what the queue model asks of a decode |
| RdmaCommands.WrIdRoundTrip | crates/ioutgt-nvme-rdma/src/wr.rs:74-89 | a work request id decodes to its kind and tag |
| RdmaCommands.FillSges | crates/ioutgt-nvme-rdma/src/wr.rs:100-122 | the scatter list is the front of the lease, of the length asked for |
| RdmaCommands.PostSgeRuns | crates/ioutgt-nvme-rdma/src/wr.rs:145-173 | one work request per run, at the remote address behind the previous one |
| RdmaCommands.LastIsSignaled | crates/ioutgt-nvme-rdma/src/wr.rs:145-173 | exactly the last of a command's work requests is signaled |
| RdmaCommands.ReadsFillLease | crates/ioutgt-nvme-rdma/src/target.rs:398-448 | those READs fill the lease with the host's contiguous buffer |
| RdmaSystem.CompLands | crates/ioutgt-nvme-rdma/src/target.rs:497-545 | every completion the NIC can report finds its tag in the state its handler needs |
| RdmaSystem.RouteKeeps | crates/ioutgt-nvme-rdma/src/target.rs:742-789 | routing a claimed command keeps the invariant, whichever way it goes |
| RdmaSystem.PollKeeps | crates/ioutgt-nvme-rdma/src/target.rs:497-585 | any poll with its drains keeps the invariant and leaves nothing deferred that could go ahead |
| RdmaSystem.StepKeeps | crates/ioutgt-nvme-rdma/src/target.rs:497-976 | every step of host, NIC, commands and queue keeps the invariant |
| RdmaSystem.HostNeverOverruns | crates/ioutgt-nvme-rdma/src/target.rs:696-830 | a host with at most nslots commands unanswered never overflows the parking lot, and whenever it may send a receive buffer is posted |
| RdmaSystem.DeferralNeverStalls | crates/ioutgt-nvme-rdma/src/target.rs:551-585 | parked implies no free tag; waiting implies the front lease cannot be met; with 32 pages or more some tag outside the wait holds pages |
| RdmaProgress.SendQueueNeverOverflows | crates/ioutgt-nvme-rdma/src/target.rs:1398-1409 | on an IO queue the outstanding READ, WRITE and SEND work requests never exceed one per pool page plus one per slot, nor 33 per slot, and so fit the send queue unless its clamp is below both |
| RdmaSystem.InflightIsExact | crates/ioutgt-nvme-rdma/src/target.rs:631-637 | a tag's count is its outstanding signaled response work requests, and it stays responding until that is zero |
| RdmaServes.EveryCommandIsServed | crates/ioutgt-nvme-rdma/src/target.rs:497-976 | over any run, the commands sent that are not to be refused have started, or are ready, receiving, parked or arriving; the answers posted or queued are those of finished commands and of refused ones |
| RdmaServes.ArrivalIsServed | crates/ioutgt-nvme-rdma/src/target.rs:696-789 | in every reachable state a poll that receives a command parks it last if no tag is free, and otherwise makes its tag ready, answers it, stages it or lets it wait last, as its route and the free pages say |
| RdmaServes.OnePerRun | crates/ioutgt-nvme-rdma/src/target.rs:398-448 | a tag's outstanding READs, or WRITEs, are one per run of its lease, or none; a receiving tag that does not wait has them all out |
| RdmaServes.ResponseIsPosted | crates/ioutgt-nvme-rdma/src/target.rs:882-976 | posting a response puts out one WRITE per run exactly if it has data, and its SEND |
| RdmaServes.ReadMakesReady | crates/ioutgt-nvme-rdma/src/target.rs:497-545 | the completion of a tag's READs makes it ready |
| RdmaServes.AnyRuns | crates/ioutgt-core/src/slotq.rs:176-190 | a lease may come in any number of runs from one to its pages |
| RdmaOrder.ServedInTurn | crates/ioutgt-nvme-rdma/src/target.rs:551-582 | over any run, arrived capsules, parked commands, waiting writes and queued responses each leave in the order they joined |
| RdmaProgress.OvertakesIff | crates/ioutgt-nvme-rdma/src/target.rs:696-789 | in every reachable state with a write waiting for pages, a poll that receives a new write stages it ahead of all of them exactly when its own pages are free, which are then fewer than the front asks for; otherwise it waits last |
| RdmaProgress.PagesAndBuffersAreConserved | crates/ioutgt-nvme-rdma/src/target.rs:696-855 | in every reachable state leased and free pages are the pool, a free tag leases none, and every capsule buffer is posted or held by exactly one command that arrived, is parked or waits |
| RdmaProgress.DeferralMakesProgress | crates/ioutgt-nvme-rdma/src/target.rs:551-585 | with 32 pages or more, whenever a command is parked or waits, some tag is about to run, running, reading or being answered that holds pages, or could get any number it may ask for; if one waits, it is a tag that holds pages |
| RdmaStarvation.Passing | crates/ioutgt-nvme-rdma/src/target.rs:551-571 | from any state in which writes wait and a smaller one is ready, for every n a run in which n of the smaller ones are sent and answered while the same writes wait |
| RdmaStarvation.FrontStarves | crates/ioutgt-nvme-rdma/src/target.rs:551-571 | if k writes of p pages leave room for one more but not for one of b pages, with two slots to spare, a fresh queue has a run to a state in which a write of b pages waits, and from that one state for every n a run in which n writes of p pages pass it |
| RdmaStarvation.WritesStarve | crates/ioutgt-nvme-rdma/src/target.rs:551-571 | so it is with the real decode, 128 slots and the default 8 MiB pool |
| RdmaTarget.RdmaQueue.constructor | crates/ioutgt-nvme-rdma/src/target.rs:221-317 | a new queue has every capsule buffer posted, every tag and page free and no work; Connect is then the first command of a run |
| RdmaTarget.RdmaQueue.TryLease | crates/ioutgt-core/src/slotq.rs:176-190 | leases exactly when the pages are free, into the leases alone |
| RdmaTarget.RdmaQueue.TryStage | crates/ioutgt-nvme-rdma/src/target.rs:796-855 | stages exactly when the lease fits: inline data at once, remote data into the read batch |
| RdmaTarget.RdmaQueue.FailRecv | crates/ioutgt-nvme-rdma/src/target.rs:865-873 | the refused command answers without data |
| RdmaTarget.RdmaQueue.RouteCmd | crates/ioutgt-nvme-rdma/src/target.rs:742-789 | passes, refuses, stages or defers as specified, giving the capsule buffer back when it is no longer needed |
| RdmaTarget.RdmaQueue.ClaimOrPark | crates/ioutgt-nvme-rdma/src/target.rs:723-737 | a received command is routed exactly when a tag is free, otherwise parked, or overflows a full parking lot |
| RdmaTarget.RdmaQueue.HandleRecv | crates/ioutgt-nvme-rdma/src/target.rs:696-737 | an arrived capsule is routed if a tag is free, parked otherwise, or overflows |
| RdmaTarget.RdmaQueue.OnResponseDone | crates/ioutgt-nvme-rdma/src/target.rs:631-637 | lowers the count; at zero releases the tag and its pages |
| RdmaTarget.RdmaQueue.StageFirst | crates/ioutgt-nvme-rdma/src/target.rs:557-569 | the oldest waiting write is staged exactly when its lease fits, without changing what the whole drain does |
| RdmaTarget.RdmaQueue.DrainPoolWait | crates/ioutgt-nvme-rdma/src/target.rs:551-571 | stages waiting commands oldest first up to the first that does not fit |
| RdmaTarget.RdmaQueue.DrainParked | crates/ioutgt-nvme-rdma/src/target.rs:571-582 | routes parked commands oldest first while tags are free |
| RdmaTarget.RdmaQueue.PostReadsBatch | crates/ioutgt-nvme-rdma/src/target.rs:398-448 | every batched tag gets its READs outstanding, one per run |
| RdmaTarget.RdmaQueue.PostResponsesBatch | crates/ioutgt-nvme-rdma/src/target.rs:882-976 | every queued response is posted, counting its WRITE if it has data and its SEND |
| RdmaTarget.RdmaQueue.ProcessCqes | crates/ioutgt-nvme-rdma/src/target.rs:497-545 | a poll is its completions in order, then the drains, and keeps the system invariant |
| NsCaches.Subsystem.AddNamespace | crates/ioutgt-core/src/subsystem.rs:150-160 | adds exactly a free id with its namespace, keeps every other, and bumps the generation |
| NsCaches.Subsystem.RemoveNamespace | crates/ioutgt-core/src/subsystem.rs:164-174 | removes exactly a used id, keeps every other, and bumps the generation |
| NsCaches.NsCache.Get | crates/ioutgt-core/src/subsystem.rs:201-208 | undisturbed, it returns the current table |
| NsCaches.CallsAreFresh | crates/ioutgt-core/src/subsystem.rs:140-208 | in every interleaving each call returns a table there has been, at least as new as the generation it loaded, and calls on one cache never go back |
| NsCaches.NoChangeIsMissed | crates/ioutgt-core/src/subsystem.rs:140-208 | a call returns at least the version current when it started |
| NsCaches.OneChangePerVersion | crates/ioutgt-core/src/subsystem.rs:150-174 | in any run each version of the table differs from the one before by one namespace added or removed |
| NsCaches.ChangeIsMade | crates/ioutgt-core/src/subsystem.rs:150-174 | a change that gets the lock is made exactly if its id is free to add or there to remove, and the generation then equals the version |
| NsCaches.NeverStuck | crates/ioutgt-core/src/subsystem.rs:140-208 | a writer or a call under way can always go on, or waits for a writer that can |
| CpuSpread.SplitIsEven | crates/ioutgt-cpus/src/spread.rs:146-148 | the parts add up and differ by at most one |
| CpuSpread.SplitMonotone | crates/ioutgt-cpus/src/spread.rs:114-118 | no group's present quota exceeds its total quota |
| CpuSpread.SortByKey | crates/ioutgt-cpus/src/spread.rs:78-79 | a permutation, larger keys first, ties to the lower index |
| CpuSpread.Apportion | crates/ioutgt-cpus/src/spread.rs:73-84 | all seats are given out, each node its floor of one plus its whole share, the seats left over one each to the largest remainders |
| CpuSpread.PackWholeNodes | crates/ioutgt-cpus/src/spread.rs:89-100 | groups are unions of whole nodes; no load exceeds another by more than the heaviest node, and without any one of its nodes a group would be no heavier than any other |
| CpuSpread.WholeCovers | crates/ioutgt-cpus/src/spread.rs:89-100 | those groups are disjoint and cover the nodes |
| CpuSpread.FillOrder | crates/ioutgt-cpus/src/spread.rs:155-192 | the locality walk, no CPU twice |
| CpuLocality.OrderKeepsTogether | crates/ioutgt-cpus/src/spread.rs:150-192 | where sibling sets and clusters partition the node and nest, the order has every CPU once, keeps every cluster and every sibling set contiguous, and lists siblings in ascending order |
| CpuLocality.LopsidedIsSplit | crates/ioutgt-cpus/src/spread.rs:150-192 | where a CPU names a sibling that does not name it, a sibling set need not be contiguous |
| CpuLocality.BoundaryDividesOne | crates/ioutgt-cpus/src/spread.rs:17-18 | on such a node, with its present CPUs grouped in fill order, the boundary behind any group divides at most one sibling set and at most one cluster |
| CpuSpread.OrderIsDistinct | crates/ioutgt-cpus/src/spread.rs:155-192 | the order stays inside the node, and has all of it unless a CPU is shadowed by a later one |
| CpuSpread.ShadowedIsLost | crates/ioutgt-cpus/src/spread.rs:155-192 | on a node of just the two, the shadowed CPU is lost |
| CpuSpread.OrderCompleteIff | crates/ioutgt-cpus/src/spread.rs:155-192 | the order has every CPU of every node exactly when no CPU is missing from its own mask with a later one in it |
| CpuTurns.TurnsOpenIff | crates/ioutgt-cpus/src/spread.rs:155-192 | for one given node: every CPU not placed by its turn is listed next exactly when, in its turn, no later CPU left by the turns below shadows it; and then the order has the whole node |
| CpuTurns.PartsCompleteIff | crates/ioutgt-cpus/src/spread.rs:155-192 | the order has all of every part of a given node exactly when no CPU of the node shadows another |
| CpuTurns.LossIsNotDecidedBelow | crates/ioutgt-cpus/src/spread.rs:155-192 | of two topologies that differ in the mask of a higher CPU, one loses a CPU and the other does not |
| CpuSpread.UnmaskedCpuIsLost | crates/ioutgt-cpus/src/spread.rs:155-192 | a two-CPU topology that loses one |
| CpuSpread.FillPresent | crates/ioutgt-cpus/src/spread.rs:107-127 | present CPUs fill the groups to exactly their present quotas, each group before the next |
| CpuSpread.ChooseGroup | crates/ioutgt-cpus/src/spread.rs:128-136 | a group with room always exists, so the `expect` never fires; one with a sibling is preferred |
| CpuSpread.FillAbsent | crates/ioutgt-cpus/src/spread.rs:128-140 | absent CPUs fill the groups to exactly their total quotas |
| CpuSpread.PackNode | crates/ioutgt-cpus/src/spread.rs:107-142 | the CPUs the order has are shared out over disjoint groups whose total and present sizes each differ by at most one, the present ones in fill order |
| CpuSpread.PackNodes | crates/ioutgt-cpus/src/spread.rs:61-66 | every node is shared out over its own seats, node after node |
| CpuSpread.Weights | crates/ioutgt-cpus/src/spread.rs:49-57 | present CPUs per node, or all of them when none is present anywhere |
| CpuSpread.SpreadCpus | crates/ioutgt-cpus/src/spread.rs:35-67 | exactly n disjoint groups inside the possible set, covering it if no CPU is shadowed, and with a seat per node exactly if no node's order loses one; with a seat per node, apportioned and evenly shared out in fill order; with fewer groups than nodes, whole nodes, no group heavier than another by more than the lightest of its own |
| Registries.ScanCovers | crates/ioutgt-core/src/registry.rs:130-169 | the wrapping scan visits every id of the slice |
| Registries.Registry.constructor | crates/ioutgt-core/src/registry.rs:111-124 | a new registry has no controllers |
| Registries.Registry.Allocate | crates/ioutgt-core/src/registry.rs:130-169 | fails exactly when the whole slice is taken, otherwise adds the first unused id from where the last one left off, wrapping once, with its admin queue |
| Registries.Registry.InstallIoQueue | crates/ioutgt-core/src/registry.rs:172-198 | accepts exactly an unused queue id in range for a known controller of the same host; otherwise changes nothing and says which of these failed |
| Registries.Registry.Remove | crates/ioutgt-core/src/registry.rs:202-208 | removes that controller only and returns it |
| Registries.SlicesAreValid | crates/ioutgt-harness/src/lib.rs:208-226 | every port's slice is non-empty and in range exactly when there are at most CNTLID_MAX ports |
| Registries.SlicesAreDisjoint | crates/ioutgt-harness/src/lib.rs:208-226 | no id is in two slices |
| Registries.SlicesCover | crates/ioutgt-harness/src/lib.rs:208-226 | every id is in one |

## Left out

- Waker and task scheduling: a waker is a registered flag and a fired flag, and the scheduler is any interleaving of steps.
- Weak memory: the atomics of the ring and of the namespace generation are single sequentially consistent steps.
- Counter width: the provide generation and the namespace generation are unbounded, not 64-bit; the ring tail is 16-bit as in the code.
- Foreign calls: io_uring operations, verbs and the connection manager are environment steps that may do anything their ABI allows.
- `GatherBatch`: a batch is a byte sequence with a sent cursor, and its headroom test any function of the staged items that is true of an empty batch.
- The sender's outer loop (`send_batches`, `next_work_reaping`) is the step system of `SendSystem`; its pieces are the methods of `StreamSender`, but not the loop itself.
- The non-ring reader's scratch buffer: any cut of the stream into windows is covered by `WindowsDoNotMatter`.
- RecvLoops.RecvLoop.HandleCapsuleCmd: its tags come from a function of the claim number, so waiting for a free tag is not part of it; the freelist itself is `SlotArray`.
- Hosts that announce a data digest without having negotiated it are not covered by `HostIsServed`; `AnyStreamIsSafe` and `EveryCommandWasSent` cover them like any other bytes.
- Digest.Crc32cContinues: says nothing of the polynomial; that is the definition, written from RFC 3720.
- Waiting for pool pages on the TCP side and the heap fallback lease: only the immediate allocation is modelled.
- RDMA leases: the queue counts pages and runs, justified by `Pool.SmallRequests` and `Pool.LeaseRuns`; that reads fill the runs is `ReadsFillLease`.
- RDMA bootstrap, the park probe, the watchdog and teardown: timing and foreign calls. Connect runs through the same steps as any command, so it is a prefix of a run; the READ of its data into a buffer of its own is not modelled.
- RdmaProgress.SendQueueNeverOverflows: is about IO queues; the admin queue has a pool of its own size (`crates/ioutgt-nvme-rdma/src/target.rs:231-232`), which is not the one its send queue is sized from.
- Storage.MemoryBackend: per-chunk locks, concurrent commands and the artificial write delay.
- CpuLocality.OrderKeepsTogether: asks for consistent masks, one way only; which inconsistent masks still keep siblings together is not worked out. Absent CPUs prefer a sibling's group (`ChooseGroup`), but are not part of `BoundaryDividesOne`.
- The file backend, identify, log page and feature handlers, controller registers, uuid formatting, the control server, configuration and statistics: single-branch or input/output code that would only add easy members.
