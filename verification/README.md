# modvm in Dafny

A model of the hard logic of modvm, a virtual machine monitor written in C, with proofs about it.
`dafny verify dfyconfig.toml` verifies every file. The main results of each part are in the table below;
each is a statement about every input, every reachable state or every run.

| part | files | main results |
|---|---|---|
| I/O delivery engine | `Errors`, `IoQueue`, `IoCtx`, `IoCtxSafety`, `IoCtxProgress`, `IoBinding` | `AccountsBalance`, `CallbacksObeyCloseAndPause`, `ExecutedIsPrefix`, `NoLostWakeup`, `DestroyIsClean`, `PostOutcome`, `EverythingRuns`, `PostedIsDelivered`, `CloseGivesBack` |
| guest memory and virtqueues | `GuestMemory`, `Streams`, `Chains`, `PowersOfTwo`, `Virtqueue`, `DriverView` | `WalkChain`, `Virtqueue.Pop`, `ReadChain`, `WriteChain`, `Virtqueue.Push`, `DescLayout`, `PostedIsPopped`, `KickServesPosted`, `PushedLayout` |
| virtio block and net | `QueueTurns`, `VirtioBlk`, `VirtioNet` | `BlkDevice.Notify`, `NetDevice.Notify`, `OneHistory`, `OneEffect`, `WrittenThenRead`, `EffectIsConfined`, `RequestTable`, `FramesInOrder` |
| virtio status and transports | `VirtioStatus`, `VirtioTransport`, `MmioDisk` | `InOrderRun`, `FrozenUntilReset`, `NotServedUntilReset`, `StatusBits`, `InitialiseWorks`, `StatusShows`, `BringUpMmio`, `BringUpPci`, `MmioBlk.Kick`, `NothingMissed` |
| UART | `ByteRing`, `UartReceive`, `Uart`, `UartGuest`, `Console` | `Uart16550.IoRead`, `Uart16550.IoWrite`, `ArrivalPends`, `TriggerShows`, `BatchFits`, `EveryByteArrives`, `ReadsResume` |
| address space and PCI | `Spans`, `AddressSpace`, `BarAllocator`, `PciConfig`, `PciRegisters`, `Intx`, `PciHost` | `Allocate`, `Vm.Dispatch`, `PciBus.WriteConfig`, `BarReadsBack`, `BarWriteMoves`, `CommandWriteShows`, `HostBridge.WriteConfig`, `LinesAreRight` |
| poll worker and TAP receive protocol | `PollService`, `TapSource` | `CallbackIsCurrent`, `RoundCallsTheReady`, `OneFrameInFlight`, `ReadyIsCurrent` |
| threads, pools, devices | `VmThreads`, `VmProgress`, `ResPool`, `DeviceTree` | `HandlesAreSafe`, `AllJoined`, `JoinMakesProgress`, `StopsOnlyWhenAsked`, `OneFailureEndsTheMachine`, `Pool.ReleaseAll`, `RunsUnlessCancelled`, `ChildrenGoFirst`, `PoolsUnwind` |
| Linux boot placement | `LinuxLoader` | `LowRam`, `PlaceKernel`, `PlaceInitrd`, `Load`, `OneBankBoots`, `BuildTable` |

How the code is modelled:

- Concurrent code is a transition system with one action per critical section or atomic access, and
  the theorems hold for every interleaving. `IoCtx` is the context alone. `Console` and `TapSource`
  run it together with the UART and with the TAP poll worker, so their theorems cross files. So do
  those of `MmioDisk`, the block device behind its registers, and of `PciHost`.
- Code that updates a structure in place is a class with those fields. Its methods are proved equal
  to functions of the old state (`View`, `Settings`, `Acts`, ...), and the theorems are about those
  functions.
- C integers are unbounded here. Where width matters it is written out: 16-bit ring counters are
  kept modulo 2^16 beside an unbounded ghost count, revisions modulo 2^64, the used length below
  2^32, address sums against 2^64 - 1. A mask with `size - 1` for a power of two is written as
  subtracting the remainder. Registers with bit operations are bit vectors; UART registers whose
  bits are used one by one are records of flags.
- Guest memory is a map from guest address to byte. The host memory behind two regions never
  overlaps, so a host byte can be named by the guest address that it backs.
- System calls, backends and allocations are nondeterministic within their header contracts. Where the
  result depends on what others do, that is a parameter, so that no method can choose it: the answers
  of a block backend, which may move fewer bytes than asked or move some and then report an error
  (`Backend`), what the guest writes between two turns of a queue handler (`guest`), and what cleanup
  functions do to the pool that runs them (`Script`).
- Handlers with loops come with a history of their turns (`Turns`, `History`). Predicates say that
  every turn is right and that memory goes from turn to turn, and the theorems about whole calls are
  proved over the history. `OneHistory` shows that there is only one.
- What the parts do when asked is stated from outside as well, in the numbers that a guest, a driver or a host
  uses: byte offsets of descriptors and rings (`DriverView`), requests of the block device (`RequestTable`),
  configuration writes and reads (`PciRegisters`), register programs of the UART from power-on (`UartGuest`), and
  whole runs of the I/O context and of the vCPU threads that lead to a given state (`IoCtxProgress`, `VmProgress`).
- The header rules assumed of callers are: one runner per context, producers stopped before the
  owner drops its reference, owners close before they put, RAM frozen once the VM is built, and
  guest memory stable during one pop.

Where the code departs from what its comments suggest:

- A 32-bit write of a value such as 0x100 to the MMIO status register resets the device, because
  the device takes the low byte, but not the transport, which tests the whole value
  (`src/hw/virtio/virtio_mmio.c:191-199`). Then the ready flags no longer show the queues.
  `Mmio.WriteStatus` proves the exact condition, `WideStatusDisagrees` gives the value.
- Clearing the receive FIFO leaves a pending timeout interrupt in place
  (`src/hw/char/uart_16550a.c:136-147`), so a timeout need not mean a byte. `Uart16550.IoWrite` proves
  the exact condition, reads and arriving bytes keep it, `TimeoutOutlivesByte` reaches the failure from
  reset.
- Without a console a transmitted byte moves only the head index (`src/hw/char/uart_16550a.c:257-274`).
  `Uart16550.Transmit` and `IoWrite` prove that the indices stay equal exactly with a console, and that a
  transmit FIFO clear makes them equal again; `IndicesDrift` reaches the failure from reset.

## Model

| member | source | states |
|---|---|---|
| IoQueue.FindRunnable | src/io/ctx.c:182-188 | the runner's scan finds the first work that is control work or whose binding is enabled |
| IoQueue.CancelQueued | src/io/ctx.c:133-139 | the close scan splits the queue into the works kept and the works of the binding, both in order |
| IoQueue.TakeIsFifo | src/io/ctx.c:207-214 | taking the first eligible work takes the oldest of its binding and kind and leaves every other stream alone |
| IoQueue.CloseSplits | src/io/ctx.c:125-148 | closing keeps every datum with a kept or a cancelled work and leaves no reference of the binding queued |
| IoCtxSafety.InvStep | src/io/ctx.c:86-270 | every action of every thread keeps the whole invariant |
| IoCtxSafety.AccountsBalance | src/io/ctx.c:86-173 | in every reachable state a binding's references are the owner's, the queued works', the runner's and the closer's; every posted datum is in exactly one place or released exactly once; no BUG_ON fires |
| IoCtxSafety.CallbacksObeyCloseAndPause | src/io/ctx.c:199-225 | queued work belongs to an open binding; work that is about to run has an open binding, and an enabled one if it is data |
| IoCtxSafety.ExecutedIsPrefix | src/io/ctx.c:150-227 | per binding and kind the callbacks started are a prefix of the posts accepted, and on an open binding the rest is what is taken or queued |
| IoCtxSafety.ClosedStaysSilent | src/io/ctx.c:125-148 | in every run, once a binding is closed it stays closed and none of its callbacks starts |
| IoCtxSafety.NoLostWakeup | src/io/ctx.c:178-192 | a runner that waits without a pending signal has not been stopped and has no eligible work |
| IoCtxSafety.FirstErrorWins | src/io/ctx.c:258-270 | the context keeps the first negative error ever reported |
| IoCtxSafety.DestroyIsClean | src/io/ctx.c:239-248 | when runner and owners are finished no binding and no work is left and every datum is released once |
| IoCtxProgress.PostOutcome | src/io/ctx.c:150-173 | a post is taken exactly when memory was there, the context runs and the binding is open: the work is queued last with a reference and a waiting runner is signalled; otherwise the datum is handed back and nothing else changes |
| IoCtxProgress.RefusedIsReleased | src/io/ctx.c:154-166 | a refused datum is released once |
| IoCtxProgress.CreateOutcome | src/io/ctx.c:86-107 | a new binding is open and enabled with one reference; a stopped context makes none |
| IoCtxProgress.EnableOutcome | src/io/ctx.c:250-256 | pausing and resuming change that flag alone and a waiting runner looks again |
| IoCtxProgress.StopOutcome | src/io/ctx.c:229-270 | stopping and failing set the stop flag and wake the runner; failing keeps the first negative error |
| IoCtxProgress.LockOutcome | src/io/ctx.c:81-148 | who takes the free device lock may create bindings and pause or close those whose owner holds its reference |
| IoCtxProgress.AlwaysOpen | src/io/ctx.c:109-270 | posting needs only the owner's reference, stopping and failing nothing |
| IoCtxProgress.RoundServes | src/io/ctx.c:175-227 | whenever something may run, a round of the runner runs the oldest such work once, releases its datum and its reference, and changes nothing else |
| IoCtxProgress.EverythingRuns | src/io/ctx.c:175-227 | while nothing is paused the runner alone can go on until everything queued has run, in the order of the queue |
| IoCtxProgress.PostedIsDelivered | src/io/ctx.c:150-227 | a post to an open, enabled binding of a context whose runner waits is delivered, and nothing else runs |
| IoCtxProgress.FromScratch | src/io/ctx.c:44-227 | a context from its creation: a binding is made, the runner waits, one post arrives and is delivered, nothing is left |
| IoCtxProgress.WaitsOtherwise | src/io/ctx.c:178-192 | with nothing to run the runner waits |
| IoCtxProgress.StoppedReturns | src/io/ctx.c:175-206 | a stopped runner returns the first negative error reported, or zero, and runs nothing more |
| IoCtxProgress.CloseGivesBack | src/io/ctx.c:125-148 | a close can be carried through: exactly the binding's works leave the queue, their data are released in queue order, their references dropped |
| IoCtxProgress.PutOutcome | src/io/ctx.c:109-118 | a put drops the owner's reference |
| IoCtxProgress.FreeOutcome | src/io/ctx.c:109-118 | a binding that nobody holds is freed, and only it; it is closed |
| IoCtxProgress.BugIsRecorded | src/io/ctx.c:109-118 | freeing an open binding, or dropping a reference on one that is gone, would be recorded for good |
| IoBinding.ForeignRunner | src/io/ctx.c:175-227 | a runner action that is not the owner's leaves the binding, its deliveries and its callbacks alone |
| IoBinding.ForeignOther | src/io/ctx.c:86-173 | so does every action of another thread on another binding |
| GuestMemory.FindRegion | src/core/memory.c:144-157 | the list scan returns the first region containing the address |
| GuestMemory.FindUnique | src/core/memory.c:144-157 | with disjoint regions that is the only region containing it |
| GuestMemory.ChunkIsContiguous | src/core/memory.c:182-196 | a chunk exists exactly when its first byte is accessible and the span does not wrap; all its bytes are consecutive bytes of one region with permission |
| GuestMemory.RangeIsMapped | src/core/memory.c:199-204 | a non-empty span is mapped exactly when it does not wrap and one region with the permission holds all of it |
| Streams.Map | src/hw/virtio/virtqueue.c:219-233 | the chunk is the rest of its buffer, cut at the region's end; it serves stream position `offset` exactly when the stream has it, whatever zero-length buffers and region borders lie before |
| Streams.ReadBack | src/hw/virtio/virtqueue.c:235-267 | where no guest byte is addressed twice, reading returns what was written |
| Chains.EndedIsAcyclic | src/hw/virtio/virtqueue.c:178-211 | a walk that reaches a descriptor without NEXT visits no descriptor twice |
| Chains.Pigeonhole | src/hw/virtio/virtqueue.c:181-184 | a walk longer than the table visits some descriptor twice |
| Chains.LoopFound | src/hw/virtio/virtqueue.c:181-184 | after as many steps as the table has entries, one more step revisits a descriptor |
| Virtqueues.ProbeBuffer | src/hw/virtio/virtqueue.c:201-207 | the mapping loop succeeds exactly when every byte of the buffer is accessible |
| Virtqueues.CheckDesc | src/hw/virtio/virtqueue.c:187-207 | a descriptor is usable exactly when flags, order, length and mapping are right, with the error for each |
| Virtqueues.WalkChain | src/hw/virtio/virtqueue.c:177-211 | the chain is accepted exactly when it is in range, acyclic, well flagged, readable before writable and wholly mapped; every refusal names the descriptor where the walk stops and its error is the reason there; ELOOP means a revisited descriptor |
| Virtqueues.OneFailure | src/hw/virtio/virtqueue.c:177-216 | a refused chain has one place where it fails and one error |
| Virtqueues.Fetch | src/hw/virtio/virtqueue.c:168-213 | pop number N takes available slot N mod queue size, or reports an empty or inconsistent ring, or the error of the descriptor where the walk fails |
| Virtqueues.Virtqueue.constructor | src/hw/virtio/virtqueue.c:69-90 | a new queue is disabled and its counts are zero |
| Virtqueues.Virtqueue.Pop | src/hw/virtio/virtqueue.c:159-217 | the result, errors included, is determined by the rings; failure breaks the queue and leaves the count; success advances it by one |
| Virtqueues.Virtqueue.Push | src/hw/virtio/virtqueue.c:275-293 | push number M fills used slot M mod queue size and publishes M + 1 mod 65536 |
| Virtqueues.UsedMemHolds | src/hw/virtio/virtqueue.c:275-293 | the slot then reads back as the element and the index field as the new count |
| Virtqueues.UsedMemFrame | src/hw/virtio/virtqueue.c:275-293 | no other guest byte changes |
| Virtqueues.Virtqueue.SetSize | src/hw/virtio/virtqueue.c:106-112 | accepted exactly for a power of two within the maximum on a disabled queue |
| Virtqueues.Virtqueue.Reset | src/hw/virtio/virtqueue.c:114-123 | disabled, unbroken, maximum size, counts start again |
| Virtqueues.Virtqueue.SetAddrs | src/hw/virtio/virtqueue.c:134-152 | enabled exactly when the three rings are aligned and wholly mapped, the used ring for writing |
| Virtqueues.Virtqueue.Disable | src/hw/virtio/virtqueue.c:154-157 | only the enabled flag changes, so a later resume continues the counts |
| Virtqueues.ReadChain | src/hw/virtio/virtqueue.c:235-262 | every in-range read of an accepted chain succeeds and returns that slice of the readable stream |
| Virtqueues.WriteChain | src/hw/virtio/virtqueue.c:235-267 | every in-range write succeeds and equals writing byte by byte in stream order; an out-of-range one changes nothing |
| Virtqueues.WritableIsNotReadOnly | src/hw/virtio/virtqueue.c:201-207 | no byte of a writable stream is read-only RAM |
| Virtqueues.WriteTouchesOnlySlice | src/hw/virtio/virtqueue.c:235-257 | a write leaves every byte outside the slice alone |
| Virtqueues.Take | src/hw/virtio/virtqueue.c:159-217 | a pop finds nothing, fails or takes the next chain exactly when the queue is idle, jammed or shows an acceptable chain |
| Virtqueues.OneChain | src/hw/virtio/virtqueue.c:159-217 | the rings show one chain at most |
| Virtqueues.PutBack | src/hw/virtio/virtio_blk.c:166-171 | status in the last writable byte, then the chain back with one more byte than was written |
| DriverView.DescLayout | src/hw/virtio/virtqueue.h:20-25 | whatever 16 bytes a descriptor has, the device reads address, length, flags and next index from bytes 0, 8, 12 and 14, lowest byte first |
| DriverView.PostedIsGood | src/hw/virtio/virtqueue.c:177-211 | a chain that the driver wrote with flag 1 for a next descriptor and flag 2 for a writable buffer is acceptable and has the driver's buffers |
| DriverView.PostedIsPopped | src/hw/virtio/virtqueue.c:159-217 | what the driver posts and makes available, index in bytes 2 and 3 and entries from byte 4 on, the device pops next: the same buffers in the same order |
| DriverView.NothingPosted | src/hw/virtio/virtqueue.c:166-170 | there is nothing to pop exactly while the index in the ring equals the number of pops |
| DriverView.KickServesPosted | src/hw/virtio/virtio_blk.c:99-178 | a handler that ends its work after the driver posted a chain has served exactly that chain first |
| DriverView.PushedLayout | src/hw/virtio/virtqueue.c:275-293 | used entry M has the head in bytes 0 to 3 and the length in 4 to 7 of the slot at 4 + 8 (M mod size), and the index in bytes 2 and 3 is M + 1 |
| QueueTurns.PoppedIsPushed | src/hw/virtio/virtio_blk.c:108-178 | over all turns of a handler every popped chain is pushed, except one without room for a status; after a failure the device is not ready, otherwise its status is unchanged |
| QueueTurns.OneHistory | src/hw/virtio/virtio_blk.c:108-178 | the ring, the guest's writes and the backend determine the whole history of a handler: the chains served, the memory after each and where it stops |
| VirtioBlk.TransferIn | src/hw/virtio/virtio_blk.c:133-146 | the read loop succeeds exactly when the backend answers every call in full; the calls follow each other without a gap, each for as much as one piece of host memory takes; what they move, and only that, lands in the writable stream |
| VirtioBlk.TransferOut | src/hw/virtio/virtio_blk.c:133-146 | the same for the write loop: what the calls move of the payload, and only that, is on the disk |
| VirtioBlk.OneTransfer | src/hw/virtio/virtio_blk.c:133-146 | whatever the backend answers, a transfer makes one list of calls and has one result |
| VirtioBlk.CheckRange | src/hw/virtio/virtio_blk.c:127-132 | the overflow-free tests accept exactly lengths that are multiples of 512 and end, from byte 512 times the sector on, within the capacity and below 2^64 |
| VirtioBlk.Serve | src/hw/virtio/virtio_blk.c:117-165 | a well-shaped, in-range IN or OUT (the latter on a writable disk) ends OK exactly when every backend call was answered in full; every other request has its one allowed effect |
| VirtioBlk.OneEffect | src/hw/virtio/virtio_blk.c:117-165 | whatever the guest asks and the backend answers, a request has one status, one length, one memory and one disk afterwards |
| VirtioBlk.InDelivers | src/hw/virtio/virtio_blk.c:126-149 | a successful IN leaves the disk bytes from 512 times the sector on in the writable stream and the status byte untouched |
| VirtioBlk.OutStores | src/hw/virtio/virtio_blk.c:126-149 | a successful OUT makes the disk bytes from 512 times the sector on equal the readable stream after its first 16 bytes and changes no other |
| VirtioBlk.WrittenThenRead | src/hw/virtio/virtio_blk.c:126-149 | what an OUT stored, an IN of the same sectors delivers, whatever the two chains look like |
| VirtioBlk.RequestTable | src/hw/virtio/virtio_blk.c:117-165 | by the bytes of the request: type in bytes 0 to 3, sector in 8 to 15; types 0, 1, 4 and 8 read, write, flush and identify with status 0 or 1, other types get status 2, ill-shaped ones status 1 and no effect |
| VirtioBlk.IdentityBytes | src/hw/virtio/virtio_blk.c:156-162 | the identity is the name of the disk in 20 bytes |
| VirtioBlk.HealthyBackendSucceeds | src/hw/virtio/virtio_blk.c:117-165 | with a backend that answers in full, a well-shaped IN or OUT ends OK exactly when it is in range and the disk is not read-only for an OUT |
| VirtioBlk.EffectIsConfined | src/hw/virtio/virtio_blk.c:109-173 | a read-only disk never changes, other disk and guest bytes never change, the used length fits 32 bits |
| VirtioBlk.Complete | src/hw/virtio/virtio_blk.c:109-173 | one popped chain: its effect, the status in its last byte, the used element |
| VirtioBlk.TakeTurn | src/hw/virtio/virtio_blk.c:108-174 | one turn of the loop: the chain that the ring shows is served and returned, or the loop stops for the reason that the ring shows |
| VirtioBlk.BlkDevice.Notify | src/hw/virtio/virtio_blk.c:99-178 | a device that is not ready does nothing; otherwise the chains of the ring are served one by one in ring order, each in the memory that the one before left with the guest's writes on top and on the disk it left, until the ring is empty or jammed, a chain has no room for a status, or the guest is silent; memory is what the last turn left; an interrupt exactly when something was pushed |
| VirtioBlk.RuleIsFunctional | src/hw/virtio/virtio_blk.c:108-174 | for each chain the device has one right thing to do, so `OneHistory` applies |
| VirtioBlk.ReadonlyIsKept | src/hw/virtio/virtio_blk.c:131 | over all turns a read-only disk is unchanged |
| VirtioNet.FrameOf | src/hw/virtio/virtio_net.c:157-160 | a frame is sent exactly for a read-only chain of fitting size, and is the stream after the header |
| VirtioNet.Command | src/hw/virtio/virtio_net.c:118-127 | the address changes exactly for a complete set-address command with the feature negotiated, and the status says so |
| VirtioNet.Deliver | src/hw/virtio/virtio_net.c:188-192 | header and frame fill the start of the writable stream, or nothing is written |
| VirtioNet.NetDevice.Notify | src/hw/virtio/virtio_net.c:141-172 | a kick of the transmit queue, or of a negotiated control queue, of a ready device serves the chains of the ring one by one, each in the memory that the one before left with the guest's writes on top, until the ring is empty or jammed, a command has no room for a status, or the guest is silent; any other kick does nothing |
| VirtioNet.FramesInOrder | src/hw/virtio/virtio_net.c:154-168 | over all turns the frames offered to the host are those of the chains served, read at the time of each, in order |
| VirtioNet.Send | src/hw/virtio/virtio_net.c:157-166 | one chain: its frame appended if it has one, the chain returned with length zero |
| VirtioNet.AddressIsKept | src/hw/virtio/virtio_net.c:111-139 | over all turns the address stays, unless the queue is the control queue and the feature was negotiated |
| VirtioNet.RuleIsFunctional | src/hw/virtio/virtio_net.c:111-195 | for each chain of each queue the device has one right thing to do, so `OneHistory` applies |
| VirtioNet.Answer | src/hw/virtio/virtio_net.c:118-133 | one command: address and status as the command demands, the chain returned |
| VirtioNet.NetDevice.FrameArrives | src/hw/virtio/virtio_net.c:174-195 | a ready device puts the frame into the next available chain, with an interrupt exactly when there was one; a jammed ring makes it ask for a reset; guest memory is untouched otherwise |
| VirtioNet.Serve | src/hw/virtio/virtio_net.c:111-195 | one chain of each queue: guest memory, frames, address and used element exactly as the queue demands |
| VirtioNet.TakeTurn | src/hw/virtio/virtio_net.c:111-195 | one turn of a handler: the chain that the ring shows is served and returned, or the handler stops for the reason that the ring shows |
| VirtioNet.TransmitTable | src/hw/virtio/virtio_net.c:157-160 | a chain without writable part is offered without its first 12 bytes when 1 to 65550 bytes remain; any other chain offers nothing |
| VirtioNet.ControlTable | src/hw/virtio/virtio_net.c:118-133 | the only command obeyed is the bytes 1, 1 and an address; it is answered with 0, anything else with 1 |
| VirtioNet.ReceiveTable | src/hw/virtio/virtio_net.c:188-195 | a frame goes behind a header of 12 bytes, of which only the buffer count is not zero, into a chain with room for both; another chain goes back unused |
| VirtioNet.FeatureNumbers | src/hw/virtio/virtio_net.c:124-148 | the features asked for are bits 17 and 23 |
| VirtioStatus.InOrderRun | src/hw/virtio/virtio.c:104-137 | over every run DRIVER_OK needs FEATURES_OK needs DRIVER needs ACKNOWLEDGE, and accepted features were offered |
| VirtioStatus.StatusKeeps | src/hw/virtio/virtio.c:116-128 | a non-zero write loses no bit and sets none that is not the driver's |
| VirtioStatus.FrozenUntilReset | src/hw/virtio/virtio.c:104-137 | between any two points of a run without a reset no status bit is lost and accepted features stay |
| VirtioStatus.ReadyMeans | include/modvm/hw/virtio/virtio.h:107-117 | a served device finished the whole initialisation and has not failed |
| VirtioStatus.InitialiseWorks | src/hw/virtio/virtio.c:104-137 | from any state the specified sequence ends ready with the chosen features exactly when they are acceptable |
| VirtioStatus.StatusBits | src/hw/virtio/virtio.c:104-130 | bit by bit: a driver sets bits 0 to 3 and 7, each stage needs the one before, bit 3 needs acceptable features, the other bits are not the driver's, no bit is lost; zero resets all |
| VirtioStatus.FeatureWrites | src/hw/virtio/virtio.c:132-137 | each half can be written until bit 3 is set; other selectors do nothing; served means bit 2 without bits 6 and 7 |
| VirtioStatus.AcceptableBits | src/hw/virtio/virtio.c:121-125 | bit 32 is needed and only offered bits may be taken with it |
| VirtioStatus.NotServedUntilReset | src/hw/virtio/virtio.c:104-137 | over every run, a device that failed or that the driver gave up is not served before a reset |
| VirtioTransport.ResetQueues | src/hw/virtio/virtio.c:106-110 | the reset loop resets every queue |
| VirtioTransport.Activate | src/hw/virtio/virtio_mmio.c:171-180 | enabling succeeds exactly when the latched size is accepted and the latched rings map |
| VirtioTransport.AddressRoundTrip | src/hw/virtio/virtio_mmio.c:142-174 | writing the halves of three 64-bit addresses latches those addresses |
| VirtioTransport.Mmio.WriteQueueField | src/hw/virtio/virtio_mmio.c:138-165 | queue registers change exactly while the selected queue is not ready |
| VirtioTransport.Mmio.WriteReady | src/hw/virtio/virtio_mmio.c:166-181 | the ready flag equals the queue's enabled state, with size and addresses as latched; after a refusal the size keeps what was accepted of it |
| VirtioTransport.Mmio.WriteStatus | src/hw/virtio/virtio_mmio.c:191-200 | device, registers and queues after a status write; the transport stays consistent exactly when the value is zero, or its low byte is not, or no queue was enabled |
| VirtioTransport.StatusShows | src/hw/virtio/virtio_mmio.c:191-200 | flags still equal the queues after a status write exactly under that condition |
| VirtioTransport.WideStatusDisagrees | src/hw/virtio/virtio_mmio.c:191-200 | writing 0x100 leaves the flag of every enabled queue up while the queue is off |
| VirtioTransport.ResetClears | src/hw/virtio/virtio_mmio.c:191-200 | a status write of zero leaves every queue register zero and every queue off with its maximum size |
| VirtioTransport.Mmio.Acknowledge | src/hw/virtio/virtio_mmio.c:186-190 | the line is up exactly while an interrupt is unacknowledged |
| VirtioTransport.Mmio.Notify | src/hw/virtio/virtio_mmio.c:182-185 | a notification reaches only an enabled queue of a ready device; status, interrupt bits and line follow what the handler reports |
| VirtioTransport.BringUpMmio | src/hw/virtio/virtio_mmio.c:138-181 | a driver that writes size and addresses and sets ready gets the queue exactly as asked when size, alignment and memory are right, and a queue that is off otherwise; no other queue changes |
| VirtioTransport.Pci.WriteQueue | src/hw/virtio/virtio_pci.c:156-184 | the effect of every write: frozen once enabled, the size register takes only accepted sizes, addresses are latched, enabling exactly when possible, everything else ignored |
| VirtioTransport.AddressWritesLatch | src/hw/virtio/virtio_pci.c:163-183 | 64-bit and 32-bit address writes latch the same addresses |
| VirtioTransport.PermittedTable | src/hw/virtio/virtio_pci.c:156-164 | the queue block takes 16-bit writes at 0, 2, 4, 6 and 32- or 64-bit writes of the addresses from 8 on |
| VirtioTransport.BringUpPci | src/hw/virtio/virtio_pci.c:156-184 | the same over the PCI queue block; a size that the queue does not take leaves the one before |
| VirtioTransport.Pci.WriteStatus | src/hw/virtio/virtio_pci.c:193-226 | a zero resets device, queues and registers together; other values leave the queues |
| VirtioTransport.Pci.ReadIsr | src/hw/virtio/virtio_pci.c:133-138 | returns and clears the interrupt bits and drops the level |
| VirtioTransport.Pci.Notify | src/hw/virtio/virtio_pci.c:228-233 | only an enabled queue of a ready device is notified; status, interrupt bits and level follow what the handler reports |
| MmioDisk.MmioBlk.Kick | src/hw/virtio/virtio_mmio.c:182-185 | a notification of an enabled queue of a ready device serves it as `BlkDevice.Notify` does; interrupt bits and line follow what was served and whether the device failed |
| MmioDisk.MmioBlk.NothingMissed | src/hw/virtio/virtio_mmio.c:182-190 | while there is a used element that the driver has not acknowledged, the interrupt line is up |
| MmioDisk.MmioBlk.Acknowledge | src/hw/virtio/virtio_mmio.c:186-190 | only the acknowledged bits go; a driver that acknowledged the queue interrupt knows of every used element |
| MmioDisk.MmioBlk.WriteReady | src/hw/virtio/virtio_mmio.c:166-181 | flag, settings and queue change together |
| MmioDisk.MmioBlk.WriteStatus | src/hw/virtio/virtio_mmio.c:191-200 | device, registers and queue after a status write; they stay consistent exactly when the value is zero, or its low byte is not, or the queue was off |
| ByteRing.Ring.Put | src/hw/char/uart_16550a.c:183-186 | a ring with wrapping indices is a queue: a byte is appended |
| ByteRing.Ring.Get | src/hw/char/uart_16550a.c:237-239 | the oldest byte is removed |
| UartReceive.BatchFits | src/hw/char/uart_16550a.c:635-664 | while not paused, a batch of up to 64 bytes is taken whole, in order and without overrun |
| UartReceive.QueueWhole | src/hw/char/uart_16550a.c:643-651 | a batch is queued whole exactly when it fits, otherwise the overrun bit is set |
| UartReceive.RefillKeepsBytes | src/hw/char/uart_16550a.c:196-221 | refilling moves bytes without losing or reordering any |
| UartReceive.ReadTakesOldest | src/hw/char/uart_16550a.c:590-609 | a register read gives the guest the oldest byte and keeps the rest in order |
| UartReceive.WriteKeepsBytes | src/hw/char/uart_16550a.c:438-576 | only a FIFO clear or loopback changes the bytes held |
| UartReceive.ReadsResume | src/hw/char/uart_16550a.c:207-213 | a guest that keeps reading always gets the paused host resumed |
| UartReceive.FifoIsFull | src/hw/char/uart_16550a.c:196-205 | after a refill the FIFO holds the oldest 16 bytes, or all |
| UartReceive.Watermarks | src/hw/char/uart_16550a.c:196-221 | a batch pauses the host exactly when 192 or more bytes wait, a read resumes it exactly when fewer than 64 are left |
| Uart.Identify | src/hw/char/uart_16550a.c:284-324 | the source shown reports something and has the highest priority of those that do |
| Uart.OneRank | src/hw/char/uart_16550a.c:284-324 | so there is only one source to show |
| Uart.IirBits | src/hw/char/uart_16550a.c:326-337 | bit 0 is clear exactly when something is pending, identifier 2 means the transmitter |
| Uart.EnablesRoundTrip | src/hw/char/uart_16550a.c:468-490 | the guest reads back the four enable bits that it wrote |
| Uart.WritesReach | src/hw/char/uart_16550a.c:438-576 | field by field where each register write goes and when the transmit interrupt becomes pending |
| Uart.ValueFits | src/hw/char/uart_16550a.c:379-436 | the value read is what the receive path promises |
| Uart.ArrivalPends | src/hw/char/uart_16550a.c:635-664 | bytes that arrive while bit 0 is enabled are announced: from the trigger level on as data, below it as a timeout, behind a line error |
| Uart.ReadKeepsByte | src/hw/char/uart_16550a.c:230-247 | a read keeps a pending timeout meaning a byte |
| Uart.WriteKeepsByte | src/hw/char/uart_16550a.c:136-147 | a write keeps it exactly unless it clears the receive FIFO while a timeout is pending |
| Uart.BatchKeepsByte | src/hw/char/uart_16550a.c:635-664 | arriving bytes keep it |
| Uart.FirstBytes | src/hw/char/uart_16550a.c:635-664 | up to 16 bytes that reach an empty receive path are in the FIFO at once |
| Uart.Uart16550.constructor | src/hw/char/uart_16550a.c:698-753 | every register at its reset value, nothing driven on the line |
| Uart.Uart16550.PushRx | src/hw/char/uart_16550a.c:176-187 | a full FIFO reports an overrun, otherwise the byte is appended; data-ready shows a non-empty FIFO |
| Uart.Uart16550.MoveBacklog | src/hw/char/uart_16550a.c:200-205 | the copy loop moves as much backlog as fits |
| Uart.Uart16550.RefillRx | src/hw/char/uart_16550a.c:196-221 | refill, resume below the low watermark, timeout as programmed |
| Uart.Uart16550.PopRx | src/hw/char/uart_16550a.c:230-247 | the oldest byte or zero; data-ready follows |
| Uart.Uart16550.ClearRx | src/hw/char/uart_16550a.c:136-147 | the FIFO is empty, data-ready and overrun clear |
| Uart.Uart16550.Transmit | src/hw/char/uart_16550a.c:455-466 | with a console the byte is handed over once, at once; equal transmit indices stay equal exactly with a console, and without one only the head moves on |
| Uart.Uart16550.Flush | src/hw/char/uart_16550a.c:257-282 | the queued bytes reach the console in order |
| Uart.Uart16550.IoRead | src/hw/char/uart_16550a.c:590-609 | value, bytes held, pause state, every register, pending timeout and line level after a register read; a receive read drives the line down first, so pending data makes a new edge; if a pending timeout meant a byte it still does |
| Uart.Uart16550.IoWrite | src/hw/char/uart_16550a.c:621-633 | bytes held, bytes sent, every register and line level after a register write; field by field where the value goes: with bit 7 of register 3 registers 0 and 1 are the divisor, otherwise register 1 takes bits 0 to 3; the transmit interrupt becomes pending exactly by a byte sent, its enable bit switched on or a transmit FIFO clear; a timeout stops meaning a byte exactly when a pending one meets a receive FIFO clear; equal transmit indices stop agreeing exactly when a byte is sent without a console |
| Uart.TimeoutOutlivesByte | src/hw/char/uart_16550a.c:136-147 | from reset, three accesses lead to a pending timeout with an empty FIFO |
| Uart.IndicesDrift | src/hw/char/uart_16550a.c:257-274 | from reset, one byte sent without a console makes the transmit indices differ |
| Uart.Uart16550.WriteFcr | src/hw/char/uart_16550a.c:492-539 | FIFO clears, which make the transmit indices agree again, and the trigger level that each value selects |
| Uart.Uart16550.QueueBatch | src/hw/char/uart_16550a.c:643-651 | the batch loop queues up to the first byte that does not fit |
| Uart.Uart16550.RxCallback | src/hw/char/uart_16550a.c:635-664 | not paused means a backlog below 192 and an enabled binding, before and after every batch; the timeout as programmed; a byte that arrives while bit 0 is enabled raises the line |
| UartGuest.EnablesReadBack | src/hw/char/uart_16550a.c:468-490 | on any UART, writing v to register 1 and reading it back gives the low four bits of v |
| UartGuest.TransmitInterrupt | src/hw/char/uart_16550a.c:284-337 | enabling the transmit interrupt raises the line; the identification register shows 2 once, then 1 |
| UartGuest.ReceiveInterrupt | src/hw/char/uart_16550a.c:379-421 | one byte: identification 4, line status 0x61, the byte, then the line down and 0x60 |
| UartGuest.TriggerShows | src/hw/char/uart_16550a.c:492-539 | for every FIFO control value with bit 0 and every batch up to 16 bytes: identification 0xc4 from the trigger level 1, 4, 8 or 14 on, 0xcc below |
| UartGuest.DivisorLatch | src/hw/char/uart_16550a.c:438-490 | with bit 7 of register 3 the divisor is written and read back and nothing is enabled |
| UartGuest.Loopback | src/hw/char/uart_16550a.c:442-466 | in loopback a byte written is the byte read |
| UartGuest.ClearShows | src/hw/char/uart_16550a.c:492-520 | register 2 clears the receive FIFO exactly with bit 1 or without bit 0 |
| UartGuest.OverrunShows | src/hw/char/uart_16550a.c:176-187 | a byte that meets a full FIFO shows as bit 1 of the line status and identification 6 until read |
| UartGuest.BreakShows | src/hw/char/uart_16550a.c:541-551 | a break is looped back: line status 0x70, identification 6, until read |
| UartGuest.ModemShows | src/hw/char/uart_16550a.c:339-377 | modem changes accumulate in the status and interrupt until read |
| UartGuest.ModemWires | src/hw/char/uart_16550a.c:349-364 | which output comes back as which input |
| UartGuest.PlainShows | src/hw/char/uart_16550a.c:541-576 | registers 3, 4 and 7 give back what was written; numbers above 7 give all ones and take nothing |
| Console.EveryByteArrives | src/io/receiver.c:87-108 | in every run no host byte is dropped, and without loopback the accepted bytes are those that left the FIFO, then FIFO, then backlog, then what is still queued |
| Console.PauseIsSeen | src/io/char.c:122-142 | the binding is enabled exactly while the UART is not paused, and then another 64 bytes fit |
| Console.SubmitOutcome | src/io/receiver.c:85-108 | 1 to 64 bytes are posted as data work, any other batch is refused |
| Console.DeliveryOutcome | src/hw/char/uart_16550a.c:590-664 | in every run a delivery hands over the bytes of its work, and a guest read takes the oldest byte alone |
| Console.GoodStep | src/hw/char/uart_16550a.c:590-664 | every step of context, host and guest keeps the end-to-end invariant |
| Spans.Scan | src/core/io_map.c:54-60 | the overlap scan is right |
| Spans.OverlapIsSharing | src/core/memory.c:49-52 | ranges overlap exactly when they share an address |
| AddressSpace.CheckRam | src/core/memory.c:72-107 | a bank is accepted exactly when non-empty, not wrapping, aligned, within the total and clear of RAM and MMIO |
| AddressSpace.Vm.AddRam | src/core/memory.c:66-141 | RAM and MMIO stay jointly disjoint and the total stays the sum |
| AddressSpace.Vm.Register | src/core/io_map.c:38-91 | a region is added exactly when it fits its space; the space stays sound |
| AddressSpace.Vm.Relocate | src/core/io_map.c:189-214 | a region of either space moves exactly when nothing else is in the way |
| AddressSpace.Vm.Unregister | src/core/io_map.c:19-24 | the region of either space, and only it, leaves its list |
| AddressSpace.Vm.Dispatch | src/core/io_map.c:102-131 | the list scan finds the unique owner of the address and never passes an access beyond its end |
| AddressSpace.FirstFits | src/core/memory.c:72-107 | on an empty machine exactly the non-empty, aligned banks and the non-empty regions that end below 2^64 are accepted |
| AddressSpace.ServesWhere | src/core/io_map.c:102-131 | a registered region serves exactly the accesses inside it; after a move, a switch or a removal it is at its new place, as switched, or gone |
| AddressSpace.SoundIsLayout | src/core/memory.c:66-141 | the RAM list is what the memory lookups rely on |
| AddressSpace.Vm.Memory | src/core/memory.c:66-141 | the RAM of a built VM is a memory space that queues and devices can use |
| BarAllocator.FindJump | src/hw/pci/pci.c:59-71 | the scans report a clear place or the end of some range that occupies it |
| BarAllocator.JumpSkipsNothing | src/hw/pci/pci.c:59-74 | no aligned place between an occupied one and the end of any range occupying it is free |
| BarAllocator.Allocate | src/hw/pci/pci.c:51-76 | the lowest aligned place in the window clear of MMIO and RAM, or none exactly when there is none |
| PciConfig.PciBus.AddFunction | src/hw/pci/pci.c:145-159 | a function with an unused number joins the bus without regions; numbers stay unique |
| PciConfig.PciBus.RegisterBar | src/hw/pci/pci.c:43-87 | success, EINVAL, EEXIST and ENOSPC each exactly when due; automatic bases are lowest; register and region agree; exactly one region is added |
| PciConfig.PciBus.Attach | src/hw/pci/pci.c:79-86 | region registered exactly when clear, decode as the command bit, register shows the base; no other region changes |
| PciConfig.RequestedIsAligned | src/hw/pci/pci.c:247-250 | whatever is written, the requested base is aligned and below 4 GiB |
| PciConfig.PciBus.WriteBar | src/hw/pci/pci.c:237-256 | probe, move of region and register together, or refusal with both unchanged |
| PciConfig.CommandBits | src/hw/pci/pci.c:260-263 | decoding follows the written bit and no other command bit can be set |
| PciConfig.PciBus.WriteCommand | src/hw/pci/pci.c:257-271 | the command bits and the interrupt line are stored; every region of the function, and no other, decodes as command bit 1 says |
| PciConfig.PciBus.WriteConfig | src/hw/pci/pci.c:221-272 | the one function addressed sees the whole effect of the write, all others and their regions stay; every BAR keeps showing its aligned region and its decode the command bit; malformed accesses and absent functions change nothing |
| PciConfig.MaskChanges | src/hw/pci/pci.c:257-273 | the INTx disable bit changes only by a write that passes the guard for command writes; the pin never changes |
| PciConfig.PciBus.ReadConfig | src/hw/pci/pci.c:185-211 | the bytes shown, or all ones for a malformed access or an absent function |
| PciConfig.BarReadsBack | src/hw/pci/pci.c:199-210 | a 32-bit BAR read is the region base, or while probing the mask from which the size follows |
| PciRegisters.LowBytesAt | src/hw/pci/pci.c:247-262 | byte i of a write is the value divided by 256^i, modulo 256 |
| PciRegisters.WholeWordRequested | src/hw/pci/pci.c:247-250 | a 32-bit BAR write asks for its value rounded down to the size |
| PciRegisters.PartWordRequested | src/hw/pci/pci.c:247-250 | a narrower one replaces the bytes that it addresses and keeps the others of the current base |
| PciRegisters.BarWriteMoves | src/hw/pci/pci.c:237-256 | a 32-bit write v, not all ones, to register 0x10 + 4i: if that place is clear, region and register read-back are v - v % size, otherwise both stay |
| PciRegisters.BarProbeShows | src/hw/pci/pci.c:199-246 | all ones make the register read 2^32 less the size, and nothing moves |
| PciRegisters.CommandWriteShows | src/hw/pci/pci.c:257-271 | a 16-bit command write: bits 1, 2 and 10 can be read back, the others are zero, bit 1 switches every region of the function, no other byte changes |
| PciRegisters.OtherWriteShows | src/hw/pci/pci.c:257-263 | of the other registers below 0x40 only the interrupt line, byte 0x3c, takes what is written |
| PciRegisters.AccessTable | src/hw/pci/pci.c:221-236 | accesses are 1, 2 or 4 bytes at a multiple of their width within 256 bytes |
| PciRegisters.PlainRead | src/hw/pci/pci.c:185-211 | a read of 1, 2 or 4 bytes outside a probed BAR is the bytes of the configuration space, lowest first |
| PciRegisters.NewcomerShows | src/hw/pci/pci.c:145-159 | a new function shows its pin in byte 0x3d and no interrupt line, and has no regions |
| PciConfig.PciBus.Remove | src/hw/pci/pci.c:89-99 | exactly the function's regions are gone, every other region stays as it is |
| PciConfig.OtherRegion | src/core/io_map.c:38-91 | a region of another device concerns no BAR |
| PciConfig.OtherRegionGoes | src/core/io_map.c:19-24 | nor does the removal of a region that no BAR holds |
| Intx.Bridge.Report | src/hw/pci/pio_bridge.c:35-63 | each line's level is the OR over the registered functions routed to it |
| Intx.Bridge.SetIrq | src/hw/pci/pci.c:284-298 | a level change keeps that and changes one function |
| Intx.Bridge.SetMask | src/hw/pci/pci.c:262-273 | so does a change of the INTx disable bit |
| Intx.Bridge.Register | src/hw/pci/pci.c:111-162 | each outcome exactly when due, a refused pool obligation included; device numbers stay unique; automatic ones take the first free slot; nothing is asserted |
| Intx.Bridge.Remove | src/hw/pci/pci.c:89-99 | only the function's own contribution is withdrawn |
| Intx.OnlyOwnContribution | src/hw/pci/pio_bridge.c:52-62 | withdrawing one sharer leaves the line to the others |
| Intx.AnyWord | src/hw/pci/pio_bridge.c:57-60 | the word loop tests whether any bit is set |
| PciHost.HostBridge.WriteConfig | src/hw/pci/pci.c:221-273 | after every configuration write INTx is masked exactly by command bit 10 of each function, and the lines follow |
| PciHost.HostBridge.LinesAreRight | src/hw/pci/pio_bridge.c:35-63 | a line is up exactly while some registered function routed to it asserts its level with INTx not disabled in its command register |
| PciHost.HostBridge.Register | src/hw/pci/pci.c:111-162 | bus and interrupt side take the same function under the same number, or neither does |
| PciHost.HostBridge.Remove | src/hw/pci/pci.c:89-99 | the function's regions and its contribution to the lines go together, every other region stays |
| PciHost.HostBridge.PortWrite | src/hw/pci/pio_bridge.c:94-119 | the address port is latched, a data port write is the configuration write that the latch selects, otherwise functions, regions and lines stay |
| PciHost.HostBridge.PortRead | src/hw/pci/pio_bridge.c:65-92 | the latch, the register that it selects, the answer of the device's own handler, or all ones |
| PciHost.TargetRoundTrip | src/hw/pci/pio_bridge.c:75-89 | bit 31, bus 0 in bits 16 to 23, device and function in 8 to 15, register in 2 to 7, byte from the data port; anything else is nothing |
| TapSource.OneFrameInFlight | src/backend/net/linux_tap.c:73-107 | in every run at most one frame is accepted and not consumed, none while the source is armed |
| TapSource.ReadyIsCurrent | src/host/linux/service.c:77-87 | the ready callback runs only if the source was not updated since the snapshot, is armed and not stopped |
| TapSource.GoodStep | src/host/linux/service.c:40-90 | every step of worker, runner and closer keeps the protocol's invariant |
| TapSource.FrameIsPosted | src/backend/net/linux_tap.c:82-107 | a frame ready at an armed source is read, the source disarmed and the frame posted; an error is posted as control work; nothing there changes nothing |
| TapSource.DisarmedIsSilent | src/host/linux/service.c:51-57 | a source that is not armed is not polled for |
| TapSource.DeliveryRearms | src/backend/net/linux_tap.c:73-79 | the delivery arms the source again unless the binding was closed |
| TapSource.StaleIsIgnored | src/host/linux/service.c:77-87 | an update between poll and check makes the readiness stale |
| TapSource.OthersAreFree | src/io/ctx.c:86-270 | every action of the context that is not the backend's own happens without it |
| TapSource.FiresExactly | src/host/linux/service.c:77-87 | the callback runs exactly when the service runs and the updates since the snapshot number a multiple of 2^64 |
| TapSource.DestroyedIsSilent | src/host/linux/service.c:47-50 | a backend that is destroyed does not fire any more and its worker exits |
| PollService.CallbackIsCurrent | src/host/linux/service.c:40-90 | in every run a ready callback is made only on a running service, for an interest that was polled, and after a multiple of 2^64 updates of the source since the snapshot |
| PollService.CalledExactlyWhen | src/host/linux/service.c:77-87 | a ready source is called exactly under that condition |
| PollService.RoundCallsTheReady | src/host/linux/service.c:40-90 | a round on a running service calls exactly the ready sources, once each, in order, and the worker starts over |
| PollService.WorkerEnds | src/host/linux/service.c:47-69 | a stopped worker finishes before it polls again; a failed poll is reported only while the service runs; an interrupted one starts over |
| PollService.SilentAfterStop | src/host/linux/service.c:47-50 | once stopped, no callback is made and no error is reported |
| PollService.FatalIsLast | src/host/linux/service.c:60-69 | a failed poll is reported at most once and nothing is called afterwards |
| PollService.GoodStep | src/host/linux/service.c:145-151 | a snapshot stays an earlier value of the sources: an unchanged count means unchanged interest |
| VmThreads.HandlesAreSafe | src/core/vm.c:257-382 | a published handle is unjoined, no kick touches a joined thread, no thread is joined twice, a joined one had ended and was kicked after stop |
| VmThreads.AllJoined | src/core/vm.c:257-274 | when the run has stopped every created thread was joined exactly once |
| VmThreads.NoneRunsEarly | src/core/vm.c:59-66 | no vCPU passes the gate before publication ends |
| VmThreads.StopAndErrorStay | src/core/vm.c:358-392 | stop is never withdrawn and a recorded error is kept |
| VmThreads.FirstErrorKept | src/core/vm.c:385-392 | the run error is the first negative error reported |
| VmThreads.JoinMakesProgress | src/core/vm.c:257-274 | the join cannot hang on the publication lock |
| VmThreads.InvStep | src/core/vm.c:59-392 | every action of every thread keeps the invariant |
| VmProgress.ExitOutcome | src/core/vm.c:68-72 | a vCPU that fails has its error reported; one that ends without error just ends |
| VmProgress.RequestOutcome | src/core/vm.c:358-382 | a shutdown request sets stop, then kicks every published handle, then stops the I/O context |
| VmProgress.ReportOutcome | src/core/vm.c:385-392 | only a negative error counts and only the first is kept |
| VmProgress.StopsOnlyWhenAsked | src/core/vm.c:276-392 | in every run nothing is kicked, the I/O context is not stopped and vm_run does not leave without error before stop is set |
| VmProgress.StartupPublishes | src/core/vm.c:276-345 | for any number of vCPUs startup leads to dispatch with every handle published and every thread at the gate |
| VmProgress.BootFails | src/core/vm.c:315-321 | a machine that does not boot creates no thread |
| VmProgress.CreationFails | src/core/vm.c:326-345 | a thread that cannot be created ends the loop; the ones before it stay published |
| VmProgress.Enters | src/core/vm.c:59-67 | a thread at the gate enters the guest, or ends at once when stop is set |
| VmProgress.FailureStopsAll | src/core/vm.c:68-72 | a failing vCPU records its error if it is the first, sets stop, kicks every published handle, stops the I/O context and ends |
| VmProgress.ShutdownCompletes | src/core/vm.c:257-350 | once every thread has ended vm_run completes: every thread that was created was kicked and is joined exactly once, the error kept is the first |
| VmProgress.OneFailureEndsTheMachine | src/core/vm.c:59-392 | a whole run: n vCPUs start, one fails with e, the others are kicked and leave, every thread is joined once, and the machine stops with error e |
| ResPool.Pool.Add | src/util/res_pool.c:35-56 | refused while releasing or when registered already, otherwise appended |
| ResPool.Pool.Alloc | src/util/res_pool.c:23-33 | refused while releasing, no obligation changes |
| ResPool.Pool.Cancel | src/util/res_pool.c:101-119 | exactly that obligation is removed |
| ResPool.Transfer | src/util/res_pool.c:67-99 | the obligation moves or nothing changes; none is lost or doubled |
| ResPool.Pool.ReleaseAll | src/util/res_pool.c:121-136 | what runs is determined by the obligations and by what each cleanup function cancels (`Unwind`); the pool ends empty; a nested release does nothing |
| ResPool.Pool.RunCallback | src/util/res_pool.c:23-119 | whatever a cleanup function asks of the pool that is running it (add, allocate, transfer in either direction, cancel, release), exactly what it cancels is gone and the pool does not grow |
| ResPool.RunsOnce | src/util/res_pool.c:121-136 | only registered obligations run, and none twice |
| ResPool.RunsUnlessCancelled | src/util/res_pool.c:101-136 | an obligation runs exactly unless one that was registered later, and runs, cancels it |
| ResPool.RunsInReverse | src/util/res_pool.c:121-136 | what runs, runs in the reverse order of registration |
| ResPool.AllRunInReverse | src/util/res_pool.c:121-136 | when none cancels another, all run, last first |
| DeviceTree.Registry.Destroy | src/core/device.c:151-164 | exactly the device and its descendants go, the device last, each with its pool released |
| DeviceTree.ChildrenGoFirst | src/core/device.c:86-164 | in every destruction each device goes once and children go before their parents |
| DeviceTree.PoolsUnwind | src/core/device.c:161 | the obligations run are, in the order in which the devices go, what the release of each pool as it was at the beginning runs |
| DeviceTree.NoneForgotten | src/core/device.c:161 | every obligation of a destroyed device runs, unless a later one of its own pool that runs cancels it |
| DeviceTree.PlainTeardown | src/core/device.c:161 | without cancellations a teardown runs every obligation, pool after pool, each last first |
| DeviceTree.Registry.DestroyAll | src/core/vm.c:398-415 | the teardown loop ends with no device, by a legal destruction from the initial list |
| DeviceTree.Registry.DestroyChildren | src/core/device.c:86-102 | only proper descendants go, and no child is left |
| LinuxLoader.ExtendOnce | src/loader/linux_x86.c:207-216 | one pass extends the usable run or shows that it ends |
| LinuxLoader.LowRam | src/loader/linux_x86.c:204-219 | the result is the end of the maximal usable run from 1 MiB, capped at 4 GiB |
| LinuxLoader.RunEndIsUnique | src/loader/linux_x86.c:204-219 | so the order of the regions does not matter |
| LinuxLoader.PlaceKernel | src/loader/linux_x86.c:220-239 | the lowest start the header allows, refused exactly when no allowed workspace fits, with the error for each reason |
| LinuxLoader.PlaceInitrd | src/loader/linux_x86.c:337-347 | the highest page clear of kernel and workspace under the limit, refused exactly when there is none |
| LinuxLoader.CopyImage | src/loader/linux_x86.c:298-310 | the chunked copy never fails for lack of RAM and stores the image |
| LinuxLoader.ImageReadsBack | src/loader/linux_x86.c:298-310 | the image can be read back and no other byte changed |
| LinuxLoader.Load | src/loader/linux_x86.c:204-361 | with or without an initrd, the load succeeds exactly when the tables are mapped and fit, workspace and payload fit the usable run and the initrd has a place, and otherwise reports the first test that fails; then all lies in usable RAM, initrd apart from payload and workspace, images in memory; other guest bytes keep their values |
| LinuxLoader.LoadKeeps | src/loader/linux_x86.c:260-361 | every byte outside the payload at 1 MiB, the initrd and the pages at 0x90000 and 0x9e000 keeps its value |
| LinuxLoader.OneBankBoots | src/loader/linux_x86.c:204-296 | on one bank from 0 up to at most 4 GiB a kernel that cannot be moved boots exactly when it prefers an address from 1 MiB on and workspace and payload end within the bank |
| LinuxLoader.TablesNeed | src/loader/linux_x86.c:260-270 | the pages at 0x90000 and 0x9e000 must be in writable RAM |
| LinuxLoader.InitrdPlaces | src/loader/linux_x86.c:240-243 | a place for the initrd is a multiple of 4096 below both limits and above workspace and payload |
| LinuxLoader.EntryShows | src/loader/linux_x86.c:86-88 | an entry of the memory map is the bank, usable unless read-only or reserved |
| LinuxLoader.BuildTable | src/loader/linux_x86.c:70-94 | every region once, ascending and disjoint, usable exactly when ordinary RAM; refused above 128 |

## Left out

- Accelerator, signal masks, CPUID and register setup: foreign calls and field copies.
- Logging, command line parsing, driver registries, ACPI and MP tables, PCI capability bytes: constant tables or pure I/O.
- Weak memory: fences and atomics are taken as sequentially consistent.
- VirtioBlk.BlkDevice.Notify: the guest's writes are a finite list, one entry per turn, and the call ends with it, because a guest can add chains for ever and the source promises no end; guest memory changes only between turns, not while a chain is being served.
- VirtioNet.NetDevice.Notify: the same list of guest writes and the same view of guest memory.
- Virtio device configuration space and feature bits offered by block and net: copies of constants.
- VirtioTransport.Mmio.Notify: what the device's handler does is a parameter; `MmioDisk` supplies it for the block device.
- VirtioTransport.Pci.Notify: what the device's handler does is a parameter.
- PciConfig.PciBus.WriteConfig: offsets from 0x40 on belong to the device's own handlers.
- PciConfig.PciBus.ReadConfig: the answer of a device's own handler from 0x40 on is a parameter.
- Intx.Bridge.Report: a 64-bit word of the bridge's bitsets is the set of its one bits.
- DeviceTree.Registry.Destroy: a device's stop hook and cleanup functions are taken not to change the device list or another device's pool.
- device_realize_locked and its rollback after a failed realize.
- Console.EveryByteArrives: the byte account is stated for runs without loopback writes, which mix guest bytes into the FIFO; that no host byte is dropped holds with them too.
- LinuxLoader.Load: the contents of the zero page and of the command line, about which nothing is said, and reading the image files.
- TapSource.ReadyIsCurrent: one source per service, as the TAP backend uses it; `PollService` has any number, without the I/O context.
- Liveness: that a run can always go on to a result (`EverythingRuns`, `ShutdownCompletes`, `JoinMakesProgress`) and bounded progress (`ReadsResume`) are stated, no fairness.
